/**
 The value types every layer shares: devices, links, rules, plans.

 A set of features or kinds stands for a `frozenset`, a `map` for a `Mapping`, a `seq` for a
 tuple. Every type is a frozen value in the program and is a datatype here.
 */
module Models {
  import opened Wrappers
  import opened Text

  // Devices.

  datatype Backend = Zwave | Zigbee2Mqtt | Matter

  function BackendName(b: Backend): string {
    match b
    case Zwave => "zwave"
    case Zigbee2Mqtt => "zigbee2mqtt"
    case Matter => "matter"
  }

  datatype ModelFingerprint =
    | ZwaveModel(manufacturerId: int, productType: int, productId: int, firmware: string)
    | ZigbeeModel(manufacturer: string, model: string)
    | MatterModel(vendor: string, product: string)
  {
    /** What identifies the model, without the firmware it runs. */
    function ModelKey(): seq<string> {
      match this
      case ZwaveModel(m, t, p, _) => [Decimal(m), Decimal(t), Decimal(p)]
      case ZigbeeModel(m, n) => [m, n]
      case MatterModel(v, p) => [v, p]
    }
  }

  datatype DeviceHandle = DeviceHandle(
    backend: Backend,
    protocolId: string,
    haDeviceId: string,
    fingerprint: ModelFingerprint,
    nameAtAuthoring: string)
  {
    function Identity(): string {
      BackendName(backend) + ":" + protocolId
    }
  }

  /** A device's identity is its backend and its address, and nothing else. */
  lemma IdentityIsBackendAndAddress(a: DeviceHandle, b: DeviceHandle)
    ensures a.Identity() == b.Identity() <==> a.backend == b.backend && a.protocolId == b.protocolId
  {
    if a.Identity() == b.Identity() {
      var x, y := BackendName(a.backend), BackendName(b.backend);
      assert a.Identity() == x + [':'] + a.protocolId && b.Identity() == y + [':'] + b.protocolId;
      FirstPart(':', x, y, a.protocolId, b.protocolId);
      assert x[0] == y[0] && |x| == |y|;
    }
  }

  // Links.

  datatype Feature = OnOff | LevelSet | LevelHold | Scene | Color | StatusReport

  function FeatureName(f: Feature): string {
    match f
    case OnOff => "on_off"
    case LevelSet => "level_set"
    case LevelHold => "level_hold"
    case Scene => "scene"
    case Color => "color"
    case StatusReport => "status_report"
  }

  lemma FeatureNameInjective(a: Feature, b: Feature)
    requires FeatureName(a) == FeatureName(b)
    ensures a == b
  {
    assert |FeatureName(a)| == |FeatureName(b)|;
    assert FeatureName(a)[0] == FeatureName(b)[0];
  }

  datatype LinkTarget = LinkTarget(handle: DeviceHandle, endpoint: Option<int>)

  datatype Link = Link(
    backend: Backend,
    source: DeviceHandle,
    sourceEndpoint: int,
    emitterId: string,
    target: LinkTarget,
    feature: Feature,
    emitterGroup: string,
    ruleId: Option<string>)

  /** The group a control named after a single group uses: "g7", or a bare "7". */
  function SingleGroupOf(emitterId: string): Option<string> {
    var digits := if emitterId != "" && emitterId[0] == 'g' then emitterId[1..] else emitterId;
    if digits != "" && forall c | c in digits :: IsDigit(c) then Some(digits) else None
  }

  /** The group a link is written to: the one given, or the one its control is named after. */
  function GroupOf(emitterId: string, given: string): string {
    if given != "" then given else SingleGroupOf(emitterId).GetOr("")
  }

  function EndpointText(endpoint: Option<int>): string {
    match endpoint
    case None => ""
    case Some(n) => Decimal(n)
  }

  /** The seven fields a link's identity is made of, as text and in order. */
  function IdentityFields(l: Link): (f: seq<string>)
    ensures |f| == 7
  {
    [BackendName(l.backend), l.source.Identity(), Decimal(l.sourceEndpoint), l.emitterGroup,
     l.target.handle.Identity(), EndpointText(l.target.endpoint), FeatureName(l.feature)]
  }

  /** An observed entry: a link read back from a device, and who (if anyone) owns it. */
  datatype ObservedLink = ObservedLink(link: Link, isSystem: bool, managedBy: Option<string>)

  // Capabilities.

  datatype Emitter = Emitter(
    emitterId: string,
    caption: string,
    endpoint: int,
    groupIds: seq<string>,
    actions: map<Feature, string>,
    capacity: int,
    supportsEndpointTargets: bool,
    semanticsUnknown: bool,
    sceneId: Option<int>,
    indicatorId: Option<int>)

  datatype SettingsAdapter = SettingsAdapter(parameter: int, bitmask: Option<int>, values: map<string, int>)

  datatype DeviceCapabilities = DeviceCapabilities(
    handle: DeviceHandle,
    emitters: seq<Emitter>,
    receivable: set<Feature>,
    isLongRange: bool,
    settings: map<string, SettingsAdapter>,
    receivingEndpoint: Option<int>)

  type Network = map<string, DeviceCapabilities>

  // Rules.

  datatype Template = Remote | Virtual3Way | SceneButton | OffAll | StatusFeedback | Custom

  datatype Direction = OneWay | TwoWay

  datatype MirrorChoice = MirrorOn | MirrorOff | MirrorLeave

  datatype HybridKind = OnOnly | OffOnly | SelfLoad | ButtonLed

  datatype RuleSource = RuleSource(device: DeviceHandle, endpoint: int, emitterId: string)

  datatype RuleTarget = RuleTarget(device: DeviceHandle, endpoint: Option<int>)

  datatype Rule = Rule(
    id: string,
    name: string,
    template: Template,
    backend: Backend,
    source: RuleSource,
    targets: seq<RuleTarget>,
    features: set<Feature>,
    direction: Direction,
    mirrorSource: MirrorChoice,
    enabled: bool,
    hybrid: set<HybridKind>)
  {
    /** What the constructor checks: a rule that could never compile cannot be stored. */
    predicate Valid() {
      && targets != []
      && features != {}
      && !(OnOnly in hybrid && OffOnly in hybrid)
      && (forall i, j | 0 <= i < j < |targets| :: targets[i] != targets[j])
    }

    function WithEnabled(on: bool): Rule {
      this.(enabled := on)
    }
  }

  datatype Profile = Profile(id: string, name: string, rules: seq<Rule>)
  {
    predicate Valid() {
      && (forall i | 0 <= i < |rules| :: rules[i].Valid())
      && (forall i, j | 0 <= i < j < |rules| :: rules[i].id != rules[j].id)
    }
  }

  // What the user is told.

  datatype Diagnostic = Diagnostic(key: string, placeholders: map<string, string>)

  datatype SettingWrite = SettingWrite(
    device: DeviceHandle, capability: string, parameter: int, bitmask: Option<int>, value: int)

  datatype HybridLeg = HybridLeg(
    ruleId: string,
    kind: HybridKind,
    source: DeviceHandle,
    emitterId: string,
    feature: Feature,
    target: LinkTarget,
    sceneId: Option<int>,
    indicatorId: Option<int>)

  /** What one rule compiles to. */
  datatype CompiledRule = CompiledRule(
    links: seq<Link>,
    settings: seq<SettingWrite>,
    hybridLegs: seq<HybridLeg>,
    warnings: seq<Diagnostic>,
    errors: seq<Diagnostic>)

  /** The setting that makes a device repeat what it receives. */
  const MIRROR_CAPABILITY := "mirror_hub_commands"

  // Plans.

  datatype PlanOp = AddOp | RemoveOp | SetParamOp | BlockedOp | PendingOp

  /** What a plan item is about: nothing, a wanted link, or an entry as it was observed. */
  datatype ItemLink = NoLink | Wanted(link: Link) | Found(entry: ObservedLink)
  {
    function TheLink(): Link
      requires !NoLink?
    {
      match this
      case Wanted(l) => l
      case Found(e) => e.link
    }
  }

  datatype PlanItem = PlanItem(op: PlanOp, device: string, about: ItemLink, reason: Option<Diagnostic>)

  datatype Plan = Plan(
    token: string, items: seq<PlanItem>, unmanaged: seq<ObservedLink>, unchangedCount: nat)
}
