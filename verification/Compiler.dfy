/**
 Compilation (custom_components/device_links/compiler.py): one rule's intent in, the links,
 settings and hybrid legs that express it out.

 A compilation accumulates what it decides. Every step is specified by what it adds to the
 accumulators, and a run by the sum of its steps.
 */
module Compiler {
  import opened Wrappers
  import opened Text
  import opened Orders
  import opened Models
  import opened Fingerprints

  // What callers owe: capabilities are keyed by identity, and every group is given or named by its control.

  ghost predicate Coherent(net: Network) {
    && (forall i | i in net :: net[i].handle.Identity() == i)
    && (forall i | i in net ::
      forall e | e in net[i].emitters :: forall f | f in e.actions :: GroupOf(e.emitterId, e.actions[f]) != "")
  }

  // Features and kinds in the order their names sort in.

  const FEATURES_BY_NAME := [Color, LevelHold, LevelSet, OnOff, Scene, StatusReport]
  const KINDS_BY_NAME := [ButtonLed, OffOnly, OnOnly, SelfLoad]

  function Those<T(==)>(s: set<T>, order: seq<T>): (r: seq<T>)
    ensures |r| <= |order|
  {
    if order == [] then [] else (if order[0] in s then [order[0]] else []) + Those(s, order[1..])
  }

  lemma {:induction false} ThoseAre<T>(s: set<T>, order: seq<T>, x: T)
    ensures x in Those(s, order) <==> x in s && x in order
  {
    if order != [] {
      ThoseAre(s, order[1..], x);
      assert order == [order[0]] + order[1..];
    }
  }

  function FeatureList(s: set<Feature>): (r: seq<Feature>) {
    Those(s, FEATURES_BY_NAME)
  }

  lemma FeatureListIs(s: set<Feature>)
    ensures forall f :: f in FeatureList(s) <==> f in s
  {
    forall f ensures f in FeatureList(s) <==> f in s {
      ThoseAre(s, FEATURES_BY_NAME, f);
      var place := match f
        case Color => 0 case LevelHold => 1 case LevelSet => 2 case OnOff => 3 case Scene => 4 case StatusReport => 5;
      assert FEATURES_BY_NAME[place] == f;
    }
  }

  function KindList(s: set<HybridKind>): (r: seq<HybridKind>) {
    Those(s, KINDS_BY_NAME)
  }

  function KindName(k: HybridKind): string {
    match k
    case OnOnly => "on_only"
    case OffOnly => "off_only"
    case SelfLoad => "self_load"
    case ButtonLed => "button_led"
  }

  function FeatureUnavailable(f: Feature): string {
    match f
    case OnOff => "feature_unavailable_on_off"
    case LevelSet => "feature_unavailable_level_set"
    case LevelHold => "feature_unavailable_level_hold"
    case Scene => "feature_unavailable_scene"
    case Color => "feature_unavailable_color"
    case StatusReport => "feature_unavailable_status_report"
  }

  function MirrorName(m: MirrorChoice): string {
    match m
    case MirrorOn => "on"
    case MirrorOff => "off"
    case MirrorLeave => "leave"
  }

  // Sums of decisions.

  const NOTHING := CompiledRule([], [], [], [], [])

  function Plus(a: CompiledRule, b: CompiledRule): CompiledRule {
    CompiledRule(a.links + b.links, a.settings + b.settings, a.hybridLegs + b.hybridLegs, a.warnings + b.warnings,
      a.errors + b.errors)
  }

  function Warn(d: Diagnostic): CompiledRule {
    NOTHING.(warnings := [d])
  }

  function Err(d: Diagnostic): CompiledRule {
    NOTHING.(errors := [d])
  }

  // Looking things up.

  function FindEmitter(emitters: seq<Emitter>, id: string): Option<Emitter> {
    if emitters == [] then None
    else if emitters[0].emitterId == id then Some(emitters[0])
    else FindEmitter(emitters[1..], id)
  }

  /** The device's first control that carries every one of these features. */
  function EmitterCarrying(emitters: seq<Emitter>, features: seq<Feature>): Option<Emitter> {
    if emitters == [] then None
    else if forall f | f in features :: f in emitters[0].actions then Some(emitters[0])
    else EmitterCarrying(emitters[1..], features)
  }

  /** The control device, when it is known and can be linked. */
  function SourceOf(rule: Rule, net: Network): Option<DeviceCapabilities> {
    var id := rule.source.device.Identity();
    if id in net && !net[id].isLongRange then Some(net[id]) else None
  }

  function SourceProblem(rule: Rule, net: Network): CompiledRule {
    var id := rule.source.device.Identity();
    if id !in net then Err(Diagnostic("unknown_device", map["device" := id]))
    else if net[id].isLongRange then
      Err(Diagnostic("source_is_long_range", map["device" := net[id].handle.nameAtAuthoring]))
    else NOTHING
  }

  /** The features a hybrid leg takes over from the native legs. */
  function Taken(rule: Rule): map<Feature, HybridKind> {
    (if OffOnly in rule.hybrid && OnOff in rule.features then map[OnOff := OffOnly]
     else if OnOnly in rule.hybrid && OnOff in rule.features then map[OnOff := OnOnly] else map[]) +
    (if ButtonLed in rule.hybrid && StatusReport in rule.features then map[StatusReport := ButtonLed] else map[])
  }

  /** The features the native legs still owe, and the ones of them the control carries. */
  function Owed(rule: Rule): set<Feature> {
    rule.features - Taken(rule).Keys
  }

  function Carried(rule: Rule, emitter: Emitter): set<Feature> {
    set f | f in Owed(rule) && f in emitter.actions
  }

  function UnavailableMessages(emitter: Emitter, features: seq<Feature>): seq<Diagnostic> {
    if features == [] then []
    else
      (if features[0] in emitter.actions then []
       else [Diagnostic(FeatureUnavailable(features[0]),
         map["feature" := FeatureName(features[0]), "emitter" := emitter.caption])]) +
      UnavailableMessages(emitter, features[1..])
  }

  /** What resolving the features against the control has to say. */
  function Resolution(rule: Rule, emitter: Emitter): CompiledRule {
    var unavailable := UnavailableMessages(emitter, FeatureList(Owed(rule)));
    var resolved := Carried(rule, emitter);
    Plus(if resolved != {} then NOTHING.(warnings := unavailable) else NOTHING.(errors := unavailable),
         if LevelHold in resolved && OnOff !in resolved && OnOff !in Taken(rule)
         then Warn(Diagnostic("level_hold_without_on_off", map["emitter" := emitter.caption])) else NOTHING)
  }

  // Targets.

  predicate IsSelf(rule: Rule, t: RuleTarget) {
    t.device.Identity() == rule.source.device.Identity()
  }

  predicate Usable(rule: Rule, net: Network, t: RuleTarget) {
    !IsSelf(rule, t) && t.device.Identity() in net && !net[t.device.Identity()].isLongRange
  }

  function TargetProblem(rule: Rule, net: Network, t: RuleTarget): CompiledRule {
    var id := t.device.Identity();
    if IsSelf(rule, t) then
      if SelfLoad in rule.hybrid then NOTHING
      else Err(Diagnostic("self_association_use_hybrid_leg", map["device" := t.device.nameAtAuthoring]))
    else if id !in net then Err(Diagnostic("unknown_device", map["device" := id]))
    else if net[id].isLongRange then
      Err(Diagnostic("target_is_long_range", map["device" := net[id].handle.nameAtAuthoring]))
    else NOTHING
  }

  function TargetProblems(rule: Rule, net: Network, ts: seq<RuleTarget>): CompiledRule {
    if ts == [] then NOTHING
    else Plus(TargetProblems(rule, net, ts[..|ts| - 1]), TargetProblem(rule, net, ts[|ts| - 1]))
  }

  function UsableTargets(rule: Rule, net: Network, ts: seq<RuleTarget>): (r: seq<RuleTarget>)
    ensures forall t :: t in r <==> t in ts && Usable(rule, net, t)
  {
    if ts == [] then []
    else
      var last := ts[|ts| - 1];
      assert ts == ts[..|ts| - 1] + [last];
      UsableTargets(rule, net, ts[..|ts| - 1]) + if Usable(rule, net, last) then [last] else []
  }

  // Legs.

  /** One direction of a rule: a control on one device driving one other device. */
  datatype Leg = Leg(
    writer: DeviceCapabilities,
    writerEndpoint: int,
    emitter: Emitter,
    receiver: DeviceCapabilities,
    receiverEndpoint: Option<int>)

  function EndpointFor(leg: Leg): Option<int> {
    if leg.receiverEndpoint.None? || leg.emitter.supportsEndpointTargets then leg.receiverEndpoint else None
  }

  function EndpointWarning(leg: Leg): CompiledRule {
    if leg.receiverEndpoint.None? || leg.emitter.supportsEndpointTargets then NOTHING
    else Warn(Diagnostic("multi_channel_downgrade",
      map["emitter" := leg.emitter.caption, "device" := leg.receiver.handle.nameAtAuthoring]))
  }

  function LinkOf(rule: Rule, leg: Leg, f: Feature): Link
    requires f in leg.emitter.actions
  {
    Link(rule.backend, leg.writer.handle, leg.writerEndpoint, leg.emitter.emitterId,
         LinkTarget(leg.receiver.handle, EndpointFor(leg)), f, GroupOf(leg.emitter.emitterId, leg.emitter.actions[f]),
         Some(rule.id))
  }

  function LegFeature(rule: Rule, leg: Leg, f: Feature): CompiledRule
    requires f in leg.emitter.actions
  {
    if f !in leg.receiver.receivable then
      Err(Diagnostic("target_cannot_receive",
        map["device" := leg.receiver.handle.nameAtAuthoring, "feature" := FeatureName(f)]))
    else Plus(EndpointWarning(leg), NOTHING.(links := [LinkOf(rule, leg, f)]))
  }

  /** One leg's link for each feature, or why there is none. */
  function LegOut(rule: Rule, leg: Leg, features: seq<Feature>): CompiledRule
    requires forall f | f in features :: f in leg.emitter.actions
  {
    if features == [] then NOTHING
    else
      var last := features[|features| - 1];
      assert last in features;
      Plus(LegOut(rule, leg, features[..|features| - 1]), LegFeature(rule, leg, last))
  }

  function ReverseEndpoint(rule: Rule, source: DeviceCapabilities): Option<int> {
    if source.receivingEndpoint.Some? then source.receivingEndpoint
    else if rule.source.endpoint == 0 then None
    else Some(rule.source.endpoint)
  }

  lemma EmitterCarryingCarries(emitters: seq<Emitter>, features: seq<Feature>)
    ensures EmitterCarrying(emitters, features).Some? ==>
      EmitterCarrying(emitters, features).value in emitters &&
      forall f | f in features :: f in EmitterCarrying(emitters, features).value.actions
  {
  }

  /** The other direction of a two-way rule, off one control on the target. */
  function ReverseOut(rule: Rule, source: DeviceCapabilities, target: DeviceCapabilities,
          features: seq<Feature>): CompiledRule {
    if rule.direction != TwoWay || features == [] then NOTHING
    else
      EmitterCarryingCarries(target.emitters, features);
      match EmitterCarrying(target.emitters, features)
      case None => Warn(Diagnostic("two_way_target_has_no_control", map["device" := target.handle.nameAtAuthoring]))
      case Some(e) => LegOut(rule, Leg(target, e.endpoint, e, source, ReverseEndpoint(rule, source)), features)
  }

  /** What one usable target adds: its forward leg, then its reverse one. */
  function TargetOut(rule: Rule, net: Network, source: DeviceCapabilities, emitter: Emitter,
          t: RuleTarget): CompiledRule
    requires t.device.Identity() in net
  {
    var receiver := net[t.device.Identity()];
    FeatureListIs(Carried(rule, emitter));
    Plus(LegOut(rule, Leg(source, rule.source.endpoint, emitter, receiver, t.endpoint),
      FeatureList(Carried(rule, emitter))),
         ReverseOut(rule, source, receiver, FeatureList(Carried(rule, emitter) + Taken(rule).Keys)))
  }

  function TargetsOut(rule: Rule, net: Network, source: DeviceCapabilities, emitter: Emitter,
          ts: seq<RuleTarget>): CompiledRule
    requires forall t | t in ts :: t.device.Identity() in net
  {
    if ts == [] then NOTHING
    else
      var last := ts[|ts| - 1];
      assert last in ts;
      Plus(TargetsOut(rule, net, source, emitter, ts[..|ts| - 1]), TargetOut(rule, net, source, emitter, last))
  }

  // Hybrid legs.

  function HybridOne(rule: Rule, kind: HybridKind, emitter: Emitter, f: Feature, target: LinkTarget): CompiledRule {
    if kind == ButtonLed && emitter.indicatorId.None? then
      Err(Diagnostic("hybrid_no_button_indication",
        map["emitter" := emitter.caption, "device" := rule.source.device.nameAtAuthoring]))
    else if kind != ButtonLed && emitter.sceneId.None? then
      Err(Diagnostic("hybrid_no_scene",
        map["emitter" := emitter.caption, "device" := rule.source.device.nameAtAuthoring]))
    else NOTHING.(hybridLegs :=
      [HybridLeg(rule.id, kind, rule.source.device, emitter.emitterId, f, target, emitter.sceneId,
        emitter.indicatorId)])
  }

  function HybridTargets(rule: Rule, kind: HybridKind, emitter: Emitter, f: Feature,
          ts: seq<RuleTarget>): CompiledRule {
    if ts == [] then NOTHING
    else
      var last := ts[|ts| - 1];
      Plus(HybridTargets(rule, kind, emitter, f, ts[..|ts| - 1]),
        HybridOne(rule, kind, emitter, f, LinkTarget(last.device, last.endpoint)))
  }

  function HybridTaken(rule: Rule, emitter: Emitter, f: Feature, kind: HybridKind, ts: seq<RuleTarget>): CompiledRule {
    if kind == ButtonLed && |ts| > 1 then
      Err(Diagnostic("hybrid_button_led_one_target", map["emitter" := emitter.caption, "count" := Decimal(|ts|)]))
    else HybridTargets(rule, kind, emitter, f, ts)
  }

  function HybridFeatures(rule: Rule, emitter: Emitter, fs: seq<Feature>, ts: seq<RuleTarget>): CompiledRule
    requires forall f | f in fs :: f in Taken(rule)
  {
    if fs == [] then NOTHING
    else
      var last := fs[|fs| - 1];
      assert last in fs;
      Plus(HybridFeatures(rule, emitter, fs[..|fs| - 1], ts), HybridTaken(rule, emitter, last, Taken(rule)[last], ts))
  }

  function SelfTargets(rule: Rule, ts: seq<RuleTarget>): seq<RuleTarget> {
    if ts == [] then []
    else SelfTargets(rule, ts[..|ts| - 1]) + if IsSelf(rule, ts[|ts| - 1]) then [ts[|ts| - 1]] else []
  }

  function SelfLoadLegs(rule: Rule, source: DeviceCapabilities, emitter: Emitter, ts: seq<RuleTarget>): CompiledRule {
    if ts == [] then NOTHING
    else
      var last := ts[|ts| - 1];
      var endpoint := if last.endpoint.None? then source.receivingEndpoint else last.endpoint;
      Plus(SelfLoadLegs(rule, source, emitter, ts[..|ts| - 1]),
        HybridOne(rule, SelfLoad, emitter, OnOff, LinkTarget(source.handle, endpoint)))
  }

  function SelfLoadOut(rule: Rule, source: DeviceCapabilities, emitter: Emitter): CompiledRule {
    var wanted := SelfTargets(rule, rule.targets);
    if wanted == [] then
      Warn(Diagnostic("hybrid_self_load_not_targeted", map["device" := source.handle.nameAtAuthoring]))
    else SelfLoadLegs(rule, source, emitter, wanted)
  }

  function UnusedOptIns(rule: Rule, kinds: seq<HybridKind>): CompiledRule {
    if kinds == [] then NOTHING
    else Plus(UnusedOptIns(rule, kinds[..|kinds| - 1]),
              Warn(Diagnostic("hybrid_opt_in_unused",
                map["kind" := KindName(kinds[|kinds| - 1]), "rule" := rule.name])))
  }

  /** The legs Home Assistant will carry, and the ones it cannot. `legs` says whether any leg came of it. */
  function HybridLegsOut(rule: Rule, source: DeviceCapabilities, emitter: Emitter, ts: seq<RuleTarget>): CompiledRule {
    FeatureListIs(Taken(rule).Keys);
    Plus(HybridFeatures(rule, emitter, FeatureList(Taken(rule).Keys), ts),
         if SelfLoad in rule.hybrid then SelfLoadOut(rule, source, emitter) else NOTHING)
  }

  function HybridOut(rule: Rule, source: DeviceCapabilities, emitter: Emitter, ts: seq<RuleTarget>): CompiledRule {
    if rule.hybrid == {} then NOTHING
    else
      var legs := HybridLegsOut(rule, source, emitter, ts);
      Plus(Plus(legs, UnusedOptIns(rule, KindList(rule.hybrid - Taken(rule).Values - {SelfLoad}))),
           if legs.hybridLegs != [] && rule.direction == TwoWay && OnOff in Taken(rule)
           then Warn(Diagnostic("hybrid_reverse_carries_both", map["emitter" := emitter.caption])) else NOTHING)
  }

  // The rest.

  function SemanticsOut(rule: Rule, source: DeviceCapabilities, emitter: Emitter, legs: seq<HybridLeg>): CompiledRule {
    var about := map["emitter" := emitter.caption, "device" := source.handle.nameAtAuthoring];
    if !emitter.semanticsUnknown then NOTHING
    else Plus(if rule.template == OffAll then Warn(Diagnostic("button_semantics_unknown", about)) else NOTHING,
              if exists l | l in legs :: l.kind != ButtonLed then Warn(Diagnostic("hybrid_scene_unverified", about))
              else NOTHING)
  }

  function MirrorOut(rule: Rule, source: DeviceCapabilities): CompiledRule {
    if rule.mirrorSource == MirrorLeave then NOTHING
    else if MIRROR_CAPABILITY in source.settings &&
      MirrorName(rule.mirrorSource) in source.settings[MIRROR_CAPABILITY].values then
      var adapter := source.settings[MIRROR_CAPABILITY];
      NOTHING.(settings :=
        [SettingWrite(source.handle, MIRROR_CAPABILITY, adapter.parameter, adapter.bitmask,
          adapter.values[MirrorName(rule.mirrorSource)])])
    else Warn(Diagnostic("settings_not_available",
              map["device" := source.handle.nameAtAuthoring, "setting" := MIRROR_CAPABILITY,
                "choice" := MirrorName(rule.mirrorSource)]))
  }

  // The whole compilation.

  /** Everything a rule decides, in the order it is decided, before sorting. */
  function Decided(rule: Rule, net: Network): CompiledRule {
    match SourceOf(rule, net)
    case None => SourceProblem(rule, net)
    case Some(source) =>
      match FindEmitter(source.emitters, rule.source.emitterId)
      case None => Err(Diagnostic("unknown_emitter",
        map["emitter" := rule.source.emitterId, "device" := source.handle.nameAtAuthoring]))
      case Some(emitter) =>
        var usable := UsableTargets(rule, net, rule.targets);
        var links := Plus(Plus(Resolution(rule, emitter), TargetProblems(rule, net, rule.targets)),
          TargetsOut(rule, net, source, emitter, usable));
        var hybrid := HybridOut(rule, source, emitter, usable);
        Plus(Plus(Plus(links, hybrid), SemanticsOut(rule, source, emitter, hybrid.hybridLegs)), MirrorOut(rule, source))
  }

  function LinkKey(l: Link): seq<string> {
    [l.target.handle.Identity(), FeatureName(l.feature), Fingerprint(l)]
  }

  /** A leg's identity, which does not carry its rule. */
  function LegIdentity(l: HybridLeg): string {
    JoinEscaped([KindName(l.kind), l.source.Identity(), l.emitterId, FeatureName(l.feature),
                 l.target.handle.Identity(), EndpointText(l.target.endpoint)])
  }

  /** These messages in order, each distinct one once. */
  function OnceEach(ds: seq<Diagnostic>): (r: seq<Diagnostic>)
    ensures forall d :: d in r <==> d in ds
    ensures forall i, j | 0 <= i < j < |r| :: r[i] != r[j]
  {
    if ds == [] then []
    else
      var front := OnceEach(ds[..|ds| - 1]);
      assert ds == ds[..|ds| - 1] + [ds[|ds| - 1]];
      if ds[|ds| - 1] in front then front else front + [ds[|ds| - 1]]
  }

  function Frozen(out: CompiledRule): CompiledRule {
    StringLessIsTotal();
    WordsLessIsTotal();
    CompiledRule(SortBy(WordsLess, LinkKey, out.links), out.settings, SortBy(StringLess, LegIdentity, out.hybridLegs),
                 OnceEach(out.warnings), OnceEach(out.errors))
  }

  /** One rule against the devices as they are. A disabled rule compiles to nothing. */
  function Compile(rule: Rule, net: Network): CompiledRule {
    if !rule.enabled then NOTHING else Frozen(Decided(rule, net))
  }
}
