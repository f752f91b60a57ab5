/**
 A profile as plain data (custom_components/device_links/yaml_io.py): what storage keeps and an
 export writes, and how either is read back.

 The text of a message is not modelled, only what was wrong: with the file as a whole, or with
 which of its rules.
 */
module ProfileData {
  import opened Wrappers
  import opened Models
  import opened Compiler

  /** Everything a YAML or JSON file can yield, with text keys. */
  datatype Data =
    | Null | Flag(b: bool) | Whole(n: int) | Text(s: string)
    | List(items: seq<Data>) | Mapping(fields: map<string, Data>)

  datatype FormatError = BadFile | BadRules(which: seq<nat>)

  // Narrowing.

  function Get(fields: map<string, Data>, key: string): Data {
    if key in fields then fields[key] else Null
  }

  function GetOr(fields: map<string, Data>, key: string, default: Data): Data {
    if key in fields then fields[key] else default
  }

  function AsMapping(d: Data): Option<map<string, Data>> {
    if d.Mapping? then Some(d.fields) else None
  }

  function AsList(d: Data): Option<seq<Data>> {
    if d.List? then Some(d.items) else None
  }

  function AsText(d: Data): Option<string> {
    if d.Text? then Some(d.s) else None
  }

  function AsWhole(d: Data): Option<int> {
    if d.Whole? then Some(d.n) else None
  }

  function AsFlag(d: Data): Option<bool> {
    if d.Flag? then Some(d.b) else None
  }

  /** A number, or nothing where the file says nothing. */
  function AsEndpoint(d: Data): Option<Option<int>> {
    if d.Null? then Some(None) else if d.Whole? then Some(Some(d.n)) else None
  }

  // Names.

  function TemplateName(t: Template): string {
    match t
    case Remote => "remote"
    case Virtual3Way => "virtual_3way"
    case SceneButton => "scene_button"
    case OffAll => "off_all"
    case StatusFeedback => "status_feedback"
    case Custom => "custom"
  }

  function DirectionName(d: Direction): string {
    match d
    case OneWay => "one_way"
    case TwoWay => "two_way"
  }

  function BackendNamed(s: string): Option<Backend> {
    if s == "zwave" then Some(Zwave) else if s == "zigbee2mqtt" then Some(Zigbee2Mqtt)
    else if s == "matter" then Some(Matter) else None
  }

  function FeatureNamed(s: string): Option<Feature> {
    if s == "on_off" then Some(OnOff) else if s == "level_set" then Some(LevelSet)
    else if s == "level_hold" then Some(LevelHold) else if s == "scene" then Some(Scene)
    else if s == "color" then Some(Color) else if s == "status_report" then Some(StatusReport) else None
  }

  function TemplateNamed(s: string): Option<Template> {
    if s == "remote" then Some(Remote) else if s == "virtual_3way" then Some(Virtual3Way)
    else if s == "scene_button" then Some(SceneButton) else if s == "off_all" then Some(OffAll)
    else if s == "status_feedback" then Some(StatusFeedback) else if s == "custom" then Some(Custom) else None
  }

  function DirectionNamed(s: string): Option<Direction> {
    if s == "one_way" then Some(OneWay) else if s == "two_way" then Some(TwoWay) else None
  }

  function MirrorNamed(s: string): Option<MirrorChoice> {
    if s == "on" then Some(MirrorOn) else if s == "off" then Some(MirrorOff)
    else if s == "leave" then Some(MirrorLeave) else None
  }

  function KindNamed(s: string): Option<HybridKind> {
    if s == "on_only" then Some(OnOnly) else if s == "off_only" then Some(OffOnly)
    else if s == "self_load" then Some(SelfLoad) else if s == "button_led" then Some(ButtonLed) else None
  }

  // Writing.

  function FingerprintToData(f: ModelFingerprint): Data {
    match f
    case ZwaveModel(m, t, p, w) =>
      Mapping(map["manufacturer_id" := Whole(m), "product_type" := Whole(t), "product_id" := Whole(p),
        "firmware" := Text(w)])
    case ZigbeeModel(m, n) => Mapping(map["manufacturer" := Text(m), "model" := Text(n)])
    case MatterModel(v, p) => Mapping(map["vendor" := Text(v), "product" := Text(p)])
  }

  function DeviceToData(h: DeviceHandle, keepLocalIds: bool): Data {
    var fields := map["backend" := Text(BackendName(h.backend)), "protocol_id" := Text(h.protocolId),
                      "name" := Text(h.nameAtAuthoring), "fingerprint" := FingerprintToData(h.fingerprint)];
    Mapping(if keepLocalIds then fields["ha_device_id" := Text(h.haDeviceId)] else fields)
  }

  function EndpointToData(e: Option<int>): Data {
    if e.None? then Null else Whole(e.value)
  }

  function TargetToData(t: RuleTarget): Data {
    Mapping(map["device" := Text(t.device.Identity()), "endpoint" := EndpointToData(t.endpoint)])
  }

  function SourceToData(s: RuleSource): Data {
    Mapping(map["device" := Text(s.device.Identity()), "endpoint" := Whole(s.endpoint),
      "emitter_id" := Text(s.emitterId)])
  }

  function FeaturesToData(fs: seq<Feature>): seq<Data> {
    seq(|fs|, i requires 0 <= i < |fs| => Text(FeatureName(fs[i])))
  }

  function KindsToData(ks: seq<HybridKind>): seq<Data> {
    seq(|ks|, i requires 0 <= i < |ks| => Text(KindName(ks[i])))
  }

  function TargetsToData(ts: seq<RuleTarget>): seq<Data> {
    seq(|ts|, i requires 0 <= i < |ts| => TargetToData(ts[i]))
  }

  function RuleToData(r: Rule): Data {
    Mapping(map[
      "id" := Text(r.id), "name" := Text(r.name), "template" := Text(TemplateName(r.template)),
      "backend" := Text(BackendName(r.backend)), "enabled" := Flag(r.enabled),
      "direction" := Text(DirectionName(r.direction)), "mirror_source" := Text(MirrorName(r.mirrorSource)),
      "features" := List(FeaturesToData(FeatureList(r.features))), "hybrid" := List(KindsToData(KindList(r.hybrid))),
      "source" := SourceToData(r.source), "targets" := List(TargetsToData(r.targets))])
  }

  /** Every handle the profile mentions, in the order the rules mention them. */
  function HandlesOf(rules: seq<Rule>): seq<DeviceHandle> {
    if rules == [] then []
    else
      var last := rules[|rules| - 1];
      HandlesOf(rules[..|rules| - 1]) + [last.source.device] +
        seq(|last.targets|, i requires 0 <= i < |last.targets| => last.targets[i].device)
  }

  /** Each device under its identity, as it was first mentioned. */
  function DevicesToData(handles: seq<DeviceHandle>, keepLocalIds: bool): map<string, Data> {
    if handles == [] then map[]
    else
      var front, last := DevicesToData(handles[..|handles| - 1], keepLocalIds), handles[|handles| - 1];
      if last.Identity() in front then front else front[last.Identity() := DeviceToData(last, keepLocalIds)]
  }

  function RulesToData(rules: seq<Rule>): seq<Data> {
    seq(|rules|, i requires 0 <= i < |rules| => RuleToData(rules[i]))
  }

  function ProfileToData(p: Profile, keepLocalIds: bool): Data {
    Mapping(map["id" := Text(p.id), "name" := Text(p.name),
                "devices" := Mapping(DevicesToData(HandlesOf(p.rules), keepLocalIds)),
                "rules" := List(RulesToData(p.rules))])
  }

  // Reading.

  function FingerprintFromData(b: Backend, d: Data): Option<ModelFingerprint> {
    match AsMapping(d)
    case None => None
    case Some(fields) =>
      match b
      case Zwave =>
        var m, t, p, w := AsWhole(Get(fields, "manufacturer_id")), AsWhole(Get(fields, "product_type")),
          AsWhole(Get(fields, "product_id")), AsText(Get(fields, "firmware"));
        if m.Some? && t.Some? && p.Some? && w.Some? then Some(ZwaveModel(m.value, t.value, p.value, w.value)) else None
      case Zigbee2Mqtt =>
        var m, n := AsText(Get(fields, "manufacturer")), AsText(Get(fields, "model"));
        if m.Some? && n.Some? then Some(ZigbeeModel(m.value, n.value)) else None
      case Matter =>
        var v, p := AsText(Get(fields, "vendor")), AsText(Get(fields, "product"));
        if v.Some? && p.Some? then Some(MatterModel(v.value, p.value)) else None
  }

  function BackendFromData(d: Data): Option<Backend> {
    if d.Text? then BackendNamed(d.s) else None
  }

  function DeviceFromData(d: Data): Option<DeviceHandle> {
    match AsMapping(d)
    case None => None
    case Some(fields) =>
      match BackendFromData(Get(fields, "backend"))
      case None => None
      case Some(b) =>
        var address, local := AsText(Get(fields, "protocol_id")), AsText(GetOr(fields, "ha_device_id", Text("")));
        var model, name := FingerprintFromData(b, Get(fields, "fingerprint")), AsText(GetOr(fields, "name", Text("")));
        if address.Some? && local.Some? && model.Some? && name.Some? then
          Some(DeviceHandle(b, address.value, local.value, model.value, name.value))
        else None
  }

  predicate FiledRight(id: string, d: Data) {
    DeviceFromData(d).Some? && DeviceFromData(d).value.Identity() == id
  }

  /** The devices a file describes, each under the identity it says it has. */
  function DevicesFromData(d: Data): Option<map<string, DeviceHandle>> {
    match AsMapping(d)
    case None => None
    case Some(entries) =>
      if forall id | id in entries :: FiledRight(id, entries[id]) then
        Some(map id | id in entries :: DeviceFromData(entries[id]).value)
      else None
  }

  function DeviceOf(d: Data, devices: map<string, DeviceHandle>): Option<DeviceHandle> {
    if d.Text? && d.s in devices then Some(devices[d.s]) else None
  }

  function TargetFromData(d: Data, devices: map<string, DeviceHandle>): Option<RuleTarget> {
    match AsMapping(d)
    case None => None
    case Some(fields) =>
      var device, endpoint := DeviceOf(Get(fields, "device"), devices), AsEndpoint(Get(fields, "endpoint"));
      if device.Some? && endpoint.Some? then Some(RuleTarget(device.value, endpoint.value)) else None
  }

  function TargetsFromData(ds: seq<Data>, devices: map<string, DeviceHandle>): Option<seq<RuleTarget>> {
    if ds == [] then Some([])
    else
      var front, last := TargetsFromData(ds[..|ds| - 1], devices), TargetFromData(ds[|ds| - 1], devices);
      if front.Some? && last.Some? then Some(front.value + [last.value]) else None
  }

  function SourceFromData(d: Data, devices: map<string, DeviceHandle>): Option<RuleSource> {
    match AsMapping(d)
    case None => None
    case Some(fields) =>
      var device, endpoint := DeviceOf(Get(fields, "device"), devices), AsWhole(Get(fields, "endpoint"));
      var emitter := AsText(Get(fields, "emitter_id"));
      if device.Some? && endpoint.Some? && emitter.Some? then
        Some(RuleSource(device.value, endpoint.value, emitter.value))
      else None
  }

  function FeaturesFromData(ds: seq<Data>): Option<set<Feature>> {
    if ds == [] then Some({})
    else
      var front, last := FeaturesFromData(ds[..|ds| - 1]), ds[|ds| - 1];
      if front.Some? && last.Text? && FeatureNamed(last.s).Some? then Some(front.value + {FeatureNamed(last.s).value})
      else None
  }

  function KindsFromData(ds: seq<Data>): Option<set<HybridKind>> {
    if ds == [] then Some({})
    else
      var front, last := KindsFromData(ds[..|ds| - 1]), ds[|ds| - 1];
      if front.Some? && last.Text? && KindNamed(last.s).Some? then Some(front.value + {KindNamed(last.s).value})
      else None
  }

  function Named<T>(d: Data, named: string -> Option<T>): Option<T> {
    if d.Text? then named(d.s) else None
  }

  function RuleFromFields(fields: map<string, Data>, devices: map<string, DeviceHandle>): Option<Rule> {
    var targets, features := AsList(Get(fields, "targets")), AsList(Get(fields, "features"));
    var hybrid := AsList(GetOr(fields, "hybrid", List([])));
    if targets.None? || targets.value == [] || features.None? || features.value == [] || hybrid.None? then None
    else
      var id, name := AsText(Get(fields, "id")), AsText(Get(fields, "name"));
      var template, backend :=
        Named(Get(fields, "template"), TemplateNamed), Named(Get(fields, "backend"), BackendNamed);
      var direction, mirror :=
        Named(Get(fields, "direction"), DirectionNamed), Named(Get(fields, "mirror_source"), MirrorNamed);
      var source, ts := SourceFromData(Get(fields, "source"), devices), TargetsFromData(targets.value, devices);
      var fs, ks := FeaturesFromData(features.value), KindsFromData(hybrid.value);
      var enabled := AsFlag(Get(fields, "enabled"));
      if id.Some? && name.Some? && template.Some? && backend.Some? && direction.Some? && mirror.Some? && source.Some? &&
        ts.Some? && fs.Some? && ks.Some? && enabled.Some? then
        Some(Rule(id.value, name.value, template.value, backend.value, source.value, ts.value, fs.value,
          direction.value, mirror.value, enabled.value, ks.value))
      else None
  }

  /** The rule this data describes, if it is one a rule may be. */
  function RuleFromData(d: Data, devices: map<string, DeviceHandle>): Option<Rule> {
    match AsMapping(d)
    case None => None
    case Some(fields) =>
      match RuleFromFields(fields, devices)
      case None => None
      case Some(r) => if r.Valid() then Some(r) else None
  }

  function RulesFromData(ds: seq<Data>, devices: map<string, DeviceHandle>): seq<Rule> {
    if ds == [] then []
    else
      var last := RuleFromData(ds[|ds| - 1], devices);
      RulesFromData(ds[..|ds| - 1], devices) + if last.Some? then [last.value] else []
  }

  function BadIn(ds: seq<Data>, devices: map<string, DeviceHandle>): seq<nat> {
    if ds == [] then []
    else BadIn(ds[..|ds| - 1], devices) + if RuleFromData(ds[|ds| - 1], devices).None? then [|ds| - 1] else []
  }

  function ProfileFromData(d: Data): Result<Profile, FormatError> {
    match AsMapping(d)
    case None => Failure(BadFile)
    case Some(payload) =>
      var devices, list := DevicesFromData(Get(payload, "devices")), AsList(Get(payload, "rules"));
      if devices.None? || list.None? then Failure(BadFile)
      else if BadIn(list.value, devices.value) != [] then Failure(BadRules(BadIn(list.value, devices.value)))
      else
        var id, name := AsText(Get(payload, "id")), AsText(Get(payload, "name"));
        if id.None? || name.None? then Failure(BadFile)
        else
          var p := Profile(id.value, name.value, RulesFromData(list.value, devices.value));
          if p.Valid() then Success(p) else Failure(BadFile)
  }

  // The program's loops.

  method WriteDevices(handles: seq<DeviceHandle>, keepLocalIds: bool) returns (devices: map<string, Data>)
    ensures devices == DevicesToData(handles, keepLocalIds)
  {
    hide DeviceToData;
    devices := map[];
    for i := 0 to |handles|
      invariant devices == DevicesToData(handles[..i], keepLocalIds)
    {
      assert handles[..i + 1][..i] == handles[..i];
      if handles[i].Identity() !in devices {
        devices := devices[handles[i].Identity() := DeviceToData(handles[i], keepLocalIds)];
      }
    }
    assert handles[..|handles|] == handles;
  }

  /** Writes a profile: every device once, then its rules. */
  method WriteProfile(p: Profile, keepLocalIds: bool) returns (d: Data)
    ensures d == ProfileToData(p, keepLocalIds)
  {
    var devices := WriteDevices(HandlesOf(p.rules), keepLocalIds);
    d := Mapping(map["id" := Text(p.id), "name" := Text(p.name), "devices" := Mapping(devices),
      "rules" := List(RulesToData(p.rules))]);
  }

  method ReadDevices(d: Data) returns (devices: Option<map<string, DeviceHandle>>)
    ensures devices == DevicesFromData(d)
  {
    hide FiledRight;
    hide DeviceFromData;
    if !d.Mapping? {
      return None;
    }
    var found, todo := map[], d.fields.Keys;
    while todo != {}
      invariant todo <= d.fields.Keys && found.Keys == d.fields.Keys - todo
      invariant forall id | id in found ::
        FiledRight(id, d.fields[id]) && DeviceFromData(d.fields[id]) == Some(found[id])
      decreases |todo|
    {
      var id :| id in todo;
      var handle := ReadDevice(id, d.fields[id]);
      if handle.None? {
        return None;
      }
      found := found[id := handle.value];
      todo := todo - {id};
    }
    assert found == map id | id in d.fields :: DeviceFromData(d.fields[id]).value;
    devices := Some(found);
  }

  /** One device, or nothing when it is filed under an address it disagrees with. */
  method ReadDevice(id: string, d: Data) returns (handle: Option<DeviceHandle>)
    ensures handle.Some? <==> FiledRight(id, d)
    ensures handle.Some? ==> DeviceFromData(d) == handle
  {
    hide DeviceFromData;
    handle := DeviceFromData(d);
    if handle.Some? && handle.value.Identity() != id {
      handle := None;
    }
  }

  /** Reads a profile, collecting every rule that cannot be read before giving up. */
  method ReadProfile(d: Data) returns (result: Result<Profile, FormatError>)
    ensures result == ProfileFromData(d)
  {
    hide RuleFromData;
    hide DevicesFromData;
    hide Rule.Valid;
    if !d.Mapping? {
      return Failure(BadFile);
    }
    var devices := ReadDevices(Get(d.fields, "devices"));
    var list := AsList(Get(d.fields, "rules"));
    if devices.None? || list.None? {
      return Failure(BadFile);
    }
    var rules: seq<Rule>, problems: seq<nat> := [], [];
    for i := 0 to |list.value|
      invariant rules == RulesFromData(list.value[..i], devices.value)
      invariant problems == BadIn(list.value[..i], devices.value)
    {
      assert list.value[..i + 1][..i] == list.value[..i];
      var rule := RuleFromData(list.value[i], devices.value);
      if rule.Some? {
        rules := rules + [rule.value];
      } else {
        problems := problems + [i];
      }
    }
    assert list.value[..|list.value|] == list.value;
    if problems != [] {
      return Failure(BadRules(problems));
    }
    var id, name := AsText(Get(d.fields, "id")), AsText(Get(d.fields, "name"));
    if id.None? || name.None? {
      return Failure(BadFile);
    }
    var profile := Profile(id.value, name.value, rules);
    result := if profile.Valid() then Success(profile) else Failure(BadFile);
  }
}
