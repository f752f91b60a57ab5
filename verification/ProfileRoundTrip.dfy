/** Writing a profile and reading it back. */
module ProfileRoundTrip {
  import opened Wrappers
  import opened Models
  import opened Compiler
  import opened ProfileData

  // Names read back.

  lemma NamesReadBack(b: Backend, f: Feature, t: Template, d: Direction, m: MirrorChoice, k: HybridKind)
    ensures BackendNamed(BackendName(b)) == Some(b)
    ensures FeatureNamed(FeatureName(f)) == Some(f)
    ensures TemplateNamed(TemplateName(t)) == Some(t)
    ensures DirectionNamed(DirectionName(d)) == Some(d)
    ensures MirrorNamed(MirrorName(m)) == Some(m)
    ensures KindNamed(KindName(k)) == Some(k)
  {
    assert "color"[0] != "scene"[0];
    assert "custom"[0] != "remote"[0] && "virtual_3way"[0] != "scene_button"[0];
    assert "one_way"[0] != "two_way"[0];
  }

  lemma KindListIs(s: set<HybridKind>)
    ensures forall k :: k in KindList(s) <==> k in s
  {
    forall k ensures k in KindList(s) <==> k in s {
      ThoseAre(s, KINDS_BY_NAME, k);
      var place := match k case ButtonLed => 0 case OffOnly => 1 case OnOnly => 2 case SelfLoad => 3;
      assert KINDS_BY_NAME[place] == k;
    }
  }

  lemma {:induction false} FeaturesReadBack(fs: seq<Feature>)
    ensures FeaturesFromData(FeaturesToData(fs)) == Some(set f | f in fs)
  {
    if fs != [] {
      var front, last := fs[..|fs| - 1], fs[|fs| - 1];
      FeaturesReadBack(front);
      NamesReadBack(Zwave, last, Remote, OneWay, MirrorOn, OnOnly);
      assert FeaturesToData(fs)[..|fs| - 1] == FeaturesToData(front);
      assert (set f | f in fs) == (set f | f in front) + {last} by {
        assert fs == front + [last];
      }
    } else {
      assert (set f | f in fs) == {};
    }
  }

  lemma {:induction false} KindsReadBack(ks: seq<HybridKind>)
    ensures KindsFromData(KindsToData(ks)) == Some(set k | k in ks)
  {
    if ks != [] {
      var front, last := ks[..|ks| - 1], ks[|ks| - 1];
      KindsReadBack(front);
      NamesReadBack(Zwave, OnOff, Remote, OneWay, MirrorOn, last);
      assert KindsToData(ks)[..|ks| - 1] == KindsToData(front);
      assert (set k | k in ks) == (set k | k in front) + {last} by {
        assert ks == front + [last];
      }
    } else {
      assert (set k | k in ks) == {};
    }
  }

  // Devices read back.

  /** A device's model is described the way its protocol describes models. */
  predicate ModelFits(h: DeviceHandle) {
    match h.backend
    case Zwave => h.fingerprint.ZwaveModel?
    case Zigbee2Mqtt => h.fingerprint.ZigbeeModel?
    case Matter => h.fingerprint.MatterModel?
  }

  /** The device as a file without local ids describes it. */
  function Forgotten(h: DeviceHandle, keepLocalIds: bool): DeviceHandle {
    if keepLocalIds then h else h.(haDeviceId := "")
  }

  lemma ModelReadsBack(h: DeviceHandle)
    ensures ModelFits(h) ==> FingerprintFromData(h.backend, FingerprintToData(h.fingerprint)) == Some(h.fingerprint)
    ensures !ModelFits(h) ==> FingerprintFromData(h.backend, FingerprintToData(h.fingerprint)).None?
  {
    assert |"manufacturer_id"| == 15 && |"product_type"| == 12 && |"product_id"| == 10 && |"firmware"| == 8;
    assert |"manufacturer"| == 12 && |"model"| == 5 && |"vendor"| == 6 && |"product"| == 7;
    assert "manufacturer"[0] != "product_type"[0];
  }

  lemma DeviceReadsBack(h: DeviceHandle, keepLocalIds: bool)
    ensures ModelFits(h) ==> DeviceFromData(DeviceToData(h, keepLocalIds)) == Some(Forgotten(h, keepLocalIds))
    ensures !ModelFits(h) ==> DeviceFromData(DeviceToData(h, keepLocalIds)).None?
  {
    hide FingerprintToData;
    hide FingerprintFromData;
    ModelReadsBack(h);
    NamesReadBack(h.backend, OnOff, Remote, OneWay, MirrorOn, OnOnly);
    assert |"backend"| == 7 && |"protocol_id"| == 11 && |"name"| == 4 && |"fingerprint"| == 11 &&
      |"ha_device_id"| == 12;
    assert "protocol_id"[0] != "fingerprint"[0];
  }

  /** A device that was read has a model its protocol can describe. */
  lemma ReadDevicesFit(d: Data)
    requires DeviceFromData(d).Some?
    ensures ModelFits(DeviceFromData(d).value)
  {
  }

  /** The device block: each identity filed once, as it was first mentioned. */
  lemma {:induction false} DeviceBlock(handles: seq<DeviceHandle>, keepLocalIds: bool)
    ensures forall id :: id in DevicesToData(handles, keepLocalIds) <==> exists h | h in handles :: h.Identity() == id
    ensures forall id | id in DevicesToData(handles, keepLocalIds) ::
      exists h | h in handles ::
        h.Identity() == id && DevicesToData(handles, keepLocalIds)[id] == DeviceToData(h, keepLocalIds)
  {
    hide DeviceToData;
    hide DeviceHandle.Identity;
    if handles != [] {
      DeviceBlock(handles[..|handles| - 1], keepLocalIds);
      assert handles == handles[..|handles| - 1] + [handles[|handles| - 1]];
    }
  }

  /** One device, one handle: what is said of an identity is said the same way everywhere. */
  ghost predicate OneHandleEach(handles: seq<DeviceHandle>) {
    forall g, h | g in handles && h in handles && g.Identity() == h.Identity() :: g == h
  }

  ghost predicate AllModelsFit(handles: seq<DeviceHandle>) {
    forall h | h in handles :: ModelFits(h)
  }

  /** These devices are what the handles say, and every handle is among them. */
  ghost predicate Describes(devices: map<string, DeviceHandle>, handles: seq<DeviceHandle>, keepLocalIds: bool) {
    forall h | h in handles :: h.Identity() in devices && devices[h.Identity()] == Forgotten(h, keepLocalIds)
  }

  lemma DevicesReadBack(handles: seq<DeviceHandle>, keepLocalIds: bool)
    requires OneHandleEach(handles) && AllModelsFit(handles)
    ensures DevicesFromData(Mapping(DevicesToData(handles, keepLocalIds))).Some?
    ensures Describes(DevicesFromData(Mapping(DevicesToData(handles, keepLocalIds))).value, handles, keepLocalIds)
  {
    hide DeviceToData;
    hide DeviceFromData;
    hide ModelFits;
    hide DevicesToData;
    hide DeviceHandle.Identity;
    var entries := DevicesToData(handles, keepLocalIds);
    DeviceBlock(handles, keepLocalIds);
    forall id | id in entries ensures FiledRight(id, entries[id]) {
      var h :| h in handles && h.Identity() == id && entries[id] == DeviceToData(h, keepLocalIds);
      DeviceReadsBack(h, keepLocalIds);
      ForgottenKeepsIdentity(h, keepLocalIds);
    }
    forall h | h in handles
      ensures h.Identity() in entries && DeviceFromData(entries[h.Identity()]) == Some(Forgotten(h, keepLocalIds))
    {
      var g :| g in handles && g.Identity() == h.Identity() && entries[h.Identity()] == DeviceToData(g, keepLocalIds);
      DeviceReadsBack(g, keepLocalIds);
    }
  }

  lemma ForgottenKeepsIdentity(h: DeviceHandle, keepLocalIds: bool)
    ensures Forgotten(h, keepLocalIds).Identity() == h.Identity()
  {
  }

  // Rules read back.

  ghost predicate Known(r: Rule, devices: map<string, DeviceHandle>) {
    r.source.device.Identity() in devices && KnownTargets(r.targets, devices)
  }

  ghost predicate KnownTargets(ts: seq<RuleTarget>, devices: map<string, DeviceHandle>) {
    forall t | t in ts :: t.device.Identity() in devices
  }

  function Relabelled(ts: seq<RuleTarget>, devices: map<string, DeviceHandle>): seq<RuleTarget>
    requires KnownTargets(ts, devices)
  {
    seq(|ts|, i requires 0 <= i < |ts| =>
      assert ts[i] in ts; RuleTarget(devices[ts[i].device.Identity()], ts[i].endpoint))
  }

  /** The rule with each handle replaced by the described device of its identity. */
  function RelabelledRule(r: Rule, devices: map<string, DeviceHandle>): Rule
    requires Known(r, devices)
  {
    r.(source := r.source.(device := devices[r.source.device.Identity()]), targets := Relabelled(r.targets, devices))
  }

  lemma TargetReadsBack(t: RuleTarget, devices: map<string, DeviceHandle>)
    requires t.device.Identity() in devices
    ensures TargetFromData(TargetToData(t), devices) == Some(RuleTarget(devices[t.device.Identity()], t.endpoint))
  {
    assert |"device"| == 6 && |"endpoint"| == 8;
  }

  lemma {:induction false} TargetsReadBack(ts: seq<RuleTarget>, devices: map<string, DeviceHandle>)
    requires KnownTargets(ts, devices)
    ensures TargetsFromData(TargetsToData(ts), devices) == Some(Relabelled(ts, devices))
  {
    hide TargetToData;
    hide TargetFromData;
    hide DeviceHandle.Identity;
    if ts != [] {
      var front, last := ts[..|ts| - 1], ts[|ts| - 1];
      assert last in ts;
      TargetsReadBack(front, devices);
      TargetReadsBack(last, devices);
      assert TargetsToData(ts)[..|ts| - 1] == TargetsToData(front);
      assert Relabelled(ts, devices) ==
        Relabelled(front, devices) + [RuleTarget(devices[last.device.Identity()], last.endpoint)];
    } else {
      assert Relabelled(ts, devices) == [];
    }
  }

  lemma SourceReadsBack(s: RuleSource, devices: map<string, DeviceHandle>)
    requires s.device.Identity() in devices
    ensures SourceFromData(SourceToData(s), devices) == Some(s.(device := devices[s.device.Identity()]))
  {
    assert |"device"| == 6 && |"endpoint"| == 8 && |"emitter_id"| == 10;
  }

  lemma RuleKeysDiffer()
    ensures "template" != "features" && "backend" != "enabled" && "backend" != "targets" && "enabled" != "targets" &&
      "hybrid" != "source"
  {
    assert "template"[0] != "features"[0] && "backend"[0] != "enabled"[0] && "backend"[0] != "targets"[0];
    assert "enabled"[0] != "targets"[0] && "hybrid"[0] != "source"[0];
  }

  /** Every field of a rule, looked up in what was written of it. */
  lemma RuleFields(r: Rule)
    ensures
      var fields := RuleToData(r).fields;
      && Get(fields, "id") == Text(r.id) && Get(fields, "name") == Text(r.name)
      && Get(fields, "template") == Text(TemplateName(r.template)) &&
        Get(fields, "backend") == Text(BackendName(r.backend))
      && Get(fields, "enabled") == Flag(r.enabled) && Get(fields, "direction") == Text(DirectionName(r.direction))
      && Get(fields, "mirror_source") == Text(MirrorName(r.mirrorSource))
      && Get(fields, "features") == List(FeaturesToData(FeatureList(r.features)))
      && GetOr(fields, "hybrid", List([])) == List(KindsToData(KindList(r.hybrid)))
      && Get(fields, "source") == SourceToData(r.source) && Get(fields, "targets") == List(TargetsToData(r.targets))
  {
    hide TemplateName;
    hide BackendName;
    hide DirectionName;
    hide MirrorName;
    hide FeaturesToData;
    hide KindsToData;
    hide TargetsToData;
    hide SourceToData;
    hide FeatureList;
    hide KindList;
    RuleKeysDiffer();
    assert |"id"| == 2 && |"name"| == 4 && |"template"| == 8 && |"backend"| == 7 && |"enabled"| == 7 &&
      |"direction"| == 9;
    assert |"mirror_source"| == 13 && |"features"| == 8 && |"hybrid"| == 6 && |"source"| == 6 && |"targets"| == 7;
  }

  /** A rule that was written reads back as itself, naming the devices the file describes. */
  lemma RuleReadsBack(r: Rule, devices: map<string, DeviceHandle>)
    requires r.Valid() && Known(r, devices)
    ensures RuleFromData(RuleToData(r), devices) ==
      if RelabelledRule(r, devices).Valid() then Some(RelabelledRule(r, devices)) else None
  {
    hide TemplateName;
    hide BackendName;
    hide DirectionName;
    hide MirrorName;
    hide TemplateNamed;
    hide BackendNamed;
    hide DirectionNamed;
    hide MirrorNamed;
    hide FeaturesFromData;
    hide KindsFromData;
    hide TargetsFromData;
    hide SourceFromData;
    hide FeatureList;
    hide KindList;
    hide SourceToData;
    hide TargetToData;
    hide DeviceHandle.Identity;
    hide Get;
    hide GetOr;
    hide RuleToData;
    assert RuleToData(r).Mapping? by { WrittenAsMapping(r); }
    RuleFields(r);
    NamesReadBack(r.backend, OnOff, r.template, r.direction, r.mirrorSource, OnOnly);
    FeaturesReadBack(FeatureList(r.features));
    FeatureListIs(r.features);
    assert (set f | f in FeatureList(r.features)) == r.features;
    KindsReadBack(KindList(r.hybrid));
    KindListIs(r.hybrid);
    assert (set k | k in KindList(r.hybrid)) == r.hybrid;
    TargetsReadBack(r.targets, devices);
    SourceReadsBack(r.source, devices);
    if f :| f in r.features {
      assert f in FeatureList(r.features);
    }
    assert |FeaturesToData(FeatureList(r.features))| == |FeatureList(r.features)|;
    assert |TargetsToData(r.targets)| == |r.targets|;
  }

  lemma WrittenAsMapping(r: Rule)
    ensures RuleToData(r).Mapping?
  {
  }

  // Profiles read back.

  /** Reading the rules finds nothing wrong exactly when each of them reads. */
  lemma {:induction false} RulesReadEach(ds: seq<Data>, devices: map<string, DeviceHandle>)
    ensures BadIn(ds, devices) == [] <==> forall i | 0 <= i < |ds| :: RuleFromData(ds[i], devices).Some?
    ensures BadIn(ds, devices) == [] ==>
      |RulesFromData(ds, devices)| == |ds| &&
        forall i | 0 <= i < |ds| :: RuleFromData(ds[i], devices) == Some(RulesFromData(ds, devices)[i])
  {
    hide RuleFromData;
    if ds != [] {
      var front := ds[..|ds| - 1];
      RulesReadEach(front, devices);
      assert forall i | 0 <= i < |front| :: front[i] == ds[i];
    }
  }

  lemma {:induction false} HandlesOfRules(rules: seq<Rule>, h: DeviceHandle)
    ensures h in HandlesOf(rules) <==> exists r | r in rules :: Mentions(r, h)
  {
    if rules != [] {
      var front, last := rules[..|rules| - 1], rules[|rules| - 1];
      assert rules == front + [last];
      HandlesOfRules(front, h);
      var devices := seq(|last.targets|, i requires 0 <= i < |last.targets| => last.targets[i].device);
      assert HandlesOf(rules) == HandlesOf(front) + [last.source.device] + devices;
      TargetDevices(last.targets, devices, h);
      assert last in rules && (Mentions(last, h) <==> h == last.source.device || h in devices);
      if r :| r in rules && Mentions(r, h) {
        assert r in front || r == last;
      }
    }
  }

  lemma TargetDevices(ts: seq<RuleTarget>, devices: seq<DeviceHandle>, h: DeviceHandle)
    requires |devices| == |ts| && forall i | 0 <= i < |ts| :: devices[i] == ts[i].device
    ensures h in devices <==> exists t | t in ts :: t.device == h
  {
    if t :| t in ts && t.device == h {
      var i :| 0 <= i < |ts| && ts[i] == t;
      assert devices[i] == h;
    }
    if h in devices {
      var i :| 0 <= i < |devices| && devices[i] == h;
      assert ts[i] in ts;
    }
  }

  ghost predicate Mentions(r: Rule, h: DeviceHandle) {
    r.source.device == h || exists t | t in r.targets :: t.device == h
  }

  lemma MentionedAreKnown(p: Profile, r: Rule, devices: map<string, DeviceHandle>, keepLocalIds: bool)
    requires r in p.rules && Describes(devices, HandlesOf(p.rules), keepLocalIds)
    ensures Known(r, devices)
    ensures RelabelledRule(r, devices) == ForgottenRule(r, keepLocalIds)
  {
    hide HandlesOf;
    hide DeviceHandle.Identity;
    hide Forgotten;
    HandlesOfRules(p.rules, r.source.device);
    assert Mentions(r, r.source.device);
    forall t | t in r.targets ensures t.device in HandlesOf(p.rules) {
      HandlesOfRules(p.rules, t.device);
      assert Mentions(r, t.device);
    }
    forall i | 0 <= i < |r.targets|
      ensures Relabelled(r.targets, devices)[i] == ForgottenRule(r, keepLocalIds).targets[i]
    {
      assert r.targets[i] in r.targets;
    }
  }

  /** The rule as a file describes its devices. */
  function ForgottenRule(r: Rule, keepLocalIds: bool): Rule {
    r.(source := r.source.(device := Forgotten(r.source.device, keepLocalIds)),
       targets := seq(|r.targets|,
         i requires 0 <= i < |r.targets| => r.targets[i].(device := Forgotten(r.targets[i].device, keepLocalIds))))
  }

  /** The profile with only the registry ids of its devices emptied, when those are left out. */
  function ForgottenProfile(p: Profile, keepLocalIds: bool): Profile {
    p.(rules := seq(|p.rules|, i requires 0 <= i < |p.rules| => ForgottenRule(p.rules[i], keepLocalIds)))
  }

  lemma KeptIsTheSame(p: Profile)
    ensures ForgottenProfile(p, true) == p
  {
    forall i | 0 <= i < |p.rules| ensures ForgottenRule(p.rules[i], true) == p.rules[i] {
      assert ForgottenRule(p.rules[i], true).targets == p.rules[i].targets;
    }
  }

  /** Forgetting registry ids makes no two targets of a rule the same. */
  lemma ForgottenStaysValid(p: Profile, r: Rule, keepLocalIds: bool)
    requires r in p.rules && r.Valid() && OneHandleEach(HandlesOf(p.rules))
    ensures ForgottenRule(r, keepLocalIds).Valid()
  {
    hide HandlesOf;
    var after := ForgottenRule(r, keepLocalIds).targets;
    forall i, j | 0 <= i < j < |after| ensures after[i] != after[j] {
      var g, h := r.targets[i].device, r.targets[j].device;
      assert r.targets[i] in r.targets && r.targets[j] in r.targets;
      HandlesOfRules(p.rules, g);
      HandlesOfRules(p.rules, h);
      assert Mentions(r, g) && Mentions(r, h);
      ForgottenKeepsIdentity(g, keepLocalIds);
      ForgottenKeepsIdentity(h, keepLocalIds);
      if g == h {
        assert r.targets[i].endpoint != r.targets[j].endpoint;
      } else {
        assert g.Identity() != h.Identity();
      }
    }
  }

  lemma ProfileFields(p: Profile, keepLocalIds: bool)
    ensures
      var d := ProfileToData(p, keepLocalIds);
      && d.Mapping? && Get(d.fields, "id") == Text(p.id) && Get(d.fields, "name") == Text(p.name)
      && Get(d.fields, "devices") == Mapping(DevicesToData(HandlesOf(p.rules), keepLocalIds))
      && Get(d.fields, "rules") == List(RulesToData(p.rules))
  {
    hide DevicesToData;
    hide RulesToData;
    assert |"id"| == 2 && |"name"| == 4 && |"devices"| == 7 && |"rules"| == 5;
  }

  /**
   A profile that was written reads back as itself; without the registry ids, as itself with
   only those emptied. It must say the same thing of a device everywhere, and describe its
   model the way its protocol does.
   */
  lemma ProfilesRoundTrip(p: Profile, keepLocalIds: bool)
    requires p.Valid() && OneHandleEach(HandlesOf(p.rules)) && AllModelsFit(HandlesOf(p.rules))
    ensures ProfileFromData(ProfileToData(p, keepLocalIds)) == Success(ForgottenProfile(p, keepLocalIds))
    ensures keepLocalIds ==> ForgottenProfile(p, keepLocalIds) == p
  {
    hide DevicesToData;
    hide DevicesFromData;
    hide RuleToData;
    hide RuleFromData;
    hide BadIn;
    hide RulesFromData;
    hide HandlesOf;
    hide OneHandleEach;
    hide AllModelsFit;
    hide Describes;
    hide ForgottenRule;
    hide Known;
    hide Rule.Valid;
    hide ProfileToData;
    hide Get;
    KeptIsTheSame(p);
    ProfileFields(p, keepLocalIds);
    DevicesReadBack(HandlesOf(p.rules), keepLocalIds);
    var devices := DevicesFromData(Mapping(DevicesToData(HandlesOf(p.rules), keepLocalIds))).value;
    var ds := RulesToData(p.rules);
    var after := ForgottenProfile(p, keepLocalIds);
    forall i | 0 <= i < |ds| ensures RuleFromData(ds[i], devices) == Some(after.rules[i]) && after.rules[i].Valid() {
      MentionedAreKnown(p, p.rules[i], devices, keepLocalIds);
      ForgottenStaysValid(p, p.rules[i], keepLocalIds);
      RuleReadsBack(p.rules[i], devices);
    }
    RulesReadEach(ds, devices);
    assert RulesFromData(ds, devices) == after.rules;
    forall i, j | 0 <= i < j < |after.rules| ensures after.rules[i].id != after.rules[j].id {
      ForgottenKeepsId(p.rules[i], keepLocalIds);
      ForgottenKeepsId(p.rules[j], keepLocalIds);
    }
  }

  lemma ForgottenKeepsId(r: Rule, keepLocalIds: bool)
    ensures ForgottenRule(r, keepLocalIds).id == r.id
  {
  }

  // And only those.

  /** Whatever file a profile is read from, the profile is valid, and round-trips from then on. */
  lemma ReadProfilesAreSound(d: Data)
    requires ProfileFromData(d).Success?
    ensures
      var p := ProfileFromData(d).value;
      p.Valid() && OneHandleEach(HandlesOf(p.rules)) && AllModelsFit(HandlesOf(p.rules))
  {
    hide DevicesFromData;
    hide RuleFromData;
    hide BadIn;
    hide RulesFromData;
    hide HandlesOf;
    hide ModelFits;
    hide Rule.Valid;
    hide Get;
    hide DeviceHandle.Identity;
    var p := ProfileFromData(d).value;
    var devices := DevicesFromData(Get(d.fields, "devices")).value;
    var list := AsList(Get(d.fields, "rules")).value;
    RulesReadEach(list, devices);
    DescribedDevices(Get(d.fields, "devices"));
    forall h | h in HandlesOf(p.rules) ensures h.Identity() in devices && devices[h.Identity()] == h && ModelFits(h) {
      HandlesOfRules(p.rules, h);
      var r :| r in p.rules && Mentions(r, h);
      var i :| 0 <= i < |p.rules| && p.rules[i] == r;
      ReadRulesNameDescribed(list[i], devices, h);
    }
  }

  lemma DescribedDevices(d: Data)
    requires DevicesFromData(d).Some?
    ensures forall id | id in DevicesFromData(d).value ::
      DevicesFromData(d).value[id].Identity() == id && ModelFits(DevicesFromData(d).value[id])
  {
    hide DeviceFromData;
    hide ModelFits;
    hide DeviceHandle.Identity;
    forall id | id in DevicesFromData(d).value
      ensures DevicesFromData(d).value[id].Identity() == id && ModelFits(DevicesFromData(d).value[id])
    {
      assert FiledRight(id, d.fields[id]);
      ReadDevicesFit(d.fields[id]);
    }
  }

  lemma {:induction false} ReadTargetsNameDescribed(ds: seq<Data>, devices: map<string, DeviceHandle>, t: RuleTarget)
    requires TargetsFromData(ds, devices).Some? && t in TargetsFromData(ds, devices).value
    ensures t.device in devices.Values
  {
    var front := TargetsFromData(ds[..|ds| - 1], devices).value;
    if t in front {
      ReadTargetsNameDescribed(ds[..|ds| - 1], devices, t);
    }
  }

  lemma ReadRulesNameDescribed(d: Data, devices: map<string, DeviceHandle>, h: DeviceHandle)
    requires RuleFromData(d, devices).Some? && Mentions(RuleFromData(d, devices).value, h)
    requires forall id | id in devices :: devices[id].Identity() == id
    ensures h.Identity() in devices && devices[h.Identity()] == h
  {
    hide TargetsFromData;
    hide FeaturesFromData;
    hide KindsFromData;
    hide Rule.Valid;
    hide DeviceHandle.Identity;
    hide Get;
    hide GetOr;
    var r := RuleFromData(d, devices).value;
    if r.source.device == h {
      assert h in devices.Values;
    } else {
      var t :| t in r.targets && t.device == h;
      ReadTargetsNameDescribed(AsList(Get(d.fields, "targets")).value, devices, t);
    }
    var id :| id in devices && devices[id] == h;
  }

  /**
   A valid profile survives storage exactly when it says one thing of each device and every model fits
   its protocol.
   */
  lemma ProfilesRoundTripExactly(p: Profile)
    requires p.Valid()
    ensures ProfileFromData(ProfileToData(p, true)) == Success(p) <==>
      OneHandleEach(HandlesOf(p.rules)) && AllModelsFit(HandlesOf(p.rules))
  {
    hide ProfileFromData;
    hide ProfileToData;
    hide HandlesOf;
    hide OneHandleEach;
    hide AllModelsFit;
    hide ForgottenProfile;
    if OneHandleEach(HandlesOf(p.rules)) && AllModelsFit(HandlesOf(p.rules)) {
      ProfilesRoundTrip(p, true);
    }
    if ProfileFromData(ProfileToData(p, true)) == Success(p) {
      ReadProfilesAreSound(ProfileToData(p, true));
    }
  }

  /** What was read once is read again the same from what is written of it. */
  lemma ReadingSettles(d: Data)
    requires ProfileFromData(d).Success?
    ensures ProfileFromData(ProfileToData(ProfileFromData(d).value, true)) == ProfileFromData(d)
  {
    hide ProfileFromData;
    hide ProfileToData;
    hide HandlesOf;
    hide OneHandleEach;
    hide AllModelsFit;
    hide ForgottenProfile;
    ReadProfilesAreSound(d);
    ProfilesRoundTrip(ProfileFromData(d).value, true);
  }
}
