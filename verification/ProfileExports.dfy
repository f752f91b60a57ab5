/**
 What any valid profile reads back as, including those that do not come back
 (custom_components/device_links/yaml_io.py), and when an export without local ids is faithful.
 */
module ProfileExports {
  import opened Wrappers
  import opened Models
  import opened Compiler
  import opened ProfileData
  import opened ProfileRoundTrip

  // The first to be mentioned stands for all.

  ghost predicate Mentioned(handles: seq<DeviceHandle>, id: string) {
    exists h | h in handles :: h.Identity() == id
  }

  /** The first handle with this identity. */
  ghost function FirstOf(handles: seq<DeviceHandle>, id: string): (h: DeviceHandle)
    requires Mentioned(handles, id)
    ensures h in handles && h.Identity() == id
  {
    if handles[0].Identity() == id then handles[0]
    else
      assert Mentioned(handles[1..], id) by {
        var h :| h in handles && h.Identity() == id;
        assert handles == [handles[0]] + handles[1..];
      }
      FirstOf(handles[1..], id)
  }

  /** A handle mentioned later does not count when there is an earlier one. */
  lemma {:induction false} FirstOfMore(handles: seq<DeviceHandle>, last: DeviceHandle, id: string)
    ensures Mentioned(handles + [last], id) <==> Mentioned(handles, id) || last.Identity() == id
    ensures Mentioned(handles, id) ==> FirstOf(handles + [last], id) == FirstOf(handles, id)
    ensures !Mentioned(handles, id) && last.Identity() == id ==> FirstOf(handles + [last], id) == last
  {
    hide DeviceHandle.Identity;
    assert last in handles + [last];
    assert forall h | h in handles :: h in handles + [last];
    if handles != [] && handles[0].Identity() != id {
      FirstOfMore(handles[1..], last, id);
      assert (handles + [last])[1..] == handles[1..] + [last];
      assert handles == [handles[0]] + handles[1..];
    }
  }

  /** What the device block keeps of an identity is what its first handle says. */
  lemma {:induction false} FirstIsFiled(handles: seq<DeviceHandle>, keepLocalIds: bool, id: string)
    ensures id in DevicesToData(handles, keepLocalIds) <==> Mentioned(handles, id)
    ensures Mentioned(handles, id) ==>
      DevicesToData(handles, keepLocalIds)[id] == DeviceToData(FirstOf(handles, id), keepLocalIds)
  {
    hide DeviceToData;
    hide DeviceHandle.Identity;
    if handles != [] {
      var front, last := handles[..|handles| - 1], handles[|handles| - 1];
      FirstIsFiled(front, keepLocalIds, id);
      FirstIsFiled(front, keepLocalIds, last.Identity());
      FirstOfMore(front, last, id);
      assert handles == front + [last];
    }
  }

  /** Every identity with what its first handle says of it. */
  ghost function Firsts(handles: seq<DeviceHandle>, keepLocalIds: bool): map<string, DeviceHandle> {
    map id | id in (set h | h in handles :: h.Identity()) ::
      assert Mentioned(handles, id); Forgotten(FirstOf(handles, id), keepLocalIds)
  }

  ghost predicate FirstsFit(handles: seq<DeviceHandle>) {
    forall id | Mentioned(handles, id) :: ModelFits(FirstOf(handles, id))
  }

  lemma FirstsAre(handles: seq<DeviceHandle>, keepLocalIds: bool, id: string)
    ensures id in Firsts(handles, keepLocalIds) <==> Mentioned(handles, id)
    ensures Mentioned(handles, id) ==>
      Firsts(handles, keepLocalIds)[id] == Forgotten(FirstOf(handles, id), keepLocalIds)
    ensures Mentioned(handles, id) ==> Firsts(handles, keepLocalIds)[id].Identity() == id
  {
    if Mentioned(handles, id) {
      ForgottenKeepsIdentity(FirstOf(handles, id), keepLocalIds);
    }
  }

  /** The device block reads as the first handles, or not at all if one of those has another protocol's model. */
  lemma BlockReadsBack(handles: seq<DeviceHandle>, keepLocalIds: bool)
    ensures DevicesFromData(Mapping(DevicesToData(handles, keepLocalIds))) ==
      if FirstsFit(handles) then Some(Firsts(handles, keepLocalIds)) else None
  {
    hide DeviceToData;
    hide DeviceFromData;
    hide ModelFits;
    hide DevicesToData;
    hide DeviceHandle.Identity;
    hide Mentioned;
    hide Firsts;
    hide FirstOf;
    hide Forgotten;
    var entries := DevicesToData(handles, keepLocalIds);
    forall id
      ensures id in entries <==> Mentioned(handles, id)
      ensures Mentioned(handles, id) ==> (FiledRight(id, entries[id]) <==> ModelFits(FirstOf(handles, id)))
      ensures Mentioned(handles, id) && ModelFits(FirstOf(handles, id)) ==>
        DeviceFromData(entries[id]) == Some(Forgotten(FirstOf(handles, id), keepLocalIds))
      ensures id in Firsts(handles, keepLocalIds) <==> Mentioned(handles, id)
      ensures Mentioned(handles, id) ==>
        Firsts(handles, keepLocalIds)[id] == Forgotten(FirstOf(handles, id), keepLocalIds)
    {
      FirstIsFiled(handles, keepLocalIds, id);
      FirstsAre(handles, keepLocalIds, id);
      if Mentioned(handles, id) {
        DeviceReadsBack(FirstOf(handles, id), keepLocalIds);
        ForgottenKeepsIdentity(FirstOf(handles, id), keepLocalIds);
      }
    }
    if FirstsFit(handles) {
      assert DevicesFromData(Mapping(entries)).value == Firsts(handles, keepLocalIds);
    }
  }

  // Rules.

  /** No two targets of the rule are one device at one endpoint. */
  ghost predicate TargetsApart(r: Rule) {
    forall i, j | 0 <= i < j < |r.targets| :: !AtOnePlace(r.targets[i], r.targets[j])
  }

  predicate AtOnePlace(a: RuleTarget, b: RuleTarget) {
    a.device.Identity() == b.device.Identity() && a.endpoint == b.endpoint
  }

  lemma RulesAreKnown(rules: seq<Rule>, r: Rule, keepLocalIds: bool)
    requires r in rules
    ensures Known(r, Firsts(HandlesOf(rules), keepLocalIds))
  {
    hide HandlesOf;
    hide DeviceHandle.Identity;
    hide Firsts;
    var handles := HandlesOf(rules);
    forall h | Mentions(r, h) ensures h.Identity() in Firsts(handles, keepLocalIds) {
      HandlesOfRules(rules, h);
      FirstsAre(handles, keepLocalIds, h.Identity());
    }
    assert Mentions(r, r.source.device);
    assert forall t | t in r.targets :: Mentions(r, t.device);
  }

  /** Once one handle stands for each device, a rule is still a rule exactly when its targets stay apart. */
  lemma RelabelledIsValid(r: Rule, devices: map<string, DeviceHandle>)
    requires r.Valid() && Known(r, devices) && forall id | id in devices :: devices[id].Identity() == id
    ensures RelabelledRule(r, devices).Valid() <==> TargetsApart(r)
  {
    hide DeviceHandle.Identity;
    var after := RelabelledRule(r, devices).targets;
    forall i, j | 0 <= i < j < |after| ensures after[i] == after[j] <==> AtOnePlace(r.targets[i], r.targets[j]) {
      assert r.targets[i] in r.targets && r.targets[j] in r.targets;
    }
    if TargetsApart(r) {
      assert forall i, j | 0 <= i < j < |after| :: after[i] != after[j];
    } else {
      var i, j :| 0 <= i < j < |r.targets| && AtOnePlace(r.targets[i], r.targets[j]);
      assert after[i] == after[j];
    }
  }

  /** The profile with each handle replaced by the described device of its identity. */
  ghost function Renamed(p: Profile, devices: map<string, DeviceHandle>): Profile
    requires forall r | r in p.rules :: Known(r, devices)
  {
    p.(rules := seq(|p.rules|,
      i requires 0 <= i < |p.rules| => assert p.rules[i] in p.rules; RelabelledRule(p.rules[i], devices)))
  }

  lemma RenamedIsValid(p: Profile, devices: map<string, DeviceHandle>)
    requires p.Valid() && forall r | r in p.rules :: Known(r, devices)
    requires forall r | r in p.rules :: RelabelledRule(r, devices).Valid()
    ensures Renamed(p, devices).Valid()
  {
    hide Known;
    hide Rule.Valid;
    var after := Renamed(p, devices).rules;
    forall i | 0 <= i < |after| ensures after[i].Valid() && after[i].id == p.rules[i].id {
      assert p.rules[i] in p.rules;
      RelabelledKeepsId(p.rules[i], devices);
    }
  }

  lemma {:induction false} BadAre(ds: seq<Data>, devices: map<string, DeviceHandle>)
    ensures forall i: nat :: i in BadIn(ds, devices) <==> i < |ds| && RuleFromData(ds[i], devices).None?
  {
    hide RuleFromData;
    if ds != [] {
      var front := ds[..|ds| - 1];
      BadAre(front, devices);
      assert forall i: nat | i < |front| :: front[i] == ds[i];
    }
  }

  /**
   What any valid profile reads back as.

   If the first handle of some device has another protocol's model, the file cannot be read.
   If a rule has one device twice at one endpoint, under two handles, just those rules cannot.
   Otherwise the profile comes back with the first handle of each device standing for all.
   */
  lemma WrittenProfilesReadAs(p: Profile, keepLocalIds: bool)
    requires p.Valid()
    ensures forall r | r in p.rules :: Known(r, Firsts(HandlesOf(p.rules), keepLocalIds))
    ensures
      var devices, read := Firsts(HandlesOf(p.rules), keepLocalIds), ProfileFromData(ProfileToData(p, keepLocalIds));
      if !FirstsFit(HandlesOf(p.rules)) then read == Failure(BadFile)
      else if exists r | r in p.rules :: !TargetsApart(r) then
        && read.Failure? && read.error.BadRules?
        && forall i: nat :: i in read.error.which <==> i < |p.rules| && !TargetsApart(p.rules[i])
      else read == Success(Renamed(p, devices))
  {
    hide DevicesToData;
    hide DevicesFromData;
    hide RuleToData;
    hide RuleFromData;
    hide BadIn;
    hide RulesFromData;
    hide HandlesOf;
    hide Firsts;
    hide FirstsFit;
    hide Known;
    hide Rule.Valid;
    hide TargetsApart;
    hide ProfileToData;
    hide Get;
    hide RelabelledRule;
    var handles := HandlesOf(p.rules);
    var devices := Firsts(handles, keepLocalIds);
    ProfileFields(p, keepLocalIds);
    BlockReadsBack(handles, keepLocalIds);
    var ds := RulesToData(p.rules);
    forall r | r in p.rules ensures Known(r, devices) {
      RulesAreKnown(p.rules, r, keepLocalIds);
    }
    forall id | id in devices ensures devices[id].Identity() == id {
      FirstsAre(handles, keepLocalIds, id);
    }
    forall i | 0 <= i < |ds|
      ensures Known(p.rules[i], devices)
      ensures RuleFromData(ds[i], devices) == if TargetsApart(p.rules[i]) then Some(RelabelledRule(p.rules[i], devices))
        else None
      ensures TargetsApart(p.rules[i]) ==> RelabelledRule(p.rules[i], devices).Valid()
    {
      assert p.rules[i] in p.rules;
      RuleReadsBack(p.rules[i], devices);
      RelabelledIsValid(p.rules[i], devices);
    }
    BadAre(ds, devices);
    RulesReadEach(ds, devices);
    if FirstsFit(handles) {
      if r :| r in p.rules && !TargetsApart(r) {
        var i: nat :| i < |p.rules| && p.rules[i] == r;
        assert i in BadIn(ds, devices);
      } else {
        assert forall i | 0 <= i < |p.rules| :: p.rules[i] in p.rules;
        assert RulesFromData(ds, devices) == Renamed(p, devices).rules;
        RenamedIsValid(p, devices);
      }
    }
  }

  lemma RelabelledKeepsId(r: Rule, devices: map<string, DeviceHandle>)
    requires Known(r, devices)
    ensures RelabelledRule(r, devices).id == r.id
  {
  }

  // Coming back.

  /** What the handles of one device say of it is the same, as far as it is written. */
  ghost predicate OneDescriptionEach(handles: seq<DeviceHandle>, keepLocalIds: bool) {
    forall g, h | g in handles && h in handles && g.Identity() == h.Identity() ::
      Forgotten(g, keepLocalIds) == Forgotten(h, keepLocalIds)
  }

  lemma OneDescriptionStands(handles: seq<DeviceHandle>, keepLocalIds: bool)
    ensures OneDescriptionEach(handles, keepLocalIds) <==>
      Describes(Firsts(handles, keepLocalIds), handles, keepLocalIds)
    ensures OneDescriptionEach(handles, keepLocalIds) ==> (FirstsFit(handles) <==> AllModelsFit(handles))
  {
    hide DeviceHandle.Identity;
    hide Firsts;
    hide FirstOf;
    forall h | h in handles
      ensures Mentioned(handles, h.Identity()) && h.Identity() in Firsts(handles, keepLocalIds)
      ensures Firsts(handles, keepLocalIds)[h.Identity()] == Forgotten(FirstOf(handles, h.Identity()), keepLocalIds)
    {
      FirstsAre(handles, keepLocalIds, h.Identity());
    }
    if OneDescriptionEach(handles, keepLocalIds) && FirstsFit(handles) {
      forall h | h in handles ensures ModelFits(h) {
        assert Forgotten(FirstOf(handles, h.Identity()), keepLocalIds) == Forgotten(h, keepLocalIds);
      }
    }
  }

  lemma RenamedIsForgotten(p: Profile, devices: map<string, DeviceHandle>, keepLocalIds: bool)
    requires forall r | r in p.rules :: Known(r, devices)
    ensures Renamed(p, devices) == ForgottenProfile(p, keepLocalIds) <==>
      Describes(devices, HandlesOf(p.rules), keepLocalIds)
  {
    hide HandlesOf;
    hide DeviceHandle.Identity;
    hide RelabelledRule;
    hide ForgottenRule;
    hide Forgotten;
    var a, b := Renamed(p, devices).rules, ForgottenProfile(p, keepLocalIds).rules;
    if Describes(devices, HandlesOf(p.rules), keepLocalIds) {
      forall i | 0 <= i < |a| ensures a[i] == b[i] {
        MentionedAreKnown(p, p.rules[i], devices, keepLocalIds);
      }
    }
    if Renamed(p, devices) == ForgottenProfile(p, keepLocalIds) {
      forall h | h in HandlesOf(p.rules)
        ensures h.Identity() in devices && devices[h.Identity()] == Forgotten(h, keepLocalIds)
      {
        HandlesOfRules(p.rules, h);
        var r :| r in p.rules && Mentions(r, h);
        var i :| 0 <= i < |p.rules| && p.rules[i] == r;
        assert a[i] == b[i];
        SameRuleSameHandle(r, devices, keepLocalIds, h);
      }
    }
  }

  lemma SameRuleSameHandle(r: Rule, devices: map<string, DeviceHandle>, keepLocalIds: bool, h: DeviceHandle)
    requires Known(r, devices) && RelabelledRule(r, devices) == ForgottenRule(r, keepLocalIds) && Mentions(r, h)
    ensures h.Identity() in devices && devices[h.Identity()] == Forgotten(h, keepLocalIds)
  {
    hide DeviceHandle.Identity;
    hide Forgotten;
    if r.source.device != h {
      var t :| t in r.targets && t.device == h;
      var i :| 0 <= i < |r.targets| && r.targets[i] == t;
      assert RelabelledRule(r, devices).targets[i] == ForgottenRule(r, keepLocalIds).targets[i];
    }
  }

  /**
   When a profile comes back from what is written of it, with and without local ids.

   Exactly if the handles of a device agree in all that is written of it, every model fits its
   protocol, and no rule has one device twice at one endpoint. In an export handles that differ
   only in the local id therefore do no harm, unless both are a target of one rule at one endpoint.
   */
  lemma WrittenProfilesComeBackExactly(p: Profile, keepLocalIds: bool)
    requires p.Valid()
    ensures ProfileFromData(ProfileToData(p, keepLocalIds)) == Success(ForgottenProfile(p, keepLocalIds)) <==>
      && OneDescriptionEach(HandlesOf(p.rules), keepLocalIds) && AllModelsFit(HandlesOf(p.rules))
      && forall r | r in p.rules :: TargetsApart(r)
  {
    hide ProfileFromData;
    hide ProfileToData;
    hide HandlesOf;
    hide OneDescriptionEach;
    hide AllModelsFit;
    hide Describes;
    hide Firsts;
    hide FirstsFit;
    hide Known;
    hide TargetsApart;
    hide Renamed;
    hide ForgottenProfile;
    WrittenProfilesReadAs(p, keepLocalIds);
    OneDescriptionStands(HandlesOf(p.rules), keepLocalIds);
    RenamedIsForgotten(p, Firsts(HandlesOf(p.rules), keepLocalIds), keepLocalIds);
  }

  /** A profile whose rule names its own device twice, under two names. */
  function TwoNames(g: DeviceHandle, name: string): Profile {
    var target := RuleTarget(g.(nameAtAuthoring := name), None);
    Profile("p", "",
      [Rule("r", "", Remote, g.backend, RuleSource(g, 0, "g1"), [target], {OnOff}, OneWay, MirrorLeave, true, {})])
  }

  lemma TwoNamesHandles(g: DeviceHandle, name: string)
    ensures HandlesOf(TwoNames(g, name).rules) == [g, g.(nameAtAuthoring := name)]
    ensures g.(nameAtAuthoring := name).Identity() == g.Identity()
  {
    var rules := TwoNames(g, name).rules;
    assert rules[..|rules| - 1] == [];
  }

  lemma FirstOfPair(g: DeviceHandle, h: DeviceHandle)
    requires g.Identity() == h.Identity()
    ensures forall id :: Mentioned([g, h], id) <==> id == g.Identity()
    ensures FirstOf([g, h], g.Identity()) == g
  {
    hide DeviceHandle.Identity;
    assert g in [g, h];
  }

  /** It is a valid profile, and storage gives it back with the second name forgotten. */
  lemma SecondNameIsForgotten(g: DeviceHandle, name: string)
    requires ModelFits(g) && name != g.nameAtAuthoring
    ensures TwoNames(g, name).Valid() && TwoNames(g, name) != TwoNames(g, g.nameAtAuthoring)
    ensures ProfileFromData(ProfileToData(TwoNames(g, name), true)) == Success(TwoNames(g, g.nameAtAuthoring))
  {
    hide ProfileFromData;
    hide ProfileToData;
    hide ModelFits;
    hide FirstOf;
    hide Firsts;
    hide HandlesOf;
    hide Mentioned;
    hide DeviceHandle.Identity;
    var p, h := TwoNames(g, name), g.(nameAtAuthoring := name);
    TwoNamesHandles(g, name);
    FirstOfPair(g, h);
    FirstsAre([g, h], true, g.Identity());
    WrittenProfilesReadAs(p, true);
    var devices := Firsts([g, h], true);
    assert Known(p.rules[0], devices);
    assert RelabelledRule(p.rules[0], devices).targets == [RuleTarget(g, None)];
    assert RelabelledRule(p.rules[0], devices) == TwoNames(g, g.nameAtAuthoring).rules[0];
    assert Renamed(p, devices).rules == TwoNames(g, g.nameAtAuthoring).rules;
    assert TwoNames(g, name).rules[0].targets[0].device != TwoNames(g, g.nameAtAuthoring).rules[0].targets[0].device;
  }
}
