/**
 Device swap (custom_components/device_links/swap.py): a device was replaced, and every rule
 that names it follows.
 */
module Swap {
  import opened Wrappers
  import opened Text
  import opened Orders
  import opened Models
  import opened Compiler

  datatype MappingBasis = SameEmitterId | SameFeatures | Chosen | Unmapped

  /** One control the rules use on the old device, and what takes over from it. */
  datatype EmitterMapping = EmitterMapping(
    oldEmitterId: string,
    control: Option<Emitter>,
    basis: MappingBasis,
    needed: seq<Feature>,
    carried: seq<Feature>)

  /** One rule as it stands and as the swap would leave it, with what it would cost. */
  datatype RuleRewrite = RuleRewrite(
    ruleId: string, before: Rule, after: Rule, losses: seq<Diagnostic>, notes: seq<Diagnostic>, errors: seq<Diagnostic>)

  datatype SwapProposal = SwapProposal(
    retired: DeviceHandle,
    successor: DeviceHandle,
    sameModel: bool,
    mappings: seq<EmitterMapping>,
    rewrites: seq<RuleRewrite>,
    errors: seq<Diagnostic>)
  {
    predicate Applicable() {
      errors == [] && rewrites != [] && forall m | m in mappings :: m.control.Some?
    }

    /** The profile's rules, in its own order, with the rewrites put in. */
    function RulesAfter(rules: seq<Rule>): (r: seq<Rule>)
      ensures |r| == |rules|
    {
      seq(|rules|, i requires 0 <= i < |rules| => LastRewrite(rewrites, rules[i].id).GetOr(rules[i]))
    }
  }

  /** The rewrite filed under this rule id: the last of several. */
  function LastRewrite(rewrites: seq<RuleRewrite>, id: string): Option<Rule> {
    if rewrites == [] then None
    else if rewrites[|rewrites| - 1].ruleId == id then Some(rewrites[|rewrites| - 1].after)
    else LastRewrite(rewrites[..|rewrites| - 1], id)
  }

  predicate References(rule: Rule, identity: string) {
    rule.source.device.Identity() == identity || exists t | t in rule.targets :: t.device.Identity() == identity
  }

  // The controls the rules use.

  predicate Drives(rule: Rule, identity: string, emitterId: string) {
    rule.source.device.Identity() == identity && rule.source.emitterId == emitterId
  }

  function FeaturesFrom(rules: seq<Rule>, identity: string, emitterId: string): set<Feature> {
    set r, f | r in rules && Drives(r, identity, emitterId) && f in r.features :: f
  }

  function ControlsUsed(rules: seq<Rule>, identity: string): set<string> {
    set r | r in rules && r.source.device.Identity() == identity :: r.source.emitterId
  }

  /** Each control the rules drive a device from, with every feature they ask of it and no other. */
  function UsedBy(rules: seq<Rule>, identity: string): map<string, set<Feature>> {
    map e | e in ControlsUsed(rules, identity) :: FeaturesFrom(rules, identity, e)
  }

  lemma FeaturesFromOneMore(rules: seq<Rule>, rule: Rule, identity: string, e: string)
    ensures FeaturesFrom(rules + [rule], identity, e) ==
      if Drives(rule, identity, e) then FeaturesFrom(rules, identity, e) + rule.features
      else FeaturesFrom(rules, identity, e)
  {
    hide Drives;
    assert forall r :: r in rules + [rule] <==> r in rules || r == rule;
  }

  lemma ControlsUsedOneMore(rules: seq<Rule>, rule: Rule, identity: string)
    ensures ControlsUsed(rules + [rule], identity) ==
      ControlsUsed(rules, identity) + if rule.source.device.Identity() == identity then {rule.source.emitterId} else {}
  {
    assert forall r :: r in rules + [rule] <==> r in rules || r == rule;
  }

  lemma UnusedNeedsNothing(rules: seq<Rule>, identity: string, e: string)
    requires e !in ControlsUsed(rules, identity)
    ensures FeaturesFrom(rules, identity, e) == {}
  {
  }

  lemma UsedByOneMore(rules: seq<Rule>, rule: Rule, identity: string)
    ensures UsedBy(rules + [rule], identity) ==
      if rule.source.device.Identity() != identity then UsedBy(rules, identity)
      else
        var id := rule.source.emitterId;
        UsedBy(rules, identity)[id := (if id in UsedBy(rules, identity) then UsedBy(rules, identity)[id] else {}) +
          rule.features]
  {
    hide ControlsUsed;
    hide FeaturesFrom;
    ControlsUsedOneMore(rules, rule, identity);
    forall e ensures FeaturesFrom(rules + [rule], identity, e) ==
        if Drives(rule, identity, e) then FeaturesFrom(rules, identity, e) + rule.features
        else FeaturesFrom(rules, identity, e) {
      FeaturesFromOneMore(rules, rule, identity, e);
    }
    if rule.source.emitterId !in ControlsUsed(rules, identity) {
      UnusedNeedsNothing(rules, identity, rule.source.emitterId);
    }
    var was, now := UsedBy(rules, identity), UsedBy(rules + [rule], identity);
    if rule.source.device.Identity() == identity {
      var id := rule.source.emitterId;
      assert now == was[id := (if id in was then was[id] else {}) + rule.features];
    } else {
      assert now == was;
    }
  }

  /** The program's loop: one pass, adding each rule's features to its control's. */
  method EmittersUsed(rules: seq<Rule>, identity: string) returns (used: map<string, set<Feature>>)
    ensures used == UsedBy(rules, identity)
  {
    hide UsedBy;
    assert UsedBy([], identity) == map[] by { NothingUsed(identity); }
    used := map[];
    for i := 0 to |rules|
      invariant used == UsedBy(rules[..i], identity)
    {
      var rule := rules[i];
      assert rules[..i + 1] == rules[..i] + [rule];
      UsedByOneMore(rules[..i], rule, identity);
      if rule.source.device.Identity() == identity {
        var id := rule.source.emitterId;
        used := used[id := (if id in used then used[id] else {}) + rule.features];
      }
    }
    assert rules[..|rules|] == rules;
  }

  lemma NothingUsed(identity: string)
    ensures UsedBy([], identity) == map[]
  {
  }

  // Mapping controls.

  /** The control filed under this id when a device's controls are filed by id: the last of several. */
  function OfferedAs(emitters: seq<Emitter>, id: string): Option<Emitter> {
    if emitters == [] then None
    else if emitters[|emitters| - 1].emitterId == id then Some(emitters[|emitters| - 1])
    else OfferedAs(emitters[..|emitters| - 1], id)
  }

  function Covering(emitters: seq<Emitter>, needed: set<Feature>): seq<Emitter> {
    if emitters == [] then [] else
      var last := emitters[|emitters| - 1];
      Covering(emitters[..|emitters| - 1], needed) + if needed <= last.actions.Keys then [last] else []
  }

  function Settled(oldId: string, emitter: Emitter, basis: MappingBasis, needed: seq<Feature>): EmitterMapping {
    EmitterMapping(oldId, Some(emitter), basis, needed, CarriedOf(needed, emitter))
  }

  function CarriedOf(needed: seq<Feature>, emitter: Emitter): seq<Feature> {
    if needed == [] then [] else
      var last := needed[|needed| - 1];
      CarriedOf(needed[..|needed| - 1], emitter) + if last in emitter.actions then [last] else []
  }

  /** What takes over from one control: the chosen one, else the same id, else the only one that can. */
  function MapEmitter(oldId: string, needed: set<Feature>, offered: seq<Emitter>,
          chosen: Option<string>): EmitterMapping {
    var ordered := FeatureList(needed);
    if chosen.Some? && OfferedAs(offered, chosen.value).Some? then
      Settled(oldId, OfferedAs(offered, chosen.value).value, Chosen, ordered)
    else if OfferedAs(offered, oldId).Some? then
      Settled(oldId, OfferedAs(offered, oldId).value, SameEmitterId, ordered)
    else
      var covering := Covering(offered, needed);
      if |covering| == 1 then Settled(oldId, covering[0], SameFeatures, ordered)
      else EmitterMapping(oldId, None, Unmapped, ordered, [])
  }

  // Rewriting one rule.

  datatype Rewriter = Rewriter(
    retired: DeviceHandle,
    successor: DeviceHandle,
    capabilities: DeviceCapabilities,
    mappings: map<string, EmitterMapping>,
    net: Network)

  function Moved(rw: Rewriter, t: RuleTarget): RuleTarget {
    if t.device.Identity() != rw.retired.Identity() then t
    else RuleTarget(rw.successor, rw.capabilities.receivingEndpoint)
  }

  predicate SamePlace(a: RuleTarget, b: RuleTarget) {
    a.device.Identity() == b.device.Identity() && a.endpoint == b.endpoint
  }

  predicate Occupied(ts: seq<RuleTarget>, place: RuleTarget) {
    exists t | t in ts :: SamePlace(t, place)
  }

  /** The targets with the old device replaced, the first of each device and endpoint. */
  function RewrittenTargets(rw: Rewriter, ts: seq<RuleTarget>): seq<RuleTarget> {
    if ts == [] then []
    else
      var front, last := RewrittenTargets(rw, ts[..|ts| - 1]), Moved(rw, ts[|ts| - 1]);
      if Occupied(front, last) then front else front + [last]
  }

  function TargetNotes(rw: Rewriter, rule: Rule, ts: seq<RuleTarget>): seq<Diagnostic> {
    if ts == [] then []
    else
      var front, last := RewrittenTargets(rw, ts[..|ts| - 1]), ts[|ts| - 1];
      TargetNotes(rw, rule, ts[..|ts| - 1]) +
      (if Moved(rw, last).endpoint != last.endpoint then [EndpointMoved(rw, rule)] else []) +
      (if Occupied(front, Moved(rw, last)) then [TargetMerged(rw, rule)] else [])
  }

  function EndpointMoved(rw: Rewriter, rule: Rule): Diagnostic {
    var endpoint := rw.capabilities.receivingEndpoint;
    Diagnostic("swap_target_endpoint_moved",
      map["device" := rw.successor.nameAtAuthoring, "endpoint" := if endpoint.None? then "-"
        else Decimal(endpoint.value), "rule" := rule.name])
  }

  function TargetMerged(rw: Rewriter, rule: Rule): Diagnostic {
    Diagnostic("swap_duplicate_target_merged", map["device" := rw.successor.nameAtAuthoring, "rule" := rule.name])
  }

  type Place = (string, Option<int>)

  function PlaceOf(t: RuleTarget): Place {
    (t.device.Identity(), t.endpoint)
  }

  /** A target's place has been seen exactly when a kept target occupies it. */
  ghost predicate Seen(seen: set<Place>, ts: seq<RuleTarget>) {
    seen == set t | t in ts :: PlaceOf(t)
  }

  lemma SeenIsOccupied(seen: set<Place>, ts: seq<RuleTarget>, t: RuleTarget)
    requires Seen(seen, ts)
    ensures PlaceOf(t) in seen <==> Occupied(ts, t)
    ensures Seen(seen + {PlaceOf(t)}, ts + [t])
  {
    if Occupied(ts, t) {
      var u :| u in ts && SamePlace(u, t);
      assert PlaceOf(u) == PlaceOf(t);
    }
    if PlaceOf(t) in seen {
      var u :| u in ts && PlaceOf(u) == PlaceOf(t);
      assert SamePlace(u, t);
    }
  }

  /** The program's loop over the targets, remembering each device and endpoint it has kept. */
  method TargetsOf(rw: Rewriter, rule: Rule) returns (rewritten: seq<RuleTarget>, notes: seq<Diagnostic>)
    ensures rewritten == RewrittenTargets(rw, rule.targets)
    ensures notes == TargetNotes(rw, rule, rule.targets)
  {
    hide Seen;
    hide Occupied;
    hide Moved;
    hide EndpointMoved;
    hide TargetMerged;
    var seen: set<Place> := {};
    rewritten, notes := [], [];
    assert Seen(seen, []) by { NothingSeen(); }
    for i := 0 to |rule.targets|
      invariant rewritten == RewrittenTargets(rw, rule.targets[..i])
      invariant notes == TargetNotes(rw, rule, rule.targets[..i])
      invariant Seen(seen, rewritten)
    {
      assert rule.targets[..i + 1][..i] == rule.targets[..i];
      var candidate := Moved(rw, rule.targets[i]);
      SeenIsOccupied(seen, rewritten, candidate);
      if candidate.endpoint != rule.targets[i].endpoint {
        notes := notes + [EndpointMoved(rw, rule)];
      }
      if PlaceOf(candidate) in seen {
        notes := notes + [TargetMerged(rw, rule)];
      } else {
        seen := seen + {PlaceOf(candidate)};
        rewritten := rewritten + [candidate];
      }
    }
    assert rule.targets[..|rule.targets|] == rule.targets;
  }

  lemma NothingSeen()
    ensures Seen({}, [])
  {
  }

  /** The rule's source with the replacement's control, or nothing while that control is not settled. */
  function RewrittenSource(rw: Rewriter, source: RuleSource): Option<RuleSource> {
    if source.device.Identity() != rw.retired.Identity() then Some(source)
    else if source.emitterId in rw.mappings && rw.mappings[source.emitterId].control.Some? then
      var emitter := rw.mappings[source.emitterId].control.value;
      Some(RuleSource(rw.successor, emitter.endpoint, emitter.emitterId))
    else None
  }

  function LossMessages(rw: Rewriter, rule: Rule, lost: seq<Feature>): seq<Diagnostic> {
    seq(|lost|, i requires 0 <= i < |lost| => Diagnostic("swap_feature_lost",
      map["feature" := FeatureName(lost[i]), "rule" := rule.name, "device" := rw.successor.nameAtAuthoring]))
  }

  function LostFeatures(rw: Rewriter, rule: Rule, after: Rule): set<Feature> {
    rule.features - set l | l in Compile(after.WithEnabled(true), rw.net).links :: l.feature
  }

  function Rewrite(rw: Rewriter, rule: Rule): Option<RuleRewrite> {
    match RewrittenSource(rw, rule.source)
    case None => None
    case Some(source) =>
      var after := rule.(source := source, targets := RewrittenTargets(rw, rule.targets));
      Some(RuleRewrite(rule.id, rule, after, LossMessages(rw, rule, FeatureList(LostFeatures(rw, rule, after))),
        TargetNotes(rw, rule, rule.targets), Compile(after.WithEnabled(true), rw.net).errors))
  }

  function Rewrites(rw: Rewriter, rules: seq<Rule>): seq<RuleRewrite> {
    if rules == [] then [] else
      var last := Rewrite(rw, rules[|rules| - 1]);
      Rewrites(rw, rules[..|rules| - 1]) + if last.Some? then [last.value] else []
  }

  // The proposal.

  function Affected(rules: seq<Rule>, identity: string): seq<Rule> {
    if rules == [] then []
    else
      Affected(rules[..|rules| - 1], identity) +
      if References(rules[|rules| - 1], identity) then [rules[|rules| - 1]] else []
  }

  function SameModel(retired: DeviceHandle, successor: DeviceHandle): bool {
    retired.fingerprint.ModelKey() == successor.fingerprint.ModelKey()
  }

  function Refusals(retired: DeviceHandle, successor: DeviceHandle, rules: seq<Rule>, net: Network): seq<Diagnostic> {
    (if retired.Identity() == successor.Identity() && SameModel(retired, successor) then
      [Diagnostic("swap_same_device", map["device" := successor.nameAtAuthoring])] else []) +
    (if retired.backend != successor.backend then
      [Diagnostic("swap_across_backends",
        map["old" := BackendName(retired.backend), "new" := BackendName(successor.backend)])] else []) +
    (if successor.Identity() !in net then
      [Diagnostic("swap_replacement_unreadable", map["device" := successor.nameAtAuthoring])] else []) +
    (if !exists r | r in rules :: References(r, retired.Identity()) then
      [Diagnostic("swap_device_not_referenced", map["device" := retired.nameAtAuthoring])] else [])
  }

  function RewriterFor(retired: DeviceHandle, successor: DeviceHandle, rules: seq<Rule>, net: Network,
          chosen: map<string, string>): Rewriter
    requires successor.Identity() in net
  {
    var used := UsedBy(Affected(rules, retired.Identity()), retired.Identity());
    var capabilities := net[successor.Identity()];
    Rewriter(retired, successor, capabilities,
      map e | e in used ::
        MapEmitter(e, used[e], capabilities.emitters, if e in chosen then Some(chosen[e]) else None), net)
  }

  function MappingList(mappings: map<string, EmitterMapping>): seq<EmitterMapping> {
    var ids := SortedStrings(mappings.Keys);
    seq(|ids|, i requires 0 <= i < |ids| => mappings[ids[i]])
  }

  /** What swapping one device for another would do to these rules. Nothing is written and nothing stored. */
  function Propose(retired: DeviceHandle, successor: DeviceHandle, rules: seq<Rule>, net: Network,
          chosen: map<string, string>): SwapProposal {
    var errors := Refusals(retired, successor, rules, net);
    if errors != [] || successor.Identity() !in net then
      SwapProposal(retired, successor, SameModel(retired, successor), [], [], errors)
    else
      var rw := RewriterFor(retired, successor, rules, net, chosen);
      SwapProposal(retired, successor, SameModel(retired, successor), MappingList(rw.mappings),
        Rewrites(rw, Affected(rules, retired.Identity())), [])
  }
}
