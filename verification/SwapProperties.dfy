/** What a swap keeps: the meaning of every rule, and nothing of the device that is gone. */
module SwapProperties {
  import opened Wrappers
  import opened Orders
  import opened Models
  import opened Fingerprints
  import opened Compiler
  import opened CompilerProperties
  import opened Swap

  // The rules a proposal leaves.

  lemma {:induction false} AffectedAre(rules: seq<Rule>, identity: string)
    ensures forall r :: r in Affected(rules, identity) <==> r in rules && References(r, identity)
  {
    hide References;
    if rules != [] {
      AffectedAre(rules[..|rules| - 1], identity);
      assert rules == rules[..|rules| - 1] + [rules[|rules| - 1]];
    }
  }

  ghost predicate UniqueIds(rules: seq<Rule>) {
    forall r, s | r in rules && s in rules && r.id == s.id :: r == s
  }

  lemma ValidProfileHasUniqueIds(profile: Profile)
    requires profile.Valid()
    ensures UniqueIds(profile.rules)
  {
  }

  lemma RewriteKeepsIdentity(rw: Rewriter, rule: Rule)
    requires Rewrite(rw, rule).Some?
    ensures RewrittenSource(rw, rule.source).Some?
    ensures Rewrite(rw, rule).value.ruleId == rule.id
    ensures Rewrite(rw, rule).value.after ==
      rule.(source := RewrittenSource(rw, rule.source).value, targets := RewrittenTargets(rw, rule.targets))
  {
  }

  lemma LastRewriteOneMore(rewrites: seq<RuleRewrite>, r: RuleRewrite, id: string)
    ensures LastRewrite(rewrites + [r], id) == if r.ruleId == id then Some(r.after) else LastRewrite(rewrites, id)
  {
    assert (rewrites + [r])[..|rewrites|] == rewrites;
  }

  lemma RewritesOneMore(rw: Rewriter, rules: seq<Rule>, rule: Rule)
    ensures Rewrites(rw, rules + [rule]) ==
      if Rewrite(rw, rule).Some? then Rewrites(rw, rules) + [Rewrite(rw, rule).value] else Rewrites(rw, rules)
  {
    hide Rewrite;
    assert (rules + [rule])[..|rules|] == rules;
  }

  /** What the rewrites file under a rule's id is that rule rewritten. */
  lemma {:induction false} LastRewriteIs(rw: Rewriter, rules: seq<Rule>, rule: Rule)
    requires forall r | r in rules && r.id == rule.id :: r == rule
    ensures LastRewrite(Rewrites(rw, rules), rule.id) ==
      if rule in rules && Rewrite(rw, rule).Some? then Some(Rewrite(rw, rule).value.after) else None
  {
    hide Rewrite;
    hide Rewrites;
    hide LastRewrite;
    if rules == [] {
      NothingRewritten(rw, rule.id);
    } else {
      var front, last := rules[..|rules| - 1], rules[|rules| - 1];
      assert rules == front + [last];
      LastRewriteIs(rw, front, rule);
      RewritesOneMore(rw, front, last);
      if Rewrite(rw, last).Some? {
        RewriteKeepsIdentity(rw, last);
        LastRewriteOneMore(Rewrites(rw, front), Rewrite(rw, last).value, rule.id);
      }
      if last.id == rule.id {
        assert last == rule;
      }
    }
  }

  lemma NothingRewritten(rw: Rewriter, id: string)
    ensures LastRewrite(Rewrites(rw, []), id) == None
  {
  }

  /** Each rule afterwards: the rewritten one when the swap rewrites it, the rule itself otherwise. */
  lemma RuleAfterIs(retired: DeviceHandle, successor: DeviceHandle, rules: seq<Rule>, net: Network,
          chosen: map<string, string>, i: nat)
    requires i < |rules| && UniqueIds(rules) && Propose(retired, successor, rules, net, chosen).errors == []
    ensures successor.Identity() in net
    ensures Propose(retired, successor, rules, net, chosen).RulesAfter(rules)[i] ==
      var rw := RewriterFor(retired, successor, rules, net, chosen);
      if References(rules[i], retired.Identity()) && Rewrite(rw, rules[i]).Some? then Rewrite(rw, rules[i]).value.after
      else rules[i]
  {
    hide References;
    hide Rewrite;
    hide RewriterFor;
    hide MappingList;
    hide UniqueIds;
    KnownSuccessor(retired, successor, rules, net);
    var rw := RewriterFor(retired, successor, rules, net, chosen);
    AffectedAre(rules, retired.Identity());
    OneOfItsId(rules, Affected(rules, retired.Identity()), rules[i]);
    LastRewriteIs(rw, Affected(rules, retired.Identity()), rules[i]);
  }

  lemma OneOfItsId(rules: seq<Rule>, some: seq<Rule>, rule: Rule)
    requires UniqueIds(rules) && rule in rules && forall r | r in some :: r in rules
    ensures forall r | r in some && r.id == rule.id :: r == rule
  {
  }

  lemma KnownSuccessor(retired: DeviceHandle, successor: DeviceHandle, rules: seq<Rule>, net: Network)
    requires Refusals(retired, successor, rules, net) == []
    ensures successor.Identity() in net
  {
  }

  // Nothing of the old device is left.

  lemma OccupiedStays(ts: seq<RuleTarget>, more: RuleTarget, place: RuleTarget)
    requires Occupied(ts, place) || SamePlace(more, place)
    ensures Occupied(ts + [more], place)
  {
    assert more in ts + [more];
    if Occupied(ts, place) {
      var t :| t in ts && SamePlace(t, place);
      assert t in ts + [more];
    }
  }

  /** Every target is kept where it moved to, or merged with one already there. */
  lemma {:induction false} MovedTargetsAreKept(rw: Rewriter, ts: seq<RuleTarget>)
    ensures forall t | t in ts :: Occupied(RewrittenTargets(rw, ts), Moved(rw, t))
    ensures ts != [] ==> RewrittenTargets(rw, ts) != []
  {
    hide Moved;
    hide Occupied;
    if ts != [] {
      var front, last := ts[..|ts| - 1], ts[|ts| - 1];
      assert ts == front + [last];
      MovedTargetsAreKept(rw, front);
      var before := RewrittenTargets(rw, front);
      if !Occupied(before, Moved(rw, last)) {
        forall t | t in ts ensures Occupied(before + [Moved(rw, last)], Moved(rw, t)) {
          OccupiedStays(before, Moved(rw, last), Moved(rw, t));
        }
      } else {
        OccupiedIsSomewhere(before, Moved(rw, last));
      }
    }
  }

  lemma OccupiedIsSomewhere(ts: seq<RuleTarget>, place: RuleTarget)
    requires Occupied(ts, place)
    ensures ts != []
  {
  }

  lemma {:induction false} KeptTargetsAreMoved(rw: Rewriter, ts: seq<RuleTarget>)
    ensures forall k | k in RewrittenTargets(rw, ts) :: exists t | t in ts :: k == Moved(rw, t)
  {
    hide Moved;
    hide Occupied;
    if ts != [] {
      var front, last := ts[..|ts| - 1], ts[|ts| - 1];
      assert ts == front + [last];
      KeptTargetsAreMoved(rw, front);
      forall k | k in RewrittenTargets(rw, ts) ensures exists t | t in ts :: k == Moved(rw, t) {
        if k in RewrittenTargets(rw, front) {
          var t :| t in front && k == Moved(rw, t);
          assert t in ts;
        }
      }
    }
  }

  lemma {:induction false} KeptTargetsDiffer(rw: Rewriter, ts: seq<RuleTarget>, i: nat, j: nat)
    requires i < j < |RewrittenTargets(rw, ts)|
    ensures !SamePlace(RewrittenTargets(rw, ts)[i], RewrittenTargets(rw, ts)[j])
  {
    hide Moved;
    var front, last := ts[..|ts| - 1], ts[|ts| - 1];
    var before := RewrittenTargets(rw, front);
    if j < |before| {
      KeptTargetsDiffer(rw, front, i, j);
    } else {
      assert before[i] in before;
    }
  }

  lemma MovedIsNotOld(rw: Rewriter, t: RuleTarget)
    requires rw.retired.Identity() != rw.successor.Identity()
    ensures Moved(rw, t).device.Identity() != rw.retired.Identity()
  {
  }

  lemma RewrittenForgets(rw: Rewriter, rule: Rule)
    requires rw.retired.Identity() != rw.successor.Identity() && Rewrite(rw, rule).Some?
    ensures !References(Rewrite(rw, rule).value.after, rw.retired.Identity())
  {
    hide Moved;
    hide Rewrite;
    RewriteKeepsIdentity(rw, rule);
    KeptTargetsAreMoved(rw, rule.targets);
    forall k | k in RewrittenTargets(rw, rule.targets) ensures k.device.Identity() != rw.retired.Identity() {
      var t :| t in rule.targets && k == Moved(rw, t);
      MovedIsNotOld(rw, t);
    }
  }

  lemma MappedWhenApplicable(mappings: map<string, EmitterMapping>, e: string)
    requires forall m | m in MappingList(mappings) :: m.control.Some?
    requires e in mappings
    ensures mappings[e].control.Some?
  {
    hide SortedStrings;
    var ids := SortedStrings(mappings.Keys);
    assert e in ids;
    var i :| 0 <= i < |ids| && ids[i] == e;
    assert MappingList(mappings)[i] == mappings[e];
  }

  /** An applicable swap rewrites every rule that names the old device. */
  lemma ApplicableRewritesAll(retired: DeviceHandle, successor: DeviceHandle, rules: seq<Rule>, net: Network,
          chosen: map<string, string>, rule: Rule)
    requires Propose(retired, successor, rules, net, chosen).Applicable()
    requires rule in rules && References(rule, retired.Identity())
    ensures successor.Identity() in net
    ensures Rewrite(RewriterFor(retired, successor, rules, net, chosen), rule).Some?
  {
    hide References;
    hide MappingList;
    hide MapEmitter;
    hide FeaturesFrom;
    KnownSuccessor(retired, successor, rules, net);
    AffectedAre(rules, retired.Identity());
    var rw := RewriterFor(retired, successor, rules, net, chosen);
    if rule.source.device.Identity() == retired.Identity() {
      assert rule.source.emitterId in ControlsUsed(Affected(rules, retired.Identity()), retired.Identity());
      MappedWhenApplicable(rw.mappings, rule.source.emitterId);
    }
  }

  /** After an applicable swap no rule names the old device. */
  lemma NoRuleNamesTheOldDevice(retired: DeviceHandle, successor: DeviceHandle, rules: seq<Rule>, net: Network,
          chosen: map<string, string>, i: nat)
    requires i < |rules| && UniqueIds(rules) && retired.Identity() != successor.Identity()
    requires Propose(retired, successor, rules, net, chosen).Applicable()
    ensures !References(Propose(retired, successor, rules, net, chosen).RulesAfter(rules)[i], retired.Identity())
  {
    hide References;
    hide Rewrite;
    hide RewriterFor;
    hide Propose;
    hide UniqueIds;
    ApplicableHasNoErrors(Propose(retired, successor, rules, net, chosen));
    RuleAfterIs(retired, successor, rules, net, chosen, i);
    if References(rules[i], retired.Identity()) {
      ApplicableRewritesAll(retired, successor, rules, net, chosen, rules[i]);
      var rw := RewriterFor(retired, successor, rules, net, chosen);
      RewriterIsFor(retired, successor, rules, net, chosen);
      RewrittenForgets(rw, rules[i]);
    }
  }

  lemma ApplicableHasNoErrors(p: SwapProposal)
    requires p.Applicable()
    ensures p.errors == []
  {
  }

  lemma RewriterIsFor(retired: DeviceHandle, successor: DeviceHandle, rules: seq<Rule>, net: Network,
          chosen: map<string, string>)
    requires successor.Identity() in net
    ensures var rw := RewriterFor(retired, successor, rules, net, chosen);
      rw.retired == retired && rw.successor == successor && rw.capabilities == net[successor.Identity()] &&
        rw.net == net
  {
  }

  /** A swap keeps a profile a profile: the same rules by id and order, every one still valid. */
  lemma SwapKeepsProfilesValid(retired: DeviceHandle, successor: DeviceHandle, profile: Profile, net: Network,
          chosen: map<string, string>)
    requires profile.Valid() && Propose(retired, successor, profile.rules, net, chosen).errors == []
    ensures profile.(rules := Propose(retired, successor, profile.rules, net, chosen).RulesAfter(profile.rules)).Valid()
    ensures forall i | 0 <= i < |profile.rules| ::
      Propose(retired, successor, profile.rules, net, chosen).RulesAfter(profile.rules)[i].id == profile.rules[i].id
  {
    hide References;
    hide Propose;
    hide RewriterFor;
    hide Rewrite;
    ValidProfileHasUniqueIds(profile);
    var after := Propose(retired, successor, profile.rules, net, chosen).RulesAfter(profile.rules);
    forall i | 0 <= i < |profile.rules| ensures after[i].id == profile.rules[i].id && after[i].Valid() {
      RuleAfterIs(retired, successor, profile.rules, net, chosen, i);
      var rw := RewriterFor(retired, successor, profile.rules, net, chosen);
      if Rewrite(rw, profile.rules[i]).Some? {
        RewriteStaysValid(rw, profile.rules[i]);
      }
    }
  }

  lemma RewriteStaysValid(rw: Rewriter, rule: Rule)
    requires rule.Valid() && Rewrite(rw, rule).Some?
    ensures Rewrite(rw, rule).value.after.Valid() && Rewrite(rw, rule).value.after.id == rule.id
  {
    hide Rewrite;
    RewriteKeepsIdentity(rw, rule);
    MovedTargetsAreKept(rw, rule.targets);
    var after := RewrittenTargets(rw, rule.targets);
    forall i, j | 0 <= i < j < |after| ensures after[i] != after[j] {
      KeptTargetsDiffer(rw, rule.targets, i, j);
    }
  }

  ghost predicate ReportedLost(losses: seq<Diagnostic>, f: Feature) {
    exists d | d in losses :: "feature" in d.placeholders && d.placeholders["feature"] == FeatureName(f)
  }

  lemma LossMessagesSay(rw: Rewriter, rule: Rule, lost: seq<Feature>, f: Feature)
    ensures ReportedLost(LossMessages(rw, rule, lost), f) <==> f in lost
  {
    hide FeatureName;
    var messages := LossMessages(rw, rule, lost);
    if f in lost {
      var i :| 0 <= i < |lost| && lost[i] == f;
      assert messages[i] in messages;
    }
    if ReportedLost(messages, f) {
      var d :| d in messages && "feature" in d.placeholders && d.placeholders["feature"] == FeatureName(f);
      var i :| 0 <= i < |lost| && messages[i] == d;
      FeatureNameInjective(lost[i], f);
    }
  }

  /** A feature asked for is reported lost exactly when no link of the rewritten rule carries it. */
  lemma LossesAreExact(rw: Rewriter, rule: Rule, f: Feature)
    requires Rewrite(rw, rule).Some?
    ensures ReportedLost(Rewrite(rw, rule).value.losses, f) <==>
      f in rule.features &&
        !exists l | l in Compile(Rewrite(rw, rule).value.after.WithEnabled(true), rw.net).links :: l.feature == f
  {
    hide Compile;
    hide ReportedLost;
    hide FeatureList;
    hide LossMessages;
    var lost := LostFeatures(rw, rule, Rewrite(rw, rule).value.after);
    FeatureListIs(lost);
    LossMessagesSay(rw, rule, FeatureList(lost), f);
  }

  // Controls are never guessed.

  predicate Offers(offered: seq<Emitter>, id: string) {
    exists e | e in offered :: e.emitterId == id
  }

  predicate CoversAt(offered: seq<Emitter>, needed: set<Feature>, i: int) {
    0 <= i < |offered| && forall f | f in needed :: f in offered[i].actions
  }

  lemma {:induction false} OfferedIsThere(emitters: seq<Emitter>, id: string)
    ensures OfferedAs(emitters, id).Some? <==> Offers(emitters, id)
    ensures OfferedAs(emitters, id).Some? ==>
      OfferedAs(emitters, id).value in emitters && OfferedAs(emitters, id).value.emitterId == id
  {
    if emitters != [] {
      var front, last := emitters[..|emitters| - 1], emitters[|emitters| - 1];
      assert emitters == front + [last];
      OfferedIsThere(front, id);
      if Offers(emitters, id) && last.emitterId != id {
        var e :| e in emitters && e.emitterId == id;
        assert e in front;
      }
    }
  }

  /** The places of the controls that carry everything needed. */
  function Covers(offered: seq<Emitter>, needed: set<Feature>): set<int> {
    set i | 0 <= i < |offered| && CoversAt(offered, needed, i)
  }

  lemma {:induction false} CoveringAre(emitters: seq<Emitter>, needed: set<Feature>)
    ensures |Covering(emitters, needed)| == |Covers(emitters, needed)|
    ensures forall e | e in Covering(emitters, needed) :: exists i | i in Covers(emitters, needed) :: emitters[i] == e
  {
    if emitters != [] {
      var front, last := emitters[..|emitters| - 1], emitters[|emitters| - 1];
      CoveringAre(front, needed);
      var before, after := Covers(front, needed), Covers(emitters, needed);
      forall i ensures i in after <==> i in before || (i == |front| && needed <= last.actions.Keys) {
        if 0 <= i < |front| {
          assert emitters[i] == front[i];
        }
      }
      assert after == before + if needed <= last.actions.Keys then {|front|} else {};
      forall e | e in Covering(emitters, needed) ensures exists i | i in after :: emitters[i] == e {
        if e in Covering(front, needed) {
          var i :| i in before && front[i] == e;
          assert i in after && emitters[i] == e;
        } else {
          assert |front| in after && emitters[|front|] == e;
        }
      }
    } else {
      assert Covers(emitters, needed) == {};
    }
  }

  /**
   A control on the replacement is never guessed.

   It is the user's choice when that is offered, else the control of the same id, else the one
   and only control that carries everything asked of the old one; with none or several of those
   the control stays unmapped.
   */
  lemma ControlsAreNeverGuessed(oldId: string, needed: set<Feature>, offered: seq<Emitter>, chosen: Option<string>)
    ensures
      var m := MapEmitter(oldId, needed, offered, chosen);
      var choice := chosen.Some? && Offers(offered, chosen.value);
      && (m.control.Some? ==> m.control.value in offered)
      && (choice ==> m.control.Some? && m.control.value.emitterId == chosen.value)
      && (!choice && Offers(offered, oldId) ==> m.control.Some? && m.control.value.emitterId == oldId)
      && (!choice && !Offers(offered, oldId) ==>
          (m.control.Some? <==> |Covers(offered, needed)| == 1) &&
          (m.control.Some? ==> exists i | i in Covers(offered, needed) :: m.control.value == offered[i]))
  {
    hide OfferedAs;
    hide Covering;
    hide Offers;
    hide CarriedOf;
    hide FeatureList;
    OfferedIsThere(offered, oldId);
    if chosen.Some? {
      OfferedIsThere(offered, chosen.value);
    }
    CoveringAre(offered, needed);
    if |Covering(offered, needed)| == 1 {
      assert Covering(offered, needed)[0] in Covering(offered, needed);
    }
  }

  // Meaning is kept.

  /** The replacement has the old device's capabilities, under its own handle. */
  ghost predicate SameCapabilities(net: Network, retired: string, successor: string) {
    && Coherent(net) && retired in net && successor in net && retired != successor
    && net[successor] == net[retired].(handle := net[successor].handle)
  }

  /** A rule uses the old device at the endpoints it reports: a control it offers, and where it receives. */
  ghost predicate AtReportedEndpoints(rule: Rule, retired: string, device: DeviceCapabilities) {
    && (rule.source.device.Identity() == retired ==>
        OfferedAs(device.emitters, rule.source.emitterId).Some? &&
        OfferedAs(device.emitters, rule.source.emitterId).value.endpoint == rule.source.endpoint)
    && (forall t | t in rule.targets && t.device.Identity() == retired :: t.endpoint == device.receivingEndpoint)
  }

  function SwapId(id: string, retired: string, successor: string): string {
    if id == retired then successor else id
  }

  function SwapCaps(c: DeviceCapabilities, net: Network, retired: string, successor: string): DeviceCapabilities
    requires successor in net
  {
    if c.handle.Identity() == retired then net[successor] else c
  }

  function SwapHandle(h: DeviceHandle, net: Network, retired: string, successor: string): DeviceHandle
    requires successor in net
  {
    if h.Identity() == retired then net[successor].handle else h
  }

  /** The same link with the old device replaced at either end. */
  function SwapLink(l: Link, net: Network, retired: string, successor: string): Link
    requires successor in net
  {
    l.(source := SwapHandle(l.source, net, retired, successor),
       target := l.target.(handle := SwapHandle(l.target.handle, net, retired, successor)))
  }

  function SwapLinks(ls: seq<Link>, net: Network, retired: string, successor: string): seq<Link>
    requires successor in net
  {
    seq(|ls|, i requires 0 <= i < |ls| => SwapLink(ls[i], net, retired, successor))
  }

  function SwapLeg(leg: Leg, net: Network, retired: string, successor: string): Leg
    requires successor in net
  {
    leg.(writer := SwapCaps(leg.writer, net, retired, successor),
      receiver := SwapCaps(leg.receiver, net, retired, successor))
  }

  /** The device with this identity and its capabilities, swapped, are the swapped identity's. */
  lemma SwapLooksUp(net: Network, retired: string, successor: string, id: string)
    requires SameCapabilities(net, retired, successor) && id != successor
    ensures SwapId(id, retired, successor) in net <==> id in net
    ensures id in net ==>
      net[SwapId(id, retired, successor)] == SwapCaps(net[id], net, retired, successor) &&
      SwapCaps(net[id], net, retired, successor).emitters == net[id].emitters &&
      SwapCaps(net[id], net, retired, successor).receivable == net[id].receivable &&
      SwapCaps(net[id], net, retired, successor).isLongRange == net[id].isLongRange &&
      SwapCaps(net[id], net, retired, successor).receivingEndpoint == net[id].receivingEndpoint
  {
  }

  lemma FeatureSwaps(rule: Rule, after: Rule, leg: Leg, f: Feature, net: Network, retired: string, successor: string)
    requires SameCapabilities(net, retired, successor)
    requires after.id == rule.id && after.backend == rule.backend
    requires leg.writer.handle.Identity() in net && net[leg.writer.handle.Identity()] == leg.writer
    requires leg.receiver.handle.Identity() in net && net[leg.receiver.handle.Identity()] == leg.receiver
    requires f in leg.emitter.actions
    ensures LegFeature(after, SwapLeg(leg, net, retired, successor), f).links ==
      SwapLinks(LegFeature(rule, leg, f).links, net, retired, successor)
  {
    var leg' := SwapLeg(leg, net, retired, successor);
    assert leg'.receiver.receivable == leg.receiver.receivable;
    assert LinkOf(after, leg', f) == SwapLink(LinkOf(rule, leg, f), net, retired, successor);
  }

  lemma {:induction false} LegSwaps(rule: Rule, after: Rule, leg: Leg, features: seq<Feature>, net: Network,
          retired: string, successor: string)
    requires SameCapabilities(net, retired, successor)
    requires after.id == rule.id && after.backend == rule.backend
    requires leg.writer.handle.Identity() in net && net[leg.writer.handle.Identity()] == leg.writer
    requires leg.receiver.handle.Identity() in net && net[leg.receiver.handle.Identity()] == leg.receiver
    requires forall f | f in features :: f in leg.emitter.actions
    ensures LegOut(after, SwapLeg(leg, net, retired, successor), features).links ==
      SwapLinks(LegOut(rule, leg, features).links, net, retired, successor)
  {
    hide LegFeature;
    hide SwapLink;
    hide SwapCaps;
    if features != [] {
      var last, front := features[|features| - 1], features[..|features| - 1];
      assert last in features;
      LegSwaps(rule, after, leg, front, net, retired, successor);
      FeatureSwaps(rule, after, leg, last, net, retired, successor);
      SwapLinksOfBoth(LegOut(rule, leg, front).links, LegFeature(rule, leg, last).links, net, retired, successor);
    }
  }

  /** The rewritten rule next to the original, as far as compiling goes. */
  ghost predicate Follows(rule: Rule, after: Rule, retired: string, successor: string) {
    && after == rule.(source := after.source, targets := after.targets)
    && after.source.device.Identity() == SwapId(rule.source.device.Identity(), retired, successor)
    && after.source.endpoint == rule.source.endpoint && after.source.emitterId == rule.source.emitterId
    && rule.source.device.Identity() != successor
  }

  ghost predicate TargetFollows(t: RuleTarget, k: RuleTarget, retired: string, successor: string) {
    && k.device.Identity() == SwapId(t.device.Identity(), retired, successor) && k.endpoint == t.endpoint
    && t.device.Identity() != successor
  }

  lemma TargetSwaps(rule: Rule, after: Rule, net: Network, source: DeviceCapabilities, emitter: Emitter,
          t: RuleTarget, k: RuleTarget, retired: string, successor: string)
    requires SameCapabilities(net, retired, successor)
    requires Follows(rule, after, retired, successor) && TargetFollows(t, k, retired, successor)
    requires rule.source.device.Identity() in net && net[rule.source.device.Identity()] == source
    requires t.device.Identity() in net
    ensures k.device.Identity() in net
    ensures TargetOut(after, net, SwapCaps(source, net, retired, successor), emitter, k).links ==
      SwapLinks(TargetOut(rule, net, source, emitter, t).links, net, retired, successor)
  {
    hide LegOut;
    hide FeatureList;
    hide ReverseOut;
    hide Taken;
    hide SwapLinks;
    SwapLooksUp(net, retired, successor, t.device.Identity());
    SwapLooksUp(net, retired, successor, rule.source.device.Identity());
    var receiver := net[t.device.Identity()];
    var source' := SwapCaps(source, net, retired, successor);
    SameFeatures(rule, after, emitter);
    FeatureListIs(Carried(rule, emitter));
    var fs := FeatureList(Carried(rule, emitter));
    var leg := Leg(source, rule.source.endpoint, emitter, receiver, t.endpoint);
    LegSwaps(rule, after, leg, fs, net, retired, successor);
    var back := FeatureList(Carried(rule, emitter) + Taken(rule).Keys);
    ReverseSwaps(rule, after, net, source, receiver, back, retired, successor);
    SwapLinksOfBoth(LegOut(rule, leg, fs).links, ReverseOut(rule, source, receiver, back).links, net, retired,
      successor);
  }

  lemma SameFeatures(rule: Rule, after: Rule, emitter: Emitter)
    requires after == rule.(source := after.source, targets := after.targets)
    ensures Taken(after) == Taken(rule) && Carried(after, emitter) == Carried(rule, emitter)
  {
  }

  lemma SwapLinksOfBoth(a: seq<Link>, b: seq<Link>, net: Network, retired: string, successor: string)
    requires successor in net
    ensures SwapLinks(a + b, net, retired, successor) ==
      SwapLinks(a, net, retired, successor) + SwapLinks(b, net, retired, successor)
  {
  }

  lemma ReverseSwaps(rule: Rule, after: Rule, net: Network, source: DeviceCapabilities, target: DeviceCapabilities,
          back: seq<Feature>, retired: string, successor: string)
    requires SameCapabilities(net, retired, successor) && Follows(rule, after, retired, successor)
    requires source.handle.Identity() in net && net[source.handle.Identity()] == source
    requires target.handle.Identity() in net && net[target.handle.Identity()] == target
    ensures
      ReverseOut(after, SwapCaps(source, net, retired, successor), SwapCaps(target, net, retired, successor),
        back).links ==
      SwapLinks(ReverseOut(rule, source, target, back).links, net, retired, successor)
  {
    hide LegOut;
    EmitterCarryingCarries(target.emitters, back);
    var source', target' := SwapCaps(source, net, retired, successor), SwapCaps(target, net, retired, successor);
    assert target'.emitters == target.emitters && source'.receivingEndpoint == source.receivingEndpoint;
    if EmitterCarrying(target.emitters, back).Some? {
      var e := EmitterCarrying(target.emitters, back).value;
      LegSwaps(rule, after, Leg(target, e.endpoint, e, source, ReverseEndpoint(rule, source)), back, net, retired,
        successor);
    }
  }

  /** One target of a rule gives this link. */
  ghost predicate Yields(rule: Rule, net: Network, t: RuleTarget, l: Link) {
    && SourceOf(rule, net).Some? && FindEmitter(SourceOf(rule, net).value.emitters, rule.source.emitterId).Some?
    && Usable(rule, net, t)
    && l in TargetOut(rule, net, SourceOf(rule, net).value,
      FindEmitter(SourceOf(rule, net).value.emitters, rule.source.emitterId).value, t).links
  }

  lemma CompiledLinks(rule: Rule, net: Network, l: Link)
    requires rule.enabled
    ensures l in Compile(rule, net).links <==> exists t | t in rule.targets :: Yields(rule, net, t, l)
  {
    hide Decided;
    hide Frozen;
    hide TargetsOut;
    hide TargetOut;
    hide Usable;
    FrozenLinks(Decided(rule, net));
    DecidedLinks(rule, net);
    if SourceOf(rule, net).Some? && FindEmitter(SourceOf(rule, net).value.emitters, rule.source.emitterId).Some? {
      var source := SourceOf(rule, net).value;
      var emitter := FindEmitter(source.emitters, rule.source.emitterId).value;
      var ts := UsableTargets(rule, net, rule.targets);
      UsableAreKnown(rule, net, ts);
      TargetsLinks(rule, net, source, emitter, ts, l);
      if t :| t in rule.targets && Yields(rule, net, t, l) {
        assert t in ts;
      }
      if t :| t in ts && l in TargetOut(rule, net, source, emitter, t).links {
        assert Yields(rule, net, t, l);
      }
    }
  }

  lemma YieldsSwaps(rule: Rule, after: Rule, net: Network, t: RuleTarget, k: RuleTarget, retired: string,
          successor: string)
    requires SameCapabilities(net, retired, successor)
    requires Follows(rule, after, retired, successor) && TargetFollows(t, k, retired, successor)
    ensures forall l | Yields(rule, net, t, l) :: Yields(after, net, k, SwapLink(l, net, retired, successor))
    ensures forall m | Yields(after, net, k, m) ::
      exists l | Yields(rule, net, t, l) :: m == SwapLink(l, net, retired, successor)
  {
    hide TargetOut;
    hide FindEmitter;
    var id := rule.source.device.Identity();
    SwapLooksUp(net, retired, successor, id);
    SwapLooksUp(net, retired, successor, t.device.Identity());
    assert SourceOf(after, net).Some? <==> SourceOf(rule, net).Some?;
    assert Usable(after, net, k) <==> Usable(rule, net, t);
    if SourceOf(rule, net).Some? && Usable(rule, net, t) {
      var source := SourceOf(rule, net).value;
      var source' := SwapCaps(source, net, retired, successor);
      assert SourceOf(after, net).value == source' && source'.emitters == source.emitters;
      if FindEmitter(source.emitters, rule.source.emitterId).Some? {
        var emitter := FindEmitter(source.emitters, rule.source.emitterId).value;
        TargetSwaps(rule, after, net, source, emitter, t, k, retired, successor);
        var ls := TargetOut(rule, net, source, emitter, t).links;
        var ms := TargetOut(after, net, source', emitter, k).links;
        forall l | Yields(rule, net, t, l) ensures Yields(after, net, k, SwapLink(l, net, retired, successor)) {
          var i :| 0 <= i < |ls| && ls[i] == l;
          assert ms[i] == SwapLink(l, net, retired, successor);
        }
        forall m | Yields(after, net, k, m)
          ensures exists l | Yields(rule, net, t, l) :: m == SwapLink(l, net, retired, successor)
        {
          var i :| 0 <= i < |ms| && ms[i] == m;
          assert Yields(rule, net, t, ls[i]);
        }
      }
    }
  }

  ghost predicate Mirrored(ts: seq<RuleTarget>, ks: seq<RuleTarget>, retired: string, successor: string) {
    && (forall k | k in ks :: MovesFrom(ts, k, retired, successor))
    && (forall t | t in ts :: MovesTo(t, ks, retired, successor))
  }

  ghost predicate MovesFrom(ts: seq<RuleTarget>, k: RuleTarget, retired: string, successor: string) {
    exists t | t in ts :: TargetFollows(t, k, retired, successor)
  }

  ghost predicate MovesTo(t: RuleTarget, ks: seq<RuleTarget>, retired: string, successor: string) {
    exists k | k in ks :: TargetFollows(t, k, retired, successor)
  }

  lemma LinkSwapsOver(rule: Rule, after: Rule, net: Network, l: Link, retired: string, successor: string)
    requires successor in net && SameCapabilities(net, retired, successor) && Follows(rule, after, retired, successor)
    requires Mirrored(rule.targets, after.targets, retired, successor) && rule.enabled && after.enabled
    requires l in Compile(rule, net).links
    ensures SwapLink(l, net, retired, successor) in Compile(after, net).links
  {
    hide Compile;
    hide Yields;
    hide SwapLink;
    hide TargetFollows;
    hide SameCapabilities;
    hide Follows;
    CompiledLinks(rule, net, l);
    var t :| t in rule.targets && Yields(rule, net, t, l);
    assert MovesTo(t, after.targets, retired, successor);
    var k :| k in after.targets && TargetFollows(t, k, retired, successor);
    YieldsSwaps(rule, after, net, t, k, retired, successor);
    CompiledLinks(after, net, SwapLink(l, net, retired, successor));
  }

  lemma LinkSwapsBack(rule: Rule, after: Rule, net: Network, m: Link, retired: string, successor: string)
    returns (l: Link)
    requires successor in net && SameCapabilities(net, retired, successor) && Follows(rule, after, retired, successor)
    requires Mirrored(rule.targets, after.targets, retired, successor) && rule.enabled && after.enabled
    requires m in Compile(after, net).links
    ensures l in Compile(rule, net).links && m == SwapLink(l, net, retired, successor)
  {
    hide Compile;
    hide Yields;
    hide SwapLink;
    hide TargetFollows;
    hide SameCapabilities;
    hide Follows;
    CompiledLinks(after, net, m);
    var k :| k in after.targets && Yields(after, net, k, m);
    assert MovesFrom(rule.targets, k, retired, successor);
    var t :| t in rule.targets && TargetFollows(t, k, retired, successor);
    YieldsSwaps(rule, after, net, t, k, retired, successor);
    l :| Yields(rule, net, t, l) && m == SwapLink(l, net, retired, successor);
    CompiledLinks(rule, net, l);
  }

  ghost function SwappedSet(links: seq<Link>, net: Network, retired: string, successor: string): set<Link>
    requires successor in net
  {
    set l | l in links :: SwapLink(l, net, retired, successor)
  }

  /** Compiling the rewritten rule gives the links of the original, swapped: no more and no fewer. */
  lemma RewriteCommutes(rule: Rule, after: Rule, net: Network, retired: string, successor: string)
    requires successor in net && SameCapabilities(net, retired, successor) && Follows(rule, after, retired, successor)
    requires Mirrored(rule.targets, after.targets, retired, successor)
    ensures (set m | m in Compile(after, net).links) == SwappedSet(Compile(rule, net).links, net, retired, successor)
  {
    hide Compile;
    hide SwapLink;
    hide SameCapabilities;
    hide Follows;
    hide Mirrored;
    SameSwitch(rule, after, retired, successor);
    if !rule.enabled {
      DisabledIsEmpty(rule, net);
      DisabledIsEmpty(after, net);
    } else {
      forall l | l in Compile(rule, net).links
        ensures SwapLink(l, net, retired, successor) in Compile(after, net).links
      {
        LinkSwapsOver(rule, after, net, l, retired, successor);
      }
      forall m | m in Compile(after, net).links
        ensures m in SwappedSet(Compile(rule, net).links, net, retired, successor)
      {
        var l := LinkSwapsBack(rule, after, net, m, retired, successor);
      }
    }
  }

  // The whole proposal.

  lemma {:induction false} OfferedHasItsId(emitters: seq<Emitter>, id: string)
    ensures OfferedAs(emitters, id).Some? ==> OfferedAs(emitters, id).value.emitterId == id
  {
    if emitters != [] {
      OfferedHasItsId(emitters[..|emitters| - 1], id);
    }
  }

  /** With the same controls on offer and nothing chosen, a control maps to itself. */
  lemma SameControlIsKept(retired: DeviceHandle, successor: DeviceHandle, rules: seq<Rule>, net: Network, rule: Rule)
    requires successor.Identity() in net && rule in rules && References(rule, retired.Identity())
    requires rule.source.device.Identity() == retired.Identity()
    requires OfferedAs(net[successor.Identity()].emitters, rule.source.emitterId).Some?
    ensures RewrittenSource(RewriterFor(retired, successor, rules, net, map[]), rule.source) ==
      Some(RuleSource(successor, OfferedAs(net[successor.Identity()].emitters, rule.source.emitterId).value.endpoint,
        rule.source.emitterId))
  {
    hide References;
    hide FeaturesFrom;
    hide OfferedAs;
    hide Covering;
    AffectedAre(rules, retired.Identity());
    OfferedHasItsId(net[successor.Identity()].emitters, rule.source.emitterId);
    assert rule.source.emitterId in ControlsUsed(Affected(rules, retired.Identity()), retired.Identity());
  }

  lemma MovedFollows(rw: Rewriter, rule: Rule, device: DeviceCapabilities, t: RuleTarget)
    requires t in rule.targets && !References(rule, rw.successor.Identity())
    requires AtReportedEndpoints(rule, rw.retired.Identity(), device)
    requires rw.capabilities.receivingEndpoint == device.receivingEndpoint
    ensures TargetFollows(t, Moved(rw, t), rw.retired.Identity(), rw.successor.Identity())
  {
  }

  lemma TargetsAreMirrored(rw: Rewriter, rule: Rule, device: DeviceCapabilities)
    requires !References(rule, rw.successor.Identity())
    requires AtReportedEndpoints(rule, rw.retired.Identity(), device)
    requires rw.capabilities.receivingEndpoint == device.receivingEndpoint
    ensures Mirrored(rule.targets, RewrittenTargets(rw, rule.targets), rw.retired.Identity(), rw.successor.Identity())
  {
    hide References;
    hide Moved;
    hide AtReportedEndpoints;
    hide Occupied;
    hide TargetFollows;
    hide MovesFrom;
    hide MovesTo;
    hide RewrittenTargets;
    var retired, successor := rw.retired.Identity(), rw.successor.Identity();
    MovedTargetsAreKept(rw, rule.targets);
    KeptTargetsAreMoved(rw, rule.targets);
    var ks := RewrittenTargets(rw, rule.targets);
    forall k | k in ks ensures MovesFrom(rule.targets, k, retired, successor) {
      var t :| t in rule.targets && k == Moved(rw, t);
      MovedFollows(rw, rule, device, t);
      FollowsFrom(rule.targets, t, k, retired, successor);
    }
    forall t | t in rule.targets ensures MovesTo(t, ks, retired, successor) {
      MovedFollows(rw, rule, device, t);
      SamePlaceFollows(ks, t, Moved(rw, t), retired, successor);
    }
  }

  lemma FollowsFrom(ts: seq<RuleTarget>, t: RuleTarget, k: RuleTarget, retired: string, successor: string)
    requires t in ts && TargetFollows(t, k, retired, successor)
    ensures MovesFrom(ts, k, retired, successor)
  {
  }

  lemma SamePlaceFollows(ks: seq<RuleTarget>, t: RuleTarget, place: RuleTarget, retired: string, successor: string)
    requires Occupied(ks, place) && TargetFollows(t, place, retired, successor)
    ensures MovesTo(t, ks, retired, successor)
  {
    var k :| k in ks && SamePlace(k, place);
    assert TargetFollows(t, k, retired, successor);
  }

  /** A link between other devices is not touched by the swap. */
  lemma UnnamedIsUntouched(rule: Rule, net: Network, l: Link, retired: string, successor: string)
    requires SameCapabilities(net, retired, successor) && !References(rule, retired) && l in Compile(rule, net).links
    ensures SwapLink(l, net, retired, successor) == l
  {
    hide Compile;
    CompilationIsSound(rule, net, l);
  }

  /**
   A swap onto a device with the old one's capabilities keeps what every rule means: each rule
   afterwards compiles to exactly its links from before with the old device replaced, in both
   directions of a two-way rule.
   */
  lemma SameModelSwapKeepsMeaning(retired: DeviceHandle, successor: DeviceHandle, rules: seq<Rule>, net: Network,
          i: nat)
    requires i < |rules| && UniqueIds(rules)
    requires successor.Identity() in net && SameCapabilities(net, retired.Identity(), successor.Identity())
    requires Propose(retired, successor, rules, net, map[]).errors == []
    requires References(rules[i], retired.Identity()) ==>
      !References(rules[i], successor.Identity()) &&
        AtReportedEndpoints(rules[i], retired.Identity(), net[retired.Identity()])
    ensures (set l | l in Compile(Propose(retired, successor, rules, net, map[]).RulesAfter(rules)[i], net).links) ==
      SwappedSet(Compile(rules[i], net).links, net, retired.Identity(), successor.Identity())
  {
    hide Compile;
    hide Rewrite;
    hide RewriterFor;
    hide Propose;
    hide UniqueIds;
    hide SwapLink;
    hide Mirrored;
    var r, s := retired.Identity(), successor.Identity();
    var rule := rules[i];
    var after := Propose(retired, successor, rules, net, map[]).RulesAfter(rules)[i];
    RuleAfterIs(retired, successor, rules, net, map[], i);
    if References(rule, r) {
      RewrittenRuleFollows(retired, successor, rules, net, rule);
      RewriteCommutes(rule, after, net, r, s);
    } else {
      forall l | l in Compile(rule, net).links ensures SwapLink(l, net, r, s) == l {
        UnnamedIsUntouched(rule, net, l, r, s);
      }
    }
  }

  lemma RewrittenRuleFollows(retired: DeviceHandle, successor: DeviceHandle, rules: seq<Rule>, net: Network, rule: Rule)
    requires rule in rules && References(rule, retired.Identity()) && !References(rule, successor.Identity())
    requires successor.Identity() in net && SameCapabilities(net, retired.Identity(), successor.Identity())
    requires AtReportedEndpoints(rule, retired.Identity(), net[retired.Identity()])
    ensures Rewrite(RewriterFor(retired, successor, rules, net, map[]), rule).Some?
    ensures var after := Rewrite(RewriterFor(retired, successor, rules, net, map[]), rule).value.after;
      && Follows(rule, after, retired.Identity(), successor.Identity())
      && Mirrored(rule.targets, after.targets, retired.Identity(), successor.Identity())
  {
    hide Mirrored;
    hide RewriterFor;
    hide OfferedAs;
    var rw := RewriterFor(retired, successor, rules, net, map[]);
    RewriterIsFor(retired, successor, rules, net, map[]);
    TargetsAreMirrored(rw, rule, net[retired.Identity()]);
    if rule.source.device.Identity() == retired.Identity() {
      SameControlIsKept(retired, successor, rules, net, rule);
    }
  }

  /** So the fingerprints written are the original ones with the old device replaced. */
  lemma SameModelSwapKeepsFingerprints(retired: DeviceHandle, successor: DeviceHandle, rules: seq<Rule>,
          net: Network, i: nat, f: string)
    requires i < |rules| && UniqueIds(rules)
    requires successor.Identity() in net && SameCapabilities(net, retired.Identity(), successor.Identity())
    requires Propose(retired, successor, rules, net, map[]).errors == []
    requires References(rules[i], retired.Identity()) ==>
      !References(rules[i], successor.Identity()) &&
        AtReportedEndpoints(rules[i], retired.Identity(), net[retired.Identity()])
    ensures (exists m | m in Compile(Propose(retired, successor, rules, net, map[]).RulesAfter(rules)[i], net).links ::
      Fingerprint(m) == f) <==>
      (exists l | l in Compile(rules[i], net).links ::
        Fingerprint(SwapLink(l, net, retired.Identity(), successor.Identity())) == f)
  {
    hide Compile;
    hide Propose;
    hide UniqueIds;
    hide References;
    hide SameCapabilities;
    hide Fingerprint;
    hide SwapLink;
    SameModelSwapKeepsMeaning(retired, successor, rules, net, i);
    var ms := Compile(Propose(retired, successor, rules, net, map[]).RulesAfter(rules)[i], net).links;
    var ls := Compile(rules[i], net).links;
    assert forall m :: m in ms <==> m in SwappedSet(ls, net, retired.Identity(), successor.Identity());
    if l :| l in ls && Fingerprint(SwapLink(l, net, retired.Identity(), successor.Identity())) == f {
      assert SwapLink(l, net, retired.Identity(), successor.Identity()) in ms;
    }
  }

  lemma SameSwitch(rule: Rule, after: Rule, retired: string, successor: string)
    requires Follows(rule, after, retired, successor)
    ensures after.enabled == rule.enabled
  {
  }

  lemma DisabledIsEmpty(rule: Rule, net: Network)
    requires !rule.enabled
    ensures Compile(rule, net).links == []
  {
  }
}
