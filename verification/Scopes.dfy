/** Narrowing a plan to rules: applying some rules does those rules' work and nothing else. */
module Scopes {
  import opened Wrappers
  import opened Orders
  import opened Models
  import opened Fingerprints
  import opened Compiler
  import opened CompilerProperties
  import opened SwapProperties
  import opened Planner
  import opened PlannerProperties
  import opened Caches
  import opened CacheProperties
  import opened Rollbacks
  import opened Drift

  /** A rule of the profile compiles to this write. */
  ghost predicate Asked(c: Cache, ruleId: string, f: string) {
    exists l | l in LinksOf(c, ruleId) :: Fingerprint(l) == f
  }

  lemma ClaimsCarryTheirRule(rule: Rule, net: Network, l: Link)
    requires l in Claims(rule, net)
    ensures l.ruleId == Some(rule.id)
  {
    hide Compile;
    hide TargetOut;
    var on := rule.WithEnabled(true);
    CompiledLinks(on, net, l);
    var t :| t in on.targets && Yields(on, net, t, l);
    YieldedCarriesRule(on, net, t, l);
  }

  lemma YieldedCarriesRule(rule: Rule, net: Network, t: RuleTarget, l: Link)
    requires Yields(rule, net, t, l)
    ensures l.ruleId == Some(rule.id)
  {
    hide LegOut;
    hide FindEmitter;
    hide Taken;
    var source := SourceOf(rule, net).value;
    var emitter := FindEmitter(source.emitters, rule.source.emitterId).value;
    var receiver := net[t.device.Identity()];
    FeatureListIs(Carried(rule, emitter));
    var fs := FeatureList(Carried(rule, emitter));
    var back := FeatureList(Carried(rule, emitter) + Taken(rule).Keys);
    LegLinks(rule, Leg(source, rule.source.endpoint, emitter, receiver, t.endpoint), fs, l);
    EmitterCarryingCarries(receiver.emitters, back);
    if EmitterCarrying(receiver.emitters, back).Some? {
      var e := EmitterCarrying(receiver.emitters, back).value;
      LegLinks(rule, Leg(receiver, e.endpoint, e, source, ReverseEndpoint(rule, source)), back, l);
    }
  }

  /** What is wanted carries the id of a rule that compiles to it. */
  lemma WantedCarryTheirRule(c: Cache, l: Link)
    requires CacheInv(c) && l in c.desired
    ensures l.ruleId.Some? && Asked(c, l.ruleId.value, Fingerprint(l))
  {
    hide OwnersOf;
    hide DesiredOf;
    hide CompiledOf;
    hide DeviceHonest;
    hide Claims;
    hide Rule.Valid;
    hide Fingerprint;
    assert IndexHonest(c);
    var net :| IndexedBy(c, net);
    DesiredAre(c.Rules(), net, l);
    var r :| r in c.Rules() && r.enabled && l in Claims(r, net);
    ClaimsCarryTheirRule(r, net, l);
    ClaimsAreCompiled(c, net, r);
  }

  /** What is owned is compiled to by its owner. */
  lemma OwnersAsk(c: Cache, f: string)
    requires CacheInv(c) && f in c.owners
    ensures Asked(c, c.owners[f], f)
  {
    hide OwnersOf;
    hide DesiredOf;
    hide CompiledOf;
    hide DeviceHonest;
    hide Claims;
    hide Fingerprint;
    hide Rule.Valid;
    assert IndexHonest(c);
    var net :| IndexedBy(c, net);
    OwnerIsFirst(c.Rules(), net, f);
    var i :| FirstToAsk(c.Rules(), net, f, i);
    var r := c.Rules()[i];
    assert r in c.Rules() && Asks(r, net, f);
    ClaimsAreCompiled(c, net, r);
    var l :| l in Claims(r, net) && Fingerprint(l) == f;
  }

  /**
   Applying some rules does only their work.

   Every item of a rule-scoped plan is a write one of those rules compiles to, or the removal
   of an entry nobody owns that the user selected.
   */
  lemma ScopedPlansDoOnlyTheirRulesWork(c: Cache, scope: PlanScope, selected: set<string>, plan: Plan, item: PlanItem)
    requires CacheInv(c) && Exact(c) && scope.ruleIds != {}
    requires IsScopedPlan(c, Some(scope), selected, None, plan) && item in plan.items
    ensures !item.about.NoLink?
    ensures (exists r | r in scope.ruleIds :: Asked(c, r, ItemFingerprint(item))) ||
      (item.op == RemoveOp && item.about.Found? && item.about.entry.managedBy.None? &&
        ItemFingerprint(item) in selected)
  {
    hide Fingerprint;
    hide PlanInputs;
    hide CacheInv;
    hide Exact;
    hide Asked;
    hide IsPlan;
    hide Keyed;
    hide IdentitiesInScope;
    hide VerdictOf;
    hide Filter;
    var whole :| Narrows(c, Some(scope), selected, None, plan, whole);
    NarrowedIsPart(whole.items, Some(scope), selected, item);
    assert IsScopedWork(item, scope.ruleIds, selected);
    var inp := PlanInputs(c, Some(scope), selected, None);
    PlanInputsKeyed(c, Some(scope), selected, None);
    PlanHasItems(inp, whole);
    var i :| 0 <= i < |whole.items| && whole.items[i] == item;
    ItemShape(inp, whole.items, i);
    var f := ItemFingerprint(item);
    if item.op == RemoveOp {
      PresentIsAvailable(c, Some(scope), selected, None, f);
      EntryIsExact(c, item.about.entry);
      if item.about.entry.managedBy.Some? {
        OwnersAsk(c, f);
      }
    } else {
      WantedIsAvailable(c, Some(scope), selected, None, f);
      WantedCarryTheirRule(c, inp.wanted[f]);
    }
  }

  lemma EntryIsExact(c: Cache, e: ObservedLink)
    requires Exact(c) && e.link.source.Identity() in c.observed && e in c.observed[e.link.source.Identity()].links
    ensures OwnedExactly(e, c.owners)
  {
    hide OwnedExactly;
  }
}
