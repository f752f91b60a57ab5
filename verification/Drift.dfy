/**
 What a rule is doing (custom_components/device_links/coordinator.py, `_rule_state`), and that
 it agrees with what planning would do.
 */
module Drift {
  import opened Wrappers
  import opened Orders
  import opened Models
  import opened Fingerprints
  import opened Compiler
  import opened CompilerProperties
  import opened Planner
  import opened PlannerProperties
  import opened Caches
  import opened CacheProperties
  import opened Rollbacks

  datatype RuleState = InSync | Drifted | Pending | Disabled | Unknown | Blocked

  function DevicesOf(rule: Rule): set<string> {
    {rule.source.device.Identity()} + set t | t in rule.targets :: t.device.Identity()
  }

  /** The fingerprint of every link every readable device holds. */
  function Present(c: Cache): set<string> {
    set id, e | id in c.observed && c.Available(id) && e in c.observed[id].links :: Fingerprint(e.link)
  }

  /** The questions in the order that keeps the answer honest. */
  function StateOf(c: Cache, rule: Rule, applied: set<string>, hybridAllowed: bool): RuleState {
    if !rule.enabled then Disabled
    else if exists id | id in DevicesOf(rule) :: !c.Available(id) then Unknown
    else if LinksOf(c, rule.id) == [] then
      if hybridAllowed && rule.id in c.compiled && c.compiled[rule.id].hybridLegs != [] then InSync else Blocked
    else if forall l | l in LinksOf(c, rule.id) :: Fingerprint(l) in Present(c) then InSync
    else if rule.id !in applied then Pending
    else Drifted
  }

  /** A plan has something to do, or to say it cannot do, about one of these links. */
  ghost predicate HasWorkFor(plan: Plan, links: seq<Link>) {
    exists item, l | item in plan.items && l in links :: !item.about.NoLink? && ItemFingerprint(item) == Fingerprint(l)
  }

  lemma {:induction false} CompiledIs(rules: seq<Rule>, net: Network, rule: Rule)
    requires rule in rules && forall r | r in rules && r.id == rule.id :: r == rule
    ensures rule.id in CompiledOf(rules, net) && CompiledOf(rules, net)[rule.id].links == Claims(rule, net)
  {
    hide Compile;
    var front, last := rules[..|rules| - 1], rules[|rules| - 1];
    assert rules == front + [last];
    if last.id == rule.id {
      assert last == rule;
    } else {
      CompiledIs(front, net, rule);
    }
  }

  lemma ClaimsAreCompiled(c: Cache, net: Network, r: Rule)
    requires CacheInv(c) && IndexedBy(c, net) && r in c.Rules()
    ensures LinksOf(c, r.id) == Claims(r, net)
  {
    hide OwnersOf;
    hide DesiredOf;
    hide CompiledOf;
    hide DeviceHonest;
    hide IndexHonest;
    hide Claims;
    hide Rule.Valid;
    forall s | s in c.Rules() && s.id == r.id ensures s == r {
      SameIdSameRule(c.profile.value, s, r);
    }
    CompiledIs(c.Rules(), net, r);
  }

  /** A rule's links start at its source or, the other way round, at one of its targets. */
  lemma LinksStartAtOwnDevices(c: Cache, net: Network, rule: Rule, l: Link)
    requires CacheInv(c) && IndexedBy(c, net) && Coherent(net) && rule in c.Rules() && l in LinksOf(c, rule.id)
    ensures l.source.Identity() in DevicesOf(rule)
  {
    hide Compile;
    hide IndexedBy;
    hide Coherent;
    hide CacheInv;
    hide Rule.Valid;
    ClaimsAreCompiled(c, net, rule);
    CompilationIsSound(rule.WithEnabled(true), net, l);
  }

  /** What an enabled rule of the profile compiled to is wanted. */
  lemma LinksAreWanted(c: Cache, rule: Rule, l: Link)
    requires CacheInv(c) && rule in c.Rules() && rule.enabled && l in LinksOf(c, rule.id)
    ensures l in c.desired
  {
    hide OwnersOf;
    hide DesiredOf;
    hide CompiledOf;
    hide DeviceHonest;
    hide Claims;
    hide Rule.Valid;
    assert IndexHonest(c);
    var net :| IndexedBy(c, net);
    forall r | r in c.Rules() && r.id == rule.id ensures r == rule {
      SameIdSameRule(c.profile.value, r, rule);
    }
    CompiledIs(c.Rules(), net, rule);
    DesiredAre(c.Rules(), net, l);
  }

  lemma SameIdSameRule(p: Profile, r: Rule, s: Rule)
    requires p.Valid() && r in p.rules && s in p.rules && r.id == s.id
    ensures r == s
  {
    hide Rule.Valid;
    var i :| 0 <= i < |p.rules| && p.rules[i] == r;
    var j :| 0 <= j < |p.rules| && p.rules[j] == s;
    assert i == j;
  }

  lemma EverythingInScope(c: Cache, id: string)
    ensures id in IdentitiesInScope(c, None) <==> c.Available(id)
  {
  }

  /** What is present is what an unscoped plan is built from. */
  lemma PresentIsPlannedFrom(c: Cache, f: string)
    requires CacheInv(c)
    ensures f in PlanInputs(c, None, {}, None).present <==> f in Present(c)
  {
    hide Fingerprint;
    hide IdentitiesInScope;
    hide PlanInputs;
    hide IndexHonest;
    hide OwnerHonest;
    if f in PlanInputs(c, None, {}, None).present {
      PresentIsAvailable(c, None, {}, None, f);
    }
    if f in Present(c) {
      var id, e :| id in c.observed && c.Available(id) && e in c.observed[id].links && Fingerprint(e.link) == f;
      EverythingInScope(c, id);
      assert DeviceHonest(id, c.observed[id], c.owners);
      InScopeIsPresent(c, None, {}, None, e);
    }
  }

  /** A wanted link has an item in the plan exactly when it is not present. */
  lemma WorkIsForMissing(c: Cache, plan: Plan, l: Link)
    requires CacheInv(c) && IsScopedPlan(c, None, {}, None, plan) && l in c.desired && c.Available(l.source.Identity())
    ensures (exists item | item in plan.items :: !item.about.NoLink? && ItemFingerprint(item) == Fingerprint(l)) <==>
      Fingerprint(l) !in Present(c)
  {
    hide Fingerprint;
    hide IsPlan;
    hide PlanInputs;
    hide Present;
    hide CacheInv;
    hide ItemFingerprint;
    hide IdentitiesInScope;
    hide VerdictOf;
    var whole :| Narrows(c, None, {}, None, plan, whole);
    var inp := PlanInputs(c, None, {}, None);
    var f := Fingerprint(l);
    PlanInputsKeyed(c, None, {}, None);
    PlanHasItems(inp, whole);
    PresentIsPlannedFrom(c, f);
    EverythingInScope(c, l.source.Identity());
    WishesInScopeAreWanted(c, None, {}, None, l);
    if item :| item in plan.items && !item.about.NoLink? && ItemFingerprint(item) == f {
      var i :| 0 <= i < |whole.items| && whole.items[i] == item;
      ItemShape(inp, whole.items, i);
    }
    if f !in Present(c) {
      ItemKeyEndsInFingerprint(inp, f);
      MissingHasItem(inp, whole.items, f);
    }
  }

  lemma MissingHasItem(inp: Inputs, items: seq<PlanItem>, f: string)
    requires Keyed(inp) && IsItems(inp, items) && Missing(inp, f)
    ensures exists item | item in items :: !item.about.NoLink? && ItemFingerprint(item) == f
  {
    hide Fingerprint;
    hide VerdictOf;
    hide WordsLess;
    assert Planned(inp, f);
    var i :| 0 <= i < |items| && items[i] == ItemFor(inp, f);
    ItemKeyEndsInFingerprint(inp, f);
    ItemShape(inp, items, i);
    assert items[i] in items;
  }

  /**
   Drift and planning agree.

   Of an enabled rule whose devices all answer and that compiles to links, in sync means that
   an unscoped plan has nothing to do about any of them; drifted and pending mean that it has.
   */
  lemma DriftAgreesWithPlanning(c: Cache, net: Network, rule: Rule, applied: set<string>, hybridAllowed: bool,
          plan: Plan)
    requires CacheInv(c) && rule in c.Rules() && rule.enabled && LinksOf(c, rule.id) != []
    requires forall id | id in DevicesOf(rule) :: c.Available(id)
    requires IndexedBy(c, net) && Coherent(net)
    requires IsScopedPlan(c, None, {}, None, plan)
    ensures StateOf(c, rule, applied, hybridAllowed) in {InSync, Pending, Drifted}
    ensures StateOf(c, rule, applied, hybridAllowed) == InSync <==> !HasWorkFor(plan, LinksOf(c, rule.id))
  {
    hide Fingerprint;
    hide CacheInv;
    hide Present;
    hide ItemFingerprint;
    hide IsScopedPlan;
    hide DevicesOf;
    hide IndexedBy;
    hide Coherent;
    hide Rule.Valid;
    var links := LinksOf(c, rule.id);
    forall l | l in links ensures
      (exists item | item in plan.items :: !item.about.NoLink? && ItemFingerprint(item) == Fingerprint(l)) <==>
        Fingerprint(l) !in Present(c)
    {
      LinksAreWanted(c, rule, l);
      LinksStartAtOwnDevices(c, net, rule, l);
      WorkIsForMissing(c, plan, l);
    }
    if l :| l in links && Fingerprint(l) !in Present(c) {
      var item :| item in plan.items && !item.about.NoLink? && ItemFingerprint(item) == Fingerprint(l);
      assert HasWorkFor(plan, links);
    }
  }
}
