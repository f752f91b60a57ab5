/** What every run of the coordinator keeps, and what that means for what is ever planned. */
module CacheProperties {
  import opened Wrappers
  import opened Orders
  import opened Models
  import opened Fingerprints
  import opened Compiler
  import opened Planner
  import opened PlannerProperties
  import opened Caches

  // The index says who came first.

  predicate Asks(rule: Rule, net: Network, f: string) {
    exists l | l in Claims(rule, net) :: Fingerprint(l) == f
  }

  ghost predicate FirstToAsk(rules: seq<Rule>, net: Network, f: string, i: int) {
    0 <= i < |rules| && Asks(rules[i], net, f) && forall j | 0 <= j < i :: !Asks(rules[j], net, f)
  }

  lemma {:induction false} ClaimIs(owners: map<string, string>, links: seq<Link>, id: string, f: string)
    ensures f in Claim(owners, links, id) <==> f in owners || exists l | l in links :: Fingerprint(l) == f
    ensures f in owners ==> Claim(owners, links, id)[f] == owners[f]
    ensures f !in owners && f in Claim(owners, links, id) ==> Claim(owners, links, id)[f] == id
  {
    hide Fingerprint;
    if links != [] {
      ClaimIs(owners, links[..|links| - 1], id, f);
      assert links == links[..|links| - 1] + [links[|links| - 1]];
    }
  }

  /** The owner of a fingerprint is the first rule of the profile that asks for it, enabled or not. */
  lemma {:induction false} OwnerIsFirst(rules: seq<Rule>, net: Network, f: string)
    ensures f in OwnersOf(rules, net) <==> exists r | r in rules :: Asks(r, net, f)
    ensures forall i | FirstToAsk(rules, net, f, i) ::
      f in OwnersOf(rules, net) && OwnersOf(rules, net)[f] == rules[i].id
    ensures f in OwnersOf(rules, net) ==> exists i :: FirstToAsk(rules, net, f, i)
  {
    hide Claims;
    hide Claim;
    hide Fingerprint;
    if rules != [] {
      var front, last := rules[..|rules| - 1], rules[|rules| - 1];
      assert rules == front + [last];
      OwnerIsFirst(front, net, f);
      ClaimIs(OwnersOf(front, net), Claims(last, net), last.id, f);
      assert Asks(last, net, f) <==> exists l | l in Claims(last, net) :: Fingerprint(l) == f;
      if f in OwnersOf(front, net) {
        var i :| FirstToAsk(front, net, f, i);
        assert FirstToAsk(rules, net, f, i);
      } else if Asks(last, net, f) {
        forall j | 0 <= j < |front| ensures !Asks(front[j], net, f) {
          assert front[j] in front;
        }
        assert FirstToAsk(rules, net, f, |front|);
      }
      forall i | FirstToAsk(rules, net, f, i)
        ensures f in OwnersOf(rules, net) && OwnersOf(rules, net)[f] == rules[i].id
      {
        if i < |front| {
          assert FirstToAsk(front, net, f, i);
        } else {
          forall r | r in front ensures !Asks(r, net, f) {
            var j :| 0 <= j < |front| && front[j] == r;
            assert !Asks(rules[j], net, f);
          }
        }
      }
    }
  }

  /** What is wanted is what the enabled rules ask for. */
  lemma {:induction false} DesiredAre(rules: seq<Rule>, net: Network, l: Link)
    ensures l in DesiredOf(rules, net) <==> exists r | r in rules && r.enabled :: l in Claims(r, net)
  {
    hide Claims;
    if rules != [] {
      DesiredAre(rules[..|rules| - 1], net, l);
      assert rules == rules[..|rules| - 1] + [rules[|rules| - 1]];
    }
  }

  // The invariant.

  /** An entry's owner is nobody or the index's, and a system link has none. */
  ghost predicate OwnerHonest(e: ObservedLink, owners: map<string, string>) {
    e.managedBy.None? ||
      (!e.isSystem && Fingerprint(e.link) in owners && e.managedBy.value == owners[Fingerprint(e.link)])
  }

  ghost predicate DeviceHonest(id: string, device: ObservedDevice, owners: map<string, string>) {
    forall e | e in device.links :: e.link.source.Identity() == id && OwnerHonest(e, owners)
  }

  /** The index, the wishes and the profile agree, over capabilities as they were at some moment. */
  ghost predicate IndexHonest(c: Cache) {
    exists net: Network :: IndexedBy(c, net)
  }

  ghost predicate IndexedBy(c: Cache, net: Network) {
    c.owners == OwnersOf(c.Rules(), net) && c.desired == DesiredOf(c.Rules(), net) &&
      c.compiled == CompiledOf(c.Rules(), net)
  }

  ghost predicate CacheInv(c: Cache) {
    && (c.profile.Some? ==> c.profile.value.Valid())
    && IndexHonest(c)
    && forall id | id in c.observed :: DeviceHonest(id, c.observed[id], c.owners)
  }

  lemma OwnedKeepsTheLink(e: ObservedLink, owners: map<string, string>)
    ensures Fingerprint(Owned(e, owners).link) == Fingerprint(e.link)
    ensures Owned(e, owners).link.source == e.link.source && Owned(e, owners).isSystem == e.isSystem
    ensures OwnerHonest(Owned(e, owners), owners)
    ensures Owned(e, owners).managedBy == if e.isSystem then None else OwnerOf(owners, Fingerprint(e.link))
    ensures Owned(e, owners).link.ruleId == Owned(e, owners).managedBy
  {
    hide JoinEscaped;
    assert IdentityFields(Owned(e, owners).link) == IdentityFields(e.link);
  }

  lemma StampedIsHonest(id: string, device: ObservedDevice, owners: map<string, string>)
    requires forall e | e in device.links :: e.link.source.Identity() == id
    ensures DeviceHonest(id, device.(links := OwnedLinks(device.links, owners)), owners)
  {
    hide Owned;
    hide OwnerHonest;
    var links := OwnedLinks(device.links, owners);
    forall e | e in links ensures e.link.source.Identity() == id && OwnerHonest(e, owners) {
      var i :| 0 <= i < |links| && links[i] == e;
      assert device.links[i] in device.links;
      OwnedKeepsTheLink(device.links[i], owners);
    }
  }

  lemma ResolveKeepsInv(c: Cache)
    requires c.profile.Some? ==> c.profile.value.Valid()
    requires forall id | id in c.observed :: forall e | e in c.observed[id].links :: e.link.source.Identity() == id
    ensures CacheInv(Resolve(c))
  {
    hide OwnersOf;
    hide DesiredOf;
    hide CompiledOf;
    hide DeviceHonest;
    hide OwnedLinks;
    var d := Resolve(c);
    assert IndexedBy(d, c.capabilities);
    forall id | id in d.observed ensures DeviceHonest(id, d.observed[id], d.owners) {
      StampedIsHonest(id, c.observed[id], d.owners);
    }
  }

  lemma SameIndexIsHonest(c: Cache, d: Cache)
    requires IndexHonest(c) && d.profile == c.profile && d.owners == c.owners && d.desired == c.desired &&
      d.compiled == c.compiled
    ensures IndexHonest(d)
  {
    hide OwnersOf;
    hide DesiredOf;
    hide CompiledOf;
    var net :| IndexedBy(c, net);
    assert IndexedBy(d, net);
  }

  lemma ReportedIsHonest(id: string, device: ObservedDevice, owners: map<string, string>)
    requires Reported(id, device)
    ensures DeviceHonest(id, device, owners)
  {
    hide Fingerprint;
  }

  lemma HonestIsSourced(c: Cache)
    requires CacheInv(c)
    ensures forall id | id in c.observed :: forall e | e in c.observed[id].links :: e.link.source.Identity() == id
  {
    hide OwnerHonest;
    hide IndexHonest;
  }

  lemma StepKeepsCacheInv(c: Cache, s: Step)
    requires CacheInv(c) && Honest(s)
    ensures CacheInv(Next(c, s))
  {
    hide IndexHonest;
    hide DeviceHonest;
    hide Reported;
    hide Resolve;
    match s
    case Resolving => HonestIsSourced(c); ResolveKeepsInv(c);
    case Activating(profile) =>
      HonestIsSourced(c);
      ResolveKeepsInv(c.(profile := profile));
    case Read(handle, Some(a)) =>
      SameIndexIsHonest(c, Next(c, s));
      ReportedIsHonest(handle.Identity(), a.1, c.owners);
    case _ => SameIndexIsHonest(c, Next(c, s));
  }

  /**
   Over every run of reads, listings, losses and profile changes, an entry's owner is nobody
   or exactly the index's owner of its fingerprint, and never anybody on a system link.
   */
  lemma {:induction false} OwnershipHolds(steps: seq<Step>)
    requires forall s | s in steps :: Honest(s)
    ensures CacheInv(Run(EMPTY, steps))
  {
    hide Next;
    hide Honest;
    hide CacheInv;
    if steps == [] {
      EmptyIsHonest();
    } else {
      var front, last := steps[..|steps| - 1], steps[|steps| - 1];
      OwnershipHolds(front);
      StepKeepsCacheInv(Run(EMPTY, front), last);
    }
  }

  lemma EmptyIsHonest()
    ensures CacheInv(EMPTY)
  {
    assert IndexedBy(EMPTY, map[]);
  }

  /**
   Right after ownership is resolved the answer is exact: every entry that is not a system link has the
   index's owner.
   */
  lemma ResolvedIsExact(c: Cache, id: string, e: ObservedLink)
    requires id in c.observed && e in Resolve(c).observed[id].links
    ensures e.managedBy == if e.isSystem then None else OwnerOf(Resolve(c).owners, Fingerprint(e.link))
    ensures e.link.ruleId == e.managedBy
  {
    hide OwnersOf;
    hide Owned;
    hide Fingerprint;
    var owners := Resolve(c).owners;
    var links := OwnedLinks(c.observed[id].links, owners);
    var i :| 0 <= i < |links| && links[i] == e;
    OwnedKeepsTheLink(c.observed[id].links[i], owners);
  }

  /** Resolving ownership again, with nothing new, changes nothing. */
  lemma ResolvingSettles(c: Cache)
    ensures Resolve(Resolve(c)) == Resolve(c)
  {
    hide OwnersOf;
    hide DesiredOf;
    hide CompiledOf;
    hide Owned;
    var d := Resolve(c);
    forall id | id in d.observed ensures OwnedLinks(d.observed[id].links, d.owners) == d.observed[id].links {
      OwnedTwice(c.observed[id].links, d.owners);
    }
    assert Stamped(d.observed, d.owners) == d.observed;
  }

  lemma OwnedTwice(es: seq<ObservedLink>, owners: map<string, string>)
    ensures OwnedLinks(OwnedLinks(es, owners), owners) == OwnedLinks(es, owners)
  {
    hide Fingerprint;
    forall i | 0 <= i < |es| ensures Owned(Owned(es[i], owners), owners) == Owned(es[i], owners) {
      OwnedKeepsTheLink(es[i], owners);
    }
  }

  // What may be planned.

  lemma {:induction false} ObservedInAre(c: Cache, ids: seq<string>, e: ObservedLink)
    requires forall id | id in ids :: id in c.observed
    ensures e in ObservedIn(c, ids) <==> exists id | id in ids :: e in c.observed[id].links
  {
    if ids != [] {
      var front, last := ids[..|ids| - 1], ids[|ids| - 1];
      assert ids == front + [last];
      ObservedInAre(c, front, e);
    }
  }

  /** What a plan's inputs file under a fingerprint was read off an available device in scope. */
  lemma PresentIsAvailable(c: Cache, scope: Option<PlanScope>, selected: set<string>, desired: Option<seq<Link>>,
          f: string)
    requires CacheInv(c) && f in PlanInputs(c, scope, selected, desired).present
    ensures
      var e := PlanInputs(c, scope, selected, desired).present[f];
      var id := e.link.source.Identity();
      id in IdentitiesInScope(c, scope) && c.Available(id) && e in c.observed[id].links && Fingerprint(e.link) == f
  {
    hide IndexHonest;
    hide Fingerprint;
    hide OwnerHonest;
    hide PresentMap;
    hide WantedMap;
    hide WantedIn;
    var ids := SortedStrings(IdentitiesInScope(c, scope));
    var observed := ObservedIn(c, ids);
    PresentMapKeyed(observed);
    var e := PlanInputs(c, scope, selected, desired).present[f];
    ObservedInAre(c, ids, e);
  }

  lemma WantedIsAvailable(c: Cache, scope: Option<PlanScope>, selected: set<string>, desired: Option<seq<Link>>,
          f: string)
    requires f in PlanInputs(c, scope, selected, desired).wanted
    ensures
      var l := PlanInputs(c, scope, selected, desired).wanted[f];
      l in Wishes(c, desired) && l.source.Identity() in IdentitiesInScope(c, scope) &&
        c.Available(l.source.Identity()) && Fingerprint(l) == f
  {
    hide Fingerprint;
    hide PresentMap;
    hide WantedMap;
    hide ObservedIn;
    hide Filter;
    WantedMapKeyed(WantedIn(Wishes(c, desired), IdentitiesInScope(c, scope)));
  }

  /** What is wanted of a device in scope is in the plan's inputs. */
  lemma WishesInScopeAreWanted(c: Cache, scope: Option<PlanScope>, selected: set<string>,
          desired: Option<seq<Link>>, l: Link)
    requires l in Wishes(c, desired) && l.source.Identity() in IdentitiesInScope(c, scope)
    ensures Fingerprint(l) in PlanInputs(c, scope, selected, desired).wanted
  {
    hide Fingerprint;
    hide PresentMap;
    hide WantedMap;
    hide ObservedIn;
    hide Filter;
    WantedMapKeyed(WantedIn(Wishes(c, desired), IdentitiesInScope(c, scope)));
  }

  lemma NarrowedIsPart(items: seq<PlanItem>, scope: Option<PlanScope>, selected: set<string>, item: PlanItem)
    requires item in Narrowed(items, scope, selected)
    ensures item in items
  {
    hide IsScopedWork;
  }

  /** Every item of a plan is about a device that answered the last time it was asked. */
  lemma PlansTouchOnlyAvailableDevices(c: Cache, scope: Option<PlanScope>, selected: set<string>,
          desired: Option<seq<Link>>, plan: Plan, item: PlanItem)
    requires CacheInv(c) && IsScopedPlan(c, scope, selected, desired, plan) && item in plan.items
    ensures c.Available(item.device) && item.device in IdentitiesInScope(c, scope)
  {
    hide CacheInv;
    hide PlanInputs;
    hide Narrowed;
    hide IdentitiesInScope;
    hide Fingerprint;
    hide Token;
    hide IsUnmanaged;
    hide VerdictOf;
    var whole :| Narrows(c, scope, selected, desired, plan, whole);
    NarrowedIsPart(whole.items, scope, selected, item);
    var inp := PlanInputs(c, scope, selected, desired);
    assert IsItemOf(inp, item);
    var f :| Planned(inp, f) && item == ItemFor(inp, f);
    if Removable(inp, f) {
      PresentIsAvailable(c, scope, selected, desired, f);
    } else {
      WantedIsAvailable(c, scope, selected, desired, f);
    }
  }

  /** Somebody's rule in the active profile asks for this fingerprint, and is the first that does. */
  ghost predicate OwnedByProfile(c: Cache, f: string, owner: string) {
    exists net: Network :: IndexedBy(c, net) && OwnedAgainst(c.Rules(), net, f, owner)
  }

  ghost predicate OwnedAgainst(rules: seq<Rule>, net: Network, f: string, owner: string) {
    exists i: int :: FirstToAsk(rules, net, f, i) && rules[i].id == owner
  }

  lemma IndexOwnerIsInProfile(c: Cache, f: string)
    requires CacheInv(c) && f in c.owners
    ensures OwnedByProfile(c, f, c.owners[f])
  {
    hide OwnersOf;
    hide DesiredOf;
    hide CompiledOf;
    hide FirstToAsk;
    hide DeviceHonest;
    hide OwnedAgainst;
    assert IndexHonest(c);
    var net :| IndexedBy(c, net);
    OwnerStandsFirst(c.Rules(), net, f);
  }

  lemma OwnerStandsFirst(rules: seq<Rule>, net: Network, f: string)
    requires f in OwnersOf(rules, net)
    ensures OwnedAgainst(rules, net, f, OwnersOf(rules, net)[f])
  {
    hide OwnersOf;
    hide Asks;
    OwnerIsFirst(rules, net, f);
    var i :| FirstToAsk(rules, net, f, i);
  }

  /**
   What is ever planned for removal, in any state a run can reach: an entry that is no system
   link, that the profile does not want, read off an available device, and either claimed by
   a rule of the active profile or selected by the user.
   */
  lemma EveryRemovalIsOurs(steps: seq<Step>, scope: Option<PlanScope>, selected: set<string>, plan: Plan,
          item: PlanItem)
    requires forall s | s in steps :: Honest(s)
    requires IsScopedPlan(Run(EMPTY, steps), scope, selected, None, plan) && item in plan.items && item.op == RemoveOp
    ensures item.about.Found?
    ensures
      var c, e := Run(EMPTY, steps), item.about.entry;
      var f := Fingerprint(e.link);
      && c.Available(item.device) && e in c.observed[item.device].links
      && !e.isSystem
      && (forall l | l in c.desired :: Fingerprint(l) != f)
      && (f in selected || (e.managedBy.Some? && OwnedByProfile(c, f, e.managedBy.value)))
  {
    hide Run;
    hide Honest;
    var c := Run(EMPTY, steps);
    OwnershipHolds(steps);
    RemovalIsOurs(c, scope, selected, None, plan, item);
  }

  lemma RemovalIsOurs(c: Cache, scope: Option<PlanScope>, selected: set<string>, desired: Option<seq<Link>>,
          plan: Plan, item: PlanItem)
    requires CacheInv(c) && IsScopedPlan(c, scope, selected, desired, plan) && item in plan.items && item.op == RemoveOp
    ensures item.about.Found?
    ensures
      var e := item.about.entry;
      var f := Fingerprint(e.link);
      && c.Available(item.device) && e in c.observed[item.device].links
      && !e.isSystem
      && (forall l | l in Wishes(c, desired) :: Fingerprint(l) != f)
      && (f in selected || (e.managedBy.Some? && OwnedByProfile(c, f, e.managedBy.value)))
  {
    hide PlanInputs;
    hide Narrowed;
    hide IdentitiesInScope;
    hide Fingerprint;
    hide IsPlan;
    hide Keyed;
    hide OwnedByProfile;
    hide IndexHonest;
    hide Wishes;
    var whole :| Narrows(c, scope, selected, desired, plan, whole);
    NarrowedIsPart(whole.items, scope, selected, item);
    var inp := PlanInputs(c, scope, selected, desired);
    PlanInputsKeyed(c, scope, selected, desired);
    RemovalsAreSafe(inp, whole, item);
    var e := item.about.entry;
    var f := Fingerprint(e.link);
    PresentIsAvailable(c, scope, selected, desired, f);
    forall l | l in Wishes(c, desired) ensures Fingerprint(l) != f {
      if Fingerprint(l) == f {
        FingerprintIsIdentity(l, e.link);
        WishesInScopeAreWanted(c, scope, selected, desired, l);
      }
    }
    if f !in selected {
      PlanInputsSelect(c, scope, selected, desired);
      assert DeviceHonest(item.device, c.observed[item.device], c.owners);
      assert OwnerHonest(e, c.owners);
      IndexOwnerIsInProfile(c, f);
    }
  }

  lemma PlanInputsKeyed(c: Cache, scope: Option<PlanScope>, selected: set<string>, desired: Option<seq<Link>>)
    ensures Keyed(PlanInputs(c, scope, selected, desired))
  {
    hide Keyed;
    hide InputsOf;
    var ids := IdentitiesInScope(c, scope);
    InputsKeyed(WantedIn(Wishes(c, desired), ids), ObservedIn(c, SortedStrings(ids)), selected, c.capabilities);
  }

  lemma PlanInputsSelect(c: Cache, scope: Option<PlanScope>, selected: set<string>, desired: Option<seq<Link>>)
    ensures PlanInputs(c, scope, selected, desired).selected == selected
    ensures PlanInputs(c, scope, selected, desired).caps == c.capabilities
  {
  }
}
