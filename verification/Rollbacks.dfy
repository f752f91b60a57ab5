/**
 Rolling a job back (custom_components/device_links/websocket.py, `_build_rollback`).

 A snapshot is proposed again as a plan: its managed links are what is wanted of its devices,
 and everything else is left to the ownership rules every plan obeys.
 */
module Rollbacks {
  import opened Wrappers
  import opened Orders
  import opened Models
  import opened Fingerprints
  import opened Planner
  import opened PlannerProperties
  import opened PlanToken
  import opened Caches
  import opened CacheProperties

  /** What every touched device held before a job's first write. */
  datatype Snapshot = Snapshot(id: string, devices: set<string>, links: seq<ObservedLink>)

  /** What these devices hold, as a snapshot taken now would record it. */
  function TakenNow(c: Cache, id: string, devices: set<string>): Snapshot
    requires forall d | d in devices :: d in c.observed
  {
    Snapshot(id, devices, ObservedIn(c, SortedStrings(devices)))
  }

  function ManagedLinks(links: seq<ObservedLink>): seq<Link> {
    if links == [] then []
    else
      ManagedLinks(links[..|links| - 1]) +
      if links[|links| - 1].managedBy.Some? then [links[|links| - 1].link] else []
  }

  lemma {:induction false} ManagedLinksAre(links: seq<ObservedLink>, l: Link)
    ensures l in ManagedLinks(links) <==> exists e | e in links && e.managedBy.Some? :: e.link == l
  {
    if links != [] {
      assert links == links[..|links| - 1] + [links[|links| - 1]];
      ManagedLinksAre(links[..|links| - 1], l);
    }
  }

  /** The plan a rollback asks for: the snapshot's managed links on the snapshot's devices. */
  ghost predicate IsRollbackPlan(c: Cache, snapshot: Snapshot, selected: set<string>, plan: Plan) {
    IsScopedPlan(c, Some(PlanScope({}, snapshot.devices)), selected, Some(ManagedLinks(snapshot.links)), plan)
  }

  // The arithmetic of undoing, on a plan's inputs.

  /** `before` was there; `removed` went and `added` came. */
  ghost predicate Undoes(inp: Inputs, before: map<string, ObservedLink>, added: set<string>, removed: set<string>) {
    && inp.present.Keys == (before.Keys - removed) + added
    && added !! before.Keys && removed <= before.Keys
    && (forall f | f in before :: Fingerprint(before[f].link) == f)
    && (forall f | f in added :: Removable(inp, f))
    && (forall f | f in inp.present && f !in added :: !Removable(inp, f))
    && (forall f | f in removed :: f in inp.wanted)
    && (forall f | f in inp.wanted :: f in before)
  }

  ghost function HeldBefore(before: map<string, ObservedLink>, slot: Slot): set<string> {
    set f | f in before && SlotOf(before[f].link) == slot
  }

  /** The groups that lost something can take it back. */
  ghost predicate RoomToReturn(inp: Inputs, before: map<string, ObservedLink>, removed: set<string>) {
    forall f | f in removed && f in before ::
      CapacityOf(inp.caps, SlotOf(before[f].link)).Some? &&
      |HeldBefore(before, SlotOf(before[f].link))| <= CapacityOf(inp.caps, SlotOf(before[f].link)).value
  }

  lemma MissingIsRemoved(inp: Inputs, before: map<string, ObservedLink>, added: set<string>, removed: set<string>,
          f: string)
    requires Undoes(inp, before, added, removed)
    ensures Missing(inp, f) <==> f in removed
  {
    hide Fingerprint;
    hide Removable;
  }

  lemma SurvivorsWereThere(inp: Inputs, before: map<string, ObservedLink>, added: set<string>, removed: set<string>,
          slot: Slot)
    requires Keyed(inp) && Undoes(inp, before, added, removed)
    ensures SurvivingIn(inp, slot) <= HeldBefore(before, slot) - removed
  {
    hide Fingerprint;
    hide Removable;
    hide SlotOf;
    forall g | g in SurvivingIn(inp, slot) ensures g in HeldBefore(before, slot) && g !in removed {
      SameFingerprintSameSlot(inp.present[g].link, before[g].link);
    }
  }

  /** The missing links of a group that come before one of them. */
  ghost function Earlier(inp: Inputs, f: string): set<string>
    requires f in inp.wanted
  {
    set g | g in inp.wanted && Missing(inp, g) && SlotOf(inp.wanted[g]) == SlotOf(inp.wanted[f]) && StringLess(g, f)
  }

  lemma EarlierWereThere(inp: Inputs, before: map<string, ObservedLink>, added: set<string>, removed: set<string>,
          f: string)
    requires Keyed(inp) && Undoes(inp, before, added, removed) && f in inp.wanted
    ensures Earlier(inp, f) <= HeldBefore(before, SlotOf(inp.wanted[f])) * removed
    ensures f !in Earlier(inp, f) && Rank(inp, f) == |Earlier(inp, f)|
  {
    hide Fingerprint;
    hide Removable;
    hide SlotOf;
    hide StringLess;
    Orders.StringLessIsTotal();
    forall g | g in Earlier(inp, f) ensures g in HeldBefore(before, SlotOf(inp.wanted[f])) && g in removed {
      MissingIsRemoved(inp, before, added, removed, g);
      SameFingerprintSameSlot(inp.wanted[g], before[g].link);
    }
  }

  lemma ReturningFits(inp: Inputs, before: map<string, ObservedLink>, added: set<string>, removed: set<string>,
          f: string)
    requires Keyed(inp) && Undoes(inp, before, added, removed) && RoomToReturn(inp, before, removed)
    requires f in removed
    ensures f in inp.wanted && VerdictOf(inp, f).Fits?
  {
    hide Fingerprint;
    hide Removable;
    hide CapacityOf;
    hide Rank;
    hide SlotOf;
    hide SurvivingIn;
    hide Earlier;
    SameFingerprintSameSlot(inp.wanted[f], before[f].link);
    var slot := SlotOf(inp.wanted[f]);
    SurvivorsWereThere(inp, before, added, removed, slot);
    EarlierWereThere(inp, before, added, removed, f);
    var surviving, earlier := SurvivingIn(inp, slot), Earlier(inp, f);
    assert f in HeldBefore(before, slot);
    SubsetSize(surviving + earlier + {f}, HeldBefore(before, slot));
    assert surviving !! earlier && f !in surviving;
    assert |surviving + earlier + {f}| == |surviving| + |earlier| + 1;
  }

  /** A plan that undoes removes exactly what was added, adds exactly what was removed, and blocks nothing. */
  lemma UndoingRestores(inp: Inputs, before: map<string, ObservedLink>, added: set<string>, removed: set<string>,
          items: seq<PlanItem>, after: map<string, ObservedLink>)
    requires Keyed(inp) && Undoes(inp, before, added, removed) && RoomToReturn(inp, before, removed)
    requires IsItems(inp, items) && TookEffect(inp.present, items, after)
    ensures after.Keys == before.Keys
    ensures forall item | item in items :: item.op != BlockedOp
  {
    hide Fingerprint;
    hide VerdictOf;
    hide IsItems;
    hide RemovedBy;
    hide AddedBy;
    hide RoomToReturn;
    forall f ensures RemovedBy(items, f) <==> f in added {
      WholePlan(inp, items, f);
    }
    forall f ensures AddedBy(items, f) <==> f in removed {
      WholePlan(inp, items, f);
      MissingIsRemoved(inp, before, added, removed, f);
      if f in removed {
        ReturningFits(inp, before, added, removed, f);
      }
    }
    assert forall f :: f in after <==> f in before;
    forall item | item in items ensures item.op != BlockedOp {
      NothingIsBlocked(inp, before, added, removed, items, item);
    }
  }

  lemma NothingIsBlocked(inp: Inputs, before: map<string, ObservedLink>, added: set<string>, removed: set<string>,
          items: seq<PlanItem>, item: PlanItem)
    requires Keyed(inp) && Undoes(inp, before, added, removed) && RoomToReturn(inp, before, removed)
    requires IsItems(inp, items) && item in items
    ensures item.op != BlockedOp
  {
    hide Fingerprint;
    hide VerdictOf;
    hide RoomToReturn;
    assert IsItemOf(inp, item);
    var f :| Planned(inp, f) && item == ItemFor(inp, f);
    if Missing(inp, f) {
      MissingIsRemoved(inp, before, added, removed, f);
      ReturningFits(inp, before, added, removed, f);
    }
  }

  // Rolling back what a job did.

  /** Ownership has been resolved and nothing read since. */
  ghost predicate Exact(c: Cache) {
    forall id | id in c.observed :: forall e | e in c.observed[id].links :: OwnedExactly(e, c.owners)
  }

  /** An entry's owner, and the rule it is shown under, are the index's. */
  ghost predicate OwnedExactly(e: ObservedLink, owners: map<string, string>) {
    && e.managedBy == (if e.isSystem then None else OwnerOf(owners, Fingerprint(e.link)))
    && e.link.ruleId == e.managedBy
  }

  lemma ResolvedCacheIsExact(c: Cache)
    ensures Exact(Resolve(c))
  {
    hide Resolve;
    hide Fingerprint;
    var d := Resolve(c);
    SameDevices(c);
    forall id | id in d.observed, e | e in d.observed[id].links
      ensures OwnedExactly(e, d.owners) {
      ResolvedIsExact(c, id, e);
    }
  }

  lemma SameDevices(c: Cache)
    ensures Resolve(c).observed.Keys == c.observed.Keys
  {
  }

  ghost predicate AllAvailable(c: Cache, devices: set<string>) {
    forall d | d in devices :: c.Available(d)
  }

  ghost predicate AllRead(c: Cache, devices: set<string>) {
    forall d | d in devices :: d in c.observed
  }

  /** What these devices hold, by fingerprint. */
  function HeldOn(c: Cache, devices: set<string>): map<string, ObservedLink>
    requires forall d | d in devices :: d in c.observed
  {
    PresentMap(ObservedIn(c, SortedStrings(devices)))
  }

  /** A plan over this cache, before it is narrowed to rules, does this to this link. */
  ghost predicate PlannedOver(c: Cache, scope: Option<PlanScope>, selected: set<string>, desired: Option<seq<Link>>,
          op: PlanOp, f: string) {
    exists whole: Plan :: IsPlan(PlanInputs(c, scope, selected, desired), whole) && (op, f) in WorkOf(whole.items)
  }

  /** The item of a plan's inputs behind some planned work. */
  lemma PlannedWork(c: Cache, scope: Option<PlanScope>, selected: set<string>, desired: Option<seq<Link>>, op: PlanOp,
          f: string)
    requires PlannedOver(c, scope, selected, desired, op, f)
    ensures
      var inp := PlanInputs(c, scope, selected, desired);
      && Keyed(inp) && (op == RemoveOp <==> Removable(inp, f)) && (op != RemoveOp <==> Missing(inp, f))
  {
    hide IsPlan;
    hide PlanInputs;
    hide WorkOf;
    hide Fingerprint;
    hide ItemFingerprint;
    hide Keyed;
    hide VerdictOf;
    hide Removable;
    var inp := PlanInputs(c, scope, selected, desired);
    var whole :| IsPlan(inp, whole) && (op, f) in WorkOf(whole.items);
    var item := WorkIsSomeItem(whole.items, op, f);
    PlanInputsKeyed(c, scope, selected, desired);
    PlanHasItems(inp, whole);
    var i :| 0 <= i < |whole.items| && whole.items[i] == item;
    ItemShape(inp, whole.items, i);
  }

  lemma WorkIsSomeItem(items: seq<PlanItem>, op: PlanOp, f: string) returns (item: PlanItem)
    requires (op, f) in WorkOf(items)
    ensures item in items && item.op == op && ItemFingerprint(item) == f
  {
    hide ItemFingerprint;
    var i :| 0 <= i < |WorkOf(items)| && WorkOf(items)[i] == (op, f);
    item := items[i];
  }

  /**
   What a job left behind, on the devices its snapshot covers.

   Of the adds and removals that a plan over the snapshot's cache contains, some landed.
   Nothing else moved: what was there and stays is a system entry exactly if it was one, and
   what was added is no system entry. The profile and what it claims are unchanged.
   */
  ghost predicate Landed(c: Cache, now: Cache, scope: Option<PlanScope>, picked: set<string>, devices: set<string>,
          added: set<string>, removed: set<string>)
    requires AllRead(c, devices) && AllAvailable(now, devices)
  {
    && (forall f | f in added :: PlannedOver(c, scope, picked, None, AddOp, f))
    && (forall f | f in removed :: PlannedOver(c, scope, picked, None, RemoveOp, f))
    && removed <= HeldOn(c, devices).Keys
    && Moved(c, now, devices, added, removed)
  }

  ghost predicate Moved(c: Cache, now: Cache, devices: set<string>, added: set<string>, removed: set<string>)
    requires AllRead(c, devices) && AllAvailable(now, devices)
  {
    var before, after := HeldOn(c, devices), HeldOn(now, devices);
    && now.owners == c.owners
    && after.Keys == (before.Keys - removed) + added
    && (forall f | f in before && f in after :: after[f].isSystem == before[f].isSystem)
    && (forall f | f in added && f in after :: !after[f].isSystem)
  }

  /** The groups that lost something are known, and held no more than they can. */
  ghost predicate WithinCapacity(c: Cache, now: Cache, devices: set<string>, removed: set<string>)
    requires AllRead(c, devices)
  {
    forall f | f in removed && f in HeldOn(c, devices) ::
      var slot := SlotOf(HeldOn(c, devices)[f].link);
      CapacityOf(now.capabilities, slot).Some? &&
        |HeldBefore(HeldOn(c, devices), slot)| <= CapacityOf(now.capabilities, slot).value
  }

  /** What was taken off on the user's selection is recorded as owned: no foreign entry was touched. */
  ghost predicate NothingForeignTaken(c: Cache, devices: set<string>, picked: set<string>, removed: set<string>) {
    forall f | f in removed && f in picked :: OwnedOn(c, devices, f)
  }

  ghost predicate OwnedOn(c: Cache, devices: set<string>, f: string) {
    exists d | d in devices :: ManagedOn(c, d, f)
  }

  ghost predicate ManagedOn(c: Cache, d: string, f: string) {
    d in c.observed && exists e | e in c.observed[d].links :: e.managedBy.Some? && Fingerprint(e.link) == f
  }

  /** Nobody selected an entry of these devices that nobody owns. */
  ghost predicate NothingForeignSelected(now: Cache, devices: set<string>, selected: set<string>)
    requires AllAvailable(now, devices)
  {
    forall f | f in selected && f in HeldOn(now, devices) ::
      HeldOn(now, devices)[f].isSystem || HeldOn(now, devices)[f].managedBy.Some?
  }

  lemma HeldOnIs(c: Cache, devices: set<string>, f: string)
    requires CacheInv(c) && AllRead(c, devices)
    ensures f in HeldOn(c, devices) ==>
      var e := HeldOn(c, devices)[f];
      Fingerprint(e.link) == f && e.link.source.Identity() in devices && e in c.observed[e.link.source.Identity()].links
    ensures f in HeldOn(c, devices) <==>
      exists d | d in devices :: exists e | e in c.observed[d].links :: Fingerprint(e.link) == f
  {
    hide Fingerprint;
    hide PresentMap;
    hide OwnerHonest;
    hide IndexHonest;
    hide ObservedIn;
    var order := SortedStrings(devices);
    var entries := ObservedIn(c, order);
    PresentMapKeyed(entries);
    forall e ensures e in entries <==> exists d | d in order :: e in c.observed[d].links {
      ObservedInAre(c, order, e);
    }
  }

  lemma RollbackScope(now: Cache, devices: set<string>)
    requires AllAvailable(now, devices) && devices != {}
    ensures IdentitiesInScope(now, Some(PlanScope({}, devices))) == devices
  {
  }

  /** What a rollback plan is built from: what is there now, and the snapshot's managed links. */
  lemma RollbackInputs(now: Cache, devices: set<string>, selected: set<string>, managed: seq<Link>)
    requires AllAvailable(now, devices) && devices != {}
    ensures
      var inp := PlanInputs(now, Some(PlanScope({}, devices)), selected, Some(managed));
      && inp.present == HeldOn(now, devices) && inp.selected == selected && inp.caps == now.capabilities
      && inp.wanted == WantedMap(WantedIn(managed, devices))
  {
    RollbackScope(now, devices);
  }

  lemma RollbackWants(c: Cache, devices: set<string>, f: string)
    requires CacheInv(c) && AllRead(c, devices)
    ensures f in WantedMap(WantedIn(ManagedLinks(ObservedIn(c, SortedStrings(devices))), devices)) <==>
      OwnedOn(c, devices, f)
  {
    hide Fingerprint;
    hide OwnerHonest;
    hide IndexHonest;
    hide WantedMap;
    hide ObservedIn;
    hide ManagedLinks;
    hide SortedStrings;
    var order := SortedStrings(devices);
    var entries := ObservedIn(c, order);
    var links := ManagedLinks(entries);
    var wanted := WantedIn(links, devices);
    WantedMapKeyed(wanted);
    if f in WantedMap(wanted) {
      var l := WantedMap(wanted)[f];
      ManagedLinksAre(entries, l);
      var e :| e in entries && e.managedBy.Some? && e.link == l;
      ObservedInAre(c, order, e);
      var d :| d in order && e in c.observed[d].links;
      assert ManagedOn(c, d, f);
    }
    if d :| d in devices && ManagedOn(c, d, f) {
      var e :| e in c.observed[d].links && e.managedBy.Some? && Fingerprint(e.link) == f;
      ObservedInAre(c, order, e);
      ManagedLinksAre(entries, e.link);
      assert e.link in wanted by {
        assert DeviceHonest(d, c.observed[d], c.owners);
      }
    }
  }

  /** What a plan adds is claimed by the profile, and was nowhere on its device. */
  lemma AddedWasMissing(c: Cache, scope: Option<PlanScope>, picked: set<string>, f: string, devices: set<string>)
    requires CacheInv(c) && AllRead(c, devices) && PlannedOver(c, scope, picked, None, AddOp, f)
    ensures f in c.owners && f !in HeldOn(c, devices)
  {
    hide Fingerprint;
    hide PlannedOver;
    hide PlanInputs;
    hide Keyed;
    hide HeldOn;
    hide IdentitiesInScope;
    hide CacheInv;
    var inp := PlanInputs(c, scope, picked, None);
    PlannedWork(c, scope, picked, None, AddOp, f);
    WantedIsAvailable(c, scope, picked, None, f);
    DesiredIsOwned(c, inp.wanted[f]);
    if f in HeldOn(c, devices) {
      HeldOnIs(c, devices, f);
      var e := HeldOn(c, devices)[f];
      FingerprintIsIdentity(e.link, inp.wanted[f]);
      InScopeIsPresent(c, scope, picked, None, e);
    }
  }

  lemma PlanHasItems(inp: Inputs, plan: Plan)
    requires IsPlan(inp, plan)
    ensures IsItems(inp, plan.items)
  {
  }

  lemma InScopeIsPresent(c: Cache, scope: Option<PlanScope>, selected: set<string>, desired: Option<seq<Link>>,
          e: ObservedLink)
    requires e.link.source.Identity() in IdentitiesInScope(c, scope) && e.link.source.Identity() in c.observed
    requires e in c.observed[e.link.source.Identity()].links
    ensures Fingerprint(e.link) in PlanInputs(c, scope, selected, desired).present
  {
    hide Fingerprint;
    hide PresentMap;
    hide WantedMap;
    hide WantedIn;
    hide ObservedIn;
    var ids := SortedStrings(IdentitiesInScope(c, scope));
    PresentMapKeyed(ObservedIn(c, ids));
    ObservedInAre(c, ids, e);
  }

  lemma DesiredIsOwned(c: Cache, l: Link)
    requires CacheInv(c) && l in c.desired
    ensures Fingerprint(l) in c.owners
  {
    hide OwnersOf;
    hide DesiredOf;
    hide CompiledOf;
    hide DeviceHonest;
    hide Claims;
    hide Fingerprint;
    assert IndexHonest(c);
    var net :| IndexedBy(c, net);
    DesiredAre(c.Rules(), net, l);
    OwnerIsFirst(c.Rules(), net, Fingerprint(l));
    var r :| r in c.Rules() && l in Claims(r, net);
    assert Asks(r, net, Fingerprint(l));
  }

  /** What a plan removes unselected was owned, on its device. */
  lemma RemovedWasManaged(c: Cache, scope: Option<PlanScope>, picked: set<string>, f: string, devices: set<string>)
    requires CacheInv(c) && AllRead(c, devices) && PlannedOver(c, scope, picked, None, RemoveOp, f)
    requires f in HeldOn(c, devices) && f !in picked
    ensures OwnedOn(c, devices, f)
  {
    hide Fingerprint;
    hide PlannedOver;
    hide PlanInputs;
    hide Keyed;
    hide HeldOn;
    hide IdentitiesInScope;
    hide CacheInv;
    var inp := PlanInputs(c, scope, picked, None);
    PlannedWork(c, scope, picked, None, RemoveOp, f);
    PresentIsAvailable(c, scope, picked, None, f);
    PlanInputsSelect(c, scope, picked, None);
    HeldOnIs(c, devices, f);
    var e, held := inp.present[f], HeldOn(c, devices)[f];
    FingerprintIsIdentity(e.link, held.link);
    assert ManagedOn(c, e.link.source.Identity(), f);
  }

  /** Nothing that was already there is removed by the rollback, unless somebody selected it. */
  lemma KeptIsNotRemovable(c: Cache, now: Cache, devices: set<string>, inp: Inputs, f: string)
    requires CacheInv(c) && Exact(c) && CacheInv(now) && Exact(now) && now.owners == c.owners
    requires AllRead(c, devices) && AllAvailable(now, devices)
    requires f in HeldOn(c, devices) && f in HeldOn(now, devices)
    requires HeldOn(now, devices)[f].isSystem == HeldOn(c, devices)[f].isSystem
    requires inp.present == HeldOn(now, devices)
    requires OwnedOn(c, devices, f) ==> f in inp.wanted
    requires f in inp.selected ==> inp.present[f].isSystem || inp.present[f].managedBy.Some?
    ensures !Removable(inp, f)
  {
    hide Fingerprint;
    hide HeldOn;
    hide DeviceHonest;
    hide IndexHonest;
    HeldOnIs(c, devices, f);
    HeldOnIs(now, devices, f);
    var was, is_ := HeldOn(c, devices)[f], HeldOn(now, devices)[f];
    if !is_.isSystem && is_.managedBy.Some? {
      var d := was.link.source.Identity();
      assert OwnedExactly(was, c.owners) && OwnedExactly(is_, now.owners);
      assert was.managedBy == OwnerOf(c.owners, f);
      assert is_.managedBy == OwnerOf(now.owners, f);
      assert ManagedOn(c, d, f);
    }
  }

  /** What the job added is ours to remove. */
  lemma AddedIsRemovable(now: Cache, devices: set<string>, inp: Inputs, f: string)
    requires CacheInv(now) && Exact(now) && AllAvailable(now, devices) && inp.present == HeldOn(now, devices)
    requires f in HeldOn(now, devices) && !HeldOn(now, devices)[f].isSystem && f in now.owners && f !in inp.wanted
    ensures Removable(inp, f)
  {
    hide Fingerprint;
    hide HeldOn;
    hide DeviceHonest;
    hide IndexHonest;
    HeldOnIs(now, devices, f);
    assert OwnedExactly(HeldOn(now, devices)[f], now.owners);
  }

  lemma RollbackUndoes(c: Cache, now: Cache, scope: Option<PlanScope>, picked: set<string>, devices: set<string>,
          added: set<string>, removed: set<string>, selected: set<string>)
    requires CacheInv(c) && Exact(c) && CacheInv(now) && Exact(now) && devices != {}
    requires AllRead(c, devices) && AllAvailable(now, devices)
    requires Landed(c, now, scope, picked, devices, added, removed) && NothingForeignTaken(c, devices, picked, removed)
    requires NothingForeignSelected(now, devices, selected)
    ensures
      var managed := ManagedLinks(ObservedIn(c, SortedStrings(devices)));
      Undoes(PlanInputs(now, Some(PlanScope({}, devices)), selected, Some(managed)), HeldOn(c, devices), added, removed)
  {
    hide Fingerprint;
    hide HeldOn;
    hide Exact;
    hide CacheInv;
    hide PlannedOver;
    hide PlanInputs;
    hide WantedMap;
    hide WantedIn;
    hide ManagedLinks;
    hide ObservedIn;
    hide SortedStrings;
    hide OwnedOn;
    hide Removable;
    var managed := ManagedLinks(ObservedIn(c, SortedStrings(devices)));
    RollbackInputs(now, devices, selected, managed);
    var inp := PlanInputs(now, Some(PlanScope({}, devices)), selected, Some(managed));
    var before := HeldOn(c, devices);
    forall f ensures f in inp.wanted <==> OwnedOn(c, devices, f) {
      RollbackWants(c, devices, f);
    }
    forall f | f in inp.wanted ensures f in before {
      OwnedIsHeld(c, devices, f);
    }
    forall f | f in before ensures Fingerprint(before[f].link) == f {
      HeldOnIs(c, devices, f);
    }
    forall f | f in removed ensures f in inp.wanted {
      if f !in picked {
        RemovedWasManaged(c, scope, picked, f, devices);
      }
    }
    forall f | f in added ensures f !in before && Removable(inp, f) {
      AddedWasMissing(c, scope, picked, f, devices);
      AddedIsRemovable(now, devices, inp, f);
    }
    forall f | f in inp.present && f !in added ensures !Removable(inp, f) {
      KeptIsNotRemovable(c, now, devices, inp, f);
    }
  }

  lemma OwnedIsHeld(c: Cache, devices: set<string>, f: string)
    requires CacheInv(c) && AllRead(c, devices) && OwnedOn(c, devices, f)
    ensures f in HeldOn(c, devices)
  {
    hide Fingerprint;
    hide CacheInv;
    hide HeldOn;
    HeldOnIs(c, devices, f);
  }

  /**
   Rollback undoes apply.

   Whatever part of a job landed, planning the snapshot again removes exactly what the job
   added and adds exactly what it removed, with nothing blocked: once it has taken effect the
   devices hold exactly the fingerprints they held when the snapshot was taken.
   */
  lemma RollbackUndoesApply(
    c: Cache, now: Cache, scope: Option<PlanScope>, picked: set<string>, id: string, devices: set<string>,
    added: set<string>, removed: set<string>, selected: set<string>, rollback: Plan, after: map<string, ObservedLink>)
    requires CacheInv(c) && Exact(c) && CacheInv(now) && Exact(now) && devices != {}
    requires AllRead(c, devices) && AllAvailable(now, devices)
    requires Landed(c, now, scope, picked, devices, added, removed) && NothingForeignTaken(c, devices, picked, removed)
    requires WithinCapacity(c, now, devices, removed) && NothingForeignSelected(now, devices, selected)
    requires IsRollbackPlan(now, TakenNow(c, id, devices), selected, rollback)
    requires TookEffect(HeldOn(now, devices), rollback.items, after)
    ensures after.Keys == HeldOn(c, devices).Keys
    ensures forall item | item in rollback.items :: item.op != BlockedOp
  {
    hide Fingerprint;
    hide HeldOn;
    hide Exact;
    hide CacheInv;
    hide Landed;
    hide NothingForeignTaken;
    hide NothingForeignSelected;
    hide PlanInputs;
    hide IsPlan;
    hide TookEffect;
    hide Undoes;
    hide Keyed;
    hide SortedStrings;
    hide ObservedIn;
    hide ManagedLinks;
    hide CapacityOf;
    var managed := ManagedLinks(ObservedIn(c, SortedStrings(devices)));
    var whole :| Narrows(now, Some(PlanScope({}, devices)), selected, Some(managed), rollback, whole);
    var inp := PlanInputs(now, Some(PlanScope({}, devices)), selected, Some(managed));
    RollbackInputs(now, devices, selected, managed);
    RollbackUndoes(c, now, scope, picked, devices, added, removed, selected);
    PlanInputsKeyed(now, Some(PlanScope({}, devices)), selected, Some(managed));
    PlanHasItems(inp, whole);
    UndoingRestores(inp, HeldOn(c, devices), added, removed, rollback.items, after);
  }
}
