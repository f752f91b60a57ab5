/**
 Planning (custom_components/device_links/planner.py): what is wanted against what is there.

 The specification says of each link on its own what becomes of it. A missing link is added
 exactly when the entries that survive the plan, plus the missing links of its group that
 come before it, leave room. The program reaches the same answers with two passes that keep
 a count per group; the methods below are those passes.
 */
module Planner {
  import opened Wrappers
  import opened Text
  import opened Orders
  import opened Models
  import opened Fingerprints

  /** A group on a device, which is what a capacity is about. */
  type Slot = (string, string)

  function SlotOf(l: Link): Slot {
    (l.source.Identity(), l.emitterGroup)
  }

  /** The links wanted and present by fingerprint, the selection, and what devices can do. */
  datatype Inputs = Inputs(
    wanted: map<string, Link>,
    present: map<string, ObservedLink>,
    selected: set<string>,
    caps: Network)

  /** `{link.fingerprint: link for link in desired}`: the last of its fingerprint. */
  function WantedMap(desired: seq<Link>): map<string, Link> {
    if desired == [] then map[]
    else var last := desired[|desired| - 1]; WantedMap(desired[..|desired| - 1])[Fingerprint(last) := last]
  }

  function PresentMap(observed: seq<ObservedLink>): map<string, ObservedLink> {
    if observed == [] then map[]
    else var last := observed[|observed| - 1]; PresentMap(observed[..|observed| - 1])[Fingerprint(last.link) := last]
  }

  /** Every entry is filed under its own fingerprint. */
  ghost predicate Keyed(inp: Inputs) {
    && (forall f | f in inp.wanted :: Fingerprint(inp.wanted[f]) == f)
    && (forall f | f in inp.present :: Fingerprint(inp.present[f].link) == f)
  }

  // What each observed entry is.

  predicate Removable(inp: Inputs, f: string) {
    && f in inp.present && !inp.present[f].isSystem && f !in inp.wanted
    && (inp.present[f].managedBy.Some? || f in inp.selected)
  }

  predicate Foreign(inp: Inputs, f: string) {
    f in inp.present && !inp.present[f].isSystem && f !in inp.wanted && inp.present[f].managedBy.None?
  }

  predicate Unchanged(inp: Inputs, f: string) {
    f in inp.present && !inp.present[f].isSystem && f in inp.wanted
  }

  predicate Survives(inp: Inputs, f: string) {
    f in inp.present && !Removable(inp, f)
  }

  predicate Missing(inp: Inputs, f: string) {
    f in inp.wanted && f !in inp.present
  }

  // Capacity.

  function CapacityIn(emitters: seq<Emitter>, group: string): Option<int> {
    if emitters == [] then None
    else if group in emitters[0].groupIds then Some(emitters[0].capacity)
    else CapacityIn(emitters[1..], group)
  }

  function CapacityOf(caps: Network, slot: Slot): Option<int> {
    if slot.0 in caps then CapacityIn(caps[slot.0].emitters, slot.1) else None
  }

  ghost function SurvivingIn(inp: Inputs, slot: Slot): set<string> {
    set f | f in inp.present && Survives(inp, f) && SlotOf(inp.present[f].link) == slot
  }

  ghost function SurvivorsIn(inp: Inputs, slot: Slot): nat {
    |SurvivingIn(inp, slot)|
  }

  /** How many missing links of the same group come before this one. */
  ghost function Rank(inp: Inputs, f: string): nat
    requires f in inp.wanted
  {
    |set g | g in inp.wanted && Missing(inp, g) && SlotOf(inp.wanted[g]) == SlotOf(inp.wanted[f]) && StringLess(g, f)|
  }

  datatype Verdict = Fits | UnknownGroup | Full(used: int, capacity: int)

  ghost function VerdictOf(inp: Inputs, f: string): Verdict
    requires f in inp.wanted
  {
    var slot := SlotOf(inp.wanted[f]);
    match CapacityOf(inp.caps, slot)
    case None => UnknownGroup
    case Some(c) =>
      if SurvivorsIn(inp, slot) + Rank(inp, f) < c then Fits
      else Full(if SurvivorsIn(inp, slot) < c then c else SurvivorsIn(inp, slot), c)
  }

  // Items.

  function GroupPlaceholders(l: Link): map<string, string> {
    map["group" := l.emitterGroup, "device" := l.source.nameAtAuthoring, "target" := l.target.handle.nameAtAuthoring]
  }

  function AddItem(l: Link, v: Verdict): PlanItem {
    var device := l.source.Identity();
    match v
    case Fits => PlanItem(AddOp, device, Wanted(l), None)
    case UnknownGroup => PlanItem(BlockedOp, device, Wanted(l), Some(Diagnostic("unknown_group", GroupPlaceholders(l))))
    case Full(used, capacity) =>
      PlanItem(BlockedOp, device, Wanted(l),
               Some(Diagnostic("group_full",
                 GroupPlaceholders(l) + map["used" := Decimal(used), "capacity" := Decimal(capacity)])))
  }

  function RemoveItem(entry: ObservedLink): PlanItem {
    PlanItem(RemoveOp, entry.link.source.Identity(), Found(entry), None)
  }

  ghost predicate Planned(inp: Inputs, f: string) {
    Removable(inp, f) || Missing(inp, f)
  }

  ghost function ItemFor(inp: Inputs, f: string): PlanItem
    requires Planned(inp, f)
  {
    if Removable(inp, f) then RemoveItem(inp.present[f]) else AddItem(inp.wanted[f], VerdictOf(inp, f))
  }

  function OpDigit(op: PlanOp): string {
    match op
    case RemoveOp => "0"
    case SetParamOp => "1"
    case AddOp => "2"
    case PendingOp => "3"
    case BlockedOp => "4"
  }

  function ItemFingerprint(item: PlanItem): string {
    if item.about.NoLink? then "" else Fingerprint(item.about.TheLink())
  }

  /** `_ordering`: the device, then what is done, then the fingerprint. */
  function ItemKey(item: PlanItem): seq<string> {
    [item.device, OpDigit(item.op), ItemFingerprint(item)]
  }

  ghost function PlannedSet(inp: Inputs): set<string> {
    set f | f in inp.present.Keys + inp.wanted.Keys && Planned(inp, f)
  }

  ghost predicate IsItemOf(inp: Inputs, item: PlanItem) {
    exists f | Planned(inp, f) :: item == ItemFor(inp, f)
  }

  /** The items of a plan: one for each planned fingerprint, in the order of their keys. */
  ghost predicate IsItems(inp: Inputs, items: seq<PlanItem>) {
    && (forall item | item in items :: IsItemOf(inp, item))
    && (forall f | Planned(inp, f) :: ItemFor(inp, f) in items)
    && (forall i, j | 0 <= i < j < |items| :: WordsLess(ItemKey(items[i]), ItemKey(items[j])))
  }

  /** The foreign links a plan reports, in the order of their fingerprints. */
  ghost predicate IsUnmanaged(inp: Inputs, unmanaged: seq<ObservedLink>) {
    && (forall e | e in unmanaged :: Foreign(inp, Fingerprint(e.link)) && e == inp.present[Fingerprint(e.link)])
    && (forall f | Foreign(inp, f) :: inp.present[f] in unmanaged)
    && (forall i, j | 0 <= i < j < |unmanaged| ::
      StringLess(Fingerprint(unmanaged[i].link), Fingerprint(unmanaged[j].link)))
  }

  ghost function UnchangedCount(inp: Inputs): nat {
    |set f | f in inp.present && Unchanged(inp, f)|
  }

  // The token.

  const UNIT_SEPARATOR := '\U{1F}'
  const RECORD_SEPARATOR := '\U{1E}'

  function OwnershipName(e: ObservedLink): string {
    if e.isSystem then "system" else if e.managedBy.Some? then "managed" else "unmanaged"
  }

  function CapacityText(c: Option<int>): string {
    match c
    case None => "None"
    case Some(n) => Decimal(n)
  }

  /** The groups a plan consults, as pairs of an identity and a group. */
  function GroupsOf(inp: Inputs): (r: set<seq<string>>)
    ensures forall g | g in r :: |g| == 2
  {
    (set f | f in inp.wanted :: [SlotOf(inp.wanted[f]).0, SlotOf(inp.wanted[f]).1]) +
    (set f | f in inp.present :: [SlotOf(inp.present[f].link).0, SlotOf(inp.present[f].link).1])
  }

  function SortedGroups(groups: set<seq<string>>): (r: seq<seq<string>>)
    ensures forall g :: g in r <==> g in groups
  {
    WordsLessIsTotal();
    SortedOf(WordsLess, groups)
  }

  function Record(fields: seq<string>): string {
    Join(UNIT_SEPARATOR, fields)
  }

  function DesiredRecords(fs: seq<string>): seq<seq<string>> {
    seq(|fs|, i requires 0 <= i < |fs| => ["desired", fs[i]])
  }

  function ObservedRecords(present: map<string, ObservedLink>, fs: seq<string>): seq<seq<string>>
    requires forall f | f in fs :: f in present
  {
    seq(|fs|, i requires 0 <= i < |fs| => ["observed", fs[i], OwnershipName(present[fs[i]])])
  }

  function RemoveRecords(fs: seq<string>): seq<seq<string>> {
    seq(|fs|, i requires 0 <= i < |fs| => ["remove", fs[i]])
  }

  function CapacityRecords(caps: Network, groups: seq<seq<string>>): seq<seq<string>>
    requires forall g | g in groups :: |g| == 2
  {
    seq(|groups|, i requires 0 <= i < |groups| =>
      ["capacity", groups[i][0], groups[i][1], CapacityText(CapacityOf(caps, (groups[i][0], groups[i][1])))])
  }

  /** Everything a plan is built from, as the records the token hashes. */
  function TokenRecords(inp: Inputs): seq<seq<string>> {
    DesiredRecords(SortedStrings(inp.wanted.Keys)) +
    ObservedRecords(inp.present, SortedStrings(inp.present.Keys)) +
    RemoveRecords(SortedStrings(inp.selected * inp.present.Keys)) +
    CapacityRecords(inp.caps, SortedGroups(GroupsOf(inp)))
  }

  /** What the token is a hash of. The hash is taken to be injective, so this stands for it. */
  function Token(inp: Inputs): string {
    var records := TokenRecords(inp);
    Join(RECORD_SEPARATOR, seq(|records|, i requires 0 <= i < |records| => Record(records[i])))
  }

  ghost predicate IsPlan(inp: Inputs, plan: Plan) {
    && plan.token == Token(inp)
    && IsItems(inp, plan.items)
    && IsUnmanaged(inp, plan.unmanaged)
    && plan.unchangedCount == UnchangedCount(inp)
  }

  function InputsOf(desired: seq<Link>, observed: seq<ObservedLink>, selected: set<string>, caps: Network): Inputs {
    Inputs(WantedMap(desired), PresentMap(observed), selected, caps)
  }

  lemma {:induction false} WantedMapKeyed(desired: seq<Link>)
    ensures forall f | f in WantedMap(desired) ::
      Fingerprint(WantedMap(desired)[f]) == f && WantedMap(desired)[f] in desired
    ensures forall l | l in desired :: Fingerprint(l) in WantedMap(desired)
  {
    if desired != [] {
      var last := desired[|desired| - 1];
      WantedMapKeyed(desired[..|desired| - 1]);
      assert desired == desired[..|desired| - 1] + [last];
    }
  }

  lemma {:induction false} PresentMapKeyed(observed: seq<ObservedLink>)
    ensures forall f | f in PresentMap(observed) ::
      Fingerprint(PresentMap(observed)[f].link) == f && PresentMap(observed)[f] in observed
    ensures forall e | e in observed :: Fingerprint(e.link) in PresentMap(observed)
  {
    if observed != [] {
      var last := observed[|observed| - 1];
      PresentMapKeyed(observed[..|observed| - 1]);
      assert observed == observed[..|observed| - 1] + [last];
    }
  }

  lemma InputsKeyed(desired: seq<Link>, observed: seq<ObservedLink>, selected: set<string>, caps: Network)
    ensures Keyed(InputsOf(desired, observed, selected, caps))
  {
    WantedMapKeyed(desired);
    PresentMapKeyed(observed);
  }

  // The passes.

  /** The entries filed under these fingerprints, in this order. */
  ghost predicate Lists(inp: Inputs, entries: seq<ObservedLink>, fs: seq<string>) {
    && |entries| == |fs|
    && forall i | 0 <= i < |fs| :: fs[i] in inp.present && entries[i] == inp.present[fs[i]]
  }

  lemma ListsOneMore(inp: Inputs, entries: seq<ObservedLink>, fs: seq<string>, f: string)
    requires Lists(inp, entries, fs) && f in inp.present
    ensures Lists(inp, entries + [inp.present[f]], fs + [f])
    ensures fs + [] == fs
  {
  }

  /** What each observed entry turned out to be: its lists, and the fingerprints they list. */
  datatype Classification = Classification(
    removals: seq<ObservedLink>, unmanaged: seq<ObservedLink>, survivors: seq<ObservedLink>, already: nat)

  /**
   What stays, what goes, and what is only reported.

   The order of the tests is the safety rule: a system link is asked about first, a wanted
   one next, and only then who owns it.
   */
  method Classify(inp: Inputs, order: seq<string>)
    returns (state: Classification, ghost removed: seq<string>, ghost foreign: seq<string>, ghost kept: seq<string>)
    requires Keyed(inp) && Distinct(order) && forall f :: f in order <==> f in inp.present
    ensures Lists(inp, state.removals, removed) && Distinct(removed) && forall f :: f in removed <==> Removable(inp, f)
    ensures Lists(inp, state.unmanaged, foreign) && Distinct(foreign) && forall f :: f in foreign <==> Foreign(inp, f)
    ensures Lists(inp, state.survivors, kept) && Distinct(kept) && forall f :: f in kept <==> Survives(inp, f)
    ensures state.already == UnchangedCount(inp)
  {
    hide Lists;
    hide Distinct;
    hide Filter;
    hide Fingerprint;
    var removals: seq<ObservedLink>, unmanaged: seq<ObservedLink> := [], [];
    var survivors: seq<ObservedLink>, already := [], 0;
    removed, foreign, kept := [], [], [];
    ghost var same: seq<string> := [];
    ghost var isRemoved, isForeign := (f: string) => Removable(inp, f), (f: string) => Foreign(inp, f);
    ghost var isKept, isSame := (f: string) => Survives(inp, f), (f: string) => Unchanged(inp, f);
    NothingListed(inp);
    for i := 0 to |order|
      invariant Lists(inp, removals, removed) && removed == Filter(isRemoved, order[..i])
      invariant Lists(inp, unmanaged, foreign) && foreign == Filter(isForeign, order[..i])
      invariant Lists(inp, survivors, kept) && kept == Filter(isKept, order[..i])
      invariant already == |same| && same == Filter(isSame, order[..i])
    {
      var f := order[i];
      assert order[..i + 1] == order[..i] + [f];
      FilterSnoc(isRemoved, order[..i], f);
      FilterSnoc(isForeign, order[..i], f);
      FilterSnoc(isKept, order[..i], f);
      FilterSnoc(isSame, order[..i], f);
      ListsOneMore(inp, removals, removed, f);
      ListsOneMore(inp, unmanaged, foreign, f);
      ListsOneMore(inp, survivors, kept, f);
      var entry := inp.present[f];
      if entry.isSystem {
        survivors, kept := survivors + [entry], kept + [f];
      } else if Fingerprint(entry.link) in inp.wanted {
        already, same := already + 1, same + [f];
        survivors, kept := survivors + [entry], kept + [f];
      } else if entry.managedBy.Some? {
        removals, removed := removals + [entry], removed + [f];
      } else {
        unmanaged, foreign := unmanaged + [entry], foreign + [f];
        if Fingerprint(entry.link) in inp.selected {
          removals, removed := removals + [entry], removed + [f];
        } else {
          survivors, kept := survivors + [entry], kept + [f];
        }
      }
    }
    assert order[..|order|] == order;
    FilterDistinct(isRemoved, order);
    FilterDistinct(isForeign, order);
    FilterDistinct(isKept, order);
    FilterDistinct(isSame, order);
    DistinctCardinality(same, set f | f in inp.present && Unchanged(inp, f));
    state := Classification(removals, unmanaged, survivors, already);
  }

  lemma NothingListed(inp: Inputs)
    ensures Lists(inp, [], [])
  {
  }

  // Counting a group.

  function CountIn(used: map<Slot, nat>, slot: Slot): nat {
    if slot in used then used[slot] else 0
  }

  /** How many of these listed entries are in a group. */
  ghost function Held(inp: Inputs, fs: seq<string>, slot: Slot): nat {
    |set f | f in fs && f in inp.present && SlotOf(inp.present[f].link) == slot|
  }

  /** How many of these missing links are for a group. */
  ghost function Asked(inp: Inputs, fs: seq<string>, slot: Slot): nat {
    |set f | f in fs && Missing(inp, f) && SlotOf(inp.wanted[f]) == slot|
  }

  lemma HeldOneMore(inp: Inputs, fs: seq<string>, f: string, slot: Slot)
    requires f in inp.present && f !in fs
    ensures Held(inp, fs + [f], slot) == Held(inp, fs, slot) + if SlotOf(inp.present[f].link) == slot then 1 else 0
  {
    hide SlotOf;
    var before := set g | g in fs && g in inp.present && SlotOf(inp.present[g].link) == slot;
    var after := set g | g in fs + [f] && g in inp.present && SlotOf(inp.present[g].link) == slot;
    assert after == if SlotOf(inp.present[f].link) == slot then before + {f} else before;
  }

  lemma AskedOneMore(inp: Inputs, fs: seq<string>, f: string, slot: Slot)
    requires f !in fs
    ensures Asked(inp, fs + [f], slot) ==
      Asked(inp, fs, slot) + if Missing(inp, f) && SlotOf(inp.wanted[f]) == slot then 1 else 0
  {
    var before := set g | g in fs && Missing(inp, g) && SlotOf(inp.wanted[g]) == slot;
    var after := set g | g in fs + [f] && Missing(inp, g) && SlotOf(inp.wanted[g]) == slot;
    assert after == if Missing(inp, f) && SlotOf(inp.wanted[f]) == slot then before + {f} else before;
  }

  lemma HeldBySurvivors(inp: Inputs, kept: seq<string>, slot: Slot)
    requires forall f :: f in kept <==> Survives(inp, f)
    ensures Held(inp, kept, slot) == SurvivorsIn(inp, slot)
  {
    assert (set f | f in kept && f in inp.present && SlotOf(inp.present[f].link) == slot) ==
           SurvivingIn(inp, slot);
  }

  /** The missing links asked for before one of them, in order, are the ones its rank counts. */
  lemma AskedBeforeIsRank(inp: Inputs, fs: seq<string>, i: nat)
    requires StrictTotal(StringLess) && Ascending(StringLess, fs) && (forall f :: f in fs <==> f in inp.wanted)
    requires i < |fs| && fs[i] in inp.wanted
    ensures Asked(inp, fs[..i], SlotOf(inp.wanted[fs[i]])) == Rank(inp, fs[i])
  {
    hide StringLess;
    var slot := SlotOf(inp.wanted[fs[i]]);
    forall g ensures g in fs[..i] <==> g in inp.wanted && StringLess(g, fs[i]) {
      if g in inp.wanted && StringLess(g, fs[i]) {
        var j :| 0 <= j < |fs| && fs[j] == g;
        AscendingPositions(StringLess, fs, j, i);
      }
    }
    assert (set f | f in fs[..i] && Missing(inp, f) && SlotOf(inp.wanted[f]) == slot) ==
           (set g | g in inp.wanted && Missing(inp, g) && SlotOf(inp.wanted[g]) == slot && StringLess(g, fs[i]));
  }

  /** A group's count, after the missing links among the first `fs` have been answered. */
  ghost function Filled(inp: Inputs, fs: seq<string>, slot: Slot): nat {
    match CapacityOf(inp.caps, slot)
    case None => SurvivorsIn(inp, slot)
    case Some(c) =>
      if SurvivorsIn(inp, slot) + Asked(inp, fs, slot) < c then SurvivorsIn(inp, slot) + Asked(inp, fs, slot)
      else if SurvivorsIn(inp, slot) < c then c
      else SurvivorsIn(inp, slot)
  }

  /** The items for these fingerprints, in this order. */
  ghost predicate ListsItems(inp: Inputs, items: seq<PlanItem>, fs: seq<string>) {
    && |items| == |fs|
    && forall i | 0 <= i < |fs| :: Planned(inp, fs[i]) && items[i] == ItemFor(inp, fs[i])
  }

  /** What survives, counted per group. */
  method CountSurvivors(inp: Inputs, survivors: seq<ObservedLink>, ghost kept: seq<string>) returns (used: map<Slot,
          nat>)
    requires Lists(inp, survivors, kept) && Distinct(kept) && forall f :: f in kept <==> Survives(inp, f)
    ensures forall slot: Slot :: CountIn(used, slot) == SurvivorsIn(inp, slot)
  {
    hide Held;
    used := map[];
    forall slot: Slot ensures Held(inp, kept[..0], slot) == 0 {
      NothingHeld(inp, kept[..0], slot);
    }
    for i := 0 to |survivors|
      invariant forall slot: Slot :: CountIn(used, slot) == Held(inp, kept[..i], slot)
    {
      var key := SlotOf(survivors[i].link);
      assert kept[..i + 1] == kept[..i] + [kept[i]] && kept[i] !in kept[..i];
      forall slot: Slot
        ensures Held(inp, kept[..i + 1], slot) == Held(inp, kept[..i], slot) + if slot == key then 1 else 0
      {
        HeldOneMore(inp, kept[..i], kept[i], slot);
      }
      ghost var before := used;
      used := used[key := CountIn(used, key) + 1];
      assert forall slot: Slot :: CountIn(used, slot) == CountIn(before, slot) + if slot == key then 1 else 0;
    }
    assert kept[..|survivors|] == kept;
    forall slot: Slot ensures CountIn(used, slot) == SurvivorsIn(inp, slot) {
      HeldBySurvivors(inp, kept, slot);
    }
  }

  lemma NothingHeld(inp: Inputs, fs: seq<string>, slot: Slot)
    requires |fs| == 0
    ensures Held(inp, fs, slot) == 0 && Asked(inp, fs, slot) == 0
  {
    assert forall f :: f !in fs;
  }

  /** What one more fingerprint does to the count of each group, and what becomes of it. */
  lemma FilledStep(inp: Inputs, fs: seq<string>, i: nat, slot: Slot)
    requires StrictTotal(StringLess) && Ascending(StringLess, fs) && (forall f :: f in fs <==> f in inp.wanted)
    requires i < |fs| && fs[i] in inp.wanted && fs[i] !in fs[..i]
    ensures Filled(inp, fs[..i + 1], slot) == Filled(inp, fs[..i], slot) +
      if Missing(inp, fs[i]) && slot == SlotOf(inp.wanted[fs[i]]) && VerdictOf(inp, fs[i]).Fits? then 1 else 0
    ensures slot == SlotOf(inp.wanted[fs[i]]) && CapacityOf(inp.caps, slot).Some? ==>
      VerdictOf(inp, fs[i]) == if Filled(inp, fs[..i], slot) >= CapacityOf(inp.caps, slot).value
                               then Full(Filled(inp, fs[..i], slot), CapacityOf(inp.caps, slot).value) else Fits
  {
    hide Asked;
    hide Rank;
    hide SurvivorsIn;
    assert fs[..i + 1] == fs[..i] + [fs[i]];
    AskedOneMore(inp, fs[..i], fs[i], slot);
    AskedBeforeIsRank(inp, fs, i);
  }

  /**
   An add for each missing link that fits, and a blocked item for each that does not.

   The links are taken in fingerprint order, and each group's count starts from what
   survives the plan.
   */
  method PlannedAdds(inp: Inputs, survivors: seq<ObservedLink>, ghost kept: seq<string>)
    returns (items: seq<PlanItem>, ghost missing: seq<string>)
    requires Lists(inp, survivors, kept) && Distinct(kept) && forall f :: f in kept <==> Survives(inp, f)
    ensures ListsItems(inp, items, missing) && Distinct(missing) && forall f :: f in missing <==> Missing(inp, f)
    ensures forall item :: item in items <==> AnswersMissing(inp, item)
  {
    hide Distinct;
    hide AnswersMissing;
    hide VerdictAt;
    hide SlotOf;
    hide Rank;
    hide StringLess;
    hide Filled;
    hide SortedStrings;
    hide VerdictOf;
    hide Lists;
    hide CapacityOf;
    hide StrictTotal;
    hide Ascending;
    hide ListsItems;
    hide Filter;
    hide Tallies;
    hide SurvivorsIn;
    hide Survives;
    hide AddItem;
    NoItems(inp);
    var used: map<Slot, nat> := CountSurvivors(inp, survivors, kept);
    var fs := SortedStrings(inp.wanted.Keys);
    SortedStringsAscend(inp.wanted.Keys);
    AscendingIsDistinct(fs);
    items := [];
    ghost var isMissing := (f: string) => Missing(inp, f);
    missing := [];
    TalliesAtStart(inp, used, fs);
    for i := 0 to |fs|
      invariant Tallies(inp, used, fs[..i])
      invariant missing == Filter(isMissing, fs[..i])
      invariant ListsItems(inp, items, missing)
    {
      var f := fs[i];
      assert fs[..i + 1] == fs[..i] + [f];
      FilterSnoc(isMissing, fs[..i], f);
      TalliesStep(inp, used, fs, i);
      if f in inp.present {
        continue;
      }
      ListsOneMoreItem(inp, items, missing, f);
      var verdict;
      verdict, used := Answer(inp.caps, used, SlotOf(inp.wanted[f]));
      items, missing := items + [AddItem(inp.wanted[f], verdict)], missing + [f];
    }
    assert fs[..|fs|] == fs;
    FilterDistinct(isMissing, fs);
    EveryMissingIsAnswered(inp, items, missing);
  }

  /** What the running counts say of one more link for a group. */
  function VerdictAt(caps: Network, used: map<Slot, nat>, slot: Slot): Verdict {
    match CapacityOf(caps, slot)
    case None => UnknownGroup
    case Some(c) => if CountIn(used, slot) >= c then Full(CountIn(used, slot), c) else Fits
  }

  /** Answers one missing link, and counts it if it fits. */
  method Answer(caps: Network, before: map<Slot, nat>, slot: Slot) returns (verdict: Verdict, used: map<Slot, nat>)
    ensures verdict == VerdictAt(caps, before, slot)
    ensures used == if verdict.Fits? then before[slot := CountIn(before, slot) + 1] else before
  {
    used := before;
    var capacity := CapacityOf(caps, slot);
    if capacity.None? {
      verdict := UnknownGroup;
    } else if CountIn(used, slot) >= capacity.value {
      verdict := Full(CountIn(used, slot), capacity.value);
    } else {
      used := used[slot := CountIn(used, slot) + 1];
      verdict := Fits;
    }
  }

  /** What becomes of one missing link. */
  ghost predicate AnswersMissing(inp: Inputs, item: PlanItem) {
    exists f | Missing(inp, f) :: item == AddItem(inp.wanted[f], VerdictOf(inp, f))
  }

  lemma EveryMissingIsAnswered(inp: Inputs, items: seq<PlanItem>, missing: seq<string>)
    requires ListsItems(inp, items, missing) && forall f :: f in missing <==> Missing(inp, f)
    ensures forall item :: item in items <==> AnswersMissing(inp, item)
  {
    hide AddItem;
    hide VerdictOf;
    forall item ensures item in items <==> AnswersMissing(inp, item) {
      if item in items {
        var i :| 0 <= i < |items| && items[i] == item;
        assert missing[i] in missing;
      }
      if AnswersMissing(inp, item) {
        var f :| Missing(inp, f) && item == AddItem(inp.wanted[f], VerdictOf(inp, f));
        var i :| 0 <= i < |missing| && missing[i] == f;
        assert items[i] == item;
      }
    }
  }

  lemma NoItems(inp: Inputs)
    ensures ListsItems(inp, [], [])
  {
  }

  /** The running counts are what each group is filled to. */
  ghost predicate Tallies(inp: Inputs, used: map<Slot, nat>, fs: seq<string>) {
    forall slot: Slot :: CountIn(used, slot) == Filled(inp, fs, slot)
  }

  lemma TalliesAtStart(inp: Inputs, used: map<Slot, nat>, fs: seq<string>)
    requires forall slot: Slot :: CountIn(used, slot) == SurvivorsIn(inp, slot)
    ensures Tallies(inp, used, fs[..0])
  {
    hide SurvivorsIn;
    forall slot: Slot ensures CountIn(used, slot) == Filled(inp, fs[..0], slot) {
      NothingHeld(inp, fs[..0], slot);
    }
  }

  /** One more fingerprint: what becomes of it, and the counts afterwards. */
  lemma TalliesStep(inp: Inputs, used: map<Slot, nat>, fs: seq<string>, i: nat)
    requires StrictTotal(StringLess) && Ascending(StringLess, fs) && (forall f :: f in fs <==> f in inp.wanted)
    requires i < |fs| && Tallies(inp, used, fs[..i]) && fs[i] in inp.wanted
    ensures VerdictOf(inp, fs[i]) == VerdictAt(inp.caps, used, SlotOf(inp.wanted[fs[i]]))
    ensures
      var key := SlotOf(inp.wanted[fs[i]]);
      var fits := Missing(inp, fs[i]) && VerdictOf(inp, fs[i]).Fits?;
      Tallies(inp, if fits then used[key := CountIn(used, key) + 1] else used, fs[..i + 1])
  {
    hide Filled;
    hide VerdictOf;
    hide StringLess;
    var key := SlotOf(inp.wanted[fs[i]]);
    AscendingNotBefore(fs, i);
    if CapacityOf(inp.caps, key).None? {
      UnknownHasNoVerdict(inp, fs[i]);
    }
    FilledStep(inp, fs, i, key);
    var used' := if Missing(inp, fs[i]) && VerdictOf(inp, fs[i]).Fits? then used[key := CountIn(used, key) + 1]
      else used;
    forall slot: Slot ensures CountIn(used', slot) == Filled(inp, fs[..i + 1], slot) {
      FilledStep(inp, fs, i, slot);
      assert CountIn(used, slot) == Filled(inp, fs[..i], slot);
    }
  }

  lemma AscendingIsDistinct(fs: seq<string>)
    requires StrictTotal(StringLess) && Ascending(StringLess, fs)
    ensures Distinct(fs)
  {
    hide StringLess;
    forall i, j | 0 <= i < j < |fs| ensures fs[i] != fs[j] {
      assert StringLess(fs[i], fs[j]) && !StringLess(fs[i], fs[i]);
    }
  }

  lemma AscendingNotBefore(fs: seq<string>, i: nat)
    requires StrictTotal(StringLess) && Ascending(StringLess, fs) && i < |fs|
    ensures fs[i] !in fs[..i]
  {
    hide StringLess;
    forall j | 0 <= j < i ensures fs[j] != fs[i] {
      assert StringLess(fs[j], fs[i]) && !StringLess(fs[i], fs[i]);
    }
  }

  lemma UnknownHasNoVerdict(inp: Inputs, f: string)
    requires f in inp.wanted && CapacityOf(inp.caps, SlotOf(inp.wanted[f])).None?
    ensures VerdictOf(inp, f) == UnknownGroup
  {
  }

  lemma ListsOneMoreItem(inp: Inputs, items: seq<PlanItem>, fs: seq<string>, f: string)
    requires ListsItems(inp, items, fs) && Missing(inp, f)
    ensures ListsItems(inp, items + [AddItem(inp.wanted[f], VerdictOf(inp, f))], fs + [f])
  {
    hide VerdictOf;
    hide AddItem;
  }

  // The whole plan.

  function EntryFingerprint(e: ObservedLink): string {
    Fingerprint(e.link)
  }

  /** An item's key ends in the fingerprint it is about. */
  lemma ItemKeyEndsInFingerprint(inp: Inputs, f: string)
    requires Keyed(inp) && Planned(inp, f)
    ensures ItemKey(ItemFor(inp, f))[2] == f
  {
    hide Fingerprint;
    hide VerdictOf;
  }

  /** One item for each planned fingerprint, sorted by key, are the items of the plan. */
  lemma SortedItemsAreTheItems(inp: Inputs, items: seq<PlanItem>, fs: seq<string>, sorted: seq<PlanItem>)
    requires Keyed(inp) && ListsItems(inp, items, fs) && Distinct(fs) && forall f :: f in fs <==> Planned(inp, f)
    requires StrictTotal(WordsLess) && InOrder(WordsLess, ItemKey, sorted) && multiset(sorted) == multiset(items)
    ensures IsItems(inp, sorted)
  {
    hide ItemKey;
    hide ItemFor;
    hide WordsLess;
    hide Planned;
    forall i, j | 0 <= i < j < |items| ensures items[i] != items[j] {
      ItemKeyEndsInFingerprint(inp, fs[i]);
      ItemKeyEndsInFingerprint(inp, fs[j]);
    }
    PermutedStaysDistinct(items, sorted);
    forall item | item in sorted ensures IsItemOf(inp, item) {
      var i :| 0 <= i < |items| && items[i] == item;
      assert Planned(inp, fs[i]);
    }
    forall f | Planned(inp, f) ensures ItemFor(inp, f) in sorted {
      var i :| 0 <= i < |fs| && fs[i] == f;
      assert items[i] in sorted;
    }
    forall i, j | 0 <= i < j < |sorted| ensures ItemKey(sorted[i]) != ItemKey(sorted[j]) {
      assert IsItemOf(inp, sorted[i]) && IsItemOf(inp, sorted[j]);
      var f :| Planned(inp, f) && sorted[i] == ItemFor(inp, f);
      var g :| Planned(inp, g) && sorted[j] == ItemFor(inp, g);
      ItemKeyEndsInFingerprint(inp, f);
      ItemKeyEndsInFingerprint(inp, g);
    }
    SortedKeysAscend(WordsLess, ItemKey, sorted);
  }

  /** The foreign entries, sorted by fingerprint, are what the plan reports. */
  lemma SortedForeignIsReported(inp: Inputs, entries: seq<ObservedLink>, fs: seq<string>, sorted: seq<ObservedLink>)
    requires Keyed(inp) && Lists(inp, entries, fs) && Distinct(fs) && forall f :: f in fs <==> Foreign(inp, f)
    requires StrictTotal(StringLess) && InOrder(StringLess, EntryFingerprint, sorted) &&
      multiset(sorted) == multiset(entries)
    ensures IsUnmanaged(inp, sorted)
  {
    hide Fingerprint;
    hide StringLess;
    assert forall i | 0 <= i < |entries| :: Fingerprint(entries[i].link) == fs[i];
    assert Distinct(entries);
    PermutedStaysDistinct(entries, sorted);
    forall e | e in sorted ensures Foreign(inp, Fingerprint(e.link)) && e == inp.present[Fingerprint(e.link)] {
      var i :| 0 <= i < |entries| && entries[i] == e;
      assert fs[i] in fs;
    }
    forall f | Foreign(inp, f) ensures inp.present[f] in sorted {
      var i :| 0 <= i < |fs| && fs[i] == f;
      assert entries[i] in sorted;
    }
    SortedKeysAscend(StringLess, EntryFingerprint, sorted);
  }

  method FileWanted(desired: seq<Link>) returns (wanted: map<string, Link>)
    ensures wanted == WantedMap(desired)
  {
    wanted := map[];
    for i := 0 to |desired|
      invariant wanted == WantedMap(desired[..i])
    {
      assert desired[..i + 1][..i] == desired[..i];
      wanted := wanted[Fingerprint(desired[i]) := desired[i]];
    }
    assert desired[..|desired|] == desired;
  }

  /** The entries by fingerprint, and the order their fingerprints were first seen in. */
  method FilePresent(observed: seq<ObservedLink>) returns (present: map<string, ObservedLink>, order: seq<string>)
    ensures present == PresentMap(observed)
    ensures Distinct(order) && forall f :: f in order <==> f in present
  {
    hide Fingerprint;
    present, order := map[], [];
    for i := 0 to |observed|
      invariant present == PresentMap(observed[..i])
      invariant Distinct(order) && forall f :: f in order <==> f in present
    {
      assert observed[..i + 1][..i] == observed[..i];
      var f := Fingerprint(observed[i].link);
      if f !in present {
        order := order + [f];
      }
      present := present[f := observed[i]];
    }
    assert observed[..|observed|] == observed;
  }

  /** Everything that would happen if this plan were applied, and nothing else. */
  method BuildPlan(desired: seq<Link>, observed: seq<ObservedLink>, caps: Network, selected: set<string>)
    returns (plan: Plan)
    ensures IsPlan(InputsOf(desired, observed, selected, caps), plan)
  {
    hide Keyed;
    hide IsItems;
    hide IsUnmanaged;
    hide Lists;
    hide ListsItems;
    hide Distinct;
    hide StrictTotal;
    hide InOrder;
    hide Token;
    hide UnchangedCount;
    hide Planned;
    hide Foreign;
    hide Survives;
    var wanted := FileWanted(desired);
    var present, order := FilePresent(observed);
    var inp := Inputs(wanted, present, selected, caps);
    InputsKeyed(desired, observed, selected, caps);
    var state, removed, foreign, kept := Classify(inp, order);
    var removals := seq(|state.removals|, i requires 0 <= i < |state.removals| => RemoveItem(state.removals[i]));
    var adds, missing := PlannedAdds(inp, state.survivors, kept);
    WordsLessIsTotal();
    StringLessIsTotal();
    var items := SortBy(WordsLess, ItemKey, removals + adds);
    var unmanaged := SortBy(StringLess, EntryFingerprint, state.unmanaged);
    RemovalsThenAdds(inp, state.removals, removed, removals, adds, missing);
    SortedItemsAreTheItems(inp, removals + adds, removed + missing, items);
    SortedForeignIsReported(inp, state.unmanaged, foreign, unmanaged);
    plan := Plan(Token(inp), items, unmanaged, state.already);
  }

  lemma RemovalsThenAdds(inp: Inputs, entries: seq<ObservedLink>, removed: seq<string>, removals: seq<PlanItem>,
          adds: seq<PlanItem>, missing: seq<string>)
    requires Lists(inp, entries, removed) && Distinct(removed) && forall f :: f in removed <==> Removable(inp, f)
    requires ListsItems(inp, adds, missing) && Distinct(missing) && forall f :: f in missing <==> Missing(inp, f)
    requires removals == seq(|entries|, i requires 0 <= i < |entries| => RemoveItem(entries[i]))
    ensures ListsItems(inp, removals + adds, removed + missing)
    ensures Distinct(removed + missing) && forall f :: f in removed + missing <==> Planned(inp, f)
  {
    hide RemoveItem;
    hide AddItem;
    hide VerdictOf;
    var fs := removed + missing;
    forall i | 0 <= i < |fs| ensures Planned(inp, fs[i]) && (removals + adds)[i] == ItemFor(inp, fs[i]) {
      if i < |removed| {
        assert fs[i] == removed[i] && removed[i] in removed;
      } else {
        assert fs[i] == missing[i - |removed|];
      }
    }
    forall i, j | 0 <= i < j < |fs| ensures fs[i] != fs[j] {
      if i < |removed| <= j {
        assert removed[i] in removed && missing[j - |removed|] in missing;
      }
    }
  }
}
