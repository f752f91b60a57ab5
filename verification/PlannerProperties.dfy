/** What every plan guarantees: uniqueness, safety, capacity at every step, and a fixed point. */
module PlannerProperties {
  import opened Wrappers
  import opened Orders
  import opened Models
  import opened Fingerprints
  import opened Planner

  // One plan for one set of inputs.

  lemma ItemIsFor(inp: Inputs, item: PlanItem)
    requires Keyed(inp) && IsItemOf(inp, item)
    ensures Planned(inp, ItemFingerprint(item)) && item == ItemFor(inp, ItemFingerprint(item))
    ensures ItemKey(item)[2] == ItemFingerprint(item)
  {
    hide ItemFor;
    var f :| Planned(inp, f) && item == ItemFor(inp, f);
    ItemKeyEndsInFingerprint(inp, f);
  }

  function KeysOf(items: seq<PlanItem>): seq<seq<string>> {
    seq(|items|, i requires 0 <= i < |items| => ItemKey(items[i]))
  }

  lemma KeysAscend(inp: Inputs, items: seq<PlanItem>)
    requires IsItems(inp, items)
    ensures StrictTotal(WordsLess) && Ascending(WordsLess, KeysOf(items))
  {
    WordsLessIsTotal();
  }

  lemma ItemsAreUnique(inp: Inputs, a: seq<PlanItem>, b: seq<PlanItem>)
    requires Keyed(inp) && IsItems(inp, a) && IsItems(inp, b)
    ensures a == b
  {
    hide ItemKey;
    hide ItemFor;
    hide Planned;
    hide WordsLess;
    hide ItemFingerprint;
    KeysAscend(inp, a);
    KeysAscend(inp, b);
    SameKeys(inp, a, b);
    SameKeys(inp, b, a);
    AscendingIsUnique(WordsLess, KeysOf(a), KeysOf(b));
    assert |a| == |KeysOf(a)| && |b| == |KeysOf(b)|;
    forall i | 0 <= i < |a| ensures a[i] == b[i] {
      assert KeysOf(a)[i] == ItemKey(a[i]) && KeysOf(b)[i] == ItemKey(b[i]);
      ItemIsFor(inp, a[i]);
      ItemIsFor(inp, b[i]);
    }
  }

  lemma SameKeys(inp: Inputs, a: seq<PlanItem>, b: seq<PlanItem>)
    requires Keyed(inp) && IsItems(inp, a) && IsItems(inp, b)
    ensures forall k | k in KeysOf(a) :: k in KeysOf(b)
  {
    hide ItemKey;
    hide ItemFor;
    hide Planned;
    hide WordsLess;
    forall k | k in KeysOf(a) ensures k in KeysOf(b) {
      var i :| 0 <= i < |a| && KeysOf(a)[i] == k;
      assert IsItemOf(inp, a[i]);
      var f :| Planned(inp, f) && a[i] == ItemFor(inp, f);
      assert ItemFor(inp, f) in b;
      var j :| 0 <= j < |b| && b[j] == a[i];
      assert KeysOf(b)[j] == k;
    }
  }

  /** Every input has a plan. */
  lemma PlanExists(inp: Inputs) returns (plan: Plan)
    requires Keyed(inp)
    ensures IsPlan(inp, plan)
  {
    hide Fingerprint;
    hide Token;
    hide IsItems;
    hide IsUnmanaged;
    var items := ItemsExist(inp);
    var unmanaged := UnmanagedExist(inp);
    plan := Plan(Token(inp), items, unmanaged, UnchangedCount(inp));
  }

  lemma ItemsExist(inp: Inputs) returns (items: seq<PlanItem>)
    requires Keyed(inp)
    ensures IsItems(inp, items)
  {
    hide IsItems;
    hide Keyed;
    hide ListsItems;
    hide Distinct;
    hide StrictTotal;
    hide InOrder;
    hide Ascending;
    hide Planned;
    var fs := SortedStrings(PlannedSet(inp));
    PlannedAreListed(inp);
    SortedStringsAscend(PlannedSet(inp));
    AscendingIsDistinct(fs);
    WordsLessIsTotal();
    var unsorted := ListedItems(inp, fs);
    items := SortBy(WordsLess, ItemKey, unsorted);
    SortedItemsAreTheItems(inp, unsorted, fs, items);
  }

  lemma PlannedAreListed(inp: Inputs)
    ensures forall f :: f in SortedStrings(PlannedSet(inp)) <==> Planned(inp, f)
  {
    hide SortedStrings;
  }

  lemma {:induction false} ListedItems(inp: Inputs, fs: seq<string>) returns (items: seq<PlanItem>)
    requires forall f | f in fs :: Planned(inp, f)
    ensures ListsItems(inp, items, fs)
  {
    hide ItemFor;
    hide Planned;
    items := [];
    if fs != [] {
      var front, last := fs[..|fs| - 1], fs[|fs| - 1];
      var rest := ListedItems(inp, front);
      assert Planned(inp, last);
      items := rest + [ItemFor(inp, last)];
    }
  }

  lemma UnmanagedExist(inp: Inputs) returns (unmanaged: seq<ObservedLink>)
    requires Keyed(inp)
    ensures IsUnmanaged(inp, unmanaged)
  {
    hide IsUnmanaged;
    hide Keyed;
    hide Lists;
    hide Distinct;
    hide StrictTotal;
    hide InOrder;
    hide Ascending;
    hide Foreign;
    var foreign := set f | f in inp.present && Foreign(inp, f);
    ForeignArePresent(inp);
    var fs := SortedStrings(foreign);
    SortedStringsAscend(foreign);
    AscendingIsDistinct(fs);
    StringLessIsTotal();
    var unsorted := ListedEntries(inp, fs);
    unmanaged := SortBy(StringLess, EntryFingerprint, unsorted);
    SortedForeignIsReported(inp, unsorted, fs, unmanaged);
  }

  lemma ForeignArePresent(inp: Inputs)
    ensures forall f | Foreign(inp, f) :: f in inp.present
  {
  }

  lemma {:induction false} ListedEntries(inp: Inputs, fs: seq<string>) returns (entries: seq<ObservedLink>)
    requires forall f | f in fs :: f in inp.present
    ensures Lists(inp, entries, fs)
  {
    entries := [];
    if fs != [] {
      var front, last := fs[..|fs| - 1], fs[|fs| - 1];
      var rest := ListedEntries(inp, front);
      assert last in fs;
      entries := rest + [inp.present[last]];
    }
  }

  // Safety.

  /** What a plan ever removes: never a system link, never a wanted one, and a foreign one only when selected. */
  lemma RemovalsAreSafe(inp: Inputs, plan: Plan, item: PlanItem)
    requires Keyed(inp) && IsPlan(inp, plan) && item in plan.items && item.op == RemoveOp
    ensures item.about.Found?
    ensures
      var entry := item.about.entry;
      var f := Fingerprint(entry.link);
      && f in inp.present && inp.present[f] == entry && item.device == entry.link.source.Identity()
      && !entry.isSystem && f !in inp.wanted && (entry.managedBy.Some? || f in inp.selected)
  {
    hide IsUnmanaged;
    hide Token;
    hide VerdictOf;
    hide Fingerprint;
    hide UnchangedCount;
    hide WordsLess;
    assert IsItemOf(inp, item);
    ItemIsFor(inp, item);
  }

  /** A system link is not reported as foreign either, and every foreign link is reported. */
  lemma ForeignIsReported(inp: Inputs, plan: Plan, f: string)
    requires Keyed(inp) && IsPlan(inp, plan) && f in inp.present
    ensures inp.present[f] in plan.unmanaged <==>
      !inp.present[f].isSystem && f !in inp.wanted && inp.present[f].managedBy.None?
  {
    hide IsItems;
    hide Token;
    hide Fingerprint;
    hide StringLess;
  }

  // Executing a plan.

  type Held = map<string, Link>

  function Start(inp: Inputs): Held {
    map f | f in inp.present :: inp.present[f].link
  }

  function After(held: Held, item: PlanItem): Held {
    if item.op == RemoveOp && !item.about.NoLink? then held - {Fingerprint(item.about.TheLink())}
    else if item.op == AddOp && !item.about.NoLink? then held[Fingerprint(item.about.TheLink()) := item.about.TheLink()]
    else held
  }

  /** What the devices hold after these items, in order. */
  function Execute(held: Held, items: seq<PlanItem>): Held {
    if items == [] then held
    else After(Execute(held, items[..|items| - 1]), items[|items| - 1])
  }

  ghost function Occupancy(held: Held, slot: Slot): nat {
    |set f | f in held && SlotOf(held[f]) == slot|
  }

  ghost predicate RemovedBy(items: seq<PlanItem>, f: string) {
    exists item | item in items :: item.op == RemoveOp && ItemFingerprint(item) == f
  }

  ghost predicate AddedBy(items: seq<PlanItem>, f: string) {
    exists item | item in items :: item.op == AddOp && ItemFingerprint(item) == f
  }

  /** The missing links of a group, and the ones of them a plan adds. */
  ghost function MissingIn(inp: Inputs, slot: Slot): set<string> {
    set f | f in inp.wanted && Missing(inp, f) && SlotOf(inp.wanted[f]) == slot
  }

  ghost function AddsIn(inp: Inputs, slot: Slot): set<string> {
    set f | f in MissingIn(inp, slot) && VerdictOf(inp, f).Fits?
  }

  /** In the sorted list of a group's missing links, the rank of each is its place. */
  lemma RankIsPlace(inp: Inputs, slot: Slot, fs: seq<string>, i: nat)
    requires StrictTotal(StringLess) && Ascending(StringLess, fs) && forall f :: f in fs <==> f in MissingIn(inp, slot)
    requires i < |fs| && fs[i] in inp.wanted
    ensures Rank(inp, fs[i]) == i
  {
    hide StringLess;
    var before := set g | g in inp.wanted && Missing(inp, g) && SlotOf(inp.wanted[g]) == SlotOf(inp.wanted[fs[i]]) &&
      StringLess(g, fs[i]);
    assert fs[i] in MissingIn(inp, slot);
    forall g ensures g in fs[..i] <==> g in before {
      if g in fs[..i] {
        var j :| 0 <= j < i && fs[j] == g;
        AscendingPositions(StringLess, fs, j, i);
        assert g in fs;
      }
      if g in before {
        assert g in fs;
        var j :| 0 <= j < |fs| && fs[j] == g;
        AscendingPositions(StringLess, fs, j, i);
      }
    }
    AscendingIsDistinct(fs);
    DistinctCardinality(fs[..i], before);
  }

  ghost function Room(inp: Inputs, slot: Slot, c: int): nat {
    if c > SurvivorsIn(inp, slot) then c - SurvivorsIn(inp, slot) else 0
  }

  /** Of a group's missing links in order, those added are the first ones, as far as the room goes. */
  lemma AddedWhileRoom(inp: Inputs, slot: Slot, c: int, fs: seq<string>, i: nat)
    requires CapacityOf(inp.caps, slot) == Some(c)
    requires StrictTotal(StringLess) && Ascending(StringLess, fs) && forall f :: f in fs <==> f in MissingIn(inp, slot)
    requires i < |fs|
    ensures fs[i] in AddsIn(inp, slot) <==> i < Room(inp, slot, c)
  {
    hide StringLess;
    hide SurvivorsIn;
    hide Rank;
    assert fs[i] in fs;
    RankIsPlace(inp, slot, fs, i);
  }

  /** The links of a known group that fit number exactly the missing ones, up to the room its survivors leave. */
  lemma VerdictsFillTheRoom(inp: Inputs, slot: Slot, c: int)
    requires CapacityOf(inp.caps, slot) == Some(c)
    ensures |AddsIn(inp, slot)| == if |MissingIn(inp, slot)| < Room(inp, slot, c) then |MissingIn(inp, slot)|
      else Room(inp, slot, c)
  {
    hide StringLess;
    hide VerdictOf;
    hide Room;
    StringLessIsTotal();
    var fs := SortedOf(StringLess, MissingIn(inp, slot));
    var room := Room(inp, slot, c);
    var n := if |fs| < room then |fs| else room;
    forall f ensures f in fs[..n] <==> f in AddsIn(inp, slot) {
      if f in fs[..n] {
        var i :| 0 <= i < n && fs[i] == f;
        AddedWhileRoom(inp, slot, c, fs, i);
      }
      if f in AddsIn(inp, slot) {
        assert f in fs;
        var i :| 0 <= i < |fs| && fs[i] == f;
        AddedWhileRoom(inp, slot, c, fs, i);
        assert fs[..n][i] == f;
      }
    }
    AscendingIsDistinct(fs);
    DistinctCardinality(fs[..n], AddsIn(inp, slot));
  }

  // How the order of a plan's items matters.

  lemma LexHead(a: seq<string>, b: seq<string>)
    requires StrictTotal(StringLess) && |a| == 3 && |b| == 3 && a[0] == b[0]
    ensures StringLess(a[1], b[1]) ==> WordsLess(a, b)
    ensures a[1] == b[1] ==> (WordsLess(a, b) <==> StringLess(a[2], b[2]))
  {
    hide StringLess;
    assert !StringLess(a[0], b[0]) && !StringLess(a[1], a[1]);
    assert WordsLess(a, b) <==> LexLess(StringLess, a[1..], b[1..]);
    assert LexLess(StringLess, a[1..], b[1..]) <==>
      StringLess(a[1], b[1]) || (a[1] == b[1] && LexLess(StringLess, a[1..][1..], b[1..][1..]));
    var x, y := a[1..][1..], b[1..][1..];
    assert |x| == 1 && |y| == 1 && x[0] == a[2] && y[0] == b[2];
    assert LexLess(StringLess, x, y) <==>
      StringLess(x[0], y[0]) || (x[0] == y[0] && LexLess(StringLess, x[1..], y[1..]));
    assert |y[1..]| == 0;
  }

  /** On one device, what is removed comes before what is added. */
  lemma RemovesComeFirst(inp: Inputs, items: seq<PlanItem>, i: nat, j: nat)
    requires Keyed(inp) && IsItems(inp, items) && i < |items| && j < |items|
    requires items[i].op == RemoveOp && items[j].op == AddOp && items[i].device == items[j].device
    ensures i < j
  {
    hide ItemFingerprint;
    hide Planned;
    hide ItemFor;
    StringLessIsTotal();
    KeysAscend(inp, items);
    assert StringLess("0", "2");
    LexHead(ItemKey(items[i]), ItemKey(items[j]));
    assert KeysOf(items)[i] == ItemKey(items[i]) && KeysOf(items)[j] == ItemKey(items[j]);
    AscendingPositions(WordsLess, KeysOf(items), i, j);
  }

  lemma ItemsAreDistinct(inp: Inputs, items: seq<PlanItem>, i: nat, j: nat)
    requires Keyed(inp) && IsItems(inp, items) && i < |items| && j < |items|
    ensures ItemFingerprint(items[i]) == ItemFingerprint(items[j]) <==> i == j
  {
    hide ItemKey;
    hide ItemFor;
    hide Planned;
    hide WordsLess;
    KeysAscend(inp, items);
    assert IsItemOf(inp, items[i]) && IsItemOf(inp, items[j]);
    ItemIsFor(inp, items[i]);
    ItemIsFor(inp, items[j]);
    assert KeysOf(items)[i] == ItemKey(items[i]) && KeysOf(items)[j] == ItemKey(items[j]);
    AscendingPositions(WordsLess, KeysOf(items), i, j);
  }

  // What is held after part of a plan.

  /** What the devices hold after the first `k` items, link by link. */
  ghost predicate HoldsAfter(inp: Inputs, items: seq<PlanItem>, k: nat, held: Held)
    requires k <= |items|
  {
    && (forall f :: f in held <==> (f in inp.present && !RemovedBy(items[..k], f)) || AddedBy(items[..k], f))
    && (forall f | f in held :: f in inp.present || f in inp.wanted)
    && (forall f | f in held :: held[f] == if f in inp.present then inp.present[f].link else inp.wanted[f])
  }

  lemma ByOneMore(items: seq<PlanItem>, item: PlanItem, f: string)
    ensures RemovedBy(items + [item], f) <==> RemovedBy(items, f) || (item.op == RemoveOp && ItemFingerprint(item) == f)
    ensures AddedBy(items + [item], f) <==> AddedBy(items, f) || (item.op == AddOp && ItemFingerprint(item) == f)
  {
    hide ItemFingerprint;
    assert forall x :: x in items + [item] <==> x in items || x == item;
  }

  lemma ByIndex(items: seq<PlanItem>, k: nat, f: string)
    requires k <= |items|
    ensures RemovedBy(items[..k], f) <==>
      exists i | 0 <= i < k :: items[i].op == RemoveOp && ItemFingerprint(items[i]) == f
    ensures AddedBy(items[..k], f) <==> exists i | 0 <= i < k :: items[i].op == AddOp && ItemFingerprint(items[i]) == f
  {
    hide ItemFingerprint;
    assert forall i | 0 <= i < k :: items[i] in items[..k];
  }

  lemma ItemShape(inp: Inputs, items: seq<PlanItem>, i: nat)
    requires Keyed(inp) && IsItems(inp, items) && i < |items|
    ensures
      var f := ItemFingerprint(items[i]);
      && items[i].op in {RemoveOp, AddOp, BlockedOp} && !items[i].about.NoLink?
      && (items[i].op == RemoveOp <==> Removable(inp, f))
      && (items[i].op != RemoveOp <==> Missing(inp, f))
      && (items[i].op == AddOp <==> Missing(inp, f) && VerdictOf(inp, f).Fits?)
      && (items[i].op == RemoveOp ==> items[i] == RemoveItem(inp.present[f]))
      && (items[i].op != RemoveOp ==>
        items[i] == AddItem(inp.wanted[f], VerdictOf(inp, f)) && items[i].about == Wanted(inp.wanted[f]))
      && f == Fingerprint(items[i].about.TheLink())
  {
    hide VerdictOf;
    hide Fingerprint;
    assert IsItemOf(inp, items[i]);
    ItemIsFor(inp, items[i]);
  }

  lemma {:induction false} ExecutePrefix(inp: Inputs, items: seq<PlanItem>, k: nat)
    requires Keyed(inp) && IsItems(inp, items) && k <= |items|
    ensures HoldsAfter(inp, items, k, Execute(Start(inp), items[..k]))
  {
    hide Fingerprint;
    if k == 0 {
      forall f ensures !RemovedBy(items[..k], f) && !AddedBy(items[..k], f) {
        ByIndex(items, k, f);
      }
    } else {
      ExecutePrefix(inp, items, k - 1);
      ExecuteOneMore(inp, items, k - 1, Execute(Start(inp), items[..k - 1]));
      assert items[..k][..k - 1] == items[..k - 1];
    }
  }

  lemma ExecuteOneMore(inp: Inputs, items: seq<PlanItem>, k: nat, held: Held)
    requires Keyed(inp) && IsItems(inp, items) && k < |items| && HoldsAfter(inp, items, k, held)
    ensures HoldsAfter(inp, items, k + 1, After(held, items[k]))
  {
    hide Fingerprint;
    hide Keyed;
    hide IsItems;
    hide Planned;
    hide VerdictOf;
    hide RemovedBy;
    hide AddedBy;
    hide AddItem;
    hide RemoveItem;
    hide ItemFingerprint;
    var item := items[k];
    var f := ItemFingerprint(item);
    ItemShape(inp, items, k);
    var next := After(held, item);
    assert items[..k + 1] == items[..k] + [item];
    NotBefore(inp, items, k);
    forall g ensures g in next <==> (g in inp.present && !RemovedBy(items[..k + 1], g)) || AddedBy(items[..k + 1], g) {
      ByOneMore(items[..k], item, g);
      assert g in next <==> (g in held && !(item.op == RemoveOp && f == g)) || (item.op == AddOp && f == g);
    }
    forall g | g in next
      ensures (g in inp.present || g in inp.wanted) && next[g] == if g in inp.present then inp.present[g].link
        else inp.wanted[g]
    {
      if item.op == AddOp && g == f {
        assert Missing(inp, f);
      } else {
        assert g in held && next[g] == held[g];
      }
    }
  }

  lemma NotBefore(inp: Inputs, items: seq<PlanItem>, k: nat)
    requires Keyed(inp) && IsItems(inp, items) && k < |items|
    ensures !AddedBy(items[..k], ItemFingerprint(items[k])) && !RemovedBy(items[..k], ItemFingerprint(items[k]))
  {
    hide IsItems;
    hide ItemFingerprint;
    forall i | 0 <= i < k ensures ItemFingerprint(items[i]) != ItemFingerprint(items[k]) {
      ItemsAreDistinct(inp, items, i, k);
    }
    ByIndex(items, k, ItemFingerprint(items[k]));
  }

  // Capacity.

  ghost function EntriesIn(inp: Inputs, slot: Slot): set<string> {
    set f | f in inp.present && SlotOf(inp.present[f].link) == slot
  }

  ghost function HeldIn(held: Held, slot: Slot): set<string> {
    set f | f in held && SlotOf(held[f]) == slot
  }

  /** Some item among the first `k` adds to the group. */
  ghost predicate AddsTo(items: seq<PlanItem>, k: nat, slot: Slot)
    requires k <= |items|
  {
    exists i | 0 <= i < k :: AddsToAt(items[i], slot)
  }

  ghost predicate AddsToAt(item: PlanItem, slot: Slot) {
    item.op == AddOp && !item.about.NoLink? && SlotOf(item.about.TheLink()) == slot
  }

  /** Until a group is added to, it holds no more than it did. */
  lemma NoAddsNoGrowth(inp: Inputs, items: seq<PlanItem>, k: nat, held: Held, slot: Slot)
    requires Keyed(inp) && IsItems(inp, items) && k <= |items| && HoldsAfter(inp, items, k, held)
    requires !AddsTo(items, k, slot)
    ensures HeldIn(held, slot) <= EntriesIn(inp, slot)
  {
    hide IsItems;
    hide Keyed;
    hide Fingerprint;
    hide ItemFingerprint;
    hide AddedBy;
    hide RemovedBy;
    forall f | f in HeldIn(held, slot) ensures f in EntriesIn(inp, slot) {
      if f !in inp.present {
        AddedMeansAddsTo(inp, items, k, f);
      }
    }
  }

  lemma AddedMeansAddsTo(inp: Inputs, items: seq<PlanItem>, k: nat, f: string)
    requires Keyed(inp) && IsItems(inp, items) && k <= |items| && AddedBy(items[..k], f)
    ensures f in inp.wanted && AddsTo(items, k, SlotOf(inp.wanted[f]))
  {
    hide IsItems;
    hide ItemFingerprint;
    hide AddedBy;
    hide VerdictOf;
    hide Fingerprint;
    var i := AddedAt(inp, items, k, f);
    assert AddsToAt(items[i], SlotOf(inp.wanted[f]));
  }

  lemma AddedAt(inp: Inputs, items: seq<PlanItem>, k: nat, f: string) returns (i: nat)
    requires Keyed(inp) && IsItems(inp, items) && k <= |items| && AddedBy(items[..k], f)
    ensures i < k && items[i].op == AddOp && ItemFingerprint(items[i]) == f
    ensures f in inp.wanted && items[i].about == Wanted(inp.wanted[f]) && Missing(inp, f) && VerdictOf(inp, f).Fits?
  {
    hide IsItems;
    hide ItemFingerprint;
    hide VerdictOf;
    hide Fingerprint;
    ByIndex(items, k, f);
    i :| 0 <= i < k && items[i].op == AddOp && ItemFingerprint(items[i]) == f;
    ItemShape(inp, items, i);
  }

  /** Once a group has been added to, what its device lost is already gone. */
  lemma AfterAnAdd(inp: Inputs, items: seq<PlanItem>, k: nat, j: nat, held: Held, slot: Slot)
    requires Keyed(inp) && IsItems(inp, items) && k <= |items| && HoldsAfter(inp, items, k, held)
    requires j < |items| && AddsToAt(items[j], slot) && j <= k
    ensures HeldIn(held, slot) <= SurvivingIn(inp, slot) + AddsIn(inp, slot)
    ensures forall f | f in HeldIn(held, slot) && f in AddsIn(inp, slot) :: AddedBy(items[..k], f)
  {
    hide IsItems;
    hide Keyed;
    hide Fingerprint;
    hide ItemFingerprint;
    hide AddedBy;
    hide RemovedBy;
    hide VerdictOf;
    forall f | f in HeldIn(held, slot) ensures f in SurvivingIn(inp, slot) + AddsIn(inp, slot) {
      if f in inp.present {
        if Removable(inp, f) {
          RemovedBeforeAdd(inp, items, j, f, slot);
          RemovedEarly(items, j, k, f);
          NotBoth(inp, items, k, f);
        }
      } else {
        var i := AddedAt(inp, items, k, f);
      }
    }
  }

  lemma RemovedEarly(items: seq<PlanItem>, j: nat, k: nat, f: string)
    requires j <= k <= |items| && RemovedBy(items[..j], f)
    ensures RemovedBy(items[..k], f)
  {
    hide ItemFingerprint;
    ByIndex(items, j, f);
    ByIndex(items, k, f);
  }

  lemma NotBoth(inp: Inputs, items: seq<PlanItem>, k: nat, f: string)
    requires Keyed(inp) && IsItems(inp, items) && k <= |items| && f in inp.present
    ensures !AddedBy(items[..k], f)
  {
    hide IsItems;
    hide VerdictOf;
    hide Fingerprint;
    hide ItemFingerprint;
    if AddedBy(items[..k], f) {
      var i := AddedAt(inp, items, k, f);
    }
  }

  lemma RemovedBeforeAdd(inp: Inputs, items: seq<PlanItem>, j: nat, f: string, slot: Slot)
    requires Keyed(inp) && IsItems(inp, items) && j < |items| && AddsToAt(items[j], slot)
    requires Removable(inp, f) && SlotOf(inp.present[f].link) == slot
    ensures RemovedBy(items[..j], f)
  {
    hide Fingerprint;
    hide VerdictOf;
    hide WordsLess;
    hide ItemFingerprint;
    assert Planned(inp, f) && ItemFor(inp, f) in items;
    var i :| 0 <= i < |items| && items[i] == ItemFor(inp, f);
    ItemShape(inp, items, j);
    ItemKeyEndsInFingerprint(inp, f);
    assert ItemFingerprint(items[i]) == f;
    RemovesComeFirst(inp, items, i, j);
    ByIndex(items, j, f);
  }

  /**
   Capacity holds at every step of a plan.

   After any number of its items a group holds at most the larger of what it held and its
   capacity, and no more than it held when its capacity is not known.
   */
  lemma CapacityHolds(inp: Inputs, items: seq<PlanItem>, k: nat, slot: Slot)
    requires Keyed(inp) && IsItems(inp, items) && k <= |items|
    ensures
      var now := Occupancy(Execute(Start(inp), items[..k]), slot);
      var before := Occupancy(Start(inp), slot);
      match CapacityOf(inp.caps, slot)
      case None => now <= before
      case Some(c) => now <= before || now <= c
  {
    hide Keyed;
    hide IsItems;
    hide HoldsAfter;
    hide Execute;
    hide VerdictOf;
    hide AddsToAt;
    hide SurvivorsIn;
    hide EntriesIn;
    var held := Execute(Start(inp), items[..k]);
    ExecutePrefix(inp, items, k);
    assert Occupancy(held, slot) == |HeldIn(held, slot)|;
    if AddsTo(items, k, slot) {
      var j :| 0 <= j < k && AddsToAt(items[j], slot);
      AfterAnAdd(inp, items, k, j, held, slot);
      RoomForAll(inp, items, j, slot);
      SubsetSize(HeldIn(held, slot), SurvivingIn(inp, slot) + AddsIn(inp, slot));
    } else {
      NoAddsNoGrowth(inp, items, k, held, slot);
      StartOccupancy(inp, slot);
      SubsetSize(HeldIn(held, slot), EntriesIn(inp, slot));
    }
  }

  lemma StartOccupancy(inp: Inputs, slot: Slot)
    ensures Occupancy(Start(inp), slot) == |EntriesIn(inp, slot)|
  {
    assert (set f | f in Start(inp) && SlotOf(Start(inp)[f]) == slot) == EntriesIn(inp, slot);
  }

  lemma {:induction false} SubsetSize<T>(a: set<T>, b: set<T>)
    requires a <= b
    ensures |a| <= |b|
    ensures a != b ==> |a| < |b|
  {
    assert b == a + (b - a);
    assert a != b ==> b - a != {};
  }

  /** A group that is added to has a known capacity, and room for all its adds. */
  lemma RoomForAll(inp: Inputs, items: seq<PlanItem>, j: nat, slot: Slot)
    requires Keyed(inp) && IsItems(inp, items) && j < |items| && AddsToAt(items[j], slot)
    ensures CapacityOf(inp.caps, slot).Some?
    ensures |SurvivingIn(inp, slot) + AddsIn(inp, slot)| <= CapacityOf(inp.caps, slot).value
    ensures ItemFingerprint(items[j]) in AddsIn(inp, slot) && ItemFingerprint(items[j]) !in SurvivingIn(inp, slot)
  {
    hide Keyed;
    hide IsItems;
    hide ItemFingerprint;
    hide Fingerprint;
    ItemShape(inp, items, j);
    var f := ItemFingerprint(items[j]);
    assert f in AddsIn(inp, slot);
    var c := CapacityOf(inp.caps, slot).value;
    VerdictsFillTheRoom(inp, slot, c);
    assert |AddsIn(inp, slot)| > 0;
    assert SurvivingIn(inp, slot) !! AddsIn(inp, slot);
  }

  /** Every add of a plan is made to a group that is then strictly below its capacity. */
  lemma AddsHappenBelowCapacity(inp: Inputs, items: seq<PlanItem>, k: nat)
    requires Keyed(inp) && IsItems(inp, items) && k < |items| && items[k].op == AddOp
    ensures !items[k].about.NoLink?
    ensures
      var slot := SlotOf(items[k].about.TheLink());
      && CapacityOf(inp.caps, slot).Some?
      && Occupancy(Execute(Start(inp), items[..k]), slot) < CapacityOf(inp.caps, slot).value
  {
    hide Keyed;
    hide IsItems;
    hide HoldsAfter;
    hide Execute;
    hide VerdictOf;
    hide Fingerprint;
    hide ItemFingerprint;
    ItemShape(inp, items, k);
    var slot := SlotOf(items[k].about.TheLink());
    var held := Execute(Start(inp), items[..k]);
    ExecutePrefix(inp, items, k);
    AfterAnAdd(inp, items, k, k, held, slot);
    RoomForAll(inp, items, k, slot);
    NotBefore(inp, items, k);
    SubsetSize(HeldIn(held, slot), SurvivingIn(inp, slot) + AddsIn(inp, slot));
    assert Occupancy(held, slot) == |HeldIn(held, slot)|;
  }

  // The fixed point.

  /**
   `after` is what the devices hold once every item of a plan has taken effect.

   What was removed is gone, what was added is there, and everything else is as it was. A
   link that was added may come back as anybody's, or as a system link.
   */
  ghost predicate TookEffect(before: map<string, ObservedLink>, items: seq<PlanItem>,
          after: map<string, ObservedLink>) {
    && (forall f :: f in after <==> (f in before && !RemovedBy(items, f)) || AddedBy(items, f))
    && (forall f | f in before && f in after :: after[f] == before[f])
    && (forall f | f in after :: Fingerprint(after[f].link) == f)
  }

  lemma WholePlan(inp: Inputs, items: seq<PlanItem>, f: string)
    requires Keyed(inp) && IsItems(inp, items)
    ensures RemovedBy(items, f) <==> Removable(inp, f)
    ensures AddedBy(items, f) <==> Missing(inp, f) && VerdictOf(inp, f).Fits?
  {
    hide Fingerprint;
    hide VerdictOf;
    hide ItemFingerprint;
    hide WordsLess;
    assert items[..|items|] == items;
    if RemovedBy(items, f) {
      var item :| item in items && item.op == RemoveOp && ItemFingerprint(item) == f;
      var i :| 0 <= i < |items| && items[i] == item;
      ItemShape(inp, items, i);
    }
    if AddedBy(items, f) {
      var i := AddedAt(inp, items, |items|, f);
    }
    if Planned(inp, f) {
      var i :| 0 <= i < |items| && items[i] == ItemFor(inp, f);
      ItemKeyEndsInFingerprint(inp, f);
      assert ItemFingerprint(items[i]) == f;
      ItemShape(inp, items, i);
    }
  }

  // What a plan adds to a group.

  /** The fingerprints a plan adds to a group, item by item. */
  ghost function AddedTo(items: seq<PlanItem>, slot: Slot): seq<string> {
    if items == [] then []
    else
      var last := items[|items| - 1];
      AddedTo(items[..|items| - 1], slot) + if AddsToAt(last, slot) then [ItemFingerprint(last)] else []
  }

  lemma {:induction false} AddedToAre(inp: Inputs, items: seq<PlanItem>, slot: Slot, k: nat)
    requires Keyed(inp) && IsItems(inp, items) && k <= |items|
    ensures forall f ::
      f in AddedTo(items[..k], slot) <==>
        exists i | 0 <= i < k :: AddsToAt(items[i], slot) && ItemFingerprint(items[i]) == f
    ensures Distinct(AddedTo(items[..k], slot))
  {
    hide IsItems;
    hide Keyed;
    hide ItemFingerprint;
    hide AddsToAt;
    if k > 0 {
      AddedToAre(inp, items, slot, k - 1);
      assert items[..k][..k - 1] == items[..k - 1];
      forall i | 0 <= i < k - 1 ensures ItemFingerprint(items[i]) != ItemFingerprint(items[k - 1]) {
        ItemsAreDistinct(inp, items, i, k - 1);
      }
      assert AddedTo(items[..k], slot) ==
        AddedTo(items[..k - 1], slot) + if AddsToAt(items[k - 1], slot) then [ItemFingerprint(items[k - 1])] else [];
      assert ItemFingerprint(items[k - 1]) !in AddedTo(items[..k - 1], slot);
    }
  }

  lemma AddedToIsAddsIn(inp: Inputs, items: seq<PlanItem>, slot: Slot)
    requires Keyed(inp) && IsItems(inp, items)
    ensures forall f :: f in AddedTo(items, slot) <==> f in AddsIn(inp, slot)
    ensures |AddedTo(items, slot)| == |AddsIn(inp, slot)|
  {
    hide IsItems;
    hide ItemFingerprint;
    hide Fingerprint;
    hide VerdictOf;
    hide AddedTo;
    hide AddedBy;
    AddedToAre(inp, items, slot, |items|);
    assert items[..|items|] == items;
    forall f ensures f in AddedTo(items, slot) <==> f in AddsIn(inp, slot) {
      if f in AddedTo(items, slot) {
        var i :| 0 <= i < |items| && AddsToAt(items[i], slot) && ItemFingerprint(items[i]) == f;
        ItemShape(inp, items, i);
      }
      if f in AddsIn(inp, slot) {
        WholePlan(inp, items, f);
        var i := AddedAt(inp, items, |items|, f);
        assert AddsToAt(items[i], slot);
      }
    }
    DistinctCardinality(AddedTo(items, slot), AddsIn(inp, slot));
  }

  /**
   A plan fills the room.

   A group of known capacity is given exactly as many links as it misses and has room for, and
   those are the first of the missing ones in order; one whose capacity is not known is given none.
   */
  lemma AddsFillTheRoom(inp: Inputs, plan: Plan, slot: Slot)
    requires Keyed(inp) && IsPlan(inp, plan)
    ensures
      var added, missing, capacity := AddedTo(plan.items, slot), MissingIn(inp, slot), CapacityOf(inp.caps, slot);
      && (capacity.None? ==> added == [])
      && (capacity.Some? ==>
        |added| == if |missing| < Room(inp, slot, capacity.value) then |missing| else Room(inp, slot, capacity.value))
      && (forall f | f in added :: f in missing)
      && (forall f, g | f in added && g in missing && StringLess(g, f) :: g in added)
  {
    hide StringLess;
    hide Rank;
    hide SurvivorsIn;
    hide CapacityOf;
    hide Keyed;
    hide IsItems;
    hide Token;
    hide IsUnmanaged;
    hide UnchangedCount;
    hide Room;
    AddedToIsAddsIn(inp, plan.items, slot);
    if CapacityOf(inp.caps, slot).Some? {
      VerdictsFillTheRoom(inp, slot, CapacityOf(inp.caps, slot).value);
    }
    forall f, g | f in AddsIn(inp, slot) && g in MissingIn(inp, slot) && StringLess(g, f)
      ensures g in AddsIn(inp, slot)
    {
      EarlierRanksLower(inp, g, f);
    }
  }

  lemma EarlierRanksLower(inp: Inputs, g: string, f: string)
    requires Missing(inp, f) && Missing(inp, g) && SlotOf(inp.wanted[g]) == SlotOf(inp.wanted[f]) && StringLess(g, f)
    ensures Rank(inp, g) <= Rank(inp, f)
  {
    hide StringLess;
    StringLessIsTotal();
    var slot := SlotOf(inp.wanted[f]);
    var before := set h | h in inp.wanted && Missing(inp, h) && SlotOf(inp.wanted[h]) == slot && StringLess(h, g);
    var after := set h | h in inp.wanted && Missing(inp, h) && SlotOf(inp.wanted[h]) == slot && StringLess(h, f);
    SubsetSize(before, after);
  }

  /** After a plan took effect, the same inputs over what is there now. */
  function Again(inp: Inputs, after: map<string, ObservedLink>): Inputs {
    inp.(present := after)
  }

  lemma AfterwardsNothingToRemove(inp: Inputs, items: seq<PlanItem>, after: map<string, ObservedLink>, f: string)
    requires Keyed(inp) && IsItems(inp, items) && TookEffect(inp.present, items, after)
    ensures !Removable(Again(inp, after), f)
    ensures Missing(Again(inp, after), f) <==> Missing(inp, f) && !VerdictOf(inp, f).Fits?
  {
    hide IsItems;
    hide Fingerprint;
    hide VerdictOf;
    hide RemovedBy;
    hide AddedBy;
    WholePlan(inp, items, f);
  }

  lemma AfterwardsHeld(inp: Inputs, items: seq<PlanItem>, after: map<string, ObservedLink>, slot: Slot)
    requires Keyed(inp) && IsItems(inp, items) && TookEffect(inp.present, items, after)
    ensures SurvivorsIn(Again(inp, after), slot) == SurvivorsIn(inp, slot) + |AddsIn(inp, slot)|
  {
    hide IsItems;
    hide Fingerprint;
    hide VerdictOf;
    hide RemovedBy;
    hide AddedBy;
    var next := Again(inp, after);
    hide TookEffect;
    hide Keyed;
    hide SurvivingIn;
    hide AddsIn;
    forall f ensures f in SurvivingIn(next, slot) <==> f in SurvivingIn(inp, slot) + AddsIn(inp, slot) {
      AfterwardsInGroup(inp, items, after, slot, f);
    }
    SurvivorsAreNotAdded(inp, slot);
    assert SurvivingIn(next, slot) == SurvivingIn(inp, slot) + AddsIn(inp, slot);
  }

  lemma SurvivorsAreNotAdded(inp: Inputs, slot: Slot)
    ensures SurvivingIn(inp, slot) !! AddsIn(inp, slot)
  {
    hide VerdictOf;
  }

  lemma SameFingerprintSameSlot(a: Link, b: Link)
    requires Fingerprint(a) == Fingerprint(b)
    ensures SlotOf(a) == SlotOf(b)
  {
    hide Fingerprint;
    FingerprintIsIdentity(a, b);
  }

  lemma AfterwardsInGroup(inp: Inputs, items: seq<PlanItem>, after: map<string, ObservedLink>, slot: Slot, f: string)
    requires Keyed(inp) && IsItems(inp, items) && TookEffect(inp.present, items, after)
    ensures f in SurvivingIn(Again(inp, after), slot) <==> f in SurvivingIn(inp, slot) || f in AddsIn(inp, slot)
  {
    hide IsItems;
    hide Fingerprint;
    hide VerdictOf;
    hide RemovedBy;
    hide AddedBy;
    AfterwardsNothingToRemove(inp, items, after, f);
    WholePlan(inp, items, f);
    if f in inp.wanted && f in after {
      SameFingerprintSameSlot(after[f].link, inp.wanted[f]);
    }
  }

  /** A blocked link stays blocked, for the same reason and with the same figures. */
  lemma BlockedStaysBlocked(inp: Inputs, items: seq<PlanItem>, after: map<string, ObservedLink>, f: string)
    requires Keyed(inp) && IsItems(inp, items) && TookEffect(inp.present, items, after)
    requires Missing(inp, f) && !VerdictOf(inp, f).Fits?
    ensures VerdictOf(Again(inp, after), f) == VerdictOf(inp, f)
  {
    hide IsItems;
    hide Keyed;
    hide TookEffect;
    hide SurvivorsIn;
    hide AddsIn;
    hide MissingIn;
    hide Rank;
    var slot := SlotOf(inp.wanted[f]);
    AfterwardsHeld(inp, items, after, slot);
    if CapacityOf(inp.caps, slot).Some? {
      VerdictsFillTheRoom(inp, slot, CapacityOf(inp.caps, slot).value);
      RankBelowCount(inp, f);
    }
  }

  lemma RankBelowCount(inp: Inputs, f: string)
    requires Missing(inp, f)
    ensures Rank(inp, f) < |MissingIn(inp, SlotOf(inp.wanted[f]))|
  {
    hide StringLess;
    StringLessIsTotal();
    var before := set g | g in inp.wanted && Missing(inp, g) && SlotOf(inp.wanted[g]) == SlotOf(inp.wanted[f]) &&
      StringLess(g, f);
    assert !StringLess(f, f);
    SubsetSize(before, MissingIn(inp, SlotOf(inp.wanted[f])));
    assert f in MissingIn(inp, SlotOf(inp.wanted[f])) && f !in before;
  }

  predicate IsBlocked(item: PlanItem) {
    item.op == BlockedOp
  }

  /**
   A plan is a fixed point.

   Once it has taken effect, planning again with the same wishes, selection and
   capabilities gives exactly the blocked items of the first plan, figures and all.
   */
  lemma PlanIsAFixedPoint(inp: Inputs, plan: Plan, after: map<string, ObservedLink>, again: Plan)
    requires Keyed(inp) && IsPlan(inp, plan) && TookEffect(inp.present, plan.items, after)
    requires IsPlan(Again(inp, after), again)
    ensures again.items == Filter(IsBlocked, plan.items)
  {
    hide IsUnmanaged;
    hide Token;
    hide UnchangedCount;
    hide IsItems;
    hide TookEffect;
    hide Keyed;
    var next := Again(inp, after);
    assert Keyed(next) by {
      AgainKeyed(inp, plan.items, after);
    }
    BlockedAreTheItems(inp, plan.items, after);
    ItemsAreUnique(next, again.items, Filter(IsBlocked, plan.items));
  }

  lemma AgainKeyed(inp: Inputs, items: seq<PlanItem>, after: map<string, ObservedLink>)
    requires Keyed(inp) && TookEffect(inp.present, items, after)
    ensures Keyed(Again(inp, after))
  {
    hide Fingerprint;
    hide RemovedBy;
    hide AddedBy;
  }

  lemma BlockedAreTheItems(inp: Inputs, items: seq<PlanItem>, after: map<string, ObservedLink>)
    requires Keyed(inp) && IsItems(inp, items) && TookEffect(inp.present, items, after)
    ensures IsItems(Again(inp, after), Filter(IsBlocked, items))
  {
    hide Fingerprint;
    hide VerdictOf;
    hide ItemFingerprint;
    hide Keyed;
    hide TookEffect;
    hide WordsLess;
    hide Filter;
    var next := Again(inp, after);
    var blocked := Filter(IsBlocked, items);
    forall item | item in blocked ensures IsItemOf(next, item) {
      var i :| 0 <= i < |items| && items[i] == item;
      ItemShape(inp, items, i);
      var f := ItemFingerprint(item);
      AfterwardsNothingToRemove(inp, items, after, f);
      BlockedStaysBlocked(inp, items, after, f);
      assert Planned(next, f) && item == ItemFor(next, f);
    }
    forall f | Planned(next, f) ensures ItemFor(next, f) in blocked {
      AfterwardsNothingToRemove(inp, items, after, f);
      BlockedStaysBlocked(inp, items, after, f);
      assert Planned(inp, f) && ItemFor(inp, f) in items;
      assert ItemFor(next, f) == ItemFor(inp, f);
    }
    FilterAscends(items);
  }

  lemma {:induction false} FilterAscends(items: seq<PlanItem>)
    requires forall i, j | 0 <= i < j < |items| :: WordsLess(ItemKey(items[i]), ItemKey(items[j]))
    ensures forall i, j | 0 <= i < j < |Filter(IsBlocked, items)| ::
      WordsLess(ItemKey(Filter(IsBlocked, items)[i]), ItemKey(Filter(IsBlocked, items)[j]))
  {
    hide WordsLess;
    hide ItemKey;
    if items != [] {
      var front := items[..|items| - 1];
      FilterAscends(front);
      var kept := Filter(IsBlocked, front);
      forall i | 0 <= i < |kept| ensures WordsLess(ItemKey(kept[i]), ItemKey(items[|items| - 1])) {
        assert kept[i] in front;
      }
    }
  }
}
