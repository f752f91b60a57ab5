/**
 The plan token: equal tokens mean equal work, and when the order of the inputs can matter.

 The hash itself is taken to be injective, so a token is the text it hashes. No field of a
 plan's inputs may hold one of the two separators; `Clean` says so.
 */
module PlanToken {
  import opened Wrappers
  import opened Text
  import opened Orders
  import opened Models
  import opened Fingerprints
  import opened Planner
  import opened PlannerProperties

  predicate CleanText(s: string) {
    UNIT_SEPARATOR !in s && RECORD_SEPARATOR !in s
  }

  predicate CleanLink(l: Link) {
    CleanText(Fingerprint(l)) && CleanText(l.source.Identity()) && CleanText(l.emitterGroup)
  }

  ghost predicate Clean(inp: Inputs) {
    && (forall f | f in inp.wanted :: CleanLink(inp.wanted[f]))
    && (forall f | f in inp.present :: CleanLink(inp.present[f].link))
  }

  // The records can be read back from the token.

  ghost predicate CleanRecord(r: seq<string>) {
    r != [] && r[0] != "" && forall i | 0 <= i < |r| :: CleanText(r[i])
  }

  lemma {:induction false} JoinIsClean(sep: char, c: char, parts: seq<string>)
    requires sep != c && forall i | 0 <= i < |parts| :: c !in parts[i]
    ensures c !in Join(sep, parts)
  {
    if |parts| > 1 {
      JoinIsClean(sep, c, parts[1..]);
    }
  }

  lemma RecordIsClean(r: seq<string>)
    requires CleanRecord(r)
    ensures RECORD_SEPARATOR !in Record(r) && Record(r) != ""
  {
    JoinIsClean(UNIT_SEPARATOR, RECORD_SEPARATOR, r);
  }

  function Printed(records: seq<seq<string>>): seq<string> {
    seq(|records|, i requires 0 <= i < |records| => Record(records[i]))
  }

  lemma PrintedIsFree(records: seq<seq<string>>)
    requires forall r | r in records :: CleanRecord(r)
    ensures Free(RECORD_SEPARATOR, Printed(records))
    ensures Join(RECORD_SEPARATOR, Printed(records)) == "" <==> records == []
  {
    forall i | 0 <= i < |records| ensures RECORD_SEPARATOR !in Printed(records)[i] && Printed(records)[i] != "" {
      assert records[i] in records;
      RecordIsClean(records[i]);
    }
  }

  /** Equal printed records come from equal records. */
  lemma RecordsReadBack(a: seq<seq<string>>, b: seq<seq<string>>)
    requires forall r | r in a :: CleanRecord(r)
    requires forall r | r in b :: CleanRecord(r)
    requires Join(RECORD_SEPARATOR, Printed(a)) == Join(RECORD_SEPARATOR, Printed(b))
    ensures a == b
  {
    hide Join;
    PrintedIsFree(a);
    PrintedIsFree(b);
    if a != [] && b != [] {
      JoinInjective(RECORD_SEPARATOR, Printed(a), Printed(b));
      assert |a| == |Printed(a)| && |b| == |Printed(b)|;
      forall i | 0 <= i < |a| ensures a[i] == b[i] {
        assert Printed(a)[i] == Record(a[i]) && Printed(b)[i] == Record(b[i]);
        assert a[i] in a && b[i] in b;
        JoinInjective(UNIT_SEPARATOR, a[i], b[i]);
      }
    }
  }

  // What the records say.

  predicate IsDesiredRecord(inp: Inputs, r: seq<string>) {
    |r| == 2 && r[0] == "desired" && r[1] in inp.wanted
  }

  predicate IsObservedRecord(inp: Inputs, r: seq<string>) {
    |r| == 3 && r[0] == "observed" && r[1] in inp.present && r[2] == OwnershipName(inp.present[r[1]])
  }

  predicate IsRemoveRecord(inp: Inputs, r: seq<string>) {
    |r| == 2 && r[0] == "remove" && r[1] in inp.selected && r[1] in inp.present
  }

  predicate IsCapacityRecord(inp: Inputs, r: seq<string>) {
    |r| == 4 && r[0] == "capacity" && [r[1], r[2]] in GroupsOf(inp) &&
      r[3] == CapacityText(CapacityOf(inp.caps, (r[1], r[2])))
  }

  lemma DesiredRecordsAre(inp: Inputs, r: seq<string>)
    ensures r in DesiredRecords(SortedStrings(inp.wanted.Keys)) <==> IsDesiredRecord(inp, r)
  {
    var fs := SortedStrings(inp.wanted.Keys);
    var rs := DesiredRecords(fs);
    if r in rs {
      var i :| 0 <= i < |rs| && rs[i] == r;
      assert fs[i] in fs;
    }
    if IsDesiredRecord(inp, r) {
      var i :| 0 <= i < |fs| && fs[i] == r[1];
      assert rs[i] == ["desired", fs[i]] == r;
    }
  }

  lemma ObservedRecordsAre(inp: Inputs, r: seq<string>)
    ensures r in ObservedRecords(inp.present, SortedStrings(inp.present.Keys)) <==> IsObservedRecord(inp, r)
  {
    hide SortedStrings;
    hide OwnershipName;
    var fs := SortedStrings(inp.present.Keys);
    var rs := ObservedRecords(inp.present, fs);
    if r in rs {
      var i :| 0 <= i < |rs| && rs[i] == r;
      assert fs[i] in fs;
    }
    if IsObservedRecord(inp, r) {
      var i :| 0 <= i < |fs| && fs[i] == r[1];
      assert rs[i] == ["observed", fs[i], OwnershipName(inp.present[fs[i]])] == r;
    }
  }

  lemma RemoveRecordsAre(inp: Inputs, r: seq<string>)
    ensures r in RemoveRecords(SortedStrings(inp.selected * inp.present.Keys)) <==> IsRemoveRecord(inp, r)
  {
    var fs := SortedStrings(inp.selected * inp.present.Keys);
    var rs := RemoveRecords(fs);
    if r in rs {
      var i :| 0 <= i < |rs| && rs[i] == r;
      assert fs[i] in fs;
    }
    if IsRemoveRecord(inp, r) {
      assert r[1] in fs;
      var i :| 0 <= i < |fs| && fs[i] == r[1];
      assert rs[i] == ["remove", fs[i]] == r;
    }
  }

  lemma CapacityRecordsAre(inp: Inputs, r: seq<string>)
    ensures r in CapacityRecords(inp.caps, SortedGroups(GroupsOf(inp))) <==> IsCapacityRecord(inp, r)
  {
    hide GroupsOf;
    hide CapacityOf;
    hide SortedGroups;
    hide CapacityText;
    var gs := SortedGroups(GroupsOf(inp));
    var rs := CapacityRecords(inp.caps, gs);
    if r in rs {
      var i :| 0 <= i < |rs| && rs[i] == r;
      assert gs[i] in gs;
      assert gs[i] == [gs[i][0], gs[i][1]];
    }
    if IsCapacityRecord(inp, r) {
      var i :| 0 <= i < |gs| && gs[i] == [r[1], r[2]];
      assert rs[i] == r;
    }
  }

  lemma TokenRecordsAre(inp: Inputs, r: seq<string>)
    ensures r in TokenRecords(inp) <==>
      IsDesiredRecord(inp, r) || IsObservedRecord(inp, r) || IsRemoveRecord(inp, r) || IsCapacityRecord(inp, r)
  {
    hide IsDesiredRecord;
    hide IsObservedRecord;
    hide IsRemoveRecord;
    hide IsCapacityRecord;
    DesiredRecordsAre(inp, r);
    ObservedRecordsAre(inp, r);
    RemoveRecordsAre(inp, r);
    CapacityRecordsAre(inp, r);
  }

  lemma TagsAreClean()
    ensures CleanText("desired") && CleanText("observed") && CleanText("remove") && CleanText("capacity")
    ensures CleanText("system") && CleanText("managed") && CleanText("unmanaged")
  {
  }

  lemma TokenRecordsAreClean(inp: Inputs, r: seq<string>)
    requires Keyed(inp) && Clean(inp) && r in TokenRecords(inp)
    ensures CleanRecord(r)
  {
    hide Fingerprint;
    hide TokenRecords;
    hide CleanText;
    hide GroupsOf;
    hide CapacityText;
    hide CapacityOf;
    TagsAreClean();
    TokenRecordsAre(inp, r);
    if IsCapacityRecord(inp, r) {
      CapacityTextIsClean(CapacityOf(inp.caps, (r[1], r[2])));
      GroupsAreClean(inp, [r[1], r[2]]);
    }
  }

  lemma CapacityTextIsClean(c: Option<int>)
    ensures CleanText(CapacityText(c))
  {
    if c.Some? {
      DecimalChars(c.value);
    }
  }

  lemma GroupsAreClean(inp: Inputs, g: seq<string>)
    requires Clean(inp) && g in GroupsOf(inp)
    ensures |g| == 2 && CleanText(g[0]) && CleanText(g[1])
  {
    hide Fingerprint;
  }

  // What equal tokens share.

  /** Everything of the inputs that decides what a plan does. */
  ghost predicate Agree(a: Inputs, b: Inputs) {
    && a.wanted.Keys == b.wanted.Keys
    && a.present.Keys == b.present.Keys
    && (forall f | f in a.present && f in b.present :: OwnershipName(a.present[f]) == OwnershipName(b.present[f]))
    && a.selected * a.present.Keys == b.selected * b.present.Keys
    && (forall g | g in GroupsOf(a) && g in GroupsOf(b) ::
      CapacityOf(a.caps, (g[0], g[1])) == CapacityOf(b.caps, (g[0], g[1])))
  }

  lemma EqualTokensEqualRecords(a: Inputs, b: Inputs)
    requires Keyed(a) && Keyed(b) && Clean(a) && Clean(b)
    requires Token(a) == Token(b)
    ensures TokenRecords(a) == TokenRecords(b)
  {
    hide TokenRecords;
    hide Join;
    hide Record;
    hide Keyed;
    hide Clean;
    hide CleanRecord;
    forall r | r in TokenRecords(a) ensures CleanRecord(r) {
      TokenRecordsAreClean(a, r);
    }
    forall r | r in TokenRecords(b) ensures CleanRecord(r) {
      TokenRecordsAreClean(b, r);
    }
    RecordsReadBack(TokenRecords(a), TokenRecords(b));
  }

  lemma CapacityTextInjective(a: Option<int>, b: Option<int>)
    requires CapacityText(a) == CapacityText(b)
    ensures a == b
  {
    UnknownIsNoNumber(a);
    UnknownIsNoNumber(b);
    if a.Some? && b.Some? {
      DecimalInjective(a.value, b.value);
    }
  }

  lemma UnknownIsNoNumber(a: Option<int>)
    ensures a.None? <==> 'N' in CapacityText(a)
  {
    if a.Some? {
      DecimalChars(a.value);
    } else {
      assert CapacityText(a)[0] == 'N';
    }
  }

  /** Equal tokens agree on everything that decides the work. */
  lemma EqualTokensAgree(a: Inputs, b: Inputs)
    requires Keyed(a) && Keyed(b) && Clean(a) && Clean(b)
    requires Token(a) == Token(b)
    ensures Agree(a, b)
  {
    hide Token;
    hide TokenRecords;
    hide Keyed;
    hide Clean;
    hide OwnershipName;
    hide GroupsOf;
    hide CapacityOf;
    EqualTokensEqualRecords(a, b);
    EqualRecordsAgree(a, b);
    EqualRecordsAgree(b, a);
    forall g | g in GroupsOf(a) && g in GroupsOf(b)
      ensures CapacityOf(a.caps, (g[0], g[1])) == CapacityOf(b.caps, (g[0], g[1]))
    {
      EqualRecordsSameCapacity(a, b, g);
    }
  }

  lemma EqualRecordsAgree(a: Inputs, b: Inputs)
    requires TokenRecords(a) == TokenRecords(b)
    ensures forall f | f in a.wanted :: f in b.wanted
    ensures forall f | f in a.present :: f in b.present && OwnershipName(a.present[f]) == OwnershipName(b.present[f])
    ensures forall f | f in a.selected * a.present.Keys :: f in b.selected * b.present.Keys
  {
    hide TokenRecords;
    forall f | f in a.wanted ensures f in b.wanted {
      TokenRecordsAre(a, ["desired", f]);
      TokenRecordsAre(b, ["desired", f]);
    }
    forall f | f in a.present ensures f in b.present && OwnershipName(a.present[f]) == OwnershipName(b.present[f]) {
      TokenRecordsAre(a, ["observed", f, OwnershipName(a.present[f])]);
      TokenRecordsAre(b, ["observed", f, OwnershipName(a.present[f])]);
    }
    forall f | f in a.selected * a.present.Keys ensures f in b.selected * b.present.Keys {
      TokenRecordsAre(a, ["remove", f]);
      TokenRecordsAre(b, ["remove", f]);
    }
  }

  lemma EqualRecordsSameCapacity(a: Inputs, b: Inputs, g: seq<string>)
    requires TokenRecords(a) == TokenRecords(b) && g in GroupsOf(a)
    ensures CapacityOf(a.caps, (g[0], g[1])) == CapacityOf(b.caps, (g[0], g[1]))
  {
    hide TokenRecords;
    hide CapacityOf;
    hide GroupsOf;
    hide CapacityText;
    var r := ["capacity", g[0], g[1], CapacityText(CapacityOf(a.caps, (g[0], g[1])))];
    assert [r[1], r[2]] == g;
    TokenRecordsAre(a, r);
    TokenRecordsAre(b, r);
    CapacityTextInjective(CapacityOf(a.caps, (g[0], g[1])), CapacityOf(b.caps, (g[0], g[1])));
  }

  // Equal tokens, equal work.

  lemma AgreeOnEntries(a: Inputs, b: Inputs, f: string)
    requires Agree(a, b)
    ensures Removable(a, f) <==> Removable(b, f)
    ensures Missing(a, f) <==> Missing(b, f)
    ensures Survives(a, f) <==> Survives(b, f)
    ensures Foreign(a, f) <==> Foreign(b, f)
    ensures Unchanged(a, f) <==> Unchanged(b, f)
  {
    hide GroupsOf;
    hide CapacityOf;
    if f in a.present {
      OwnershipTells(a.present[f]);
      OwnershipTells(b.present[f]);
      assert f in a.selected <==> f in a.selected * a.present.Keys;
      assert f in b.selected <==> f in b.selected * b.present.Keys;
    }
  }

  lemma OwnershipTells(e: ObservedLink)
    ensures e.isSystem <==> OwnershipName(e) == "system"
    ensures !e.isSystem ==> (e.managedBy.Some? <==> OwnershipName(e) == "managed")
  {
    assert "system"[0] == 's' && "managed"[0] == 'm' && "unmanaged"[0] == 'u';
  }

  lemma AgreeOnCapacity(a: Inputs, b: Inputs, f: string)
    requires Agree(a, b) && f in a.wanted && f in b.wanted && SlotOf(a.wanted[f]) == SlotOf(b.wanted[f])
    ensures CapacityOf(a.caps, SlotOf(a.wanted[f])) == CapacityOf(b.caps, SlotOf(a.wanted[f]))
  {
    hide CapacityOf;
    hide OwnershipName;
    hide SlotOf;
    var slot := SlotOf(a.wanted[f]);
    assert [slot.0, slot.1] in GroupsOf(a) && [slot.0, slot.1] in GroupsOf(b);
  }

  lemma AgreeOnVerdicts(a: Inputs, b: Inputs, f: string)
    requires Keyed(a) && Keyed(b) && Agree(a, b) && f in a.wanted
    ensures f in b.wanted && SlotOf(a.wanted[f]) == SlotOf(b.wanted[f])
    ensures VerdictOf(a, f) == VerdictOf(b, f)
  {
    hide Fingerprint;
    hide CapacityOf;
    hide OwnershipName;
    hide GroupsOf;
    hide SlotOf;
    hide Rank;
    hide SurvivingIn;
    SameFingerprintSameSlot(a.wanted[f], b.wanted[f]);
    AgreeOnCapacity(a, b, f);
    AgreeOnSurvivors(a, b, SlotOf(a.wanted[f]));
    AgreeOnRanks(a, b, f);
  }

  lemma AgreeOnSurvivors(a: Inputs, b: Inputs, slot: Slot)
    requires Keyed(a) && Keyed(b) && Agree(a, b)
    ensures SurvivingIn(a, slot) == SurvivingIn(b, slot)
  {
    hide Fingerprint;
    hide GroupsOf;
    hide CapacityOf;
    hide OwnershipName;
    hide Survives;
    forall f ensures f in SurvivingIn(a, slot) <==> f in SurvivingIn(b, slot) {
      AgreeOnEntries(a, b, f);
      if f in a.present {
        SameFingerprintSameSlot(a.present[f].link, b.present[f].link);
      }
    }
  }

  lemma AgreeOnRanks(a: Inputs, b: Inputs, f: string)
    requires Keyed(a) && Keyed(b) && Agree(a, b) && f in a.wanted && f in b.wanted
    ensures Rank(a, f) == Rank(b, f)
  {
    hide Fingerprint;
    hide GroupsOf;
    hide CapacityOf;
    hide OwnershipName;
    hide StringLess;
    hide Missing;
    SameFingerprintSameSlot(a.wanted[f], b.wanted[f]);
    var before := set g | g in a.wanted && Missing(a, g) && SlotOf(a.wanted[g]) == SlotOf(a.wanted[f]) &&
      StringLess(g, f);
    var also := set g | g in b.wanted && Missing(b, g) && SlotOf(b.wanted[g]) == SlotOf(b.wanted[f]) &&
      StringLess(g, f);
    forall g ensures g in before <==> g in also {
      AgreeOnEntries(a, b, g);
      if g in a.wanted {
        SameFingerprintSameSlot(a.wanted[g], b.wanted[g]);
      }
    }
    assert before == also;
  }

  lemma AgreeOnItems(a: Inputs, b: Inputs, f: string)
    requires Keyed(a) && Keyed(b) && Agree(a, b) && Planned(a, f)
    ensures Planned(b, f) && ItemKey(ItemFor(a, f)) == ItemKey(ItemFor(b, f))
  {
    hide Agree;
    AgreeOnEntries(a, b, f);
    ItemKeyEndsInFingerprint(a, f);
    ItemKeyEndsInFingerprint(b, f);
    hide Fingerprint;
    hide VerdictOf;
    if Removable(a, f) {
      SameFingerprintSameSlot(a.present[f].link, b.present[f].link);
    } else {
      assert f in a.wanted && f in b.wanted;
      AgreeOnVerdicts(a, b, f);
      assert ItemFor(a, f).device == SlotOf(a.wanted[f]).0;
      assert ItemFor(b, f).device == SlotOf(b.wanted[f]).0;
    }
  }

  function WorkOf(items: seq<PlanItem>): seq<(PlanOp, string)> {
    seq(|items|, i requires 0 <= i < |items| => (items[i].op, ItemFingerprint(items[i])))
  }

  lemma OpFromDigit(a: PlanOp, b: PlanOp)
    requires OpDigit(a) == OpDigit(b)
    ensures a == b
  {
    assert OpDigit(a)[0] == OpDigit(b)[0];
  }

  lemma AgreeOnKeys(a: Inputs, b: Inputs, p: seq<PlanItem>, q: seq<PlanItem>, k: seq<string>)
    requires Keyed(a) && Keyed(b) && Agree(a, b) && IsItems(a, p) && IsItems(b, q) && k in KeysOf(p)
    ensures k in KeysOf(q)
  {
    hide Agree;
    hide Keyed;
    hide ItemKey;
    hide ItemFor;
    hide WordsLess;
    hide Planned;
    var i :| 0 <= i < |p| && KeysOf(p)[i] == k;
    assert IsItemOf(a, p[i]);
    var f :| Planned(a, f) && p[i] == ItemFor(a, f);
    AgreeOnItems(a, b, f);
    var j :| 0 <= j < |q| && q[j] == ItemFor(b, f);
    assert KeysOf(q)[j] == k;
  }

  /** Plans with equal tokens do the same work in the same order. */
  lemma EqualTokensEqualItems(a: Inputs, b: Inputs, p: Plan, q: Plan)
    requires Keyed(a) && Keyed(b) && Clean(a) && Clean(b) && IsPlan(a, p) && IsPlan(b, q)
    requires p.token == q.token
    ensures WorkOf(p.items) == WorkOf(q.items)
  {
    hide Token;
    hide IsUnmanaged;
    hide UnchangedCount;
    hide IsItems;
    hide Keyed;
    hide Clean;
    hide Agree;
    hide WordsLess;
    hide ItemFingerprint;
    EqualTokensAgree(a, b);
    AgreeIsSymmetric(a, b);
    KeysAscend(a, p.items);
    KeysAscend(b, q.items);
    forall k ensures k in KeysOf(p.items) <==> k in KeysOf(q.items) {
      if k in KeysOf(p.items) {
        AgreeOnKeys(a, b, p.items, q.items, k);
      }
      if k in KeysOf(q.items) {
        AgreeOnKeys(b, a, q.items, p.items, k);
      }
    }
    AscendingIsUnique(WordsLess, KeysOf(p.items), KeysOf(q.items));
    KeysDetermineWork(p.items, q.items);
  }

  lemma AgreeIsSymmetric(a: Inputs, b: Inputs)
    requires Agree(a, b)
    ensures Agree(b, a)
  {
    hide GroupsOf;
    hide OwnershipName;
    hide CapacityOf;
  }

  lemma KeysDetermineWork(p: seq<PlanItem>, q: seq<PlanItem>)
    requires KeysOf(p) == KeysOf(q)
    ensures WorkOf(p) == WorkOf(q)
  {
    hide ItemFingerprint;
    assert |p| == |KeysOf(p)| && |q| == |KeysOf(q)|;
    forall i | 0 <= i < |p| ensures WorkOf(p)[i] == WorkOf(q)[i] {
      assert KeysOf(p)[i] == ItemKey(p[i]) && KeysOf(q)[i] == ItemKey(q[i]);
      assert ItemKey(p[i])[1] == OpDigit(p[i].op) && ItemKey(q[i])[1] == OpDigit(q[i].op);
      assert ItemKey(p[i])[2] == ItemFingerprint(p[i]) && ItemKey(q[i])[2] == ItemFingerprint(q[i]);
      OpFromDigit(p[i].op, q[i].op);
    }
  }

  function FingerprintsOf(entries: seq<ObservedLink>): seq<string> {
    seq(|entries|, i requires 0 <= i < |entries| => Fingerprint(entries[i].link))
  }

  lemma ReportedExactly(inp: Inputs, unmanaged: seq<ObservedLink>, f: string)
    requires Keyed(inp) && IsUnmanaged(inp, unmanaged)
    ensures f in FingerprintsOf(unmanaged) <==> Foreign(inp, f)
  {
    hide Fingerprint;
    hide StringLess;
    if f in FingerprintsOf(unmanaged) {
      var i :| 0 <= i < |unmanaged| && FingerprintsOf(unmanaged)[i] == f;
      assert unmanaged[i] in unmanaged;
    }
    if Foreign(inp, f) {
      var i :| 0 <= i < |unmanaged| && unmanaged[i] == inp.present[f];
      assert FingerprintsOf(unmanaged)[i] == f;
    }
  }

  /** Plans with equal tokens report the same foreign links and leave the same number alone. */
  lemma EqualTokensEqualReport(a: Inputs, b: Inputs, p: Plan, q: Plan)
    requires Keyed(a) && Keyed(b) && Clean(a) && Clean(b) && IsPlan(a, p) && IsPlan(b, q)
    requires p.token == q.token
    ensures FingerprintsOf(p.unmanaged) == FingerprintsOf(q.unmanaged)
    ensures p.unchangedCount == q.unchangedCount
  {
    hide Token;
    hide IsItems;
    hide Keyed;
    hide Clean;
    hide Agree;
    hide StringLess;
    hide Fingerprint;
    hide Foreign;
    hide Unchanged;
    EqualTokensAgree(a, b);
    StringLessIsTotal();
    forall f ensures f in FingerprintsOf(p.unmanaged) <==> f in FingerprintsOf(q.unmanaged) {
      ReportedExactly(a, p.unmanaged, f);
      ReportedExactly(b, q.unmanaged, f);
      AgreeOnEntries(a, b, f);
    }
    AscendingIsUnique(StringLess, FingerprintsOf(p.unmanaged), FingerprintsOf(q.unmanaged));
    forall f ensures f in a.present && Unchanged(a, f) <==> f in b.present && Unchanged(b, f) {
      AgreeOnEntries(a, b, f);
      UnchangedIsPresent(a, f);
      UnchangedIsPresent(b, f);
    }
    assert (set f | f in a.present && Unchanged(a, f)) == (set f | f in b.present && Unchanged(b, f));
  }

  lemma UnchangedIsPresent(inp: Inputs, f: string)
    ensures Unchanged(inp, f) ==> f in inp.present
  {
  }

  // When the order of the inputs can matter.

  /** Entries read twice agree on what they are to us. */
  ghost predicate ConsistentOwnership(observed: seq<ObservedLink>) {
    forall e, d | e in observed && d in observed && Fingerprint(e.link) == Fingerprint(d.link) ::
      OwnershipName(e) == OwnershipName(d)
  }

  /** Listing the same links and entries in another order gives the same token. */
  ghost predicate OrderFree(desired: seq<Link>, observed: seq<ObservedLink>, selected: set<string>, caps: Network) {
    forall d, o {:trigger InputsOf(d, o, selected, caps)} | multiset(d) == multiset(desired) &&
      multiset(o) == multiset(observed) ::
      Token(InputsOf(d, o, selected, caps)) == Token(InputsOf(desired, observed, selected, caps))
  }

  lemma SameElements<T>(a: seq<T>, b: seq<T>)
    requires multiset(a) == multiset(b)
    ensures forall x :: x in a <==> x in b
  {
    assert forall x :: x in a <==> x in multiset(a);
    assert forall x :: x in b <==> x in multiset(b);
  }

  lemma SameTokenParts(a: Inputs, b: Inputs)
    requires Keyed(a) && Keyed(b)
    requires a.wanted.Keys == b.wanted.Keys && a.present.Keys == b.present.Keys
    requires a.selected == b.selected && a.caps == b.caps
    requires forall f | f in a.present && f in b.present :: OwnershipName(a.present[f]) == OwnershipName(b.present[f])
    ensures Token(a) == Token(b)
  {
    hide Keyed;
    hide OwnershipName;
    hide SortedStrings;
    hide SortedGroups;
    hide GroupsOf;
    hide CapacityRecords;
    hide DesiredRecords;
    hide RemoveRecords;
    hide Join;
    hide Record;
    AllGroupsSame(a, b);
    assert ObservedRecords(a.present, SortedStrings(a.present.Keys)) ==
      ObservedRecords(b.present, SortedStrings(b.present.Keys));
    assert TokenRecords(a) == TokenRecords(b);
  }

  lemma AllGroupsSame(a: Inputs, b: Inputs)
    requires Keyed(a) && Keyed(b)
    requires a.wanted.Keys == b.wanted.Keys && a.present.Keys == b.present.Keys
    ensures GroupsOf(a) == GroupsOf(b)
  {
    hide GroupsOf;
    hide Keyed;
    forall g ensures g in GroupsOf(a) <==> g in GroupsOf(b) {
      SameGroups(a, b, g);
      SameGroups(b, a, g);
    }
  }

  lemma SameGroups(a: Inputs, b: Inputs, g: seq<string>)
    requires Keyed(a) && Keyed(b)
    requires a.wanted.Keys == b.wanted.Keys && a.present.Keys == b.present.Keys
    ensures g in GroupsOf(a) ==> g in GroupsOf(b)
  {
    hide Fingerprint;
    hide SlotOf;
    if g in GroupsOf(a) {
      if f :| f in a.wanted && g == [SlotOf(a.wanted[f]).0, SlotOf(a.wanted[f]).1] {
        SameFingerprintSameSlot(a.wanted[f], b.wanted[f]);
      } else {
        var f :| f in a.present && g == [SlotOf(a.present[f].link).0, SlotOf(a.present[f].link).1];
        SameFingerprintSameSlot(a.present[f].link, b.present[f].link);
      }
    }
  }

  /** With consistent ownership the token does not depend on the order of the inputs. */
  lemma ConsistentIsOrderFree(desired: seq<Link>, observed: seq<ObservedLink>, selected: set<string>, caps: Network)
    requires ConsistentOwnership(observed)
    ensures OrderFree(desired, observed, selected, caps)
  {
    hide Fingerprint;
    hide OwnershipName;
    hide Token;
    forall d, o | multiset(d) == multiset(desired) && multiset(o) == multiset(observed)
      ensures Token(InputsOf(d, o, selected, caps)) == Token(InputsOf(desired, observed, selected, caps)) {
      SameElements(d, desired);
      SameElements(o, observed);
      WantedMapKeyed(d);
      WantedMapKeyed(desired);
      PresentMapKeyed(o);
      PresentMapKeyed(observed);
      SameTokenParts(InputsOf(d, o, selected, caps), InputsOf(desired, observed, selected, caps));
    }
  }

  function MovedLast(s: seq<ObservedLink>, i: nat): (r: seq<ObservedLink>)
    requires i < |s|
    ensures multiset(r) == multiset(s)
  {
    assert s == s[..i] + [s[i]] + s[i + 1..];
    s[..i] + s[i + 1..] + [s[i]]
  }

  lemma LastIsFiled(s: seq<ObservedLink>, i: nat)
    requires i < |s|
    ensures Fingerprint(s[i].link) in PresentMap(MovedLast(s, i))
    ensures PresentMap(MovedLast(s, i))[Fingerprint(s[i].link)] == s[i]
  {
    hide Fingerprint;
    var r := MovedLast(s, i);
    assert r[|r| - 1] == s[i];
  }

  lemma ListsAreClean(desired: seq<Link>, observed: seq<ObservedLink>, selected: set<string>, caps: Network)
    requires (forall l | l in desired :: CleanLink(l)) && (forall e | e in observed :: CleanLink(e.link))
    ensures Keyed(InputsOf(desired, observed, selected, caps)) && Clean(InputsOf(desired, observed, selected, caps))
  {
    hide Fingerprint;
    hide CleanLink;
    WantedMapKeyed(desired);
    PresentMapKeyed(observed);
  }

  /** The token is free of the inputs' order exactly when entries read twice agree on what they are to us. */
  lemma TokenOrderFreeExactly(desired: seq<Link>, observed: seq<ObservedLink>, selected: set<string>, caps: Network)
    requires (forall l | l in desired :: CleanLink(l)) && (forall e | e in observed :: CleanLink(e.link))
    ensures OrderFree(desired, observed, selected, caps) <==> ConsistentOwnership(observed)
  {
    hide Fingerprint;
    hide CleanLink;
    hide OwnershipName;
    hide Token;
    hide Agree;
    hide Keyed;
    hide Clean;
    hide PresentMap;
    hide WantedMap;
    hide MovedLast;
    if ConsistentOwnership(observed) {
      ConsistentIsOrderFree(desired, observed, selected, caps);
    }
    if OrderFree(desired, observed, selected, caps) {
      forall e, d | e in observed && d in observed && Fingerprint(e.link) == Fingerprint(d.link)
        ensures OwnershipName(e) == OwnershipName(d)
      {
        var i :| 0 <= i < |observed| && observed[i] == e;
        var j :| 0 <= j < |observed| && observed[j] == d;
        LastOneCounts(desired, observed, selected, caps, i, j);
      }
    }
  }

  /**
   Two entries of one link are enough to break it: one the device keeps for itself, one that is
   nobody's. They have one fingerprint, and the token says `system` or nothing of it, depending on
   which of the two was read last.
   */
  lemma SystemTwinBreaksTheOrder(l: Link, caps: Network)
    requires CleanLink(l)
    ensures !OrderFree([], [ObservedLink(l, true, None), ObservedLink(l, false, None)], {}, caps)
  {
    hide CleanLink;
    hide OrderFree;
    var twins := [ObservedLink(l, true, None), ObservedLink(l, false, None)];
    TokenOrderFreeExactly([], twins, {}, caps);
    assert twins[0] in twins && twins[1] in twins;
    assert OwnershipName(twins[0]) != OwnershipName(twins[1]);
  }

  lemma LastOneCounts(desired: seq<Link>, observed: seq<ObservedLink>, selected: set<string>, caps: Network, i: nat,
          j: nat)
    requires (forall l | l in desired :: CleanLink(l)) && (forall e | e in observed :: CleanLink(e.link))
    requires OrderFree(desired, observed, selected, caps)
    requires i < |observed| && j < |observed| && Fingerprint(observed[i].link) == Fingerprint(observed[j].link)
    ensures OwnershipName(observed[i]) == OwnershipName(observed[j])
  {
    hide Fingerprint;
    hide CleanLink;
    hide OwnershipName;
    hide Token;
    hide Keyed;
    hide Clean;
    hide PresentMap;
    hide WantedMap;
    hide MovedLast;
    var a := InputsOf(desired, MovedLast(observed, i), selected, caps);
    var b := InputsOf(desired, MovedLast(observed, j), selected, caps);
    SameElements(MovedLast(observed, i), observed);
    SameElements(MovedLast(observed, j), observed);
    ListsAreClean(desired, MovedLast(observed, i), selected, caps);
    ListsAreClean(desired, MovedLast(observed, j), selected, caps);
    assert Token(a) == Token(b);
    EqualTokensAgree(a, b);
    LastIsFiled(observed, i);
    LastIsFiled(observed, j);
    hide GroupsOf;
    hide CapacityOf;
  }
}
