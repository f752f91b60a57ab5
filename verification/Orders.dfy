/**
 Strict total orders, and the sorted listing of a set.

 Python sorts by code point, and tuples and strings by their first difference. Both are the
 same lexicographic order, over characters and over strings.
 */
module Orders {

  ghost predicate StrictTotal<T(!new)>(lt: (T, T) -> bool) {
    && (forall x :: !lt(x, x))
    && (forall x, y, z {:trigger lt(x, y), lt(y, z)} :: lt(x, y) && lt(y, z) ==> lt(x, z))
    && (forall x, y {:trigger lt(x, y), lt(y, x)} :: x != y ==> lt(x, y) || lt(y, x))
  }

  predicate LexLess<T(==)>(lt: (T, T) -> bool, a: seq<T>, b: seq<T>) {
    if b == [] then false
    else if a == [] then true
    else lt(a[0], b[0]) || (a[0] == b[0] && LexLess(lt, a[1..], b[1..]))
  }

  lemma {:induction false} LexIrreflexive<T(!new)>(lt: (T, T) -> bool, a: seq<T>)
    requires StrictTotal(lt)
    ensures !LexLess(lt, a, a)
  {
    if a != [] {
      LexIrreflexive(lt, a[1..]);
    }
  }

  lemma {:induction false} LexTransitive<T(!new)>(lt: (T, T) -> bool, a: seq<T>, b: seq<T>, c: seq<T>)
    requires StrictTotal(lt)
    requires LexLess(lt, a, b) && LexLess(lt, b, c)
    ensures LexLess(lt, a, c)
  {
    if a != [] && a[0] == b[0] && b[0] == c[0] {
      assert !lt(a[0], a[0]);
      LexTransitive(lt, a[1..], b[1..], c[1..]);
    }
  }

  lemma {:induction false} LexTotal<T(!new)>(lt: (T, T) -> bool, a: seq<T>, b: seq<T>)
    requires StrictTotal(lt)
    ensures a == b || LexLess(lt, a, b) || LexLess(lt, b, a)
  {
    if a != [] && b != [] {
      if a[0] == b[0] {
        LexTotal(lt, a[1..], b[1..]);
        assert a == [a[0]] + a[1..] && b == [b[0]] + b[1..];
      } else {
        assert lt(a[0], b[0]) || lt(b[0], a[0]);
      }
    }
  }

  predicate CharLess(a: char, b: char) {
    a < b
  }

  predicate StringLess(a: string, b: string) {
    LexLess(CharLess, a, b)
  }

  predicate WordsLess(a: seq<string>, b: seq<string>) {
    LexLess(StringLess, a, b)
  }

  lemma StringLessIsTotal()
    ensures StrictTotal(StringLess)
  {
    assert StrictTotal(CharLess);
    forall x: string ensures !StringLess(x, x) {
      LexIrreflexive(CharLess, x);
    }
    forall x, y, z | StringLess(x, y) && StringLess(y, z) ensures StringLess(x, z) {
      LexTransitive(CharLess, x, y, z);
    }
    forall x, y | x != y ensures StringLess(x, y) || StringLess(y, x) {
      LexTotal(CharLess, x, y);
    }
  }

  lemma WordsLessIsTotal()
    ensures StrictTotal(WordsLess)
  {
    StringLessIsTotal();
    forall x: seq<string> ensures !WordsLess(x, x) {
      LexIrreflexive(StringLess, x);
    }
    forall x, y, z | WordsLess(x, y) && WordsLess(y, z) ensures WordsLess(x, z) {
      LexTransitive(StringLess, x, y, z);
    }
    forall x, y | x != y ensures WordsLess(x, y) || WordsLess(y, x) {
      LexTotal(StringLess, x, y);
    }
  }

  // Sorted listings.

  ghost predicate Ascending<T(!new)>(lt: (T, T) -> bool, s: seq<T>) {
    forall i, j :: 0 <= i < j < |s| ==> lt(s[i], s[j])
  }

  /** Every nonempty finite set has a least element. */
  lemma {:induction false} LeastExists<T(!new)>(lt: (T, T) -> bool, s: set<T>)
    requires StrictTotal(lt)
    requires s != {}
    ensures exists m :: m in s && IsLeast(lt, s, m)
    decreases |s|
  {
    var y :| y in s;
    var rest := s - {y};
    assert forall x | x in s :: x == y || x in rest;
    if rest == {} {
      assert IsLeast(lt, s, y);
    } else {
      LeastExists(lt, rest);
      var k :| k in rest && IsLeast(lt, rest, k);
      var m := if lt(y, k) then y else k;
      assert m in s && (y == m || lt(m, y)) && (k == m || lt(m, k));
      assert IsLeast(lt, s, m);
    }
  }

  predicate IsLeast<T>(lt: (T, T) -> bool, s: set<T>, m: T) {
    forall x | x in s :: x == m || lt(m, x)
  }

  /** The elements of a set in ascending order, as Python's `sorted` lists them. */
  function SortedOf<T(!new)>(lt: (T, T) -> bool, s: set<T>): (r: seq<T>)
    requires StrictTotal(lt)
    ensures Ascending(lt, r)
    ensures forall x :: x in r <==> x in s
    ensures |r| == |s|
    decreases |s|
  {
    if s == {} then []
    else
      LeastExists(lt, s);
      var m :| m in s && IsLeast(lt, s, m);
      var rest := SortedOf(lt, s - {m});
      AscendingCons(lt, m, rest);
      [m] + rest
  }

  lemma AscendingCons<T(!new)>(lt: (T, T) -> bool, m: T, rest: seq<T>)
    requires Ascending(lt, rest)
    requires forall x | x in rest :: lt(m, x)
    ensures Ascending(lt, [m] + rest)
  {
    var r := [m] + rest;
    forall i, j | 0 <= i < j < |r| ensures lt(r[i], r[j]) {
      assert r[j] == rest[j - 1];
      if i > 0 {
        assert r[i] == rest[i - 1];
      }
    }
  }

  /** An ascending listing of a set is the only one. */
  lemma {:induction false} AscendingIsUnique<T(!new)>(lt: (T, T) -> bool, a: seq<T>, b: seq<T>)
    requires StrictTotal(lt)
    requires Ascending(lt, a) && Ascending(lt, b)
    requires forall x :: x in a <==> x in b
    ensures a == b
  {
    assert b == [] || b[0] in b;
    if a != [] {
      assert a[0] in b && b[0] in a;
      assert a[0] == b[0];
      AscendingTail(lt, a);
      AscendingTail(lt, b);
      AscendingIsUnique(lt, a[1..], b[1..]);
    }
  }

  lemma AscendingTail<T(!new)>(lt: (T, T) -> bool, a: seq<T>)
    requires StrictTotal(lt)
    requires Ascending(lt, a) && a != []
    ensures a == [a[0]] + a[1..]
    ensures Ascending(lt, a[1..])
    ensures forall x :: x in a[1..] <==> x in a && x != a[0]
  {
    assert a == [a[0]] + a[1..];
    forall x | x in a[1..] ensures x != a[0] {
      var i :| 0 <= i < |a[1..]| && a[1..][i] == x;
      assert lt(a[0], a[i + 1]);
    }
  }

  /** `sorted(s)` for a set of strings. */
  function SortedStrings(s: set<string>): (r: seq<string>)
    ensures forall x :: x in r <==> x in s
    ensures |r| == |s|
  {
    StringLessIsTotal();
    SortedOf(StringLess, s)
  }

  lemma SortedStringsAscend(s: set<string>)
    ensures StrictTotal(StringLess) && Ascending(StringLess, SortedStrings(s))
  {
    StringLessIsTotal();
  }

  // Sorting a list by a key, as `list.sort(key=...)` does: equal keys keep their order.

  ghost predicate InOrder<T, K(!new)>(lt: (K, K) -> bool, key: T -> K, s: seq<T>) {
    forall i, j | 0 <= i < j < |s| :: !lt(key(s[j]), key(s[i]))
  }

  function InsertBy<T, K(!new)>(lt: (K, K) -> bool, key: T -> K, x: T, s: seq<T>): (r: seq<T>)
    requires StrictTotal(lt) && InOrder(lt, key, s)
    ensures InOrder(lt, key, r)
    ensures multiset(r) == multiset{x} + multiset(s)
  {
    if s == [] then [x]
    else if lt(key(s[0]), key(x)) then
      var rest := InsertBy(lt, key, x, s[1..]);
      InsertAfter(lt, key, x, s, rest);
      [s[0]] + rest
    else
      InsertFirst(lt, key, x, s);
      [x] + s
  }

  lemma InsertFirst<T, K(!new)>(lt: (K, K) -> bool, key: T -> K, x: T, s: seq<T>)
    requires StrictTotal(lt) && InOrder(lt, key, s)
    requires s != [] && !lt(key(s[0]), key(x))
    ensures InOrder(lt, key, [x] + s)
  {
    var r := [x] + s;
    forall i, j | 0 <= i < j < |r| ensures !lt(key(r[j]), key(r[i])) {
      assert r[j] == s[j - 1];
      if i > 0 {
        assert r[i] == s[i - 1];
      } else if lt(key(s[j - 1]), key(x)) {
        assert key(s[0]) == key(x) || lt(key(x), key(s[0]));
      }
    }
  }

  lemma InsertAfter<T, K(!new)>(lt: (K, K) -> bool, key: T -> K, x: T, s: seq<T>, rest: seq<T>)
    requires StrictTotal(lt) && InOrder(lt, key, s) && s != [] && lt(key(s[0]), key(x))
    requires InOrder(lt, key, rest) && multiset(rest) == multiset{x} + multiset(s[1..])
    ensures InOrder(lt, key, [s[0]] + rest)
    ensures multiset([s[0]] + rest) == multiset{x} + multiset(s)
  {
    var r := [s[0]] + rest;
    assert s == [s[0]] + s[1..];
    forall i, j | 0 <= i < j < |r| ensures !lt(key(r[j]), key(r[i])) {
      assert r[j] == rest[j - 1];
      if i > 0 {
        assert r[i] == rest[i - 1];
      } else {
        assert r[j] in multiset(rest);
        if r[j] in multiset(s[1..]) {
          var k :| 0 <= k < |s| - 1 && s[1..][k] == r[j];
          assert r[j] == s[k + 1];
        }
      }
    }
  }

  function SortBy<T, K(!new)>(lt: (K, K) -> bool, key: T -> K, s: seq<T>): (r: seq<T>)
    requires StrictTotal(lt)
    ensures InOrder(lt, key, r)
    ensures multiset(r) == multiset(s)
  {
    if s == [] then []
    else
      assert s == [s[0]] + s[1..];
      InsertBy(lt, key, s[0], SortBy(lt, key, s[1..]))
  }

  /** With no two keys alike, the sorted list's keys ascend strictly. */
  lemma SortedKeysAscend<T, K(!new)>(lt: (K, K) -> bool, key: T -> K, s: seq<T>)
    requires StrictTotal(lt) && InOrder(lt, key, s)
    requires forall i, j | 0 <= i < j < |s| :: key(s[i]) != key(s[j])
    ensures forall i, j | 0 <= i < j < |s| :: lt(key(s[i]), key(s[j]))
  {
    forall i, j | 0 <= i < j < |s| ensures lt(key(s[i]), key(s[j])) {
      assert !lt(key(s[j]), key(s[i]));
    }
  }

  ghost predicate Distinct<T(!new)>(s: seq<T>) {
    forall i, j | 0 <= i < j < |s| :: s[i] != s[j]
  }

  lemma DistinctCounts<T(!new)>(s: seq<T>, x: T)
    ensures Distinct(s) ==> multiset(s)[x] <= 1
    ensures forall i, j | 0 <= i < j < |s| && s[i] == x && s[j] == x :: multiset(s)[x] >= 2
  {
    forall i, j | 0 <= i < j < |s| && s[i] == x && s[j] == x ensures multiset(s)[x] >= 2 {
      assert s == s[..i] + [x] + s[i + 1..j] + [x] + s[j + 1..];
    }
    if Distinct(s) && x in s {
      var p :| 0 <= p < |s| && s[p] == x;
      assert s == s[..p] + [x] + s[p + 1..];
      assert x !in s[..p] && x !in s[p + 1..];
    }
  }

  /** A rearranged list without repeats has no repeats. */
  lemma PermutedStaysDistinct<T(!new)>(a: seq<T>, b: seq<T>)
    requires Distinct(a) && multiset(a) == multiset(b)
    ensures Distinct(b)
    ensures forall x :: x in a <==> x in b
  {
    forall i, j | 0 <= i < j < |b| ensures b[i] != b[j] {
      DistinctCounts(a, b[i]);
      DistinctCounts(b, b[i]);
    }
    forall x ensures x in a <==> x in b {
      assert x in a <==> x in multiset(a);
      assert x in b <==> x in multiset(b);
    }
  }

  /** The elements a test accepts, in order. */
  function Filter<T(!new)>(p: T -> bool, s: seq<T>): (r: seq<T>)
    ensures forall x :: x in r <==> x in s && p(x)
    ensures |r| <= |s|
  {
    if s == [] then []
    else
      var last := s[|s| - 1];
      assert s == s[..|s| - 1] + [last];
      Filter(p, s[..|s| - 1]) + if p(last) then [last] else []
  }

  lemma FilterSnoc<T(!new)>(p: T -> bool, s: seq<T>, x: T)
    ensures Filter(p, s + [x]) == Filter(p, s) + if p(x) then [x] else []
  {
    assert (s + [x])[..|s|] == s;
  }

  lemma {:induction false} FilterDistinct<T(!new)>(p: T -> bool, s: seq<T>)
    requires Distinct(s)
    ensures Distinct(Filter(p, s))
  {
    if s != [] {
      FilterDistinct(p, s[..|s| - 1]);
    }
  }

  /** A list without repeats is as long as its set of elements is large. */
  lemma {:induction false} DistinctCardinality<T(!new)>(s: seq<T>, elements: set<T>)
    requires Distinct(s) && forall x :: x in s <==> x in elements
    ensures |s| == |elements|
  {
    if s == [] {
      assert elements == {};
    } else {
      var last := s[|s| - 1];
      assert s == s[..|s| - 1] + [last];
      DistinctCardinality(s[..|s| - 1], elements - {last});
    }
  }

  /** In an ascending list, being smaller is coming earlier. */
  lemma AscendingPositions<T(!new)>(lt: (T, T) -> bool, s: seq<T>, i: nat, j: nat)
    requires StrictTotal(lt) && Ascending(lt, s) && i < |s| && j < |s|
    ensures lt(s[i], s[j]) <==> i < j
    ensures s[i] == s[j] <==> i == j
  {
    assert !lt(s[i], s[i]);
    assert i < j ==> lt(s[i], s[j]);
    assert j < i ==> lt(s[j], s[i]);
  }
}
