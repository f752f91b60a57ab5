/**
 The iterative search for strongly connected components (custom_components/device_links/loops.py).

 The search keeps an explicit work list instead of recursing. `Search` is everything it
 holds, plus `done`, the nodes already taken off the stack. Each kind of iteration has a
 lemma that says it keeps the invariant; the method runs the iterations.
 */
module Tarjan {
  import opened Orders
  import opened Graphs

  datatype Frame = Frame(node: string, position: nat)

  datatype Search = Search(
    index: map<string, nat>,
    low: map<string, nat>,
    stack: seq<string>,
    frames: seq<Frame>,
    counter: nat,
    done: set<string>,
    found: seq<set<string>>)

  /** Each node's successors, listed in the order the search looks at them. */
  type Listing = map<string, seq<string>>

  function Listed(a: Listing, x: string): seq<string> {
    if x in a then a[x] else []
  }

  ghost predicate IsListing(e: Edges, a: Listing) {
    forall x, y :: y in Listed(a, x) <==> y in Succ(e, x)
  }

  ghost predicate On(s: Search, y: string) {
    y in s.index && y !in s.done
  }

  /** A node on the stack whose successors have all been looked at. */
  ghost predicate Black(s: Search, y: string) {
    On(s, y) && forall k | 0 <= k < |s.frames| :: s.frames[k].node != y
  }

  ghost predicate Rooted(s: Search) {
    && s.low.Keys == s.index.Keys
    && (forall k | 0 <= k < |s.frames| :: On(s, s.frames[k].node))
  }

  ghost predicate Ordered(s: Search)
    requires Rooted(s)
  {
    && s.done <= s.index.Keys
    && (forall y | On(s, y) :: s.index[y] < s.counter)
    && (forall i, j | 0 <= i < j < |s.frames| :: s.index[s.frames[i].node] < s.index[s.frames[j].node])
  }

  /** The stack holds what is not done, in the order it was first seen. */
  ghost predicate Stacked(s: Search) {
    && (forall i | 0 <= i < |s.stack| :: On(s, s.stack[i]))
    && (forall y | On(s, y) :: y in s.stack)
    && (forall i, j | 0 <= i < j < |s.stack| :: s.index[s.stack[i]] < s.index[s.stack[j]])
  }

  /** An open node reaches everything above it. */
  ghost predicate ReachUp(e: Edges, s: Search)
    requires Rooted(s)
  {
    forall k, y | 0 <= k < |s.frames| && On(s, y) && s.index[s.frames[k].node] <= s.index[y] ::
      Reach(e, s.frames[k].node, y)
  }

  /** Everything on the stack reaches an open node at or below it. */
  ghost predicate ReachDown(e: Edges, s: Search)
    requires Rooted(s)
  {
    forall y {:trigger Grounded(e, s, y)} | On(s, y) :: Grounded(e, s, y)
  }

  ghost predicate Grounded(e: Edges, s: Search, y: string)
    requires Rooted(s) && y in s.index
  {
    exists k | 0 <= k < |s.frames| :: Below(e, s, y, k)
  }

  ghost predicate Below(e: Edges, s: Search, y: string, k: nat)
    requires Rooted(s) && y in s.index && k < |s.frames|
  {
    s.index[s.frames[k].node] <= s.index[y] && Reach(e, y, s.frames[k].node)
  }

  /** Every successor already looked at has been visited, or is the one about to be. */
  ghost predicate Visited(e: Edges, a: Listing, s: Search, pending: set<string>) {
    && (forall x, y | x in s.done && y in Succ(e, x) :: y in s.done)
    && (forall k | 0 <= k < |s.frames| :: s.frames[k].position <= |Listed(a, s.frames[k].node)|)
    && (forall k, i | 0 <= k < |s.frames| && 0 <= i < s.frames[k].position ::
          Listed(a, s.frames[k].node)[i] in s.index.Keys + pending)
    && (forall y, w | Black(s, y) && w in Succ(e, y) :: w in s.index)
  }

  /** `low` of an open node is the index of something it reaches on the stack. */
  ghost predicate LowSound(e: Edges, s: Search)
    requires Rooted(s)
  {
    forall k | 0 <= k < |s.frames| :: LowAttained(e, s, s.frames[k].node)
  }

  ghost predicate LowAttained(e: Edges, s: Search, v: string)
    requires v in s.index && v in s.low
  {
    && s.low[v] <= s.index[v]
    && exists w | On(s, w) :: Attains(e, s, v, w)
  }

  ghost predicate Attains(e: Edges, s: Search, v: string, w: string)
    requires w in s.index && v in s.low
  {
    s.index[w] == s.low[v] && Reach(e, v, w)
  }

  /** The finished nodes above an open node and below the next one. */
  ghost predicate Above(s: Search, k: nat, y: string)
    requires Rooted(s) && k < |s.frames|
  {
    && Black(s, y)
    && s.index[s.frames[k].node] < s.index[y]
    && (k + 1 < |s.frames| ==> s.index[y] < s.index[s.frames[k + 1].node])
  }

  /** `low` of an open node bounds every edge into the stack it has itself looked at. */
  ghost predicate LowOwn(a: Listing, s: Search)
    requires Rooted(s)
  {
    forall k, i | 0 <= k < |s.frames| && 0 <= i < s.frames[k].position && i < |Listed(a, s.frames[k].node)| ::
      On(s, Listed(a, s.frames[k].node)[i]) ==> s.low[s.frames[k].node] <= s.index[Listed(a, s.frames[k].node)[i]]
  }

  /** `low` of an open node bounds every edge into the stack its finished part has. */
  ghost predicate LowAbove(e: Edges, s: Search)
    requires Rooted(s)
  {
    forall k, y {:trigger Above(s, k, y)} | 0 <= k < |s.frames| && Above(s, k, y) ::
      Bounded(e, s, s.low[s.frames[k].node], y)
  }

  ghost predicate Bounded(e: Edges, s: Search, bound: nat, y: string) {
    forall w | w in Succ(e, y) && On(s, w) :: bound <= s.index[w]
  }

  /** What has been found so far is right, and is everything among the nodes that are done. */
  ghost predicate FoundExactly(e: Edges, done: set<string>, found: seq<set<string>>) {
    && (forall i | 0 <= i < |found| :: |found[i]| > 1 && IsComponent(e, found[i]) && found[i] <= done)
    && (forall i, j | 0 <= i < j < |found| :: found[i] !! found[j])
    && (forall x | x in done :: Settled(e, found, x))
  }

  ghost predicate Settled(e: Edges, found: seq<set<string>>, x: string) {
    exists c | x in c :: IsComponent(e, c) && (|c| > 1 ==> c in found)
  }

  ghost predicate SearchInv(e: Edges, a: Listing, s: Search, pending: set<string>) {
    && Rooted(s)
    && Ordered(s)
    && Stacked(s)
    && ReachUp(e, s)
    && ReachDown(e, s)
    && Visited(e, a, s, pending)
    && LowSound(e, s)
    && LowOwn(a, s)
    && LowAbove(e, s)
    && FoundExactly(e, s.done, s.found)
  }

  // Opening a node that has not been seen: it gets an index and goes on the stack.

  function Open(s: Search, c: string): Search {
    s.(index := s.index[c := s.counter], low := s.low[c := s.counter], counter := s.counter + 1,
       stack := s.stack + [c], frames := s.frames + [Frame(c, 0)])
  }

  /** `t` is `s` with `c` opened: everything the other steps need to know about it. */
  ghost predicate Opened(s: Search, t: Search, c: string) {
    && c !in s.index
    && t.index.Keys == s.index.Keys + {c} && t.low.Keys == s.low.Keys + {c}
    && (forall y | y in s.index :: t.index[y] == s.index[y])
    && (forall y | y in s.low :: t.low[y] == s.low[y])
    && t.index[c] == t.low[c] == s.counter
    && |t.frames| == |s.frames| + 1 && t.frames[|s.frames|] == Frame(c, 0)
    && (forall k | 0 <= k < |s.frames| :: t.frames[k] == s.frames[k])
    && t.done == s.done
  }

  lemma OpenFrames(s: Search, t: Search, c: string)
    requires Rooted(s) && Opened(s, t, c) && s.done <= s.index.Keys
    ensures Rooted(t)
    ensures forall y :: On(t, y) <==> On(s, y) || y == c
    ensures forall y | Black(t, y) :: Black(s, y)
  {
    assert t.frames[|s.frames|].node == c;
    forall y | Black(t, y) ensures Black(s, y) {
      forall k | 0 <= k < |s.frames| ensures s.frames[k].node != y {
        assert t.frames[k] == s.frames[k];
      }
    }
  }

  lemma OpenStacked(s: Search, c: string)
    requires Rooted(s) && Ordered(s) && Stacked(s) && c !in s.index
    ensures Rooted(Open(s, c)) && Ordered(Open(s, c)) && Stacked(Open(s, c))
  {
    hide Reach; var t := Open(s, c);
    OpenFrames(s, t, c);
    forall i | 0 <= i < |t.stack| ensures On(t, t.stack[i]) {
      assert i < |s.stack| ==> t.stack[i] == s.stack[i];
    }
    forall y | On(t, y) ensures y in t.stack {
      assert y == c || On(s, y);
      assert t.stack[|s.stack|] == c;
    }
    forall i, j | 0 <= i < j < |t.stack| ensures t.index[t.stack[i]] < t.index[t.stack[j]] {
      assert On(s, s.stack[i]) && t.stack[i] == s.stack[i];
      if j < |s.stack| {
        assert On(s, s.stack[j]) && t.stack[j] == s.stack[j];
      }
    }
  }

  lemma OpenReachUp(e: Edges, s: Search, t: Search, c: string)
    requires Rooted(s) && Ordered(s) && ReachUp(e, s) && Opened(s, t, c)
    requires s.frames != [] ==> c in Succ(e, s.frames[|s.frames| - 1].node)
    ensures Rooted(t) && ReachUp(e, t)
  {
    hide Reach;
    OpenFrames(s, t, c);
    ReachSelf(e, c);
    forall k, y | 0 <= k < |t.frames| && On(t, y) && t.index[t.frames[k].node] <= t.index[y]
      ensures Reach(e, t.frames[k].node, y) {
      if k < |s.frames| {
        assert On(s, s.frames[k].node);
        if y == c {
          var last := s.frames[|s.frames| - 1].node;
          assert On(s, last);
          assert k < |s.frames| - 1 ==> s.index[s.frames[k].node] < s.index[last];
          assert Reach(e, s.frames[k].node, last);
          ReachEdge(e, last, c);
          ReachTrans(e, s.frames[k].node, last, c);
        } else {
          assert On(s, y);
        }
      } else {
        assert t.frames[k].node == c;
        assert y == c || On(s, y);
      }
    }
  }

  lemma OpenReachDown(e: Edges, s: Search, t: Search, c: string)
    requires Rooted(s) && Ordered(s) && ReachDown(e, s) && Opened(s, t, c)
    ensures Rooted(t) && ReachDown(e, t)
  {
    hide Reach;
    OpenFrames(s, t, c);
    forall y | On(t, y) ensures Grounded(e, t, y) {
      if y == c {
        ReachSelf(e, c);
        assert t.frames[|s.frames|].node == c;
        assert Below(e, t, y, |s.frames|);
      } else {
        assert Grounded(e, s, y);
        var k :| 0 <= k < |s.frames| && Below(e, s, y, k);
        assert t.frames[k] == s.frames[k];
        assert On(s, s.frames[k].node);
        assert Below(e, t, y, k);
      }
    }
  }

  lemma OpenLowSound(e: Edges, s: Search, t: Search, c: string)
    requires Rooted(s) && Ordered(s) && LowSound(e, s) && Opened(s, t, c)
    ensures Rooted(t) && LowSound(e, t)
  {
    hide Reach;
    OpenFrames(s, t, c);
    forall k | 0 <= k < |t.frames| ensures LowAttained(e, t, t.frames[k].node) {
      if k < |s.frames| {
        var v := s.frames[k].node;
        assert t.frames[k].node == v && On(s, v);
        assert LowAttained(e, s, v);
        var w :| On(s, w) && Attains(e, s, v, w);
        assert On(t, w) && Attains(e, t, v, w);
      } else {
        ReachSelf(e, c);
        assert On(t, c) && Attains(e, t, c, c);
      }
    }
  }

  lemma OpenLowOwn(a: Listing, s: Search, t: Search, c: string, e: Edges)
    requires Rooted(s) && Ordered(s) && LowSound(e, s) && LowOwn(a, s) && Opened(s, t, c)
    ensures Rooted(t) && LowOwn(a, t)
  {
    hide Reach;
    hide Attains;
    hide Black;
    OpenFrames(s, t, c);
    forall k, i | 0 <= k < |t.frames| && 0 <= i < t.frames[k].position && i < |Listed(a, t.frames[k].node)| &&
      On(t, Listed(a, t.frames[k].node)[i])
      ensures t.low[t.frames[k].node] <= t.index[Listed(a, t.frames[k].node)[i]] {
      assert k < |s.frames| && t.frames[k] == s.frames[k] && On(s, s.frames[k].node);
      assert LowAttained(e, s, s.frames[k].node);
    }
  }

  lemma OpenLowAbove(e: Edges, s: Search, t: Search, c: string)
    requires Rooted(s) && Ordered(s) && LowSound(e, s) && LowAbove(e, s) && Opened(s, t, c)
    ensures Rooted(t) && LowAbove(e, t)
  {
    hide Reach;
    hide Attains;
    OpenFrames(s, t, c);
    forall k, y | 0 <= k < |t.frames| && Above(t, k, y)
      ensures Bounded(e, t, t.low[t.frames[k].node], y) {
      assert Black(s, y) && k < |s.frames| && t.frames[k] == s.frames[k] && On(s, s.frames[k].node);
      assert k + 1 < |s.frames| ==> t.frames[k + 1] == s.frames[k + 1] && On(s, s.frames[k + 1].node);
      assert Above(s, k, y);
      assert LowAttained(e, s, s.frames[k].node);
    }
  }

  lemma OpenVisited(e: Edges, a: Listing, s: Search, t: Search, c: string)
    requires Rooted(s) && Ordered(s) && Visited(e, a, s, {c}) && Opened(s, t, c)
    ensures Visited(e, a, t, {})
  {
    OpenFrames(s, t, c);
    forall k | 0 <= k < |t.frames|
      ensures t.frames[k].position <= |Listed(a, t.frames[k].node)|
      ensures forall i | 0 <= i < t.frames[k].position :: Listed(a, t.frames[k].node)[i] in t.index.Keys {
      assert k < |s.frames| ==> t.frames[k] == s.frames[k];
    }
  }

  lemma OpenKeepsInv(e: Edges, a: Listing, s: Search, c: string)
    requires SearchInv(e, a, s, {c}) && c !in s.index
    requires s.frames != [] ==> c in Succ(e, s.frames[|s.frames| - 1].node)
    ensures SearchInv(e, a, Open(s, c), {})
  {
    hide LowSound;
    hide LowOwn;
    hide LowAbove;
    hide ReachUp;
    hide ReachDown;
    hide Visited;
    hide FoundExactly;
    var t := Open(s, c);
    assert Opened(s, t, c);
    OpenStacked(s, c);
    OpenReachUp(e, s, t, c);
    OpenReachDown(e, s, t, c);
    OpenVisited(e, a, s, t, c);
    OpenLowSound(e, s, t, c);
    OpenLowOwn(a, s, t, c, e);
    OpenLowAbove(e, s, t, c);
  }

  // Looking at one more successor of the innermost open node.

  /** `t` is `s` with the last frame moved on and that node's `low` perhaps lowered. */
  ghost predicate Advanced(s: Search, t: Search) {
    && s.frames != [] && |t.frames| == |s.frames|
    && t.index == s.index && t.done == s.done && t.stack == s.stack && t.counter == s.counter && t.found == s.found
    && (forall k | 0 <= k < |s.frames| :: t.frames[k].node == s.frames[k].node)
    && (forall k | 0 <= k < |s.frames| - 1 :: t.frames[k].position == s.frames[k].position)
    && t.frames[|s.frames| - 1].position == s.frames[|s.frames| - 1].position + 1
    && t.low.Keys == s.low.Keys
    && (forall y | y in s.low && y != s.frames[|s.frames| - 1].node :: t.low[y] == s.low[y])
  }

  lemma AdvanceFrames(s: Search, t: Search)
    requires Rooted(s) && Advanced(s, t)
    ensures Rooted(t)
    ensures forall y :: On(t, y) <==> On(s, y)
    ensures forall y :: Black(t, y) <==> Black(s, y)
    ensures Ordered(s) ==> Ordered(t)
    ensures Stacked(s) ==> Stacked(t)
  {
  }

  lemma AdvanceReachUp(e: Edges, s: Search, t: Search)
    requires Rooted(s) && Advanced(s, t) && ReachUp(e, s)
    ensures Rooted(t) && ReachUp(e, t)
  {
    hide Reach;
    forall k, y | 0 <= k < |t.frames| && On(t, y) && t.index[t.frames[k].node] <= t.index[y]
      ensures Reach(e, t.frames[k].node, y) {
      assert On(s, y) && On(s, s.frames[k].node) && t.frames[k].node == s.frames[k].node;
    }
  }

  lemma AdvanceReachDown(e: Edges, s: Search, t: Search)
    requires Rooted(s) && Advanced(s, t) && ReachDown(e, s)
    ensures Rooted(t) && ReachDown(e, t)
  {
    hide Reach;
    forall y | On(t, y) ensures Grounded(e, t, y) {
      assert Grounded(e, s, y);
      var k :| 0 <= k < |s.frames| && Below(e, s, y, k);
      assert Below(e, t, y, k);
    }
  }

  lemma AdvanceVisited(e: Edges, a: Listing, s: Search, t: Search, w: string, pending: set<string>)
    requires Rooted(s) && Advanced(s, t) && Visited(e, a, s, {})
    requires s.frames[|s.frames| - 1].position < |Listed(a, s.frames[|s.frames| - 1].node)|
    requires w == Listed(a, s.frames[|s.frames| - 1].node)[s.frames[|s.frames| - 1].position]
    requires w in s.index.Keys + pending
    ensures Visited(e, a, t, pending)
  {
    AdvanceFrames(s, t);
  }

  lemma AdvanceLowSound(e: Edges, s: Search, t: Search, v: string, w: string)
    requires Rooted(s) && Advanced(s, t) && LowSound(e, s)
    requires v == s.frames[|s.frames| - 1].node && w in Succ(e, v)
    requires t.low[v] == s.low[v] || (On(s, w) && t.low[v] == s.index[w] <= s.low[v])
    ensures Rooted(t) && LowSound(e, t)
  {
    hide Reach;
    AdvanceFrames(s, t);
    ReachEdge(e, v, w);
    forall k | 0 <= k < |t.frames| ensures LowAttained(e, t, t.frames[k].node) {
      var x := s.frames[k].node;
      assert LowAttained(e, s, x);
      if t.low[x] == s.low[x] {
        var z :| On(s, z) && Attains(e, s, x, z);
        assert On(t, z) && Attains(e, t, x, z);
      } else {
        assert On(t, w) && Attains(e, t, x, w);
      }
    }
  }

  lemma AdvanceLowOwn(a: Listing, s: Search, t: Search, v: string, w: string)
    requires Rooted(s) && Ordered(s) && Advanced(s, t) && LowOwn(a, s)
    requires v == s.frames[|s.frames| - 1].node
    requires s.frames[|s.frames| - 1].position < |Listed(a, v)|
    requires w == Listed(a, v)[s.frames[|s.frames| - 1].position]
    requires t.low[v] <= s.low[v] && (On(s, w) ==> t.low[v] <= s.index[w])
    ensures Rooted(t) && LowOwn(a, t)
  {
    hide Black;
    AdvanceFrames(s, t);
    forall k, i | 0 <= k < |t.frames| && 0 <= i < t.frames[k].position && i < |Listed(a, t.frames[k].node)| &&
      On(t, Listed(a, t.frames[k].node)[i])
      ensures t.low[t.frames[k].node] <= t.index[Listed(a, t.frames[k].node)[i]] {
      assert On(s, s.frames[k].node);
      if i < s.frames[k].position {
        assert On(s, Listed(a, s.frames[k].node)[i]);
      }
    }
  }

  lemma AdvanceLowAbove(e: Edges, s: Search, t: Search, v: string)
    requires Rooted(s) && Advanced(s, t) && LowAbove(e, s)
    requires v == s.frames[|s.frames| - 1].node && t.low[v] <= s.low[v]
    ensures Rooted(t) && LowAbove(e, t)
  {
    AdvanceFrames(s, t);
    forall k, y | 0 <= k < |t.frames| && Above(t, k, y)
      ensures Bounded(e, t, t.low[t.frames[k].node], y) {
      assert Above(s, k, y);
      assert On(s, s.frames[k].node);
      assert t.low[s.frames[k].node] <= s.low[s.frames[k].node];
      assert Bounded(e, s, s.low[s.frames[k].node], y);
    }
  }

  lemma AdvanceKeepsInv(e: Edges, a: Listing, s: Search, t: Search, v: string, w: string, pending: set<string>)
    requires Advanced(s, t) && v == s.frames[|s.frames| - 1].node && v in s.low && v in t.low
    requires s.frames[|s.frames| - 1].position < |Listed(a, v)|
    requires w == Listed(a, v)[s.frames[|s.frames| - 1].position]
    requires w in s.index.Keys + pending
    requires t.low[v] == (if On(s, w) && s.index[w] < s.low[v] then s.index[w] else s.low[v])
    requires SearchInv(e, a, s, {}) && IsListing(e, a)
    ensures SearchInv(e, a, t, pending)
  {
    hide LowSound;
    hide LowOwn;
    hide LowAbove;
    hide ReachUp;
    hide ReachDown;
    hide Visited;
    hide FoundExactly;
    hide Stacked;
    hide Ordered;
    assert w in Succ(e, v);
    AdvanceFrames(s, t);
    AdvanceReachUp(e, s, t);
    AdvanceReachDown(e, s, t);
    AdvanceVisited(e, a, s, t, w, pending);
    AdvanceLowSound(e, s, t, v, w);
    AdvanceLowOwn(a, s, t, v, w);
    AdvanceLowAbove(e, s, t, v);
  }

  // Finishing a node that is not the first of its component: its parent takes over its `low`.

  ghost predicate Retired(s: Search, t: Search) {
    && |s.frames| >= 2 && |t.frames| == |s.frames| - 1
    && (forall k | 0 <= k < |t.frames| :: t.frames[k] == s.frames[k])
    && t.index == s.index && t.done == s.done && t.stack == s.stack && t.counter == s.counter && t.found == s.found
    && t.low.Keys == s.low.Keys
    && (forall y | y in s.low && y != s.frames[|s.frames| - 2].node :: t.low[y] == s.low[y])
  }

  /** The parent's `low` after its child is finished. */
  ghost predicate Merged(s: Search, t: Search, p: string, v: string) {
    && |s.frames| >= 2 && p == s.frames[|s.frames| - 2].node && v == s.frames[|s.frames| - 1].node
    && p in s.low && v in s.low && p in t.low
    && t.low[p] == if s.low[v] < s.low[p] then s.low[v] else s.low[p]
  }

  lemma RetireFrames(s: Search, t: Search, v: string)
    requires Rooted(s) && Ordered(s) && Retired(s, t) && v == s.frames[|s.frames| - 1].node
    ensures Rooted(t) && Ordered(t)
    ensures forall y :: On(t, y) <==> On(s, y)
    ensures forall y :: Black(t, y) <==> Black(s, y) || y == v
  {
    forall y | On(t, y) ensures Black(t, y) <==> Black(s, y) || y == v {
      if Black(t, y) && y != v {
        forall k | 0 <= k < |s.frames| ensures s.frames[k].node != y {
          assert k < |t.frames| ==> t.frames[k] == s.frames[k];
        }
      }
      if y == v {
        forall k | 0 <= k < |t.frames| ensures t.frames[k].node != v {
          assert s.index[s.frames[k].node] < s.index[s.frames[|s.frames| - 1].node];
        }
      }
    }
  }

  lemma RetireStacked(s: Search, t: Search)
    requires Stacked(s) && Retired(s, t)
    ensures Stacked(t)
  {
    assert forall y :: On(t, y) <==> On(s, y);
  }

  lemma RetireReachUp(e: Edges, s: Search, t: Search)
    requires Rooted(s) && Retired(s, t) && ReachUp(e, s)
    ensures Rooted(t) && ReachUp(e, t)
  {
    hide Reach;
    forall k, y | 0 <= k < |t.frames| && On(t, y) && t.index[t.frames[k].node] <= t.index[y]
      ensures Reach(e, t.frames[k].node, y) {
      assert On(s, y) && On(s, s.frames[k].node) && t.frames[k].node == s.frames[k].node;
    }
  }

  /** A node whose `low` lies below it reaches an open node below it. */
  lemma LowReachesDown(e: Edges, s: Search, v: string) returns (j: nat)
    requires Rooted(s) && Ordered(s) && ReachDown(e, s)
    requires On(s, v) && LowAttained(e, s, v) && s.low[v] < s.index[v]
    ensures j < |s.frames| && s.index[s.frames[j].node] < s.index[v] && Reach(e, v, s.frames[j].node)
  {
    hide Reach;
    var w :| On(s, w) && Attains(e, s, v, w);
    assert Grounded(e, s, w);
    j :| 0 <= j < |s.frames| && Below(e, s, w, j);
    ReachTrans(e, v, w, s.frames[j].node);
  }

  lemma RetireReachDown(e: Edges, s: Search, t: Search, v: string)
    requires Rooted(s) && Ordered(s) && Retired(s, t) && ReachDown(e, s) && LowSound(e, s)
    requires v == s.frames[|s.frames| - 1].node && s.low[v] < s.index[v]
    ensures Rooted(t) && ReachDown(e, t)
  {
    hide Reach;
    assert On(s, v) && LowAttained(e, s, v);
    var j := LowReachesDown(e, s, v);
    assert j < |t.frames| by {
      assert s.frames[j].node != v;
    }
    forall y | On(t, y) ensures Grounded(e, t, y) {
      assert Grounded(e, s, y);
      var k :| 0 <= k < |s.frames| && Below(e, s, y, k);
      if k < |t.frames| {
        assert Below(e, t, y, k);
      } else {
        ReachTrans(e, y, v, s.frames[j].node);
        assert Below(e, t, y, j);
      }
    }
  }

  lemma RetireVisited(e: Edges, a: Listing, s: Search, t: Search, v: string)
    requires Rooted(s) && Ordered(s) && Retired(s, t) && Visited(e, a, s, {}) && IsListing(e, a)
    requires v == s.frames[|s.frames| - 1].node && s.frames[|s.frames| - 1].position == |Listed(a, v)|
    ensures Visited(e, a, t, {})
  {
    RetireFrames(s, t, v);
    forall y, w | Black(t, y) && w in Succ(e, y) ensures w in t.index {
      if y == v {
        assert w in Listed(a, v);
      }
    }
  }

  lemma RetireLowSound(e: Edges, s: Search, t: Search, p: string, v: string)
    requires Rooted(s) && Ordered(s) && Retired(s, t) && Merged(s, t, p, v) && LowSound(e, s) && ReachUp(e, s)
    ensures Rooted(t) && LowSound(e, t)
  {
    hide Reach;
    assert On(s, v) && On(s, p) && LowAttained(e, s, v);
    assert Reach(e, s.frames[|s.frames| - 2].node, v);
    forall k | 0 <= k < |t.frames| ensures LowAttained(e, t, t.frames[k].node) {
      var x := s.frames[k].node;
      assert t.frames[k].node == x && On(s, x) && LowAttained(e, s, x);
      if t.low[x] == s.low[x] {
        var z :| On(s, z) && Attains(e, s, x, z);
        assert On(t, z) && Attains(e, t, x, z);
      } else {
        var z :| On(s, z) && Attains(e, s, v, z);
        ReachTrans(e, p, v, z);
        assert On(t, z) && Attains(e, t, x, z);
      }
    }
  }

  lemma RetireLowOwn(a: Listing, s: Search, t: Search, p: string, v: string)
    requires Rooted(s) && Retired(s, t) && Merged(s, t, p, v) && LowOwn(a, s)
    ensures Rooted(t) && LowOwn(a, t)
  {
    forall k, i | 0 <= k < |t.frames| && 0 <= i < t.frames[k].position && i < |Listed(a, t.frames[k].node)| &&
      On(t, Listed(a, t.frames[k].node)[i])
      ensures t.low[t.frames[k].node] <= t.index[Listed(a, t.frames[k].node)[i]] {
      assert t.frames[k] == s.frames[k] && On(s, s.frames[k].node);
      assert t.low[s.frames[k].node] <= s.low[s.frames[k].node];
      assert On(s, Listed(a, s.frames[k].node)[i]);
    }
  }

  lemma IndexInjective(s: Search, x: string, y: string)
    requires Stacked(s) && On(s, x) && On(s, y) && s.index[x] == s.index[y]
    ensures x == y
  {
    var i :| 0 <= i < |s.stack| && s.stack[i] == x;
    var j :| 0 <= j < |s.stack| && s.stack[j] == y;
    assert i < j ==> s.index[s.stack[i]] < s.index[s.stack[j]];
    assert j < i ==> s.index[s.stack[j]] < s.index[s.stack[i]];
  }

  /** Every edge a finished node has into the stack is bounded by its own `low`. */
  lemma FinishedBound(e: Edges, a: Listing, s: Search, v: string)
    requires Rooted(s) && LowOwn(a, s) && IsListing(e, a) && s.frames != [] && v == s.frames[|s.frames| - 1].node
    requires s.frames[|s.frames| - 1].position == |Listed(a, v)|
    ensures v in s.low && Bounded(e, s, s.low[v], v)
  {
    assert On(s, v);
    forall w | w in Succ(e, v) && On(s, w) ensures s.low[v] <= s.index[w] {
      assert w in Listed(a, s.frames[|s.frames| - 1].node);
    }
  }

  /** What lay above the finished node or its parent lies above the parent now. */
  lemma RetireAbove(e: Edges, s: Search, t: Search, k: nat, y: string, v: string)
    requires Rooted(s) && Ordered(s) && Stacked(s) && Retired(s, t) && Rooted(t) && v == s.frames[|s.frames| - 1].node
    requires k < |t.frames| && Above(t, k, y) && y != v && Black(s, y)
    ensures Above(s, k, y) || (k == |s.frames| - 2 && Above(s, |s.frames| - 1, y))
  {
    assert t.frames[k] == s.frames[k] && On(s, s.frames[k].node) && On(s, v);
    if k + 1 < |t.frames| {
      assert t.frames[k + 1] == s.frames[k + 1];
    } else if s.index[y] == s.index[v] {
      IndexInjective(s, y, v);
    }
  }

  lemma RetireLowAbove(e: Edges, a: Listing, s: Search, t: Search, p: string, v: string)
    requires Rooted(s) && Ordered(s) && Stacked(s) && Retired(s, t) && Merged(s, t, p, v) && LowOwn(a, s) &&
      LowAbove(e, s) && IsListing(e, a)
    requires s.frames[|s.frames| - 1].position == |Listed(a, v)|
    ensures Rooted(t) && LowAbove(e, t)
  {
    RetireFrames(s, t, v);
    FinishedBound(e, a, s, v);
    hide Stacked;
    hide LowOwn;
    forall k, y | 0 <= k < |t.frames| && Above(t, k, y)
      ensures Bounded(e, t, t.low[t.frames[k].node], y) {
      var x := s.frames[k].node;
      assert t.frames[k] == s.frames[k] && On(s, x);
      assert t.low[x] <= s.low[x];
      if y != v {
        RetireAbove(e, s, t, k, y, v);
        assert Above(s, k, y) ==> Bounded(e, s, s.low[x], y);
        assert Above(s, |s.frames| - 1, y) ==> Bounded(e, s, s.low[v], y);
      }
    }
  }

  lemma RetireKeepsInv(e: Edges, a: Listing, s: Search, t: Search, p: string, v: string)
    requires Retired(s, t) && Merged(s, t, p, v) && v in s.index && v == s.frames[|s.frames| - 1].node
    requires s.frames[|s.frames| - 1].position == |Listed(a, v)| && s.low[v] < s.index[v]
    requires SearchInv(e, a, s, {}) && IsListing(e, a)
    ensures SearchInv(e, a, t, {})
  {
    hide LowSound;
    hide LowOwn;
    hide LowAbove;
    hide ReachUp;
    hide ReachDown;
    hide Visited;
    hide FoundExactly;
    hide Stacked;
    hide Ordered;
    hide Merged;
    RetireFrames(s, t, v);
    RetireStacked(s, t);
    RetireReachUp(e, s, t);
    RetireReachDown(e, s, t, v);
    RetireVisited(e, a, s, t, v);
    RetireLowSound(e, s, t, p, v);
    RetireLowOwn(a, s, t, p, v);
    RetireLowAbove(e, a, s, t, p, v);
  }

  // Closing a component: everything on the stack from its first node up is taken off.

  ghost predicate Closed(s: Search, t: Search, v: string, c: set<string>) {
    && |s.frames| >= 1 && |t.frames| == |s.frames| - 1 && v == s.frames[|s.frames| - 1].node
    && v in s.index
    && (forall k | 0 <= k < |t.frames| :: t.frames[k] == s.frames[k])
    && t.index == s.index && t.low == s.low && t.counter == s.counter
    && (forall y :: y in c <==> On(s, y) && s.index[v] <= s.index[y])
    && t.done == s.done + c
    && t.found == if |c| > 1 then s.found + [c] else s.found
  }

  /** What is taken off: the first node, and finished nodes above it. */
  lemma TakenIsAbove(s: Search, t: Search, v: string, c: set<string>, y: string)
    requires Rooted(s) && Ordered(s) && Stacked(s) && Closed(s, t, v, c) && y in c && y != v
    ensures Above(s, |s.frames| - 1, y)
  {
    var last := |s.frames| - 1;
    assert On(s, v);
    if s.index[y] == s.index[v] {
      IndexInjective(s, y, v);
    }
    forall k | 0 <= k < |s.frames| ensures s.frames[k].node != y {
      if k < last {
        assert s.index[s.frames[k].node] < s.index[s.frames[last].node];
      }
    }
  }

  /** No edge leaves what is done once the component is taken off. */
  lemma TakenIsClosed(e: Edges, a: Listing, s: Search, t: Search, v: string, c: set<string>, x: string, y: string)
    requires Rooted(s) && Ordered(s) && Stacked(s) && Visited(e, a, s, {}) && LowOwn(a, s) && LowAbove(e, s) &&
      IsListing(e, a)
    requires Closed(s, t, v, c) && s.low[v] == s.index[v] && s.frames[|s.frames| - 1].position == |Listed(a, v)|
    requires x in s.done + c && y in Succ(e, x)
    ensures y in s.done + c
  {
    var last := |s.frames| - 1;
    if x in c {
      assert On(s, s.frames[last].node);
      if x == v {
        assert y in Listed(a, v);
        var i :| 0 <= i < |Listed(a, v)| && Listed(a, v)[i] == y;
        assert Listed(a, s.frames[last].node)[i] in s.index.Keys;
        assert On(s, y) ==> s.low[v] <= s.index[y];
      } else {
        TakenIsAbove(s, t, v, c, x);
        assert Black(s, x);
        assert Bounded(e, s, s.low[v], x);
      }
    }
  }

  /** What is taken off is mutually reachable with its first node. */
  lemma TakenIsConnected(e: Edges, s: Search, t: Search, v: string, c: set<string>, x: string)
    requires Rooted(s) && Ordered(s) && ReachUp(e, s) && ReachDown(e, s)
    requires Closed(s, t, v, c) && x in c
    ensures Reach(e, v, x) && Reach(e, x, v)
  {
    hide Reach;
    var last := |s.frames| - 1;
    assert On(s, s.frames[last].node) && On(s, x);
    assert Grounded(e, s, x);
    var k :| 0 <= k < |s.frames| && Below(e, s, x, k);
    assert On(s, s.frames[k].node);
    assert k < last ==> s.index[s.frames[k].node] < s.index[s.frames[last].node];
    assert Reach(e, s.frames[k].node, v);
    ReachTrans(e, x, s.frames[k].node, v);
  }

  lemma TakenIsComponent(e: Edges, a: Listing, s: Search, t: Search, v: string, c: set<string>)
    requires Rooted(s) && Ordered(s) && Stacked(s) && ReachUp(e, s) && ReachDown(e, s)
    requires Visited(e, a, s, {}) && LowOwn(a, s) && LowAbove(e, s) && IsListing(e, a)
    requires Closed(s, t, v, c) && s.low[v] == s.index[v] && s.frames[|s.frames| - 1].position == |Listed(a, v)|
    ensures IsComponent(e, c)
    ensures forall x, y | x in s.done + c && y in Succ(e, x) :: y in s.done + c
  {
    hide Reach;
    hide ReachUp;
    hide ReachDown;
    hide LowOwn;
    hide LowAbove;
    hide Ordered;
    hide Stacked;
    forall x, y | x in s.done + c && y in Succ(e, x) ensures y in s.done + c {
      TakenIsClosed(e, a, s, t, v, c, x, y);
    }
    forall x, y | x in c ensures y in c <==> Reach(e, x, y) && Reach(e, y, x) {
      TakenIsConnected(e, s, t, v, c, x);
      if y in c {
        TakenIsConnected(e, s, t, v, c, y);
        ReachTrans(e, x, v, y);
        ReachTrans(e, y, v, x);
      } else if Reach(e, x, y) && Reach(e, y, x) {
        ClosedUnderReach(e, s.done + c, x, y);
        ClosedUnderReach(e, s.done, y, x);
      }
    }
    assert On(s, s.frames[|s.frames| - 1].node) && v in c;
  }

  lemma CloseFrames(s: Search, t: Search, v: string, c: set<string>)
    requires Rooted(s) && Ordered(s) && Closed(s, t, v, c)
    ensures Rooted(t) && Ordered(t)
    ensures forall y :: On(t, y) <==> On(s, y) && s.index[y] < s.index[v]
    ensures forall y | Black(t, y) :: Black(s, y)
  {
    var last := |s.frames| - 1;
    forall k | 0 <= k < |t.frames| ensures On(t, t.frames[k].node) {
      assert t.frames[k] == s.frames[k] && On(s, s.frames[k].node);
      assert s.index[s.frames[k].node] < s.index[s.frames[last].node];
    }
    forall y | Black(t, y) ensures Black(s, y) {
      forall k | 0 <= k < |s.frames| ensures s.frames[k].node != y {
        assert k < last ==> t.frames[k] == s.frames[k];
      }
    }
  }

  lemma CloseStacked(s: Search, t: Search, j: nat)
    requires Stacked(s) && j < |s.stack| && t.stack == s.stack[..j] && t.index == s.index
    requires forall y :: On(t, y) <==> On(s, y) && s.index[y] < s.index[s.stack[j]]
    ensures Stacked(t)
  {
    forall i | 0 <= i < |t.stack| ensures On(t, t.stack[i]) {
      assert t.stack[i] == s.stack[i] && On(s, s.stack[i]);
    }
    forall y | On(t, y) ensures y in t.stack {
      var i :| 0 <= i < |s.stack| && s.stack[i] == y;
      assert i < j by {
        assert s.index[s.stack[i]] < s.index[s.stack[j]];
      }
      assert t.stack[i] == y;
    }
  }

  lemma CloseReachUp(e: Edges, s: Search, t: Search, v: string, c: set<string>)
    requires Rooted(s) && Rooted(t) && Closed(s, t, v, c) && ReachUp(e, s)
    ensures ReachUp(e, t)
  {
    hide Reach;
    forall k, y | 0 <= k < |t.frames| && On(t, y) && t.index[t.frames[k].node] <= t.index[y]
      ensures Reach(e, t.frames[k].node, y) {
      assert On(s, y) && On(s, s.frames[k].node) && t.frames[k] == s.frames[k];
    }
  }

  lemma CloseReachDown(e: Edges, s: Search, t: Search, v: string, c: set<string>)
    requires Rooted(s) && Rooted(t) && Closed(s, t, v, c) && ReachDown(e, s)
    ensures ReachDown(e, t)
  {
    hide Reach;
    forall y | On(t, y) ensures Grounded(e, t, y) {
      assert On(s, y) && s.index[y] < s.index[v];
      assert Grounded(e, s, y);
      var k :| 0 <= k < |s.frames| && Below(e, s, y, k);
      assert k < |t.frames| && t.frames[k] == s.frames[k];
      assert Below(e, t, y, k);
    }
  }

  lemma CloseLowSound(e: Edges, s: Search, t: Search, v: string, c: set<string>)
    requires Rooted(s) && Ordered(s) && Closed(s, t, v, c) && LowSound(e, s)
    ensures Rooted(t) && LowSound(e, t)
  {
    hide Reach;
    hide Black;
    CloseFrames(s, t, v, c);
    forall k | 0 <= k < |t.frames| ensures LowAttained(e, t, t.frames[k].node) {
      var x := s.frames[k].node;
      assert t.frames[k].node == x && On(s, x) && LowAttained(e, s, x);
      assert s.index[x] < s.index[s.frames[|s.frames| - 1].node];
      var w :| On(s, w) && Attains(e, s, x, w);
      assert On(t, w) && Attains(e, t, x, w);
    }
  }

  lemma CloseLow(e: Edges, a: Listing, s: Search, t: Search, v: string, c: set<string>)
    requires Rooted(s) && Ordered(s) && Closed(s, t, v, c) && LowOwn(a, s) && LowAbove(e, s)
    ensures Rooted(t) && LowOwn(a, t) && LowAbove(e, t)
  {
    CloseFrames(s, t, v, c);
    forall k, i | 0 <= k < |t.frames| && 0 <= i < t.frames[k].position && i < |Listed(a, t.frames[k].node)| &&
      On(t, Listed(a, t.frames[k].node)[i])
      ensures t.low[t.frames[k].node] <= t.index[Listed(a, t.frames[k].node)[i]] {
      assert t.frames[k] == s.frames[k] && On(s, s.frames[k].node);
      assert On(s, Listed(a, s.frames[k].node)[i]);
    }
    forall k, y | 0 <= k < |t.frames| && Above(t, k, y)
      ensures Bounded(e, t, t.low[t.frames[k].node], y) {
      assert t.frames[k] == s.frames[k] && On(s, s.frames[k].node);
      assert k + 1 < |t.frames| ==> t.frames[k + 1] == s.frames[k + 1];
      assert Above(s, k, y);
      assert Bounded(e, s, s.low[s.frames[k].node], y);
    }
  }

  lemma CloseFound(e: Edges, done: set<string>, found: seq<set<string>>, c: set<string>)
    requires FoundExactly(e, done, found) && IsComponent(e, c) && c !! done
    ensures FoundExactly(e, done + c, if |c| > 1 then found + [c] else found)
  {
    hide IsComponent;
    var after := if |c| > 1 then found + [c] else found;
    forall i, j | 0 <= i < j < |after| ensures after[i] !! after[j] {
      assert after[i] == found[i] && found[i] <= done;
      assert j < |found| ==> after[j] == found[j];
    }
    forall x | x in done + c ensures Settled(e, after, x) {
      if x in done {
        assert Settled(e, found, x);
        var d :| x in d && IsComponent(e, d) && (|d| > 1 ==> d in found);
        assert |d| > 1 ==> d in after;
      } else {
        assert |c| > 1 ==> after[|found|] == c;
      }
    }
  }

  lemma CloseKeepsInv(e: Edges, a: Listing, s: Search, t: Search, v: string, c: set<string>, j: nat)
    requires Closed(s, t, v, c) && v in s.low && s.low[v] == s.index[v] &&
      s.frames[|s.frames| - 1].position == |Listed(a, v)|
    requires j < |s.stack| && s.stack[j] == v && t.stack == s.stack[..j]
    requires SearchInv(e, a, s, {}) && IsListing(e, a)
    ensures SearchInv(e, a, t, {})
  {
    hide LowSound;
    hide LowOwn;
    hide LowAbove;
    hide ReachUp;
    hide ReachDown;
    hide FoundExactly;
    hide Stacked;
    hide Ordered;
    hide IsComponent;
    TakenIsComponent(e, a, s, t, v, c);
    CloseFrames(s, t, v, c);
    CloseStacked(s, t, j);
    CloseReachUp(e, s, t, v, c);
    CloseReachDown(e, s, t, v, c);
    CloseLowSound(e, s, t, v, c);
    CloseLow(e, a, s, t, v, c);
    CloseFound(e, s.done, s.found, c);
    assert Visited(e, a, t, {}) by {
      forall k | 0 <= k < |t.frames|
        ensures t.frames[k].position <= |Listed(a, t.frames[k].node)|
        ensures forall i | 0 <= i < t.frames[k].position :: Listed(a, t.frames[k].node)[i] in t.index.Keys {
        assert t.frames[k] == s.frames[k];
      }
    }
  }

  // The search.

  /** Takes a component off the stack, down to and including its first node. */
  method TakeComponent(stack: seq<string>, onStack: set<string>, node: string, ghost j: nat)
    returns (rest: seq<string>, left: set<string>, component: set<string>)
    requires j < |stack| && stack[j] == node && node !in stack[j + 1..]
    ensures rest == stack[..j]
    ensures forall y :: y in component <==> y in stack[j..]
    ensures left == onStack - component
  {
    rest, left, component := stack, onStack, {};
    while true
      decreases |rest|
      invariant j < |rest| <= |stack| && rest == stack[..|rest|]
      invariant forall y :: y in component <==> y in stack[|rest|..]
      invariant left == onStack - component
    {
      var member := rest[|rest| - 1];
      assert stack[|rest| - 1..] == [member] + stack[|rest|..];
      assert |rest| - 1 > j ==> member == stack[j + 1..][|rest| - j - 2];
      rest := rest[..|rest| - 1];
      left := left - {member};
      component := component + {member};
      if member == node {
        break;
      }
    }
  }

  /** The work list without its last entry when that has not been opened yet. */
  ghost function OpenFramesOf(work: seq<Frame>): seq<Frame> {
    if work != [] && work[|work| - 1].position == 0 then work[..|work| - 1] else work
  }

  ghost function Pending(work: seq<Frame>): set<string> {
    if work != [] && work[|work| - 1].position == 0 then {work[|work| - 1].node} else {}
  }

  /** How much of the open nodes' successors is still to be looked at. */
  ghost function Remaining(a: Listing, frames: seq<Frame>): nat {
    if frames == [] then 0
    else Remaining(a, frames[..|frames| - 1]) + Left(a, frames[|frames| - 1])
  }

  ghost function Left(a: Listing, f: Frame): nat {
    if 0 < f.position <= |Listed(a, f.node)| then |Listed(a, f.node)| - f.position else 0
  }

  ghost function AllNodes(e: Edges): set<string> {
    e.Keys + set x, y | x in e && y in e[x] :: y
  }

  ghost function Unseen(e: Edges, index: map<string, nat>): nat {
    |AllNodes(e) - index.Keys|
  }

  lemma UnseenFalls(e: Edges, index: map<string, nat>, node: string, n: nat)
    requires node in AllNodes(e) && node !in index
    ensures Unseen(e, index[node := n]) < Unseen(e, index)
  {
    assert AllNodes(e) - index[node := n].Keys == (AllNodes(e) - index.Keys) - {node};
  }

  lemma OnNeedsOpen(e: Edges, s: Search, y: string)
    requires Rooted(s) && ReachDown(e, s) && On(s, y)
    ensures s.frames != []
  {
    assert Grounded(e, s, y);
  }

  /** With nothing open, everything seen is done. */
  lemma NothingOpen(e: Edges, a: Listing, s: Search)
    requires SearchInv(e, a, s, {}) && s.frames == []
    ensures s.done == s.index.Keys && s.stack == []
  {
    assert s.stack != [] ==> On(s, s.stack[0]);
    forall y ensures !On(s, y) {
      if On(s, y) {
        OnNeedsOpen(e, s, y);
      }
    }
    assert forall y | y in s.index :: y in s.done || On(s, y);
  }

  lemma NothingSeen(e: Edges, a: Listing)
    ensures SearchInv(e, a, Search(map[], map[], [], [], 0, {}, []), {})
  {
  }

  /** What the search relies on about its innermost open node. */
  lemma InnermostNode(e: Edges, a: Listing, s: Search, v: string)
    requires SearchInv(e, a, s, {}) && IsListing(e, a) && s.frames != [] && v == s.frames[|s.frames| - 1].node
    ensures On(s, v) && v in s.low && s.low[v] <= s.index[v]
    ensures s.frames[|s.frames| - 1].position <= |Listed(a, v)|
    ensures |s.frames| > 1 ==> On(s, s.frames[|s.frames| - 2].node) && s.frames[|s.frames| - 2].node in s.low
    ensures |s.frames| > 1 ==> s.low[s.frames[|s.frames| - 2].node] < s.index[v]
    ensures s.low[v] < s.index[v] ==> |s.frames| > 1
  {
    hide Reach;
    assert LowAttained(e, s, v);
    if |s.frames| > 1 {
      assert LowAttained(e, s, s.frames[|s.frames| - 2].node);
    }
    if s.low[v] < s.index[v] {
      var j := LowReachesDown(e, s, v);
    }
  }

  /** Where a node stands on the stack: only there, and below everything seen after it. */
  lemma PlaceOf(s: Search, v: string) returns (j: nat)
    requires Stacked(s) && On(s, v)
    ensures j < |s.stack| && s.stack[j] == v && v !in s.stack[j + 1..]
    ensures forall y :: y in s.stack[j..] <==> On(s, y) && s.index[v] <= s.index[y]
  {
    j :| 0 <= j < |s.stack| && s.stack[j] == v;
    forall y ensures y in s.stack[j..] <==> On(s, y) && s.index[v] <= s.index[y] {
      if y in s.stack[j..] {
        AboveOnStack(s, j, y);
      }
      if On(s, y) && s.index[v] <= s.index[y] {
        var i :| 0 <= i < |s.stack| && s.stack[i] == y;
        StackOrder(s, i, j);
        assert s.stack[j..][i - j] == y;
      }
    }
    forall i | j < i < |s.stack| ensures s.stack[i] != v {
      StackOrder(s, j, i);
    }
  }

  lemma StackOrder(s: Search, i: nat, j: nat)
    requires Stacked(s) && i < |s.stack| && j < |s.stack|
    ensures On(s, s.stack[i]) && On(s, s.stack[j])
    ensures i < j ==> s.index[s.stack[i]] < s.index[s.stack[j]]
  {
  }

  lemma AboveOnStack(s: Search, j: nat, y: string)
    requires Stacked(s) && j < |s.stack| && y in s.stack[j..]
    ensures On(s, y) && s.index[s.stack[j]] <= s.index[y]
  {
    var i :| 0 <= i < |s.stack| - j && s.stack[j..][i] == y;
    assert s.stack[j + i] == y;
    assert i > 0 ==> s.index[s.stack[j]] < s.index[s.stack[j + i]];
  }

  lemma RemainingLast(a: Listing, front: seq<Frame>, f: Frame)
    ensures Remaining(a, front + [f]) == Remaining(a, front) + Left(a, f)
  {
    assert (front + [f])[..|front|] == front;
  }

  /** Every component of two or more is among those found, once everything with an edge is done. */
  lemma FoundIsAll(e: Edges, done: set<string>, found: seq<set<string>>, c: set<string>)
    requires FoundExactly(e, done, found) && e.Keys <= done
    requires IsComponent(e, c) && |c| > 1
    ensures c in found
  {
    var x :| x in c;
    ComponentNodeHasEdge(e, c, x);
    assert Settled(e, found, x);
    var d :| x in d && IsComponent(e, d) && (|d| > 1 ==> d in found);
    ComponentsAreDisjoint(e, c, d, x);
  }

  lemma SearchEnds(e: Edges, a: Listing, s: Search)
    requires SearchInv(e, a, s, {}) && s.frames == [] && e.Keys <= s.index.Keys
    ensures forall c :: c in s.found <==> IsComponent(e, c) && |c| > 1
    ensures forall i, j | 0 <= i < j < |s.found| :: s.found[i] !! s.found[j]
  {
    hide IsComponent;
    NothingOpen(e, a, s);
    forall c ensures c in s.found <==> IsComponent(e, c) && |c| > 1 {
      if IsComponent(e, c) && |c| > 1 {
        FoundIsAll(e, s.done, s.found, c);
      }
    }
  }

  /** Before a root is opened, nothing is open and it alone is awaited. */
  lemma AwaitRoot(e: Edges, a: Listing, s: Search, root: string)
    requires SearchInv(e, a, s, {}) && s.frames == []
    ensures SearchInv(e, a, s, {root})
  {
  }

  lemma FinishComponent(e: Edges, a: Listing, s: Search, t: Search, work: seq<Frame>, v: string, c: set<string>, j: nat)
    requires s.frames == work + [Frame(v, |Listed(a, v)|)] && t.frames == work
    requires SearchInv(e, a, s, {}) && IsListing(e, a) && v in s.low && v in s.index && s.low[v] == s.index[v]
    requires j < |s.stack| && s.stack[j] == v && forall y :: y in c <==> On(s, y) && s.index[v] <= s.index[y]
    requires t == Search(s.index, s.low, s.stack[..j], work, s.counter, s.done + c,
      if |c| > 1 then s.found + [c] else s.found)
    ensures SearchInv(e, a, t, {})
    ensures forall y :: On(t, y) <==> On(s, y) && y !in c
  {
    hide SearchInv;
    assert s.frames[|work|] == Frame(v, |Listed(a, v)|);
    assert Closed(s, t, v, c);
    CloseKeepsInv(e, a, s, t, v, c, j);
  }

  lemma FinishInner(e: Edges, a: Listing, s: Search, t: Search, work: seq<Frame>, p: string, v: string)
    requires s.frames == work + [Frame(v, |Listed(a, v)|)] && work != [] && p == work[|work| - 1].node
    requires SearchInv(e, a, s, {}) && IsListing(e, a) && v in s.low && v in s.index && s.low[v] < s.index[v] &&
      p in s.low
    requires t == Search(s.index, s.low[p := if s.low[v] < s.low[p] then s.low[v] else s.low[p]], s.stack, work,
      s.counter, s.done, s.found)
    ensures SearchInv(e, a, t, {})
    ensures forall y :: On(t, y) <==> On(s, y)
  {
    hide SearchInv;
    assert s.frames[|work|] == Frame(v, |Listed(a, v)|);
    assert s.frames[|work| - 1] == work[|work| - 1];
    InnermostNode(e, a, s, v);
    RetireKeepsInv(e, a, s, t, p, v);
  }

  /** The search's variables are what `s` says they are. */
  ghost predicate Tracks(s: Search, frames: seq<Frame>, index: map<string, nat>, low: map<string, nat>,
          stack: seq<string>,
                         onStack: set<string>, counter: nat, found: seq<set<string>>)
  {
    && s == Search(index, low, stack, frames, counter, s.done, found)
    && forall y :: y in onStack <==> On(s, y)
  }

  /** The innermost open node is finished: its component is taken off if it is the first of one. */
  method Finish(edges: Edges, ghost a: Listing, ghost s: Search, index: map<string, nat>, low0: map<string, nat>,
                stack0: seq<string>, onStack0: set<string>, ghost counter: nat, work: seq<Frame>, node: string,
                found0: seq<set<string>>)
    returns (low: map<string, nat>, stack: seq<string>, onStack: set<string>, found: seq<set<string>>, ghost t: Search)
    requires IsListing(edges, a) && SearchInv(edges, a, s, {})
    requires Tracks(s, work + [Frame(node, |Listed(a, node)|)], index, low0, stack0, onStack0, counter, found0)
    ensures SearchInv(edges, a, t, {})
    ensures Tracks(t, work, index, low, stack, onStack, counter, found)
  {
    hide SearchInv;
    hide Stacked;
    assert s.frames[|work|] == Frame(node, |Listed(a, node)|);
    InnermostNode(edges, a, s, node);
    low, stack, onStack, found := low0, stack0, onStack0, found0;
    if work != [] {
      var parent := work[|work| - 1].node;
      assert s.frames[|work| - 1] == work[|work| - 1];
      low := low[parent := if low[node] < low[parent] then low[node] else low[parent]];
    }
    if low[node] == index[node] {
      assert low == low0;
      StackFacts(edges, a, s);
      var j := PlaceOf(s, node);
      var component;
      stack, onStack, component := TakeComponent(stack0, onStack0, node, j);
      if |component| > 1 {
        found := found0 + [component];
      }
      t := Search(index, low, stack, work, counter, s.done + component, found);
      FinishComponent(edges, a, s, t, work, node, component, j);
    } else {
      t := Search(index, low, stack, work, counter, s.done, found);
      FinishInner(edges, a, s, t, work, work[|work| - 1].node, node);
    }
  }

  lemma StackFacts(e: Edges, a: Listing, s: Search)
    requires SearchInv(e, a, s, {})
    ensures Stacked(s)
  {
  }

  lemma LookAtNext(e: Edges, a: Listing, s: Search, t: Search, front: seq<Frame>, v: string, position: nat, w: string)
    requires s.frames == front + [Frame(v, position)] && t.frames == front + [Frame(v, position + 1)]
    requires SearchInv(e, a, s, {}) && IsListing(e, a) && v in s.low && v in s.index
    requires position < |Listed(a, v)| && w == Listed(a, v)[position]
    requires t == Search(s.index, t.low, s.stack, t.frames, s.counter, s.done, s.found)
    requires t.low == if On(s, w) then s.low[v := if s.index[w] < s.low[v] then s.index[w] else s.low[v]] else s.low
    ensures SearchInv(e, a, t, if w in s.index then {} else {w})
    ensures forall y :: On(t, y) <==> On(s, y)
  {
    hide SearchInv;
    var n := |front|;
    assert s.frames[n] == Frame(v, position) && t.frames[n] == Frame(v, position + 1);
    assert forall k | 0 <= k < n :: s.frames[k] == front[k] && t.frames[k] == front[k];
    assert Advanced(s, t);
    AdvanceKeepsInv(e, a, s, t, v, w, if w in s.index then {} else {w});
  }

  lemma ListsSorted(e: Edges, a: Listing)
    requires a == map x | x in e :: SortedStrings(e[x])
    ensures IsListing(e, a)
    ensures forall x :: Listed(a, x) == if x in e then SortedStrings(e[x]) else []
  {
  }

  /** Only the last entry of the work list can be unopened, and then an edge from the one before leads to it. */
  ghost predicate WorkList(e: Edges, index: map<string, nat>, work: seq<Frame>) {
    && (forall k | 0 <= k < |work| - 1 :: work[k].position > 0)
    && (work != [] && work[|work| - 1].position == 0 ==>
          var c := work[|work| - 1].node;
          c !in index && c in AllNodes(e) && (|work| > 1 ==> c in Succ(e, work[|work| - 2].node)))
  }

  lemma WorkSplits(e: Edges, index: map<string, nat>, front: seq<Frame>, f: Frame)
    requires WorkList(e, index, front + [f])
    ensures OpenFramesOf(front + [f]) == if f.position == 0 then front else front + [f]
    ensures Pending(front + [f]) == if f.position == 0 then {f.node} else {}
    ensures f.position == 0 ==>
      f.node !in index && f.node in AllNodes(e) && (front != [] ==> f.node in Succ(e, front[|front| - 1].node))
    ensures OpenFramesOf(front) == front && Pending(front) == {}
    ensures forall ix: map<string, nat> :: WorkList(e, ix, front)
    ensures f.position > 0 ==> forall ix: map<string, nat> :: WorkList(e, ix, front + [f])
  {
    var work := front + [f];
    assert work[|front|] == f;
    assert forall k | 0 <= k < |front| :: work[k] == front[k];
  }

  lemma WorkAdvances(e: Edges, index: map<string, nat>, index': map<string, nat>, front: seq<Frame>, node: string,
          position: nat)
    requires WorkList(e, index, front + [Frame(node, position)])
    ensures WorkList(e, index', front + [Frame(node, position + 1)])
  {
    var work := front + [Frame(node, position)];
    assert forall k | 0 <= k < |front| :: work[k] == front[k];
  }

  lemma WorkGrows(e: Edges, index: map<string, nat>, work: seq<Frame>, c: string)
    requires WorkList(e, index, work) && work != [] && work[|work| - 1].position > 0
    requires c !in index && c in Succ(e, work[|work| - 1].node)
    ensures WorkList(e, index, work + [Frame(c, 0)])
    ensures OpenFramesOf(work + [Frame(c, 0)]) == work && Pending(work + [Frame(c, 0)]) == {c}
  {
  }

  lemma WorkStarts(e: Edges, index: map<string, nat>, root: string)
    requires root in e && root !in index
    ensures WorkList(e, index, [Frame(root, 0)]) && OpenFramesOf([Frame(root, 0)]) == [] &&
      Pending([Frame(root, 0)]) == {root}
  {
  }

  lemma WorkDone(e: Edges)
    ensures OpenFramesOf([]) == [] && Pending([]) == {}
  {
  }

  /** One iteration's first part: a node seen for the first time is opened. */
  lemma OpenStep(e: Edges, a: Listing, s: Search, front: seq<Frame>, node: string, index: map<string, nat>,
          low: map<string, nat>,
                 stack: seq<string>, onStack: set<string>, counter: nat, found: seq<set<string>>)
    requires Tracks(s, front, index, low, stack, onStack, counter, found) && SearchInv(e, a, s, {node})
    requires node !in index && (front != [] ==> node in Succ(e, front[|front| - 1].node))
    ensures SearchInv(e, a, Open(s, node), {})
    ensures Tracks(Open(s, node), front + [Frame(node, 0)], index[node := counter], low[node := counter],
      stack + [node], onStack + {node}, counter + 1, found)
  {
    hide SearchInv;
    OpenOn(e, a, s, node);
    OpenKeepsInv(e, a, s, node);
  }

  lemma OpenOn(e: Edges, a: Listing, s: Search, node: string)
    requires SearchInv(e, a, s, {node}) && node !in s.index
    ensures forall y :: On(Open(s, node), y) <==> On(s, y) || y == node
  {
  }

  /** One iteration's second part: the next successor is looked at. */
  lemma LookStep(e: Edges, a: Listing, s: Search, t: Search, front: seq<Frame>, v: string, position: nat, w: string,
                 index: map<string, nat>, low: map<string, nat>, low': map<string, nat>,
                 stack: seq<string>, onStack: set<string>, counter: nat, found: seq<set<string>>)
    requires Tracks(s, front + [Frame(v, position)], index, low, stack, onStack, counter, found)
    requires SearchInv(e, a, s, {}) && IsListing(e, a) && v in low && v in index
    requires position < |Listed(a, v)| && w == Listed(a, v)[position]
    requires w in onStack ==> w in index
    requires low' == if w in onStack then low[v := if index[w] < low[v] then index[w] else low[v]] else low
    requires t == Search(index, low', stack, front + [Frame(v, position + 1)], counter, s.done, found)
    ensures SearchInv(e, a, t, if w in index then {} else {w})
    ensures Tracks(t, front + [Frame(v, position + 1)], index, low', stack, onStack, counter, found)
  {
    hide SearchInv;
    LookAtNext(e, a, s, t, front, v, position, w);
  }

  /** What the iteration knows about its node, in terms of the variables. */
  lemma NodeFacts(e: Edges, a: Listing, s: Search, front: seq<Frame>, node: string, position: nat,
          index: map<string, nat>, low: map<string, nat>,
                 stack: seq<string>, onStack: set<string>, counter: nat, found: seq<set<string>>)
    requires Tracks(s, front + [Frame(node, position)], index, low, stack, onStack, counter, found)
    requires SearchInv(e, a, s, {}) && IsListing(e, a)
    ensures node in low && node in index && position <= |Listed(a, node)|
    ensures forall y | y in onStack :: y in index
  {
    assert s.frames[|front|] == Frame(node, position);
    InnermostNode(e, a, s, node);
  }

  /** One root's search: everything it reaches is seen, and nothing is left open. */
  method SearchFrom(edges: Edges, ghost a: Listing, ghost s0: Search, root: string, index0: map<string, nat>,
          low0: map<string, nat>,
                    stack0: seq<string>, onStack0: set<string>, counter0: nat, found0: seq<set<string>>)
    returns (index: map<string, nat>, low: map<string, nat>, stack: seq<string>, onStack: set<string>, counter: nat,
             found: seq<set<string>>, ghost s: Search)
    requires a == map x | x in edges :: SortedStrings(edges[x])
    requires root in edges && root !in index0
    requires SearchInv(edges, a, s0, {}) && Tracks(s0, [], index0, low0, stack0, onStack0, counter0, found0)
    ensures SearchInv(edges, a, s, {}) && Tracks(s, [], index, low, stack, onStack, counter, found)
    ensures index0.Keys + {root} <= index.Keys
  {
    hide SearchInv;
    hide IsComponent;
    hide SortedStrings;
    hide Remaining;
    hide AllNodes;
    hide Unseen;
    hide Open;
    hide Listed;
    hide IsListing;
    hide Tracks;
    hide WorkList;
    hide OpenFramesOf;
    hide Pending;
    ListsSorted(edges, a);
    index, low, stack, onStack, counter, found, s := index0, low0, stack0, onStack0, counter0, found0, s0;
    TracksFrames(s, [], index, low, stack, onStack, counter, found);
    AwaitRoot(edges, a, s, root);
    WorkStarts(edges, index, root);
    var work := [Frame(root, 0)];
    while work != []
      invariant SearchInv(edges, a, s, Pending(work))
      invariant Tracks(s, OpenFramesOf(work), index, low, stack, onStack, counter, found)
      invariant WorkList(edges, index, work)
      invariant root in index || work == [Frame(root, 0)]
      invariant index0.Keys <= index.Keys
      decreases Unseen(edges, index), Remaining(a, work), |work|
    {
      var front := work[..|work| - 1];
      var node, position := work[|work| - 1].node, work[|work| - 1].position;
      assert work == front + [Frame(node, position)];
      WorkSplits(edges, index, front, Frame(node, position));
      RemainingLast(a, front, Frame(node, position));
      ghost var before := index;
      if position == 0 {
        OpenStep(edges, a, s, front, node, index, low, stack, onStack, counter, found);
        UnseenFalls(edges, index, node, counter);
        index, low := index[node := counter], low[node := counter];
        counter := counter + 1;
        stack, onStack := stack + [node], onStack + {node};
        s := Open(s, node);
      }
      assert Tracks(s, front + [Frame(node, position)], index, low, stack, onStack, counter, found);
      NodeFacts(edges, a, s, front, node, position, index, low, stack, onStack, counter, found);
      var successors := if node in edges then SortedStrings(edges[node]) else [];
      assert successors == Listed(a, node);
      if position < |successors| {
        WorkAdvances(edges, before, index, front, node, position);
        work := front + [Frame(node, position + 1)];
        var successor := successors[position];
        ghost var low' := low;
        if successor in onStack {
          low := low[node := if index[successor] < low[node] then index[successor] else low[node]];
        }
        ghost var t := Search(index, low, stack, work, counter, s.done, found);
        LookStep(edges, a, s, t, front, node, position, successor, index, low', low, stack, onStack, counter, found);
        s := t;
        RemainingLast(a, front, Frame(node, position + 1));
        if successor !in index {
          WorkGrows(edges, index, work, successor);
          RemainingLast(a, work, Frame(successor, 0));
          work := work + [Frame(successor, 0)];
        } else {
          WorkSplits(edges, index, front, Frame(node, position + 1));
        }
      } else {
        work := front;
        assert position == |Listed(a, node)|;
        low, stack, onStack, found, s := Finish(edges, a, s, index, low, stack, onStack, counter, work, node, found);
      }
    }
    WorkDone(edges);
  }

  /**
   Every strongly connected component of two or more nodes, each exactly once.
   */
  method Components(edges: Edges) returns (found: seq<set<string>>)
    ensures forall c :: c in found <==> IsComponent(edges, c) && |c| > 1
    ensures forall i, j | 0 <= i < j < |found| :: found[i] !! found[j]
  {
    hide SearchInv;
    hide IsComponent;
    hide SortedStrings;
    hide Tracks;
    hide Covered;
    ghost var a: Listing := map x | x in edges :: SortedStrings(edges[x]);
    var index: map<string, nat>, low: map<string, nat> := map[], map[];
    var stack: seq<string>, onStack: set<string> := [], {};
    found := [];
    var counter := 0;
    ghost var s := Search(map[], map[], [], [], 0, {}, []);
    NothingSeen(edges, a);
    TracksNothing();
    var roots := SortedStrings(edges.Keys);
    CoveredNone(index);
    for r := 0 to |roots|
      invariant SearchInv(edges, a, s, {})
      invariant Tracks(s, [], index, low, stack, onStack, counter, found)
      invariant Covered(roots[..r], index)
    {
      var root := roots[r];
      assert roots[..r + 1] == roots[..r] + [root];
      ghost var before := index;
      if root !in index {
        index, low, stack, onStack, counter, found, s :=
          SearchFrom(edges, a, s, root, index, low, stack, onStack, counter, found);
      }
      CoveredGrows(roots[..r], before, root, index);
    }
    CoveredAll(edges, roots, index);
    TracksFrames(s, [], index, low, stack, onStack, counter, found);
    SearchEnds(edges, a, s);
  }

  ghost predicate Covered(roots: seq<string>, index: map<string, nat>) {
    forall x | x in roots :: x in index
  }

  lemma CoveredNone(index: map<string, nat>)
    ensures forall roots: seq<string> :: Covered(roots[..0], index)
  {
  }

  lemma CoveredGrows(roots: seq<string>, index: map<string, nat>, x: string, index': map<string, nat>)
    requires Covered(roots, index) && index.Keys <= index'.Keys && x in index'
    ensures Covered(roots + [x], index')
  {
  }

  lemma CoveredAll(e: Edges, roots: seq<string>, index: map<string, nat>)
    requires Covered(roots[..|roots|], index) && forall x :: x in roots <==> x in e.Keys
    ensures e.Keys <= index.Keys
  {
    assert roots[..|roots|] == roots;
  }

  lemma TracksNothing()
    ensures Tracks(Search(map[], map[], [], [], 0, {}, []), [], map[], map[], [], {}, 0, [])
  {
  }

  lemma TracksFrames(s: Search, frames: seq<Frame>, index: map<string, nat>, low: map<string, nat>, stack: seq<string>,
                     onStack: set<string>, counter: nat, found: seq<set<string>>)
    requires Tracks(s, frames, index, low, stack, onStack, counter, found)
    ensures s.frames == frames && s.index == index && s.found == found
  {
  }
}
