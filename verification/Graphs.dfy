/** Directed graphs as edge maps, reachability, and strongly connected components. */
module Graphs {

  type Edges = map<string, set<string>>

  /** `edges.get(x, ())`: a node nothing leaves has no entry. */
  function Succ(e: Edges, x: string): set<string> {
    if x in e then e[x] else {}
  }

  ghost predicate IsPath(e: Edges, p: seq<string>) {
    p != [] && forall i | 0 <= i < |p| - 1 :: p[i + 1] in Succ(e, p[i])
  }

  ghost predicate Joins(e: Edges, p: seq<string>, x: string, y: string) {
    IsPath(e, p) && p[0] == x && p[|p| - 1] == y
  }

  ghost predicate Reach(e: Edges, x: string, y: string) {
    exists p :: Joins(e, p, x, y)
  }

  /** A strongly connected component: everything mutually reachable with any of its nodes. */
  ghost predicate IsComponent(e: Edges, c: set<string>) {
    c != {} && forall x, y | x in c :: y in c <==> Reach(e, x, y) && Reach(e, y, x)
  }

  lemma ReachSelf(e: Edges, x: string)
    ensures Reach(e, x, x)
  {
    assert Joins(e, [x], x, x);
  }

  lemma ReachEdge(e: Edges, x: string, y: string)
    requires y in Succ(e, x)
    ensures Reach(e, x, y)
  {
    assert Joins(e, [x, y], x, y);
  }

  lemma ReachTrans(e: Edges, x: string, y: string, z: string)
    requires Reach(e, x, y) && Reach(e, y, z)
    ensures Reach(e, x, z)
  {
    var p :| Joins(e, p, x, y);
    var q :| Joins(e, q, y, z);
    var r := p + q[1..];
    forall i | 0 <= i < |r| - 1 ensures r[i + 1] in Succ(e, r[i]) {
      if i < |p| - 1 {
        assert r[i] == p[i] && r[i + 1] == p[i + 1];
      } else {
        assert r[i] == q[i - |p| + 1] && r[i + 1] == q[i - |p| + 2];
      }
    }
    assert Joins(e, r, x, z);
  }

  /** Nothing leaves a set that is closed under successors. */
  lemma {:induction false} ClosedUnderReach(e: Edges, s: set<string>, x: string, y: string)
    requires forall a, b | a in s && b in Succ(e, a) :: b in s
    requires x in s && Reach(e, x, y)
    ensures y in s
  {
    var p :| Joins(e, p, x, y);
    PathStaysIn(e, s, p);
  }

  lemma {:induction false} PathStaysIn(e: Edges, s: set<string>, p: seq<string>)
    requires forall a, b | a in s && b in Succ(e, a) :: b in s
    requires IsPath(e, p) && p[0] in s
    ensures p[|p| - 1] in s
  {
    if |p| > 1 {
      assert p[1] in Succ(e, p[0]);
      assert IsPath(e, p[1..]) by {
        forall i | 0 <= i < |p| - 2 ensures p[1..][i + 1] in Succ(e, p[1..][i]) {
          assert p[i + 2] in Succ(e, p[i + 1]);
        }
      }
      PathStaysIn(e, s, p[1..]);
    }
  }

  /** Two components that share a node are the same component. */
  lemma ComponentsAreDisjoint(e: Edges, c: set<string>, d: set<string>, x: string)
    requires IsComponent(e, c) && IsComponent(e, d)
    requires x in c && x in d
    ensures c == d
  {
    assert forall y :: y in c <==> y in d;
  }

  /** A node of a component of two or more is left by at least one edge. */
  lemma ComponentNodeHasEdge(e: Edges, c: set<string>, x: string)
    requires IsComponent(e, c) && x in c && |c| > 1
    ensures x in e
  {
    assert c != {x};
    var y :| y in c && y != x;
    var p :| Joins(e, p, x, y);
    assert p[1] in Succ(e, p[0]);
  }
}
