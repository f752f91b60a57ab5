/**
 Loop analysis (custom_components/device_links/loops.py): which links, together, can pass a
 command round forever.

 A loop is a strongly connected component of the control graph narrowed to the devices that
 forward what they receive.
 */
module Loops {
  import opened Wrappers
  import opened Orders
  import opened Models
  import opened Graphs
  import Tarjan

  datatype Loop = Loop(devices: seq<DeviceHandle>, ruleIds: seq<string>, ruleNames: seq<string>)

  function IdentitiesOf(devices: seq<DeviceHandle>): seq<string> {
    seq(|devices|, i requires 0 <= i < |devices| => devices[i].Identity())
  }

  function LoopIdentity(l: Loop): seq<string> {
    IdentitiesOf(l.devices)
  }

  ghost function Members(l: Loop): set<string> {
    set x | x in LoopIdentity(l)
  }

  /** Every device that repeats what it receives, because a rule asks or because it reports so. */
  function ForwardingDevices(rules: seq<Rule>, observed: map<string, map<string, int>>): set<string> {
    (set r | r in rules && r.mirrorSource.MirrorOn? :: r.source.device.Identity()) +
    (set i | i in observed && MIRROR_CAPABILITY in observed[i] && observed[i][MIRROR_CAPABILITY] != 0)
  }

  // The links that take part.

  /** One link of an enabled rule, with the rule it belongs to. */
  datatype Wire = Wire(link: Link, ruleId: string)

  function Tagged(links: seq<Link>, ruleId: string): seq<Wire> {
    seq(|links|, i requires 0 <= i < |links| => Wire(links[i], ruleId))
  }

  function EnabledIds(rules: seq<Rule>): set<string> {
    set r | r in rules && r.enabled :: r.id
  }

  ghost function Wires(compiled: seq<(string, CompiledRule)>, enabled: set<string>): seq<Wire> {
    if compiled == [] then []
    else
      (if compiled[0].0 in enabled then Tagged(compiled[0].1.links, compiled[0].0) else []) +
      Wires(compiled[1..], enabled)
  }

  /** Rule `r` has a link from `x` to `y`, and both forward. */
  ghost predicate Carries(wires: seq<Wire>, forwarding: set<string>, x: string, y: string, r: string) {
    x in forwarding && y in forwarding && exists w | w in wires :: Drives(w, x, y, r)
  }

  predicate Drives(w: Wire, x: string, y: string, r: string) {
    w.link.source.Identity() == x && w.link.target.handle.Identity() == y && w.ruleId == r
  }

  /** Some rule has a link from `x` to `y`, and both forward. */
  ghost predicate Passes(wires: seq<Wire>, forwarding: set<string>, x: string, y: string) {
    exists r :: Carries(wires, forwarding, x, y, r)
  }

  ghost function ControlGraph(wires: seq<Wire>, forwarding: set<string>): Edges {
    map x | x in forwarding :: set y | y in forwarding && Passes(wires, forwarding, x, y)
  }

  /** A component of two or more of the control graph. */
  ghost predicate IsRing(wires: seq<Wire>, forwarding: set<string>, c: set<string>) {
    IsComponent(ControlGraph(wires, forwarding), c) && |c| > 1
  }

  // Building the graph.

  type Owners = map<(string, string), set<string>>

  function OwnersOf(owners: Owners, x: string, y: string): set<string> {
    if (x, y) in owners then owners[(x, y)] else {}
  }

  /** The maps hold exactly what the links offered so far carry. */
  ghost predicate Records(edges: Edges, owners: Owners, offered: seq<Wire>, forwarding: set<string>) {
    && (forall x, y, r :: r in OwnersOf(owners, x, y) <==> Carries(offered, forwarding, x, y, r))
    && (forall x, y :: y in Succ(edges, x) <==> OwnersOf(owners, x, y) != {})
  }

  ghost predicate Handled(edges: Edges, handles: map<string, DeviceHandle>) {
    && (forall x | x in edges :: x in handles)
    && (forall x, y | y in Succ(edges, x) :: y in handles)
    && (forall x | x in handles :: handles[x].Identity() == x)
  }

  lemma CarriesGrows(wires: seq<Wire>, w: Wire, forwarding: set<string>)
    ensures forall x, y, r :: Carries(wires + [w], forwarding, x, y, r) <==>
      Carries(wires, forwarding, x, y, r) || (x in forwarding && y in forwarding && Drives(w, x, y, r))
  {
    assert forall v :: v in wires + [w] <==> v in wires || v == w;
  }

  lemma RecordsGrow(edges: Edges, owners: Owners, offered: seq<Wire>, forwarding: set<string>, w: Wire, x: string,
          y: string)
    requires Records(edges, owners, offered, forwarding)
    requires x == w.link.source.Identity() && y == w.link.target.handle.Identity()
    ensures x in forwarding && y in forwarding ==>
      Records(edges[x := Succ(edges, x) + {y}], owners[(x, y) := OwnersOf(owners, x, y) + {w.ruleId}], offered + [w],
        forwarding)
    ensures !(x in forwarding && y in forwarding) ==> Records(edges, owners, offered + [w], forwarding)
  {
    CarriesGrows(offered, w, forwarding);
    hide Carries;
    if x in forwarding && y in forwarding {
      var edges' := edges[x := Succ(edges, x) + {y}];
      var owners' := owners[(x, y) := OwnersOf(owners, x, y) + {w.ruleId}];
      assert w.ruleId in OwnersOf(owners', x, y);
      forall a, b ensures b in Succ(edges', a) <==> OwnersOf(owners', a, b) != {} {
        if (a, b) != (x, y) {
          assert OwnersOf(owners', a, b) == OwnersOf(owners, a, b);
        }
      }
    }
  }

  lemma HandledGrows(edges: Edges, handles: map<string, DeviceHandle>, a: DeviceHandle, b: DeviceHandle)
    requires Handled(edges, handles)
    ensures Handled(edges[a.Identity() := Succ(edges, a.Identity()) + {b.Identity()}],
      handles[a.Identity() := a][b.Identity() := b])
  {
    var m, n := a.Identity(), b.Identity();
    var edges' := edges[m := Succ(edges, m) + {n}];
    var handles' := handles[m := a][n := b];
    forall x, y | y in Succ(edges', x) ensures y in handles' {
      assert (x == m && y == n) || y in Succ(edges, x);
    }
    forall x | x in handles' ensures handles'[x].Identity() == x {
      assert x == m || x == n || x in handles;
    }
  }

  class Graph {
    const forwarding: set<string>
    var edges: Edges
    var handles: map<string, DeviceHandle>
    var owners: Owners

    /** Every link offered so far, relayed or not. */
    ghost var offered: seq<Wire>

    ghost predicate Valid()
      reads this
    {
      Records(edges, owners, offered, forwarding) && Handled(edges, handles)
    }

    constructor (forwarding: set<string>)
      ensures Valid() && this.forwarding == forwarding && offered == []
    {
      this.forwarding := forwarding;
      edges, handles, owners, offered := map[], map[], map[], [];
    }

    /** Records one link as an edge, when both of its ends relay. */
    method Add(link: Link, ruleId: string)
      requires Valid()
      modifies this
      ensures Valid() && offered == old(offered) + [Wire(link, ruleId)]
    {
      hide Records;
      hide Handled;
      var source := link.source.Identity();
      var target := link.target.handle.Identity();
      RecordsGrow(edges, owners, offered, forwarding, Wire(link, ruleId), source, target);
      HandledGrows(edges, handles, link.source, link.target.handle);
      offered := offered + [Wire(link, ruleId)];
      if source !in forwarding || target !in forwarding {
        return;
      }
      handles := handles[source := link.source];
      handles := handles[target := link.target.handle];
      edges := edges[source := Succ(edges, source) + {target}];
      owners := owners[(source, target) := OwnersOf(owners, source, target) + {ruleId}];
    }

    /** The rules whose links join the devices of one component, in order. */
    function RulesInside(component: set<string>): (rules: seq<string>)
      requires Valid()
      reads this
      ensures Ascending(StringLess, rules)
      ensures forall r :: r in rules <==> Inside(offered, forwarding, component, r)
    {
      var ids := set x, y, r | x in component && x in edges && y in edges[x] && y in component &&
        r in OwnersOf(owners, x, y) :: r;
      SortedStringsAscend(ids);
      InsideIsOwned(edges, owners, offered, forwarding, component, ids);
      SortedStrings(ids)
    }
  }

  /** A rule has a link between two devices of the component. */
  ghost predicate Inside(wires: seq<Wire>, forwarding: set<string>, c: set<string>, r: string) {
    exists x, y | x in c && y in c :: Carries(wires, forwarding, x, y, r)
  }

  lemma InsideIsOwned(edges: Edges, owners: Owners, wires: seq<Wire>, forwarding: set<string>, c: set<string>,
          ids: set<string>)
    requires Records(edges, owners, wires, forwarding)
    requires ids == set x, y, r | x in c && x in edges && y in edges[x] && y in c && r in OwnersOf(owners, x, y) :: r
    ensures forall r :: r in ids <==> Inside(wires, forwarding, c, r)
  {
    hide Carries;
    forall r | Inside(wires, forwarding, c, r) ensures r in ids {
      var x, y :| x in c && y in c && Carries(wires, forwarding, x, y, r);
      assert r in OwnersOf(owners, x, y);
      assert y in Succ(edges, x);
    }
    forall r | r in ids ensures Inside(wires, forwarding, c, r) {
      var x, y :| x in c && x in edges && y in edges[x] && y in c && r in OwnersOf(owners, x, y);
      assert Carries(wires, forwarding, x, y, r);
    }
  }

  // The search.

  lemma SameSuccessorsSameReach(e: Edges, f: Edges, x: string, y: string)
    requires forall v :: Succ(e, v) == Succ(f, v)
    ensures Reach(e, x, y) <==> Reach(f, x, y)
  {
    if Reach(e, x, y) {
      var p :| Graphs.Joins(e, p, x, y);
      assert Graphs.Joins(f, p, x, y);
    }
    if Reach(f, x, y) {
      var p :| Graphs.Joins(f, p, x, y);
      assert Graphs.Joins(e, p, x, y);
    }
  }

  lemma SameSuccessorsSameComponents(e: Edges, f: Edges, c: set<string>)
    requires forall v :: Succ(e, v) == Succ(f, v)
    ensures IsComponent(e, c) <==> IsComponent(f, c)
  {
    hide Reach;
    forall x, y ensures Reach(e, x, y) <==> Reach(f, x, y) {
      SameSuccessorsSameReach(e, f, x, y);
    }
  }

  lemma GraphIsControlGraph(edges: Edges, owners: Owners, wires: seq<Wire>, forwarding: set<string>)
    requires Records(edges, owners, wires, forwarding)
    ensures forall x :: Succ(edges, x) == Succ(ControlGraph(wires, forwarding), x)
  {
    forall x, y ensures y in Succ(edges, x) <==> y in Succ(ControlGraph(wires, forwarding), x) {
      if y in Succ(edges, x) {
        var r :| r in OwnersOf(owners, x, y);
        assert Passes(wires, forwarding, x, y) && Carries(wires, forwarding, x, y, r);
      }
      if y in Succ(ControlGraph(wires, forwarding), x) {
        var r :| Carries(wires, forwarding, x, y, r);
        assert r in OwnersOf(owners, x, y);
      }
    }
  }

  /** `{rule.id: rule.name for rule in rules}`, asked for one rule: the last of its id, or the id itself. */
  function NameOf(rules: seq<Rule>, id: string): string {
    if rules == [] then id
    else if rules[|rules| - 1].id == id then rules[|rules| - 1].name
    else NameOf(rules[..|rules| - 1], id)
  }

  /** What a loop says about one component: its devices, and exactly the rules that join them. */
  ghost predicate Reports(l: Loop, c: set<string>, wires: seq<Wire>, forwarding: set<string>, rules: seq<Rule>) {
    && (forall x :: x in LoopIdentity(l) <==> x in c)
    && Ascending(StringLess, LoopIdentity(l))
    && Ascending(StringLess, l.ruleIds)
    && (forall r :: r in l.ruleIds <==> Inside(wires, forwarding, c, r))
    && |l.ruleNames| == |l.ruleIds|
    && (forall i | 0 <= i < |l.ruleIds| :: l.ruleNames[i] == NameOf(rules, l.ruleIds[i]))
  }

  /** One component as a loop. */
  method Describe(graph: Graph, component: set<string>, rules: seq<Rule>) returns (l: Loop)
    requires graph.Valid()
    requires forall x | x in component :: x in graph.handles
    ensures Reports(l, component, graph.offered, graph.forwarding, rules)
  {
    hide Inside;
    hide Ascending;
    hide SortedStrings;
    hide NameOf;
    hide Records;
    var handles := graph.handles;
    var identities := SortedStrings(component);
    SortedStringsAscend(component);
    assert forall i | 0 <= i < |identities| :: identities[i] in component;
    var devices := seq(|identities|, i requires 0 <= i < |identities| => handles[identities[i]]);
    assert IdentitiesOf(devices) == identities;
    var ruleIds := graph.RulesInside(component);
    l := Loop(devices, ruleIds, seq(|ruleIds|, i requires 0 <= i < |ruleIds| => NameOf(rules, ruleIds[i])));
  }

  /** The loops are exactly the components of two or more, each once, in the order of their identities. */
  ghost predicate ExactlyTheLoops(loops: seq<Loop>, wires: seq<Wire>, forwarding: set<string>, rules: seq<Rule>) {
    && (forall l | l in loops :: IsLoop(l, wires, forwarding, rules))
    && (forall c | IsRing(wires, forwarding, c) :: Reported(loops, c, wires, forwarding, rules))
    && (forall i, j | 0 <= i < j < |loops| :: Members(loops[i]) !! Members(loops[j]))
    && (forall i, j | 0 <= i < j < |loops| :: WordsLess(LoopIdentity(loops[i]), LoopIdentity(loops[j])))
  }

  ghost predicate Reported(loops: seq<Loop>, c: set<string>, wires: seq<Wire>, forwarding: set<string>,
          rules: seq<Rule>) {
    exists l | l in loops :: Reports(l, c, wires, forwarding, rules)
  }

  ghost predicate IsLoop(l: Loop, wires: seq<Wire>, forwarding: set<string>, rules: seq<Rule>) {
    && Reports(l, Members(l), wires, forwarding, rules)
    && IsRing(wires, forwarding, Members(l))
  }

  lemma ReportedMembers(l: Loop, c: set<string>, wires: seq<Wire>, forwarding: set<string>, rules: seq<Rule>)
    requires Reports(l, c, wires, forwarding, rules)
    ensures Members(l) == c
  {
  }

  lemma RingIsNotEmpty(wires: seq<Wire>, forwarding: set<string>, c: set<string>)
    requires IsRing(wires, forwarding, c)
    ensures c != {}
  {
  }

  /** One loop for each component, put in order, are exactly the loops. */
  lemma DescribedAndSorted(wires: seq<Wire>, forwarding: set<string>, rules: seq<Rule>,
          components: seq<set<string>>, loops: seq<Loop>, sorted: seq<Loop>)
    requires forall c :: c in components <==> IsRing(wires, forwarding, c)
    requires forall i, j | 0 <= i < j < |components| :: components[i] !! components[j]
    requires |loops| == |components| &&
      forall i | 0 <= i < |loops| :: Reports(loops[i], components[i], wires, forwarding, rules)
    requires StrictTotal(WordsLess) && InOrder(WordsLess, LoopIdentity, sorted) && multiset(sorted) == multiset(loops)
    ensures ExactlyTheLoops(sorted, wires, forwarding, rules)
  {
    hide Reports;
    hide WordsLess;
    forall i | 0 <= i < |loops| ensures Members(loops[i]) == components[i] && components[i] != {} {
      ReportedMembers(loops[i], components[i], wires, forwarding, rules);
      assert components[i] in components;
      RingIsNotEmpty(wires, forwarding, components[i]);
    }
    hide IsRing;
    assert Distinct(loops);
    PermutedStaysDistinct(loops, sorted);
    forall l | l in sorted ensures IsLoop(l, wires, forwarding, rules) {
      var i :| 0 <= i < |loops| && loops[i] == l;
      assert components[i] in components;
    }
    forall c | IsRing(wires, forwarding, c) ensures Reported(sorted, c, wires, forwarding, rules) {
      var i :| 0 <= i < |components| && components[i] == c;
      assert loops[i] in sorted;
    }
    forall i, j | 0 <= i < j < |sorted|
      ensures Members(sorted[i]) !! Members(sorted[j]) && LoopIdentity(sorted[i]) != LoopIdentity(sorted[j])
    {
      assert sorted[i] in loops && sorted[j] in loops && sorted[i] != sorted[j];
      var p :| 0 <= p < |loops| && loops[p] == sorted[i];
      var q :| 0 <= q < |loops| && loops[q] == sorted[j];
      assert p != q;
      assert components[p] !! components[q];
      assert Members(sorted[i]) != Members(sorted[j]);
    }
    SortedKeysAscend(WordsLess, LoopIdentity, sorted);
  }

  lemma WiresStep(compiled: seq<(string, CompiledRule)>, enabled: set<string>, i: nat)
    requires i < |compiled|
    ensures Wires(compiled[i..], enabled) ==
      (if compiled[i].0 in enabled then Tagged(compiled[i].1.links, compiled[i].0) else []) +
        Wires(compiled[i + 1..], enabled)
  {
    assert compiled[i..][1..] == compiled[i + 1..];
  }

  /** The links of the enabled rules, added to the graph in order. */
  method BuildGraph(compiled: seq<(string, CompiledRule)>, rules: seq<Rule>, forwarding: set<string>)
    returns (graph: Graph)
    ensures fresh(graph) && graph.Valid() && graph.forwarding == forwarding
    ensures graph.offered == Wires(compiled, EnabledIds(rules))
  {
    var enabled := EnabledIds(rules);
    graph := new Graph(forwarding);
    for i := 0 to |compiled|
      invariant fresh(graph) && graph.Valid() && graph.forwarding == forwarding
      invariant graph.offered + Wires(compiled[i..], enabled) == Wires(compiled, enabled)
    {
      hide Records;
      hide Handled;
      WiresStep(compiled, enabled, i);
      var (ruleId, result) := compiled[i];
      if ruleId in enabled {
        ghost var before := graph.offered;
        for j := 0 to |result.links|
          invariant fresh(graph) && graph.Valid() && graph.forwarding == forwarding
          invariant graph.offered == before + Tagged(result.links, ruleId)[..j]
        {
          graph.Add(result.links[j], ruleId);
        }
        assert Tagged(result.links, ruleId)[..|result.links|] == Tagged(result.links, ruleId);
      }
    }
  }

  /** Every set of forwarding devices that can pass a command round between them. */
  method FindLoops(compiled: seq<(string, CompiledRule)>, rules: seq<Rule>, forwarding: set<string>)
    returns (loops: seq<Loop>)
    ensures ExactlyTheLoops(loops, Wires(compiled, EnabledIds(rules)), forwarding, rules)
  {
    hide Reports;
    hide ExactlyTheLoops;
    hide IsComponent;
    ghost var wires := Wires(compiled, EnabledIds(rules));
    var graph := BuildGraph(compiled, rules, forwarding);
    var components := Tarjan.Components(graph.edges);
    ComponentsOfGraph(graph.edges, graph.owners, graph.handles, wires, forwarding, components);
    var found: seq<Loop> := [];
    for k := 0 to |components|
      invariant graph.Valid() && graph.offered == wires && graph.forwarding == forwarding
      invariant forall c, x | c in components && x in c :: x in graph.handles
      invariant |found| == k && forall m | 0 <= m < k :: Reports(found[m], components[m], wires, forwarding, rules)
    {
      assert components[k] in components;
      var loop := Describe(graph, components[k], rules);
      found := found + [loop];
    }
    WordsLessIsTotal();
    loops := SortBy(WordsLess, LoopIdentity, found);
    DescribedAndSorted(wires, forwarding, rules, components, found, loops);
  }

  lemma ComponentsOfGraph(edges: Edges, owners: Owners, handles: map<string, DeviceHandle>, wires: seq<Wire>,
          forwarding: set<string>, components: seq<set<string>>)
    requires Records(edges, owners, wires, forwarding) && Handled(edges, handles)
    requires forall c :: c in components <==> IsComponent(edges, c) && |c| > 1
    ensures forall c :: c in components <==> IsRing(wires, forwarding, c)
    ensures forall c, x | c in components && x in c :: x in handles
  {
    hide IsComponent;
    GraphIsControlGraph(edges, owners, wires, forwarding);
    forall c ensures c in components <==> IsRing(wires, forwarding, c) {
      SameSuccessorsSameComponents(edges, ControlGraph(wires, forwarding), c);
    }
    forall c, x | c in components && x in c ensures x in handles {
      ComponentNodeHasEdge(edges, c, x);
    }
  }

  // What that means for commands going round.

  /** A round trip of commands: each device drives the next, every device forwards, and it ends where it began. */
  ghost predicate ClosedWalk(wires: seq<Wire>, forwarding: set<string>, p: seq<string>) {
    && |p| >= 2 && p[0] == p[|p| - 1]
    && forall i | 0 <= i < |p| - 1 :: Passes(wires, forwarding, p[i], p[i + 1])
  }

  /** The component of one node, among finitely many. */
  lemma ComponentAround(e: Edges, nodes: set<string>, x: string) returns (c: set<string>)
    requires forall y, z | y in nodes && z in Succ(e, y) :: z in nodes
    requires x in nodes
    ensures IsComponent(e, c) && x in c
  {
    hide Reach;
    c := set y | y in nodes && Reach(e, x, y) && Reach(e, y, x);
    ReachSelf(e, x);
    forall a, b | a in c ensures b in c <==> Reach(e, a, b) && Reach(e, b, a) {
      if b in c {
        ReachTrans(e, a, x, b);
        ReachTrans(e, b, x, a);
      } else if Reach(e, a, b) && Reach(e, b, a) {
        ReachTrans(e, x, a, b);
        ReachTrans(e, b, a, x);
        ClosedUnderReach(e, nodes, a, b);
      }
    }
  }

  lemma WalkIsPath(wires: seq<Wire>, forwarding: set<string>, p: seq<string>, i: nat, j: nat)
    requires ClosedWalk(wires, forwarding, p) && i <= j < |p|
    ensures Reach(ControlGraph(wires, forwarding), p[i], p[j])
  {
    hide Carries;
    var e := ControlGraph(wires, forwarding);
    var q := p[i..j + 1];
    forall k | 0 <= k < |q| - 1 ensures q[k + 1] in Succ(e, q[k]) {
      var r :| Carries(wires, forwarding, p[i + k], p[i + k + 1], r);
      CarriesForwards(wires, forwarding, p[i + k], p[i + k + 1], r);
    }
    assert Graphs.Joins(e, q, p[i], p[j]);
  }

  lemma CarriesForwards(wires: seq<Wire>, forwarding: set<string>, x: string, y: string, r: string)
    requires Carries(wires, forwarding, x, y, r)
    ensures x in forwarding && y in forwarding
    ensures (forall w | w in wires :: w.link.source.Identity() != w.link.target.handle.Identity()) ==> x != y
  {
  }

  /** The walk is inside one loop and meets no other. */
  ghost predicate LiesInOnly(p: seq<string>, loops: seq<Loop>, i: nat) {
    forall x, j | x in p && 0 <= j < |loops| :: x in Members(loops[j]) <==> j == i
  }

  /** Every round trip of commands lies inside exactly one reported loop. */
  lemma ClosedWalkIsReported(loops: seq<Loop>, wires: seq<Wire>, forwarding: set<string>, rules: seq<Rule>,
          p: seq<string>)
    requires ExactlyTheLoops(loops, wires, forwarding, rules)
    requires forall w | w in wires :: w.link.source.Identity() != w.link.target.handle.Identity()
    requires ClosedWalk(wires, forwarding, p)
    ensures exists i | 0 <= i < |loops| :: LiesInOnly(p, loops, i)
  {
    hide Reach;
    hide Carries;
    hide Reports;
    var e := ControlGraph(wires, forwarding);
    var r :| Carries(wires, forwarding, p[0], p[1], r);
    CarriesForwards(wires, forwarding, p[0], p[1], r);
    var c := ComponentAround(e, forwarding, p[0]);
    forall x | x in p ensures x in c {
      var k :| 0 <= k < |p| && p[k] == x;
      WalkIsPath(wires, forwarding, p, 0, k);
      WalkIsPath(wires, forwarding, p, k, |p| - 1);
    }
    assert p[0] in c && p[1] in c && p[0] != p[1];
    assert c - {p[0]} != {} && |c - {p[0]}| > 0;
    assert Reported(loops, c, wires, forwarding, rules);
    var l :| l in loops && Reports(l, c, wires, forwarding, rules);
    ReportedMembers(l, c, wires, forwarding, rules);
    var i :| 0 <= i < |loops| && loops[i] == l;
    WalkInOneLoop(loops, c, p, i);
  }

  lemma WalkInOneLoop(loops: seq<Loop>, c: set<string>, p: seq<string>, i: nat)
    requires i < |loops| && Members(loops[i]) == c && forall x | x in p :: x in c
    requires forall i, j | 0 <= i < j < |loops| :: Members(loops[i]) !! Members(loops[j])
    ensures LiesInOnly(p, loops, i)
  {
    hide Members;
    forall x, j | x in p && 0 <= j < |loops| ensures x in Members(loops[j]) <==> j == i {
      assert j < i ==> Members(loops[j]) !! Members(loops[i]);
      assert i < j ==> Members(loops[i]) !! Members(loops[j]);
    }
  }

  /**
   Every reported loop's devices reach each other along such links, and its rules are exactly those
   with a link inside it.
   */
  lemma LoopIsReal(loops: seq<Loop>, wires: seq<Wire>, forwarding: set<string>, rules: seq<Rule>, l: Loop,
          x: string, y: string)
    requires ExactlyTheLoops(loops, wires, forwarding, rules) && l in loops
    requires x in Members(l) && y in Members(l) && x != y
    ensures exists p | ClosedWalk(wires, forwarding, p) :: x in p && y in p
    ensures forall r :: r in l.ruleIds <==> Inside(wires, forwarding, Members(l), r)
  {
    hide IsRing;
    hide Inside;
    assert IsLoop(l, wires, forwarding, rules);
    RingGoesRound(wires, forwarding, Members(l), x, y);
  }

  lemma RingGoesRound(wires: seq<Wire>, forwarding: set<string>, c: set<string>, x: string, y: string)
    requires IsRing(wires, forwarding, c) && x in c && y in c && x != y
    ensures exists p | ClosedWalk(wires, forwarding, p) :: x in p && y in p
  {
    hide Passes;
    var e := ControlGraph(wires, forwarding);
    var p :| Graphs.Joins(e, p, x, y);
    var q :| Graphs.Joins(e, q, y, x);
    var w := p + q[1..];
    forall i | 0 <= i < |w| - 1 ensures Passes(wires, forwarding, w[i], w[i + 1]) {
      if i < |p| - 1 {
        assert p[i + 1] in Succ(e, p[i]);
      } else {
        assert q[i - |p| + 2] in Succ(e, q[i - |p| + 1]);
      }
    }
    assert ClosedWalk(wires, forwarding, w);
    assert w[0] == x && w[|p| - 1] == y;
  }
}
