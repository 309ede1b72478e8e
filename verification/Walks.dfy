// What a walk over one kind of edge can reach, and in how many hops.
module Walks {
  import opened Topology

  // The other end of an edge, walking up (against it) or down (along it).
  function FarEnd(e: Edge, up: bool): string { if up then e.from else e.to }

  function EdgesOf(c: Contents, id: string, up: bool): seq<Edge> { if up then At(c.ins, id) else At(c.outs, id) }

  // One hop from `id`.
  function Next(c: Contents, k: string, up: bool, id: string): set<string> {
    set e | e in EdgesOf(c, id, up) && e.kind == k :: FarEnd(e, up)
  }

  // One hop from anything in `s`.
  function Beyond(c: Contents, k: string, up: bool, s: set<string>): set<string> {
    set a, b | a in s && b in Next(c, k, up, a) :: b
  }

  // At most `d` hops from `id`.
  function Within(c: Contents, k: string, up: bool, id: string, d: nat): set<string> {
    if d == 0 then {id}
    else Within(c, k, up, id, d - 1) + Beyond(c, k, up, Within(c, k, up, id, d - 1))
  }

  ghost predicate Reaches(c: Contents, k: string, up: bool, id: string, b: string) {
    exists d :: b in Within(c, k, up, id, d)
  }

  // ---- Walks as explicit paths ---------------------------------------------

  ghost predicate IsPath(c: Contents, k: string, up: bool, p: seq<string>) {
    |p| > 0 && forall i :: 0 < i < |p| ==> p[i] in Next(c, k, up, p[i - 1])
  }

  ghost predicate IsPathFromTo(c: Contents, k: string, up: bool, p: seq<string>, a: string, b: string) {
    IsPath(c, k, up, p) && p[0] == a && p[|p| - 1] == b
  }

  lemma {:induction false} PathToBall(c: Contents, k: string, up: bool, p: seq<string>, d: nat)
    requires IsPath(c, k, up, p) && |p| <= d + 1
    ensures p[|p| - 1] in Within(c, k, up, p[0], d)
    decreases d
  {
    if |p| == 1 {
      WithinGrows(c, k, up, p[0], 0, d);
    } else {
      PathToBall(c, k, up, p[..|p| - 1], d - 1);
    }
  }

  lemma {:induction false} BallToPath(c: Contents, k: string, up: bool, a: string, b: string, d: nat)
    returns (p: seq<string>)
    requires b in Within(c, k, up, a, d)
    ensures IsPathFromTo(c, k, up, p, a, b) && |p| <= d + 1
    decreases d
  {
    if d == 0 {
      p := [a];
    } else if b in Within(c, k, up, a, d - 1) {
      p := BallToPath(c, k, up, a, b, d - 1);
    } else {
      var m :| m in Within(c, k, up, a, d - 1) && b in Next(c, k, up, m);
      var q := BallToPath(c, k, up, a, m, d - 1);
      p := q + [b];
    }
  }

  // `Within` counts hops: a node is within d iff a path of at most d edges leads to it.
  lemma WithinIsPaths(c: Contents, k: string, up: bool, a: string, b: string, d: nat)
    ensures b in Within(c, k, up, a, d) <==> exists p :: IsPathFromTo(c, k, up, p, a, b) && |p| <= d + 1
  {
    if b in Within(c, k, up, a, d) {
      var p := BallToPath(c, k, up, a, b, d);
    }
    if p :| IsPathFromTo(c, k, up, p, a, b) && |p| <= d + 1 {
      PathToBall(c, k, up, p, d);
    }
  }

  lemma {:induction false} WithinGrows(c: Contents, k: string, up: bool, id: string, d: nat, d': nat)
    requires d <= d'
    ensures Within(c, k, up, id, d) <= Within(c, k, up, id, d')
    decreases d' - d
  {
    if d < d' {
      WithinGrows(c, k, up, id, d, d' - 1);
    }
  }

  // A set that holds the start and is closed under hops holds everything reachable.
  lemma {:induction false} ClosedHoldsAll(c: Contents, k: string, up: bool, id: string, s: set<string>, d: nat)
    requires id in s && forall a :: a in s ==> Next(c, k, up, a) <= s
    ensures Within(c, k, up, id, d) <= s
  {
    if d > 0 {
      ClosedHoldsAll(c, k, up, id, s, d - 1);
    }
  }

  // ---- Duality -------------------------------------------------------------

  // In a coherent graph a hop up undoes a hop down.
  lemma NextDual(c: Contents, k: string, up: bool, a: string, b: string)
    requires Coherent(c) && b in Next(c, k, up, a)
    ensures a in Next(c, k, !up, b)
  {
    var e :| e in EdgesOf(c, a, up) && e.kind == k && FarEnd(e, up) == b;
    assert OutCount(c, e) == InCount(c, e);
    assert e in EdgesOf(c, b, !up);
  }

  function Reversed(p: seq<string>): (r: seq<string>)
    ensures |r| == |p| && forall i :: 0 <= i < |p| ==> r[i] == p[|p| - 1 - i]
  {
    seq(|p|, i requires 0 <= i < |p| => p[|p| - 1 - i])
  }

  lemma PathDual(c: Contents, k: string, up: bool, p: seq<string>)
    requires Coherent(c) && IsPath(c, k, up, p)
    ensures IsPath(c, k, !up, Reversed(p))
  {
    var r := Reversed(p);
    forall i | 0 < i < |r| ensures r[i] in Next(c, k, !up, r[i - 1]) {
      var j := |p| - i;
      assert p[j] in Next(c, k, up, p[j - 1]);
      NextDual(c, k, up, p[j - 1], p[j]);
    }
  }

  lemma WithinDualOneWay(c: Contents, k: string, up: bool, a: string, b: string, d: nat)
    requires Coherent(c) && b in Within(c, k, up, a, d)
    ensures a in Within(c, k, !up, b, d)
  {
    var p := BallToPath(c, k, up, a, b, d);
    PathDual(c, k, up, p);
    PathToBall(c, k, !up, Reversed(p), d);
  }

  // What feeds a node upstream is fed by it downstream, at the same distance.
  lemma WithinDual(c: Contents, k: string, a: string, b: string, d: nat)
    requires Coherent(c)
    ensures b in Within(c, k, true, a, d) <==> a in Within(c, k, false, b, d)
  {
    if b in Within(c, k, true, a, d) { WithinDualOneWay(c, k, true, a, b, d); }
    if a in Within(c, k, false, b, d) { WithinDualOneWay(c, k, false, b, a, d); }
  }

  // ---- What a chain query answers ------------------------------------------

  function Ids(nodes: seq<Node>): (ids: seq<string>)
    ensures |ids| == |nodes| && forall i :: 0 <= i < |nodes| ==> ids[i] == nodes[i].id
  {
    seq(|nodes|, i requires 0 <= i < |nodes| => nodes[i].id)
  }

  ghost predicate Distinct(ids: seq<string>) { forall i, j :: 0 <= i < j < |ids| ==> ids[i] != ids[j] }

  // Earlier entries are no farther than later ones.
  ghost predicate NearestFirst(c: Contents, k: string, up: bool, id: string, ids: seq<string>) {
    forall i, j, d :: 0 <= i < j < |ids| && ids[j] in Within(c, k, up, id, d) ==> ids[i] in Within(c, k, up, id, d)
  }

  ghost predicate FromGraph(c: Contents, order: seq<Node>) {
    forall n :: n in order ==> n.id in c.nodes && c.nodes[n.id] == n
  }

  // Exactly the reachable nodes other than the start, each once, nearest first.
  ghost predicate IsChain(c: Contents, k: string, up: bool, id: string, order: seq<Node>) {
    && FromGraph(c, order) && Distinct(Ids(order))
    && (forall b :: b in Ids(order) <==> b != id && Reaches(c, k, up, id, b))
    && NearestFirst(c, k, up, id, Ids(order))
  }

  // y is upstream of x iff x is downstream of y.
  lemma ChainsDual(c: Contents, k: string, x: string, y: string, above: seq<Node>, below: seq<Node>)
    requires Coherent(c) && IsChain(c, k, true, x, above) && IsChain(c, k, false, y, below)
    ensures y in Ids(above) <==> x in Ids(below)
  {
    if d :| y in Within(c, k, true, x, d) { WithinDual(c, k, x, y, d); assert Reaches(c, k, false, y, x); }
    if d :| x in Within(c, k, false, y, d) { WithinDual(c, k, x, y, d); assert Reaches(c, k, true, x, y); }
  }

  // ---- When nearest first is topological -----------------------------------

  // Each node stands before the nodes one hop beyond it.
  ghost predicate BeforeItsHops(c: Contents, k: string, up: bool, ids: seq<string>) {
    forall i, j :: 0 <= i < |ids| && 0 <= j < |ids| && ids[j] in Next(c, k, up, ids[i]) ==> i < j
  }

  // `b` takes more hops than `a`.
  ghost predicate Farther(c: Contents, k: string, up: bool, id: string, a: string, b: string) {
    exists d :: a in Within(c, k, up, id, d) && b !in Within(c, k, up, id, d)
  }

  // Every hop between reached nodes other than the start leads strictly farther from it.
  ghost predicate Layered(c: Contents, k: string, up: bool, id: string) {
    forall a, b :: a != id && b != id && Reaches(c, k, up, id, a) && b in Next(c, k, up, a) ==>
      Farther(c, k, up, id, a, b)
  }

  lemma LayeredIsTopological(c: Contents, k: string, up: bool, id: string, order: seq<Node>)
    requires IsChain(c, k, up, id, order) && Layered(c, k, up, id)
    ensures BeforeItsHops(c, k, up, Ids(order))
  {
    var ids := Ids(order);
    hide Next, Within;
    forall i, j | 0 <= i < |ids| && 0 <= j < |ids| && ids[j] in Next(c, k, up, ids[i]) ensures i < j {
      assert ids[i] in ids && ids[j] in ids;
      var d :| ids[i] in Within(c, k, up, id, d) && ids[j] !in Within(c, k, up, id, d);
    }
  }

  lemma ReachesOn(c: Contents, k: string, up: bool, id: string, a: string, b: string)
    requires Reaches(c, k, up, id, a) && b in Next(c, k, up, a)
    ensures Reaches(c, k, up, id, b)
  {
    var d: nat :| a in Within(c, k, up, id, d);
    assert b in Within(c, k, up, id, d + 1);
  }

  // ---- Graphs that walk alike ----------------------------------------------

  ghost predicate SameEdges(c: Contents, c': Contents) {
    forall e :: OutCount(c, e) == OutCount(c', e) && InCount(c, e) == InCount(c', e)
  }

  lemma NextSame(c: Contents, c': Contents, k: string, up: bool, id: string)
    requires Coherent(c) && Coherent(c') && SameEdges(c, c')
    ensures Next(c, k, up, id) == Next(c', k, up, id)
  {
    forall e ensures e in EdgesOf(c, id, up) <==> e in EdgesOf(c', id, up) {
      assert OutCount(c, e) == OutCount(c', e) && InCount(c, e) == InCount(c', e);
    }
  }

  lemma BeyondSame(c: Contents, c': Contents, k: string, up: bool, s: set<string>)
    requires Coherent(c) && Coherent(c') && SameEdges(c, c')
    ensures Beyond(c, k, up, s) == Beyond(c', k, up, s)
  {
    hide Next, Coherent, SameEdges;
    forall a ensures Next(c, k, up, a) == Next(c', k, up, a) {
      NextSame(c, c', k, up, a);
    }
  }

  lemma {:induction false} WithinSame(c: Contents, c': Contents, k: string, up: bool, id: string, d: nat)
    requires Coherent(c) && Coherent(c') && SameEdges(c, c')
    ensures Within(c, k, up, id, d) == Within(c', k, up, id, d)
  {
    if d > 0 {
      WithinSame(c, c', k, up, id, d - 1);
      BeyondSame(c, c', k, up, Within(c, k, up, id, d - 1));
    }
  }

  lemma ChainSame(c: Contents, c': Contents, k: string, up: bool, id: string, order: seq<Node>)
    requires Coherent(c) && Coherent(c') && SameEdges(c, c') && IsChain(c, k, up, id, order)
    requires forall x :: x in c.nodes ==> x in c'.nodes && c'.nodes[x] == c.nodes[x]
    ensures IsChain(c', k, up, id, order)
  {
    hide Within, Coherent, SameEdges;
    forall d ensures Within(c, k, up, id, d) == Within(c', k, up, id, d) {
      WithinSame(c, c', k, up, id, d);
    }
    forall b ensures Reaches(c, k, up, id, b) <==> Reaches(c', k, up, id, b) {
      if d :| b in Within(c, k, up, id, d) { assert b in Within(c', k, up, id, d); }
      if d :| b in Within(c', k, up, id, d) { assert b in Within(c, k, up, id, d); }
    }
  }

  // Discovery leaves every existing node and what chain queries may answer as it was.
  lemma DiscoveryKeepsChains(c: Contents, rows: seq<seq<Cell>>, k: string, up: bool, id: string, order: seq<Node>)
    requires Coherent(c) && IsChain(c, k, up, id, order)
    ensures IsChain(DiscoverRows(c, rows), k, up, id, order)
    ensures forall x :: x in c.nodes ==>
              x in DiscoverRows(c, rows).nodes && DiscoverRows(c, rows).nodes[x] == c.nodes[x]
  {
    DiscoverExact(c, rows);
    ChainSame(c, DiscoverRows(c, rows), k, up, id, order);
  }

  // ---- What a new edge changes ---------------------------------------------

  // A new edge adds its far end to the hops of its near end, for its own kind, and
  // changes no other hop.
  lemma EdgeAddsOneHop(c: Contents, e: Edge, k: string, up: bool, id: string)
    requires PutEdge(c, e).1.Done?
    ensures Next(PutEdge(c, e).0, k, up, id)
         == Next(c, k, up, id) + if k == e.kind && id == FarEnd(e, !up) then {FarEnd(e, up)} else {}
  {
    var c' := PutEdge(c, e).0;
    AppendAt(c.outs, e.from, e, id);
    AppendAt(c.ins, e.to, e, id);
    hide Append, At;
    assert EdgesOf(c', id, up) == EdgesOf(c, id, up) + if id == FarEnd(e, !up) then [e] else [];
  }

  // So nothing reachable is ever lost by adding an edge, nor does it move farther.
  lemma {:induction false} EdgeKeepsReach(c: Contents, e: Edge, k: string, up: bool, id: string, d: nat)
    requires PutEdge(c, e).1.Done?
    ensures Within(c, k, up, id, d) <= Within(PutEdge(c, e).0, k, up, id, d)
  {
    if d > 0 {
      EdgeKeepsReach(c, e, k, up, id, d - 1);
      forall a ensures Next(c, k, up, a) <= Next(PutEdge(c, e).0, k, up, a) {
        EdgeAddsOneHop(c, e, k, up, a);
      }
      hide PutEdge, Next;
    }
  }
}
