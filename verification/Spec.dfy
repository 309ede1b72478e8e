// The serializable form of a graph, and reading it back
// (go-telemetry/internal/topology/graph.go:69-140).
module SpecForm {
  import opened Topology
  import opened Ordering
  import opened Sequences
  import opened Walks

  predicate NodeBefore(a: Node, b: Node) { Less(a.id, b.id) }

  type Triple = (string, string, string)

  function Ends(e: Edge): Triple { (e.from, e.to, e.kind) }

  predicate TripleLess(a: Triple, b: Triple) {
    if a.0 != b.0 then Less(a.0, b.0) else if a.1 != b.1 then Less(a.1, b.1) else Less(a.2, b.2)
  }

  predicate EdgeBefore(a: Edge, b: Edge) { TripleLess(Ends(a), Ends(b)) }

  lemma NodeOrder()
    ensures StrictWeak(NodeBefore)
  {
    forall a, b ensures !(NodeBefore(a, b) && NodeBefore(b, a)) { LessTotal(a.id, b.id); }
    forall a, b, c | NodeBefore(a, c) ensures NodeBefore(a, b) || NodeBefore(b, c) { LessSteps(a.id, b.id, c.id); }
  }

  lemma TripleTotal(a: Triple, b: Triple)
    ensures !(TripleLess(a, b) && TripleLess(b, a)) && (!TripleLess(a, b) && !TripleLess(b, a) ==> a == b)
  {
    LessTotal(a.0, b.0);
    LessTotal(a.1, b.1);
    LessTotal(a.2, b.2);
  }

  lemma TripleSteps(a: Triple, b: Triple, c: Triple)
    requires TripleLess(a, c)
    ensures TripleLess(a, b) || TripleLess(b, c)
  {
    if a.0 != c.0 {
      LessSteps(a.0, b.0, c.0);
    } else if a.0 != b.0 {
      LessTotal(a.0, b.0);
    } else if a.1 != c.1 {
      LessSteps(a.1, b.1, c.1);
    } else if a.1 != b.1 {
      LessTotal(a.1, b.1);
    } else {
      LessSteps(a.2, b.2, c.2);
    }
  }

  lemma EdgeOrder()
    ensures StrictWeak(EdgeBefore)
  {
    forall a, b ensures !(EdgeBefore(a, b) && EdgeBefore(b, a)) { TripleTotal(Ends(a), Ends(b)); }
    forall a, b, c | EdgeBefore(a, c) ensures EdgeBefore(a, b) || EdgeBefore(b, c) {
      TripleSteps(Ends(a), Ends(b), Ends(c));
    }
  }

  // Each node once, and each edge as often as the graph holds it.
  ghost predicate Lists(spec: Spec, c: Contents) {
    && Distinct(Ids(spec.nodes))
    && (forall n :: n in spec.nodes <==> n.id in c.nodes && c.nodes[n.id] == n)
    && (forall e :: multiset(spec.edges)[e] == OutCount(c, e))
  }

  // What `Spec` answers: everything, in order. Edges that agree in both ends and
  // kind may come in any order among themselves.
  ghost predicate IsSpecOf(spec: Spec, c: Contents) {
    Lists(spec, c) && Sorted(NodeBefore, spec.nodes) && Sorted(EdgeBefore, spec.edges)
  }

  // How a spec is ordered: nodes by id; edges by their source, then their target, then
  // their kind.
  lemma SpecOrder(s: Spec, c: Contents, i: nat, j: nat)
    requires IsSpecOf(s, c)
    ensures i < j < |s.nodes| ==> Less(s.nodes[i].id, s.nodes[j].id)
    ensures i < j < |s.edges| ==>
              var (a, b) := (s.edges[i], s.edges[j]);
              && (a.from != b.from ==> Less(a.from, b.from))
              && (a.from == b.from && a.to != b.to ==> Less(a.to, b.to))
              && (a.from == b.from && a.to == b.to && a.kind != b.kind ==> Less(a.kind, b.kind))
  {
    if i < j < |s.nodes| {
      assert !NodeBefore(s.nodes[j], s.nodes[i]) && Ids(s.nodes)[i] != Ids(s.nodes)[j];
      LessTotal(s.nodes[i].id, s.nodes[j].id);
    }
    if i < j < |s.edges| {
      var (a, b) := (s.edges[i], s.edges[j]);
      assert !EdgeBefore(b, a);
      LessTotal(a.from, b.from);
      LessTotal(a.to, b.to);
      LessTotal(a.kind, b.kind);
    }
  }

  // Two specs of one graph have the same nodes, and the same edges up to labels.
  lemma SpecIsStable(s: Spec, t: Spec, c: Contents)
    requires Coherent(c) && IsSpecOf(s, c) && IsSpecOf(t, c)
    ensures s.nodes == t.nodes
    ensures Map(Ends, s.edges) == Map(Ends, t.edges)
  {
    SameNodes(s, t, c);
    assert multiset(s.edges) == multiset(t.edges);
    MapPermutes(Ends, s.edges, t.edges);
    EndsSorted(s.edges);
    EndsSorted(t.edges);
    forall a, b | !TripleLess(a, b) && !TripleLess(b, a) ensures a == b { TripleTotal(a, b); }
    SortedUnique(TripleLess, Map(Ends, s.edges), Map(Ends, t.edges));
  }

  lemma EndsSorted(edges: seq<Edge>)
    requires Sorted(EdgeBefore, edges)
    ensures Sorted(TripleLess, Map(Ends, edges))
  {
    var keys := Map(Ends, edges);
    forall i, j | 0 <= i < j < |keys| ensures !TripleLess(keys[j], keys[i]) {
      assert !EdgeBefore(edges[j], edges[i]);
    }
  }

  lemma {:induction false} DistinctCount(nodes: seq<Node>, n: Node)
    requires Distinct(Ids(nodes))
    ensures multiset(nodes)[n] == if n in nodes then 1 else 0
  {
    if nodes != [] {
      var m := |nodes| - 1;
      var front := nodes[..m];
      assert nodes == front + [nodes[m]];
      assert forall i :: 0 <= i < m ==> Ids(front)[i] == Ids(nodes)[i];
      DistinctCount(front, n);
      forall i | 0 <= i < m ensures front[i] != nodes[m] {
        assert Ids(nodes)[i] != Ids(nodes)[m];
      }
    }
  }

  lemma SameNodeMultiset(s: Spec, t: Spec, c: Contents)
    requires Lists(s, c) && Lists(t, c)
    ensures multiset(s.nodes) == multiset(t.nodes)
  {
    forall n ensures multiset(s.nodes)[n] == multiset(t.nodes)[n] {
      DistinctCount(s.nodes, n);
      DistinctCount(t.nodes, n);
    }
  }

  function IdOf(n: Node): string { n.id }

  lemma IdsSorted(nodes: seq<Node>)
    requires Sorted(NodeBefore, nodes)
    ensures Sorted(Less, Map(IdOf, nodes))
  {
    var ids := Map(IdOf, nodes);
    forall i, j | 0 <= i < j < |ids| ensures !Less(ids[j], ids[i]) {
      assert !NodeBefore(nodes[j], nodes[i]);
    }
  }

  lemma SameNodes(s: Spec, t: Spec, c: Contents)
    requires IsSpecOf(s, c) && IsSpecOf(t, c)
    ensures s.nodes == t.nodes
  {
    SameNodeMultiset(s, t, c);
    MapPermutes(IdOf, s.nodes, t.nodes);
    IdsSorted(s.nodes);
    IdsSorted(t.nodes);
    forall x, y | !Less(x, y) && !Less(y, x) ensures x == y { LessTotal(x, y); }
    var (a, b) := (Map(IdOf, s.nodes), Map(IdOf, t.nodes));
    SortedUnique(Less, a, b);
    hide Sorted, NodeBefore, Less;
    forall i | 0 <= i < |a| ensures s.nodes[i] == t.nodes[i] {
      assert a[i] == b[i] && s.nodes[i] in s.nodes && t.nodes[i] in t.nodes;
    }
  }

  // ---- When the spec is the only one ---------------------------------------

  lemma TwiceCounted<T>(s: seq<T>, i: nat, j: nat)
    requires i < j < |s| && s[i] == s[j]
    ensures multiset(s)[s[i]] >= 2
  {
    assert s == s[..i] + [s[i]] + s[i + 1..j] + [s[j]] + s[j + 1..];
  }

  lemma PermutedPairDiffers(s: seq<Node>, r: seq<Node>, i: nat, j: nat)
    requires Distinct(Ids(s)) && multiset(r) == multiset(s) && i < j < |r|
    ensures r[i].id != r[j].id
  {
    DistinctCount(s, r[i]);
    if r[i] == r[j] { TwiceCounted(r, i, j); }
    var a := SomeIndex(r, s, r[i]);
    var b := SomeIndex(r, s, r[j]);
    assert Ids(s)[a] == r[i].id && Ids(s)[b] == r[j].id;
  }

  lemma SortKeepsListing(s: seq<Node>)
    requires Distinct(Ids(s))
    ensures var r := Sort(NodeBefore, s);
            Sorted(NodeBefore, r) && Distinct(Ids(r)) && forall n :: n in r <==> n in s
  {
    NodeOrder();
    SortSorts(NodeBefore, s);
    hide Sort, Sorted, StrictWeak;
    var r := Sort(NodeBefore, s);
    forall n ensures n in r <==> n in s {
      assert n in multiset(r) <==> n in multiset(s);
    }
    forall i, j | 0 <= i < j < |r| ensures r[i].id != r[j].id {
      PermutedPairDiffers(s, r, i, j);
    }
  }

  lemma {:induction false} NodesListed(c: Contents, ids: set<string>) returns (out: seq<Node>)
    requires NodesFiled(c) && ids <= c.nodes.Keys
    ensures Distinct(Ids(out)) && forall n :: n in out <==> n.id in ids && c.nodes[n.id] == n
    decreases ids
  {
    if ids == {} {
      out := [];
    } else {
      var id :| id in ids;
      var rest := NodesListed(c, ids - {id});
      assert forall n :: n in rest ==> n.id != id;
      out := rest + [c.nodes[id]];
    }
  }

  lemma {:induction false} EdgesListed(c: Contents, ids: set<string>) returns (out: seq<Edge>)
    requires OutsFiled(c) && ids <= c.outs.Keys
    ensures forall e :: multiset(out)[e] == if e.from in ids then OutCount(c, e) else 0
    decreases ids
  {
    if ids == {} {
      out := [];
    } else {
      var id :| id in ids;
      var rest := EdgesListed(c, ids - {id});
      forall e: Edge ensures e.from != id ==> multiset(c.outs[id])[e] == 0 {
        assert e in c.outs[id] ==> e in At(c.outs, id);
      }
      out := rest + c.outs[id];
    }
  }

  lemma SpecExists(c: Contents) returns (s: Spec)
    requires Coherent(c)
    ensures IsSpecOf(s, c)
  {
    var nodes := NodesListed(c, c.nodes.Keys);
    var edges := EdgesListed(c, c.outs.Keys);
    SortKeepsListing(nodes);
    EdgeOrder();
    SortSorts(EdgeBefore, edges);
    s := Spec(Sort(NodeBefore, nodes), Sort(EdgeBefore, edges));
  }

  predicate Has(c: Contents, e: Edge) { OutCount(c, e) > 0 }

  // No two edges agree in both ends and kind and differ in labels.
  ghost predicate NoTwins(c: Contents) { forall e, f :: Has(c, e) && Has(c, f) && Ends(e) == Ends(f) ==> e == f }

  lemma NoTwinsOneSpec(s: Spec, t: Spec, c: Contents)
    requires Coherent(c) && IsSpecOf(s, c) && IsSpecOf(t, c) && NoTwins(c)
    ensures s == t
  {
    SpecIsStable(s, t, c);
    hide Sorted, OutCount;
    var (a, b) := (Map(Ends, s.edges), Map(Ends, t.edges));
    assert |s.edges| == |a| == |b| == |t.edges|;
    forall i | 0 <= i < |s.edges| ensures s.edges[i] == t.edges[i] {
      assert a[i] == b[i];
      assert s.edges[i] in multiset(s.edges) && t.edges[i] in multiset(t.edges);
      assert Has(c, s.edges[i]) && Has(c, t.edges[i]);
    }
  }

  // Two edges that the order does not tell apart may change places.
  lemma TwinsSwap(s: seq<Edge>, e: Edge, f: Edge) returns (t: seq<Edge>)
    requires Sorted(EdgeBefore, s) && e in s && f in s && Ends(e) == Ends(f) && e != f
    ensures Sorted(EdgeBefore, t) && multiset(t) == multiset(s) && t != s
  {
    hide Sorted, Ends;
    var i :| 0 <= i < |s| && s[i] == e;
    var j :| 0 <= j < |s| && s[j] == f;
    t := s[i := f][j := e];
    SwapPermutes(s, i, j);
    SameEndsSorted(s, t);
    assert t[i] != s[i];
  }

  lemma TwinsTwoSpecs(s: Spec, c: Contents, e: Edge, f: Edge) returns (t: Spec)
    requires IsSpecOf(s, c) && Has(c, e) && Has(c, f) && Ends(e) == Ends(f) && e != f
    ensures IsSpecOf(t, c) && t != s
  {
    hide Sorted, Ends, OutCount, Distinct;
    assert multiset(s.edges)[e] > 0 && multiset(s.edges)[f] > 0;
    var edges := TwinsSwap(s.edges, e, f);
    t := Spec(s.nodes, edges);
  }

  lemma SameEndsSorted(s: seq<Edge>, t: seq<Edge>)
    requires Sorted(EdgeBefore, s) && |t| == |s| && forall x :: 0 <= x < |s| ==> Ends(t[x]) == Ends(s[x])
    ensures Sorted(EdgeBefore, t)
  {
    hide TripleLess, Ends;
    forall x, y | 0 <= x < y < |t| ensures !EdgeBefore(t[y], t[x]) {
      assert !EdgeBefore(s[y], s[x]);
    }
  }

  lemma SwapPermutes<T>(s: seq<T>, i: nat, j: nat)
    requires i < |s| && j < |s|
    ensures multiset(s[i := s[j]][j := s[i]]) == multiset(s)
  {
  }

  // A graph has one spec, and so a stable diff, iff it holds no such twins.
  lemma SpecIsUniqueIff(c: Contents)
    requires Coherent(c)
    ensures (forall s, t :: IsSpecOf(s, c) && IsSpecOf(t, c) ==> s == t) <==> NoTwins(c)
  {
    hide IsSpecOf, Has, Ends, Coherent;
    if NoTwins(c) {
      forall s, t | IsSpecOf(s, c) && IsSpecOf(t, c) ensures s == t {
        NoTwinsOneSpec(s, t, c);
      }
    } else {
      var e, f :| Has(c, e) && Has(c, f) && Ends(e) == Ends(f) && e != f;
      var s := SpecExists(c);
      var t := TwinsTwoSpecs(s, c, e, f);
    }
  }

  // ---- The round trip ------------------------------------------------------

  lemma {:induction false} NodeMapOfDistinct(nodes: seq<Node>, n: Node)
    requires Distinct(Ids(nodes)) && n in nodes
    ensures n.id in NodeMap(nodes) && NodeMap(nodes)[n.id] == n
  {
    NodeMapFiled(nodes);
    var m := NodeMap(nodes)[n.id];
    var i :| 0 <= i < |nodes| && nodes[i] == n;
    var j :| 0 <= j < |nodes| && nodes[j] == m;
    assert Ids(nodes)[i] == Ids(nodes)[j];
  }

  lemma LoadRestoresNodes(c: Contents, spec: Spec)
    requires NodesFiled(c) && Lists(spec, c)
    ensures NodeMap(spec.nodes) == c.nodes
  {
    var m := NodeMap(spec.nodes);
    NodeMapFiled(spec.nodes);
    forall id ensures id in c.nodes <==> id in m {
      if id in c.nodes { assert c.nodes[id] in spec.nodes; }
    }
    forall id | id in c.nodes ensures m[id] == c.nodes[id] {
      NodeMapOfDistinct(spec.nodes, c.nodes[id]);
    }
  }

  lemma ListedEdgeKnown(c: Contents, spec: Spec, e: Edge)
    requires OutsFiled(c) && Lists(spec, c) && e in spec.edges
    ensures Known(c.nodes, e)
  {
    assert e in multiset(spec.edges);
    assert multiset(spec.edges)[e] == OutCount(c, e);
    assert e in At(c.outs, e.from);
  }

  // Loading what a graph lists restores its node map, every edge with its
  // multiplicity in both indexes, and every set of reachable nodes.
  lemma LoadRestores(c: Contents, spec: Spec)
    requires Coherent(c) && Lists(spec, c)
    ensures var (c', r) := Loaded(spec);
            r.Done? && Coherent(c') && c'.nodes == c.nodes && SameEdges(c, c')
  {
    LoadRestoresNodes(c, spec);
    LoadedCoherent(spec);
    var n := LoadResult(spec);
    if n < |spec.edges| {
      ListedEdgeKnown(c, spec, spec.edges[n]);
    }
    assert spec.edges[..n] == spec.edges;
    hide Loaded, OutCount, InCount, Link, NodeMap;
    forall e ensures OutCount(c, e) == InCount(c, e) == multiset(spec.edges)[e] {}
  }

  lemma LoadRestoresReach(c: Contents, spec: Spec, k: string, up: bool, id: string, d: nat)
    requires Coherent(c) && Lists(spec, c)
    ensures Within(Loaded(spec).0, k, up, id, d) == Within(c, k, up, id, d)
  {
    LoadRestores(c, spec);
    WithinSame(c, Loaded(spec).0, k, up, id, d);
  }
}
