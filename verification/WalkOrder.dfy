// The order of a breadth-first walk, and how it depends on the order of the edges
// (go-telemetry/internal/topology/graph.go:161-199).
module WalkOrder {
  import opened Topology
  import opened Walks

  // The far ends not in `seen`, in the order the edges first name them.
  function FirstSeen(edges: seq<Edge>, k: string, up: bool, seen: set<string>): seq<string> {
    if edges == [] then []
    else
      var before := FirstSeen(edges[..|edges| - 1], k, up, seen);
      var e := edges[|edges| - 1];
      if e.kind == k && FarEnd(e, up) !in seen && FarEnd(e, up) !in before then before + [FarEnd(e, up)] else before
  }

  function Hops(edges: seq<Edge>, k: string, up: bool): set<string> {
    set e | e in edges && e.kind == k :: FarEnd(e, up)
  }

  lemma FirstSeenSnoc(edges: seq<Edge>, i: nat, k: string, up: bool, seen: set<string>)
    requires i < |edges|
    ensures var (before, to) := (FirstSeen(edges[..i], k, up, seen), FarEnd(edges[i], up));
            FirstSeen(edges[..i + 1], k, up, seen)
            == if edges[i].kind == k && to !in seen && to !in before then before + [to] else before
  {
    assert edges[..i + 1][..i] == edges[..i];
  }

  // Each new far end once.
  lemma {:induction false} FirstSeenIs(edges: seq<Edge>, k: string, up: bool, seen: set<string>)
    ensures Distinct(FirstSeen(edges, k, up, seen))
    ensures forall b :: b in FirstSeen(edges, k, up, seen) <==> b in Hops(edges, k, up) && b !in seen
  {
    if edges != [] {
      var n := |edges| - 1;
      FirstSeenIs(edges[..n], k, up, seen);
      FirstSeenSnoc(edges, n, k, up, seen);
      HopsSnoc(edges, n, k, up);
      assert edges[..n + 1] == edges;
      hide Hops, FirstSeen;
    }
  }

  lemma HopsSnoc(edges: seq<Edge>, i: nat, k: string, up: bool)
    requires i < |edges|
    ensures Hops(edges[..i + 1], k, up)
         == Hops(edges[..i], k, up) + if edges[i].kind == k then {FarEnd(edges[i], up)} else {}
  {
    assert edges[..i + 1] == edges[..i] + [edges[i]];
  }

  // ---- The walk as a function ----------------------------------------------

  function Members(s: seq<string>): set<string> { set x | x in s }

  // Every id queued so far when `h` of them are expanded.
  function Queue(c: Contents, k: string, up: bool, id: string, h: nat): (q: seq<string>)
    ensures q != [] && q[0] == id
  {
    if h == 0 then [id]
    else
      var q := Queue(c, k, up, id, h - 1);
      if h - 1 < |q| then q + FirstSeen(EdgesOf(c, q[h - 1], up), k, up, Members(q)) else q
  }

  // The answer of the walk: what the queue has held once all of it is expanded.
  ghost predicate Answers(c: Contents, k: string, up: bool, id: string, order: seq<Node>) {
    IsChain(c, k, up, id, order) && [id] + Ids(order) == Queue(c, k, up, id, |order| + 1)
  }

  lemma {:induction false} QueueExtends(c: Contents, k: string, up: bool, id: string, h: nat, n: nat)
    requires h <= n
    ensures Queue(c, k, up, id, h) <= Queue(c, k, up, id, n)
    ensures |Queue(c, k, up, id, h)| <= h ==> Queue(c, k, up, id, n) == Queue(c, k, up, id, h)
    decreases n - h
  {
    hide FirstSeen, EdgesOf, Members;
    if h < n {
      QueueExtends(c, k, up, id, h, n - 1);
    }
  }

  // If the ids expanded so far lie within d hops, all queued ones lie within d + 1.
  lemma {:induction false} QueueInBall(c: Contents, k: string, up: bool, id: string, h: nat, d: nat)
    requires forall y :: 0 <= y < h && y < |Queue(c, k, up, id, h)| ==>
               Queue(c, k, up, id, h)[y] in Within(c, k, up, id, d)
    ensures forall b :: b in Queue(c, k, up, id, h) ==> b in Within(c, k, up, id, d + 1)
  {
    WithinGrows(c, k, up, id, 0, d + 1);
    if h > 0 {
      var (q, q') := (Queue(c, k, up, id, h - 1), Queue(c, k, up, id, h));
      QueueExtends(c, k, up, id, h - 1, h);
      QueueInBall(c, k, up, id, h - 1, d);
      if h - 1 < |q| {
        FirstSeenIs(EdgesOf(c, q[h - 1], up), k, up, Members(q));
        assert q[h - 1] == q'[h - 1];
        assert Hops(EdgesOf(c, q[h - 1], up), k, up) == Next(c, k, up, q[h - 1]);
        hide FirstSeen, EdgesOf, Members, Hops, Next;
      }
    }
  }

  lemma {:induction false} QueueSame(c: Contents, c': Contents, k: string, up: bool, id: string, h: nat)
    requires c'.outs == c.outs && c'.ins == c.ins
    ensures Queue(c', k, up, id, h) == Queue(c, k, up, id, h)
  {
    if h > 0 {
      QueueSame(c, c', k, up, id, h - 1);
      var q := Queue(c, k, up, id, h - 1);
      if h - 1 < |q| { assert EdgesOf(c', q[h - 1], up) == EdgesOf(c, q[h - 1], up); }
    }
  }

  // Discovery leaves every existing node and every answer to a chain query as it was.
  lemma DiscoveryKeepsAnswers(c: Contents, rows: seq<seq<Cell>>, k: string, up: bool, id: string, order: seq<Node>)
    requires Coherent(c) && Answers(c, k, up, id, order)
    ensures Answers(DiscoverRows(c, rows), k, up, id, order)
    ensures forall x :: x in c.nodes ==>
              x in DiscoverRows(c, rows).nodes && DiscoverRows(c, rows).nodes[x] == c.nodes[x]
  {
    hide IsChain;
    DiscoverExact(c, rows);
    DiscoveryKeepsChains(c, rows, k, up, id, order);
    QueueSame(c, DiscoverRows(c, rows), k, up, id, |order| + 1);
  }

  // ---- First of its level --------------------------------------------------

  // The first edge of `a` that the walk looks at leads to `b`.
  predicate Leads(c: Contents, k: string, up: bool, a: string, b: string) {
    EdgesOf(c, a, up) != [] && EdgesOf(c, a, up)[0].kind == k && FarEnd(EdgesOf(c, a, up)[0], up) == b
  }

  lemma {:induction false} FirstSeenHead(edges: seq<Edge>, k: string, up: bool, seen: set<string>)
    requires edges != [] && edges[0].kind == k && FarEnd(edges[0], up) !in seen
    ensures FirstSeen(edges, k, up, seen) != [] && FirstSeen(edges, k, up, seen)[0] == FarEnd(edges[0], up)
  {
    if |edges| > 1 {
      FirstSeenHead(edges[..|edges| - 1], k, up, seen);
    } else {
      assert FirstSeen(edges[..0], k, up, seen) == [];
    }
  }

  // No entry takes fewer hops than its place says.
  ghost predicate Shortest(c: Contents, k: string, up: bool, p: seq<string>) {
    p != [] && forall j :: 0 < j < |p| ==> p[j] !in Within(c, k, up, p[0], j - 1)
  }

  // If every id of a shortest path leads to the next, each is the first of its
  // level to be queued.
  lemma {:induction false} PathHeads(c: Contents, k: string, up: bool, p: seq<string>, n: nat, i: nat)
    returns (x: nat)
    requires Shortest(c, k, up, p) && i < |p| && |Queue(c, k, up, p[0], n)| == n
    requires forall j :: 0 < j < |p| ==> Leads(c, k, up, p[j - 1], p[j])
    ensures x < n && Queue(c, k, up, p[0], n)[x] == p[i]
    ensures forall y :: 0 <= y < x ==> i > 0 && Queue(c, k, up, p[0], n)[y] in Within(c, k, up, p[0], i - 1)
  {
    var (id, all) := (p[0], Queue(c, k, up, p[0], n));
    if i == 0 {
      x := 0;
    } else {
      var h := PathHeads(c, k, up, p, n, i - 1);
      hide Queue, Within, Leads;
      QueueExtends(c, k, up, id, h, n);
      if i > 1 {
        var q := Queue(c, k, up, id, h);
        assert forall y :: 0 <= y < h ==> q[y] == all[y];
        QueueInBall(c, k, up, id, h, i - 2);
      } else {
        QueueStarts(c, k, up, id);
      }
      x := HeadStep(c, k, up, p, n, i, h);
    }
  }

  lemma QueueStarts(c: Contents, k: string, up: bool, id: string)
    ensures Queue(c, k, up, id, 0) == [id] && Within(c, k, up, id, 0) == {id}
  {
  }

  lemma HeadStep(c: Contents, k: string, up: bool, p: seq<string>, n: nat, i: nat, h: nat) returns (x: nat)
    requires Shortest(c, k, up, p) && 0 < i < |p| && Leads(c, k, up, p[i - 1], p[i])
    requires var all := Queue(c, k, up, p[0], n); h < |all| == n && all[h] == p[i - 1]
    requires forall b :: b in Queue(c, k, up, p[0], h) ==> b in Within(c, k, up, p[0], i - 1)
    ensures x < n && Queue(c, k, up, p[0], n)[x] == p[i]
    ensures forall y :: 0 <= y < x ==> Queue(c, k, up, p[0], n)[y] in Within(c, k, up, p[0], i - 1)
  {
    hide Within;
    var (id, q) := (p[0], Queue(c, k, up, p[0], h));
    QueueExtends(c, k, up, id, h, n);
    assert h < |q| && q[h] == p[i - 1] && p[i] !in Members(q);
    FirstSeenHead(EdgesOf(c, q[h], up), k, up, Members(q));
    assert Queue(c, k, up, id, h + 1)[|q|] == p[i];
    hide Queue;
    QueueExtends(c, k, up, id, h + 1, n);
    x := |q|;
    assert forall y :: 0 <= y < x ==> Queue(c, k, up, id, n)[y] == q[y] && q[y] in q;
  }

  // ---- Another order of the same edges -------------------------------------

  function WithEdges(c: Contents, id: string, up: bool, s: seq<Edge>): Contents {
    if up then c.(ins := c.ins[id := s]) else c.(outs := c.outs[id := s])
  }

  // The same nodes and the same edges, possibly filed in another order.
  ghost predicate Reordered(c: Contents, c': Contents) {
    Coherent(c') && c'.nodes == c.nodes && SameEdges(c, c')
  }

  lemma WithEdgesReorders(c: Contents, id: string, up: bool, s: seq<Edge>)
    requires Coherent(c) && multiset(s) == multiset(EdgesOf(c, id, up))
    ensures Reordered(c, WithEdges(c, id, up, s))
    ensures forall x :: EdgesOf(WithEdges(c, id, up, s), x, up) == if x == id then s else EdgesOf(c, x, up)
  {
    var c' := WithEdges(c, id, up, s);
    forall x, v | v != up ensures EdgesOf(c', x, v) == EdgesOf(c, x, v) {}
    forall x, v, e ensures multiset(EdgesOf(c', x, v))[e] == multiset(EdgesOf(c, x, v))[e] {}
    SameBagsReorder(c, c');
  }

  lemma SameBagsReorder(c: Contents, c': Contents)
    requires Coherent(c) && c'.nodes == c.nodes
    requires forall x, v, e :: multiset(EdgesOf(c', x, v))[e] == multiset(EdgesOf(c, x, v))[e]
    ensures Reordered(c, c')
  {
    forall x, e ensures e in At(c'.outs, x) <==> e in At(c.outs, x) {
      assert multiset(EdgesOf(c', x, false))[e] == multiset(EdgesOf(c, x, false))[e];
    }
    forall x, e ensures e in At(c'.ins, x) <==> e in At(c.ins, x) {
      assert multiset(EdgesOf(c', x, true))[e] == multiset(EdgesOf(c, x, true))[e];
    }
    forall e ensures OutCount(c', e) == OutCount(c, e) == InCount(c', e) == InCount(c, e) {
      assert multiset(EdgesOf(c', e.from, false))[e] == multiset(EdgesOf(c, e.from, false))[e];
      assert multiset(EdgesOf(c', e.to, true))[e] == multiset(EdgesOf(c, e.to, true))[e];
      assert OutCount(c, e) == InCount(c, e);
    }
  }

  // One edge of a hop brought to the front.
  lemma LeadOne(c: Contents, k: string, up: bool, a: string, b: string) returns (c': Contents)
    requires Coherent(c) && b in Next(c, k, up, a)
    ensures Reordered(c, c') && Leads(c', k, up, a, b)
    ensures forall x :: x != a ==> EdgesOf(c', x, up) == EdgesOf(c, x, up)
  {
    var es := EdgesOf(c, a, up);
    var e :| e in es && e.kind == k && FarEnd(e, up) == b;
    var i :| 0 <= i < |es| && es[i] == e;
    var s := [e] + es[..i] + es[i + 1..];
    assert es == es[..i] + [e] + es[i + 1..];
    c' := WithEdges(c, a, up, s);
    WithEdgesReorders(c, a, up, s);
  }

  lemma ReorderedTrans(c1: Contents, c2: Contents, c3: Contents)
    requires Reordered(c1, c2) && Reordered(c2, c3)
    ensures Reordered(c1, c3)
  {
    hide Coherent, OutCount, InCount;
    forall e ensures OutCount(c1, e) == OutCount(c3, e) && InCount(c1, e) == InCount(c3, e) {
      assert OutCount(c1, e) == OutCount(c2, e) && InCount(c1, e) == InCount(c2, e);
    }
  }

  // In some order of the edges every id of the path leads to the next.
  lemma {:induction false} LeadPath(c: Contents, k: string, up: bool, p: seq<string>) returns (c': Contents)
    requires Coherent(c) && IsPath(c, k, up, p) && Distinct(p)
    ensures Reordered(c, c') && forall j :: 0 < j < |p| ==> Leads(c', k, up, p[j - 1], p[j])
  {
    if |p| == 1 {
      c' := c;
    } else {
      var n := |p| - 1;
      var front := p[..n];
      var c1 := LeadPath(c, k, up, front);
      NextSame(c, c1, k, up, p[n - 1]);
      hide Coherent, Next, SameEdges;
      c' := LeadOne(c1, k, up, p[n - 1], p[n]);
      ReorderedTrans(c, c1, c');
      forall j | 0 < j < |p| ensures Leads(c', k, up, p[j - 1], p[j]) {
        if j < n { assert Leads(c1, k, up, front[j - 1], front[j]) && p[j - 1] != p[n - 1]; }
      }
    }
  }

  lemma {:induction false} ShortestPath(c: Contents, k: string, up: bool, id: string, b: string, d: nat)
    returns (p: seq<string>)
    requires b in Within(c, k, up, id, d) && (d == 0 || b !in Within(c, k, up, id, d - 1))
    ensures |p| == d + 1 && p[0] == id && p[d] == b && Direct(c, k, up, p)
    decreases d
  {
    hide Beyond, Next, IsPath, Shortest;
    if d == 0 {
      p := [id];
      StartIsDirect(c, k, up, id);
    } else {
      hide Within;
      var m := LastHop(c, k, up, id, b, d);
      var q := ShortestPath(c, k, up, id, m, d - 1);
      PathSnoc(c, k, up, q, b);
      ShortestSnoc(c, k, up, q, b, d - 1);
      p := q + [b];
      assert forall j :: 0 <= j < d ==> p[j] == q[j];
    }
  }

  lemma LastHop(c: Contents, k: string, up: bool, id: string, b: string, d: nat) returns (m: string)
    requires d > 0 && b in Within(c, k, up, id, d) && b !in Within(c, k, up, id, d - 1)
    ensures m in Within(c, k, up, id, d - 1) && b in Next(c, k, up, m)
    ensures d == 1 || m !in Within(c, k, up, id, d - 2)
  {
    hide Next;
    m :| m in Within(c, k, up, id, d - 1) && b in Next(c, k, up, m);
  }

  // The path reaches its j-th id in j hops and no fewer.
  ghost predicate Direct(c: Contents, k: string, up: bool, p: seq<string>) {
    && IsPath(c, k, up, p) && Shortest(c, k, up, p)
    && forall j :: 0 <= j < |p| ==> p[j] in Within(c, k, up, p[0], j)
  }

  lemma StartIsDirect(c: Contents, k: string, up: bool, id: string)
    ensures Direct(c, k, up, [id])
  {
    hide Next, Beyond;
    assert Within(c, k, up, id, 0) == {id};
  }

  lemma PathSnoc(c: Contents, k: string, up: bool, q: seq<string>, b: string)
    requires IsPath(c, k, up, q) && b in Next(c, k, up, q[|q| - 1])
    ensures IsPath(c, k, up, q + [b])
  {
    hide Next;
  }

  lemma ShortestSnoc(c: Contents, k: string, up: bool, q: seq<string>, b: string, d: nat)
    requires Shortest(c, k, up, q) && |q| == d + 1 && b !in Within(c, k, up, q[0], d)
    ensures Shortest(c, k, up, q + [b])
  {
    hide Within;
    var p := q + [b];
    assert forall j :: 0 <= j < |q| ==> p[j] == q[j];
  }

  lemma ShortestIsDistinct(c: Contents, k: string, up: bool, p: seq<string>)
    requires Direct(c, k, up, p)
    ensures Distinct(p)
  {
    hide Within, IsPath;
    forall i, j | 0 <= i < j < |p| ensures p[i] != p[j] {
      assert p[i] in Within(c, k, up, p[0], i) && p[j] !in Within(c, k, up, p[0], j - 1);
      WithinGrows(c, k, up, p[0], i, j - 1);
    }
  }

  lemma ReorderedWithin(c: Contents, c': Contents, k: string, up: bool, id: string)
    requires Coherent(c) && Reordered(c, c')
    ensures forall d :: Within(c', k, up, id, d) == Within(c, k, up, id, d)
    ensures forall a :: Next(c', k, up, a) == Next(c, k, up, a)
  {
    forall d ensures Within(c', k, up, id, d) == Within(c, k, up, id, d) { WithinSame(c, c', k, up, id, d); }
    forall a ensures Next(c', k, up, a) == Next(c, k, up, a) { NextSame(c, c', k, up, a); }
  }

  // The fewest hops to `b`.
  lemma Distance(c: Contents, k: string, up: bool, id: string, b: string) returns (d: nat)
    requires Reaches(c, k, up, id, b) && b != id
    ensures d > 0 && b in Within(c, k, up, id, d) && b !in Within(c, k, up, id, d - 1)
  {
    var bound: nat :| b in Within(c, k, up, id, bound);
    d := DistanceUpTo(c, k, up, id, b, bound);
  }

  lemma {:induction false} DistanceUpTo(c: Contents, k: string, up: bool, id: string, b: string, bound: nat)
    returns (d: nat)
    requires b in Within(c, k, up, id, bound)
    ensures b in Within(c, k, up, id, d) && (d == 0 || b !in Within(c, k, up, id, d - 1))
  {
    hide Beyond;
    if bound == 0 || b !in Within(c, k, up, id, bound - 1) {
      d := bound;
    } else {
      d := DistanceUpTo(c, k, up, id, b, bound - 1);
    }
  }

  // Some order of the edges brings `b` to the front of its level.
  lemma SomeOrderLeads(c: Contents, k: string, up: bool, id: string, b: string, d: nat)
    returns (c': Contents, p: seq<string>)
    requires Coherent(c) && b in Within(c, k, up, id, d) && (d == 0 || b !in Within(c, k, up, id, d - 1))
    ensures Reordered(c, c') && |p| == d + 1 && p[0] == id && p[d] == b && Shortest(c', k, up, p)
    ensures forall j :: 0 < j < |p| ==> Leads(c', k, up, p[j - 1], p[j])
  {
    p := ShortestPath(c, k, up, id, b, d);
    ShortestIsDistinct(c, k, up, p);
    c' := LeadPath(c, k, up, p);
    ReorderedWithin(c, c', k, up, id);
    hide Within, Coherent, SameEdges, Leads;
  }

  // A hop from `a` to `b` that leads no farther: where `b` is first of its level, the
  // walk answers it before `a`.
  lemma LeadingFails(c: Contents, k: string, up: bool, id: string, a: string, b: string, p: seq<string>,
                     order: seq<Node>)
    requires a != id && b != id && Reaches(c, k, up, id, a) && b in Next(c, k, up, a)
    requires !Farther(c, k, up, id, a, b) && Answers(c, k, up, id, order)
    requires Shortest(c, k, up, p) && |p| > 1 && p[0] == id && p[|p| - 1] == b
    requires forall j :: 0 < j < |p| ==> Leads(c, k, up, p[j - 1], p[j])
    ensures !BeforeItsHops(c, k, up, Ids(order))
  {
    var (ids, d, all) := (Ids(order), |p| - 1, [id] + Ids(order));
    hide Within, Next, Leads, Queue;
    assert a in ids;
    var y :| 0 <= y < |ids| && ids[y] == a;
    var x := PathHeads(c, k, up, p, |order| + 1, d);
    assert all[0] == id && all[y + 1] == a && all[x] == b;
    assert a !in Within(c, k, up, id, d - 1);
    assert ids[x - 1] == b;
    assert x - 1 <= y;
  }

  lemma HopCarries(c: Contents, c': Contents, k: string, up: bool, id: string, a: string, b: string)
    requires Coherent(c) && Reordered(c, c')
    ensures Reaches(c', k, up, id, a) == Reaches(c, k, up, id, a)
    ensures Farther(c', k, up, id, a, b) == Farther(c, k, up, id, a, b)
    ensures Next(c', k, up, a) == Next(c, k, up, a)
  {
    ReorderedWithin(c, c', k, up, id);
    hide Within, Next, Reordered;
    if d :| a in Within(c, k, up, id, d) { assert a in Within(c', k, up, id, d); }
    if d :| a in Within(c', k, up, id, d) { assert a in Within(c, k, up, id, d); }
    if d :| a in Within(c, k, up, id, d) && b !in Within(c, k, up, id, d) { assert a in Within(c', k, up, id, d); }
    if d :| a in Within(c', k, up, id, d) && b !in Within(c', k, up, id, d) { assert a in Within(c, k, up, id, d); }
  }

  // A hop that leads no farther makes the walk answer in the wrong order, for some
  // order of the edges.
  lemma SomeOrderFails(c: Contents, k: string, up: bool, id: string, a: string, b: string) returns (c': Contents)
    requires Coherent(c) && a != id && b != id && Reaches(c, k, up, id, a) && b in Next(c, k, up, a)
    requires !Farther(c, k, up, id, a, b)
    ensures Reordered(c, c')
    ensures forall order :: Answers(c', k, up, id, order) ==> !BeforeItsHops(c', k, up, Ids(order))
  {
    ReachesOn(c, k, up, id, a, b);
    hide Within, Next, Farther, Reaches, Reordered, Leads, BeforeItsHops, Answers, Shortest;
    var d := Distance(c, k, up, id, b);
    var p;
    c', p := SomeOrderLeads(c, k, up, id, b, d);
    HopCarries(c, c', k, up, id, a, b);
    forall order | Answers(c', k, up, id, order) ensures !BeforeItsHops(c', k, up, Ids(order)) {
      LeadingFails(c', k, up, id, a, b, p, order);
    }
  }
}
