// The graph object: its updates, its spec, and its breadth-first walk
// (go-telemetry/internal/topology/graph.go, author.go).
module GraphObject {
  import opened Topology
  import opened Ordering
  import opened Walks
  import opened WalkOrder
  import opened SpecForm

  class Graph {
    var nodes: map<string, Node>
    var outs: Adjacency
    var ins: Adjacency

    function View(): Contents
      reads this
    {
      Contents(nodes, outs, ins)
    }

    ghost predicate Valid()
      reads this
    {
      Coherent(View())
    }

    constructor ()
      ensures Valid() && View() == EMPTY
    {
      nodes, outs, ins := map[], map[], map[];
    }

    method UpsertNode(n: Node) returns (r: Verdict)
      requires Valid()
      modifies this
      ensures Valid() && (View(), r) == PutNode(old(View()), n)
    {
      EffectKeepsCoherent(View(), UpsertingNode(n));
      if n.id == "" {
        return Refused(NodeIdRequired);
      }
      if n.kind == "" {
        return Refused(NodeKindRequired(n.id));
      }
      nodes := nodes[n.id := n];
      r := Done;
    }

    method UpsertEdge(e: Edge) returns (r: Verdict)
      requires Valid()
      modifies this
      ensures Valid() && (View(), r) == PutEdge(old(View()), e)
    {
      EffectKeepsCoherent(View(), UpsertingEdge(e));
      if e.from == "" || e.to == "" {
        return Refused(EndpointsRequired);
      }
      if e.kind == "" {
        return Refused(EdgeKindRequired);
      }
      if e.from !in nodes {
        return Refused(UnknownFrom(e.from));
      }
      if e.to !in nodes {
        return Refused(UnknownTo(e.to));
      }
      outs := Append(outs, e.from, e);
      ins := Append(ins, e.to, e);
      r := Done;
    }

    // Replaces the contents; an edge to an unknown node ends the load halfway.
    method Load(spec: Spec) returns (r: Verdict)
      modifies this
      ensures Valid() && (View(), r) == Loaded(spec)
    {
      LoadedCoherent(spec);
      hide Coherent, LinkAll;
      nodes, outs, ins := map[], map[], map[];
      for i := 0 to |spec.nodes|
        invariant View() == EMPTY.(nodes := NodeMap(spec.nodes[..i]))
      {
        nodes := nodes[spec.nodes[i].id := spec.nodes[i]];
        assert spec.nodes[..i + 1][..i] == spec.nodes[..i];
      }
      assert spec.nodes[..|spec.nodes|] == spec.nodes;
      r := LinkEdges(spec.edges);
    }

    method LinkEdges(edges: seq<Edge>) returns (r: Verdict)
      modifies this
      ensures (View(), r) == LinkAll(old(View()), edges)
    {
      hide Append;
      for i := 0 to |edges|
        invariant LinkAll(old(View()), edges[..i]) == (View(), Done)
      {
        var e := edges[i];
        ghost var was := View();
        assert edges[..i + 1][..i] == edges[..i];
        assert LinkAll(old(View()), edges[..i + 1]) == Link(was, e);
        if e.from !in nodes {
          LinkAllStops(old(View()), edges, i + 1);
          return Refused(UnknownFrom(e.from));
        }
        if e.to !in nodes {
          LinkAllStops(old(View()), edges, i + 1);
          return Refused(UnknownTo(e.to));
        }
        hide LinkAll;
        outs := Append(outs, e.from, e);
        ins := Append(ins, e.to, e);
      }
      assert edges[..|edges|] == edges;
      r := Done;
    }

    // Adds the devices of a telemetry answer that the graph does not know yet.
    method DiscoverFromTelemetry(answer: Answer) returns (r: Verdict)
      requires Valid()
      modifies this
      ensures Valid() && (View(), r) == Discovered(old(View()), answer)
    {
      EffectKeepsCoherent(View(), Discovering(answer));
      if answer.Failed? {
        return Refused(QueryFailed);
      }
      if answer.columns < 2 {
        return Refused(UnexpectedColumns(answer.columns));
      }
      ghost var start := View();
      for i := 0 to |answer.rows|
        invariant Valid() && View() == DiscoverRows(start, answer.rows[..i])
      {
        var row := answer.rows[i];
        assert answer.rows[..i + 1][..i] == answer.rows[..i];
        if |row| < 2 {
          continue;
        }
        var device, kind := TextOf(row[0]), TextOf(row[1]);
        if device == "" || device in nodes {
          continue;
        }
        var _ := UpsertNode(Node(device, MapKind(kind), map[]));
      }
      assert answer.rows[..|answer.rows|] == answer.rows;
      r := Done;
    }

    // All nodes, by id. The map is read in an order of its own choosing.
    method Nodes() returns (out: seq<Node>)
      requires Valid()
      ensures Sorted(NodeBefore, out) && Distinct(Ids(out))
      ensures forall n :: n in out <==> n.id in nodes && nodes[n.id] == n
    {
      var keys := nodes.Keys;
      out := [];
      while keys != {}
        invariant keys <= nodes.Keys && Distinct(Ids(out))
        invariant forall n :: n in out <==> n.id in nodes.Keys - keys && nodes[n.id] == n
        decreases keys
      {
        var id :| id in keys;
        assert forall n :: n in out ==> n.id != id;
        out := out + [nodes[id]];
        keys := keys - {id};
      }
      NodeOrder();
      SortKeepsListing(out);
      out := Sort(NodeBefore, out);
    }

    method EdgesSorted() returns (out: seq<Edge>)
      requires Valid()
      ensures Sorted(EdgeBefore, out)
      ensures forall e :: multiset(out)[e] == OutCount(View(), e)
    {
      var keys := outs.Keys;
      out := [];
      while keys != {}
        invariant keys <= outs.Keys
        invariant forall e :: multiset(out)[e] == if e.from in keys then 0 else OutCount(View(), e)
        decreases keys
      {
        var id :| id in keys;
        forall e: Edge ensures e.from != id ==> multiset(outs[id])[e] == 0 {
          assert e in outs[id] ==> e in At(View().outs, id);
        }
        out := out + outs[id];
        keys := keys - {id};
      }
      EdgeOrder();
      SortSorts(EdgeBefore, out);
      out := Sort(EdgeBefore, out);
    }

    method ToSpec() returns (spec: Spec)
      requires Valid()
      ensures IsSpecOf(spec, View())
    {
      var ns := Nodes();
      var es := EdgesSorted();
      spec := Spec(ns, es);
    }

    // The neighbours of `cur` not seen before, in edge order.
    method Expand(cur: string, k: string, up: bool, seen0: set<string>)
      returns (found: seq<Node>, seen: set<string>)
      requires Valid()
      ensures seen == seen0 + Next(View(), k, up, cur)
      ensures FromGraph(View(), found) && Distinct(Ids(found))
      ensures Ids(found) == FirstSeen(EdgesOf(View(), cur, up), k, up, seen0)
      ensures forall b :: b in Ids(found) <==> b in Next(View(), k, up, cur) && b !in seen0
    {
      found, seen := [], seen0;
      var edges := EdgesOf(View(), cur, up);
      ListedStarts(View(), edges, k, up, seen0);
      for i := 0 to |edges|
        invariant Listed(View(), edges[..i], k, up, seen0, found, seen)
      {
        FarEndKnown(View(), cur, up, edges[i]);
        ListedNext(View(), edges, i, k, up, seen0, found, seen);
        hide Listed, Coherent, FarEnd, EdgesOf;
        if edges[i].kind != k {
          continue;
        }
        var next := FarEnd(edges[i], up);
        if next in seen {
          continue;
        }
        seen := seen + {next};
        if next in nodes {
          found := found + [nodes[next]];
        }
      }
      assert edges[..|edges|] == edges;
      FirstSeenIs(edges, k, up, seen0);
    }

    // Walks from `id` along edges of kind `k`. `all` is every id ever queued, in
    // order; `queue` is its part from `h` on. The first `m` ids are those within
    // `d` hops, the rest are one hop farther.
    method Bfs(id: string, k: string, up: bool) returns (order: seq<Node>)
      requires Valid()
      ensures Answers(View(), k, up, id, order)
    {
      ghost var c := View();
      hide *;
      var seen := {id};
      var queue := [id];
      order := [];
      ghost var all, h, m, d := [id], 0, 1, 0;
      FrontStarts(c, k, up, id);
      QueueStarts(c, k, up, id);
      while |queue| > 0
        invariant 0 <= h <= m <= |all| && 0 <= d
        invariant View() == c && all == [id] + Ids(order) && queue == all[h..]
        invariant FromGraph(c, order)
        invariant Front(c, k, up, id, all, seen, h, m, d)
        invariant all == Queue(c, k, up, id, h)
        decreases c.nodes.Keys + {id} - seen, |queue|
      {
        var cur := queue[0];
        queue := queue[1..];
        var found, seen' := Expand(cur, k, up, seen);
        QueueSteps(c, k, up, id, all, found, seen, h, m, d);
        m, d := FrontSteps(c, k, up, id, all, found, seen, seen', h, m, d);
        FromGraphConcat(c, order, found);
        QueueMoves(all, Ids(found), h);
        h, all := h + 1, all + Ids(found);
        order := order + found;
        queue := queue + Ids(found);
        seen := seen';
      }
      FrontDone(c, k, up, id, all, order, seen, h, m, d);
      AllExpanded(c, k, up, id, order, h);
    }

    // "What feeds this PDU?"
    method PowersChain(id: string) returns (order: seq<Node>)
      requires Valid()
      ensures Answers(View(), "powers", true, id, order)
      ensures Layered(View(), "powers", true, id) ==> BeforeItsHops(View(), "powers", true, Ids(order))
    {
      order := Bfs(id, "powers", true);
      if Layered(View(), "powers", true, id) { LayeredIsTopological(View(), "powers", true, id, order); }
    }

    // "What does this cooling loop influence?"
    method CoolingChain(id: string) returns (order: seq<Node>)
      requires Valid()
      ensures Answers(View(), "cools", false, id, order)
    {
      order := Bfs(id, "cools", false);
    }
  }

  lemma FarEndKnown(c: Contents, id: string, up: bool, e: Edge)
    requires Coherent(c) && e in EdgesOf(c, id, up)
    ensures FarEnd(e, up) in c.nodes
  {
  }

  // What a scan of `edges` has found and seen.
  ghost predicate Listed(c: Contents, edges: seq<Edge>, k: string, up: bool, seen0: set<string>,
                         found: seq<Node>, seen: set<string>) {
    seen == seen0 + Hops(edges, k, up) && FromGraph(c, found) && Ids(found) == FirstSeen(edges, k, up, seen0)
  }

  lemma ListedStarts(c: Contents, edges: seq<Edge>, k: string, up: bool, seen0: set<string>)
    ensures Listed(c, edges[..0], k, up, seen0, [], seen0)
  {
  }

  // One more edge: of another kind, to a node seen already, or to a new one.
  lemma ListedNext(c: Contents, edges: seq<Edge>, i: nat, k: string, up: bool, seen0: set<string>,
                   found: seq<Node>, seen: set<string>)
    requires NodesFiled(c) && i < |edges| && Listed(c, edges[..i], k, up, seen0, found, seen)
    requires FarEnd(edges[i], up) in c.nodes
    ensures var (next, more) := (FarEnd(edges[i], up), edges[..i + 1]);
            if edges[i].kind != k || next in seen then Listed(c, more, k, up, seen0, found, seen)
            else Listed(c, more, k, up, seen0, found + [c.nodes[next]], seen + {next})
  {
    HopsSnoc(edges, i, k, up);
    FirstSeenIs(edges[..i], k, up, seen0);
    FirstSeenSnoc(edges, i, k, up, seen0);
    FromGraphSnoc(c, found, FarEnd(edges[i], up));
    hide Hops, FirstSeen, FromGraph, Distinct, FarEnd;
  }

  lemma FromGraphSnoc(c: Contents, a: seq<Node>, id: string)
    requires NodesFiled(c) && FromGraph(c, a) && id in c.nodes
    ensures FromGraph(c, a + [c.nodes[id]]) && Ids(a + [c.nodes[id]]) == Ids(a) + [id]
  {
  }

  // ---- The state of a breadth-first walk -----------------------------------

  ghost predicate SameMembers(all: seq<string>, s: set<string>) { forall b :: b in all <==> b in s }

  ghost predicate Front(c: Contents, k: string, up: bool, id: string, all: seq<string>, seen: set<string>,
                        h: nat, m: nat, d: nat) {
    && h <= m <= |all| && all != [] && all[0] == id && seen <= c.nodes.Keys + {id}
    && SameMembers(all, seen) && Distinct(all)
    && (forall i :: 0 <= i < h ==> Next(c, k, up, all[i]) <= seen)
    && SameMembers(all[..m], Within(c, k, up, id, d))
    && seen <= Within(c, k, up, id, d + 1)
    && NearestFirst(c, k, up, id, all)
  }

  lemma FromGraphConcat(c: Contents, a: seq<Node>, b: seq<Node>)
    requires FromGraph(c, a) && FromGraph(c, b)
    ensures FromGraph(c, a + b) && Ids(a + b) == Ids(a) + Ids(b)
  {
  }

  lemma QueueMoves(all: seq<string>, more: seq<string>, h: nat)
    requires h < |all|
    ensures all[h..][0] == all[h] && (all + more)[h + 1..] == all[h..][1..] + more
  {
  }

  lemma FrontStarts(c: Contents, k: string, up: bool, id: string)
    ensures Front(c, k, up, id, [id], {id}, 0, 1, 0) && FromGraph(c, [])
  {
    assert [id][..1] == [id];
  }

  lemma FrontBounds(c: Contents, k: string, up: bool, id: string, all: seq<string>, seen: set<string>,
                    h: nat, m: nat, d: nat)
    requires Front(c, k, up, id, all, seen, h, m, d)
    ensures h <= m <= |all| && seen <= c.nodes.Keys + {id}
  {
  }

  lemma FoundKnown(c: Contents, found: seq<Node>)
    requires FromGraph(c, found)
    ensures forall b :: b in Ids(found) ==> b in c.nodes
  {
    forall b | b in Ids(found) ensures b in c.nodes {
      var i :| 0 <= i < |found| && Ids(found)[i] == b;
      assert found[i] in found;
    }
  }

  lemma QueueSteps(c: Contents, k: string, up: bool, id: string, all: seq<string>, found: seq<Node>,
                   seen: set<string>, h: nat, m: nat, d: nat)
    requires Front(c, k, up, id, all, seen, h, m, d) && h < |all| && all == Queue(c, k, up, id, h)
    requires Ids(found) == FirstSeen(EdgesOf(c, all[h], up), k, up, seen)
    ensures all + Ids(found) == Queue(c, k, up, id, h + 1)
  {
    assert seen == Members(all);
  }

  lemma AllExpanded(c: Contents, k: string, up: bool, id: string, order: seq<Node>, h: nat)
    requires IsChain(c, k, up, id, order) && [id] + Ids(order) == Queue(c, k, up, id, h) && h == 1 + |order|
    ensures Answers(c, k, up, id, order)
  {
    hide IsChain, Queue;
  }

  // One turn of the loop: a completed level is left behind first. Either someone
  // new was seen or `seen` is as it was.
  lemma FrontSteps(c: Contents, k: string, up: bool, id: string, all: seq<string>, found: seq<Node>,
                   seen: set<string>, seen': set<string>, h: nat, m: nat, d: nat) returns (m': nat, d': nat)
    requires Front(c, k, up, id, all, seen, h, m, d) && h < |all|
    requires seen' == seen + Next(c, k, up, all[h]) && Distinct(Ids(found))
    requires FromGraph(c, found)
    requires forall b :: b in Ids(found) <==> b in Next(c, k, up, all[h]) && b !in seen
    ensures h + 1 <= m' <= |all|
    ensures Front(c, k, up, id, all + Ids(found), seen', h + 1, m', d')
    ensures found == [] ==> seen' == seen
    ensures found != [] ==> c.nodes.Keys + {id} - seen' < c.nodes.Keys + {id} - seen
  {
    hide Front, Next, Distinct;
    m', d' := m, d;
    if h == m {
      FrontMoves(c, k, up, id, all, seen, h, m, d);
      m', d' := |all|, d + 1;
    }
    FrontBounds(c, k, up, id, all, seen, h, m', d');
    FoundKnown(c, found);
    assert seen' <= c.nodes.Keys + {id};
    FrontGrows(c, k, up, id, all, Ids(found), seen, seen', h, m', d');
    if found != [] {
      var b := Ids(found)[0];
      assert b in Ids(found);
      assert b in c.nodes.Keys + {id} - seen && b !in c.nodes.Keys + {id} - seen';
    }
  }

  // All ids within d hops are expanded: the rest are exactly those one hop on.
  lemma FrontMoves(c: Contents, k: string, up: bool, id: string, all: seq<string>, seen: set<string>,
                   h: nat, m: nat, d: nat)
    requires Front(c, k, up, id, all, seen, h, m, d) && h == m
    ensures Front(c, k, up, id, all, seen, h, |all|, d + 1)
  {
    hide Next, Distinct, NearestFirst;
    forall b | b in Within(c, k, up, id, d + 1) ensures b in seen {
      if b in Within(c, k, up, id, d) {
        assert b in all[..m];
      } else {
        var a :| a in Within(c, k, up, id, d) && b in Next(c, k, up, a);
        assert a in all[..m];
        var i :| 0 <= i < m && all[..m][i] == a;
        assert Next(c, k, up, all[i]) <= seen;
      }
    }
    assert all[..|all|] == all;
    WithinGrows(c, k, up, id, d + 1, d + 2);
  }

  // Expanding the next id queues only ids one hop beyond the completed level.
  lemma FrontGrows(c: Contents, k: string, up: bool, id: string, all: seq<string>, more: seq<string>,
                   seen: set<string>, seen': set<string>, h: nat, m: nat, d: nat)
    requires Front(c, k, up, id, all, seen, h, m, d) && h < m
    requires seen' == seen + Next(c, k, up, all[h]) && seen' <= c.nodes.Keys + {id}
    requires Distinct(more) && forall b :: b in more <==> b in Next(c, k, up, all[h]) && b !in seen
    ensures Front(c, k, up, id, all + more, seen', h + 1, m, d)
  {
    var all' := all + more;
    assert all[h] in all[..m];
    assert all'[..m] == all[..m];
    hide Next;
    assert Next(c, k, up, all[h]) <= Within(c, k, up, id, d + 1);
    hide Within;
    FrontNearest(c, k, up, id, all, more, seen, m, d);
    hide NearestFirst;
    DistinctConcat(all, more, seen);
    assert SameMembers(all', seen') by {
      assert forall b :: b in all' <==> b in all || b in more;
    }
    forall i | 0 <= i < h + 1 ensures Next(c, k, up, all'[i]) <= seen' {
      assert all'[i] == all[i];
    }
  }

  lemma DistinctConcat(all: seq<string>, more: seq<string>, seen: set<string>)
    requires Distinct(all) && Distinct(more) && SameMembers(all, seen) && forall b :: b in more ==> b !in seen
    ensures Distinct(all + more)
  {
    var all' := all + more;
    forall i, j | 0 <= i < j < |all'| ensures all'[i] != all'[j] {
      if i < |all| <= j { assert all[i] in seen && more[j - |all|] !in seen; }
    }
  }

  // An id first reached at hop d + 1 is no nearer than anything within d + 1 hops.
  lemma NewIsFar(c: Contents, k: string, up: bool, id: string, near: string, far: string, d: nat, n: nat)
    requires near in Within(c, k, up, id, d + 1)
    requires far !in Within(c, k, up, id, d) && far in Within(c, k, up, id, n)
    ensures near in Within(c, k, up, id, n)
  {
    hide Within;
    if n <= d { WithinGrows(c, k, up, id, n, d); }
    WithinGrows(c, k, up, id, d + 1, n);
  }

  lemma FrontNearest(c: Contents, k: string, up: bool, id: string, all: seq<string>, more: seq<string>,
                     seen: set<string>, m: nat, d: nat)
    requires m <= |all| && SameMembers(all, seen) && NearestFirst(c, k, up, id, all)
    requires SameMembers(all[..m], Within(c, k, up, id, d)) && seen <= Within(c, k, up, id, d + 1)
    requires forall b :: b in more ==> b in Within(c, k, up, id, d + 1) && b !in seen
    ensures NearestFirst(c, k, up, id, all + more)
  {
    hide Within;
    forall b | b in Within(c, k, up, id, d) ensures b in seen {
      assert b in all[..m];
    }
    var all' := all + more;
    forall i, j, n: nat | 0 <= i < j < |all'| && all'[j] in Within(c, k, up, id, n)
      ensures all'[i] in Within(c, k, up, id, n)
    {
      if j < |all| {
        assert all[j] in Within(c, k, up, id, n);
      } else {
        hide NearestFirst;
        assert all'[j] in more && (all'[i] in all || all'[i] in more);
        NewIsFar(c, k, up, id, all'[i], all'[j], d, n);
      }
    }
  }

  // Nothing is queued: every reachable id has been seen.
  lemma FrontDone(c: Contents, k: string, up: bool, id: string, all: seq<string>, order: seq<Node>,
                  seen: set<string>, h: nat, m: nat, d: nat)
    requires Front(c, k, up, id, all, seen, h, m, d) && h == |all| && all == [id] + Ids(order)
    requires FromGraph(c, order)
    ensures IsChain(c, k, up, id, order)
  {
    forall a | a in seen ensures Next(c, k, up, a) <= seen {
      assert a in all;
      var i :| 0 <= i < |all| && all[i] == a;
    }
    hide Next, Within;
    assert all[1..] == Ids(order);
    assert forall i :: 0 <= i < |order| ==> all[i + 1] == Ids(order)[i];
    forall b ensures b in Ids(order) <==> b != id && Reaches(c, k, up, id, b) {
      assert b in all <==> b == id || b in Ids(order);
      if b in all { assert b in Within(c, k, up, id, d + 1); }
      if n :| b in Within(c, k, up, id, n) { ClosedHoldsAll(c, k, up, id, seen, n); }
    }
  }

  lemma {:induction false} LinkAllStops(c: Contents, edges: seq<Edge>, n: nat)
    requires n <= |edges| && LinkAll(c, edges[..n]).1.Refused?
    ensures LinkAll(c, edges) == LinkAll(c, edges[..n])
    decreases |edges|
  {
    if n < |edges| {
      var m := |edges| - 1;
      assert edges[..m][..n] == edges[..n];
      LinkAllStops(c, edges[..m], n);
    } else {
      assert edges[..n] == edges;
    }
  }

  // ---- Whether an answer exists --------------------------------------------

  lemma NextKnown(c: Contents, k: string, up: bool, id: string)
    requires Coherent(c)
    ensures Next(c, k, up, id) <= c.nodes.Keys
  {
  }

  lemma Filed(c: Contents, ids: seq<string>) returns (found: seq<Node>)
    requires NodesFiled(c) && forall b :: b in ids ==> b in c.nodes
    ensures FromGraph(c, found) && Ids(found) == ids
  {
    found := seq(|ids|, i requires 0 <= i < |ids| => c.nodes[ids[i]]);
  }

  lemma WalkTurn(c: Contents, k: string, up: bool, id: string, all: seq<string>, order: seq<Node>,
                 seen: set<string>, h: nat, m: nat, d: nat)
    returns (found: seq<Node>, seen': set<string>, m': nat, d': nat)
    requires Coherent(c) && Front(c, k, up, id, all, seen, h, m, d) && h < |all|
    requires FromGraph(c, order) && all == [id] + Ids(order) == Queue(c, k, up, id, h)
    ensures Front(c, k, up, id, all + Ids(found), seen', h + 1, m', d')
    ensures FromGraph(c, order + found)
    ensures all + Ids(found) == [id] + Ids(order + found) == Queue(c, k, up, id, h + 1)
    ensures if found == [] then seen' == seen && Ids(found) == []
            else c.nodes.Keys + {id} - seen' < c.nodes.Keys + {id} - seen
  {
    NextKnown(c, k, up, all[h]);
    var next := FirstSeen(EdgesOf(c, all[h], up), k, up, seen);
    FirstSeenIs(EdgesOf(c, all[h], up), k, up, seen);
    assert Hops(EdgesOf(c, all[h], up), k, up) == Next(c, k, up, all[h]);
    assert NodesFiled(c);
    hide *;
    found := Filed(c, next);
    seen' := seen + Next(c, k, up, all[h]);
    QueueSteps(c, k, up, id, all, found, seen, h, m, d);
    m', d' := FrontSteps(c, k, up, id, all, found, seen, seen', h, m, d);
    FromGraphConcat(c, order, found);
    IdsJoin(id, order, found);
  }

  lemma IdsJoin(id: string, order: seq<Node>, found: seq<Node>)
    ensures [id] + Ids(order) + Ids(found) == [id] + Ids(order + found)
  {
  }

  // A walk that has come to `Front` can be finished.
  lemma {:induction false} WalkEnds(c: Contents, k: string, up: bool, id: string, all: seq<string>, order: seq<Node>,
                                    seen: set<string>, h: nat, m: nat, d: nat) returns (r: seq<Node>)
    requires Coherent(c) && Front(c, k, up, id, all, seen, h, m, d)
    requires FromGraph(c, order) && all == [id] + Ids(order) == Queue(c, k, up, id, h)
    ensures Answers(c, k, up, id, r)
    decreases c.nodes.Keys + {id} - seen, |all| - h
  {
    hide *;
    FrontBounds(c, k, up, id, all, seen, h, m, d);
    if h == |all| {
      FrontDone(c, k, up, id, all, order, seen, h, m, d);
      r := order;
      AllExpanded(c, k, up, id, order, h);
    } else {
      var found, seen', m', d' := WalkTurn(c, k, up, id, all, order, seen, h, m, d);
      r := WalkEnds(c, k, up, id, all + Ids(found), order + found, seen', h + 1, m', d');
    }
  }

  // Every coherent graph has exactly one answer to a chain query.
  lemma ChainExists(c: Contents, k: string, up: bool, id: string) returns (r: seq<Node>)
    requires Coherent(c)
    ensures forall order :: Answers(c, k, up, id, order) <==> order == r
  {
    FrontStarts(c, k, up, id);
    assert [id] == [id] + Ids([]) == Queue(c, k, up, id, 0);
    r := WalkEnds(c, k, up, id, [id], [], {id}, 0, 1, 0);
    hide IsChain, Queue;
    forall order | Answers(c, k, up, id, order) ensures order == r {
      OneAnswer(c, k, up, id, order, r);
    }
  }

  lemma OneAnswer(c: Contents, k: string, up: bool, id: string, order: seq<Node>, r: seq<Node>)
    requires Answers(c, k, up, id, order) && Answers(c, k, up, id, r)
    ensures order == r
  {
    var (n, m) := (|order| + 1, |r| + 1);
    QueueExtends(c, k, up, id, if n < m then n else m, if n < m then m else n);
    hide Queue, Reaches, Within;
    assert Ids(order) == ([id] + Ids(order))[1..] && Ids(r) == ([id] + Ids(r))[1..];
    assert Ids(order) == Ids(r);
    forall i | 0 <= i < |order| ensures order[i] == r[i] {
      assert order[i] in order && r[i] in r && Ids(order)[i] == Ids(r)[i];
    }
  }

  // ---- Topological order ---------------------------------------------------

  // Whatever order the edges were inserted in, the walk answers each node before the
  // nodes one hop beyond it iff every hop leads strictly farther from the start.
  lemma TopologicalIff(c: Contents, k: string, up: bool, id: string)
    requires Coherent(c)
    ensures (forall c', order :: Reordered(c, c') && Answers(c', k, up, id, order) ==>
               BeforeItsHops(c', k, up, Ids(order)))
       <==> Layered(c, k, up, id)
  {
    if Layered(c, k, up, id) {
      forall c', order | Reordered(c, c') && Answers(c', k, up, id, order)
        ensures BeforeItsHops(c', k, up, Ids(order))
      {
        LayeredReordered(c, c', k, up, id);
        LayeredIsTopological(c', k, up, id, order);
      }
    } else {
      hide Answers, BeforeItsHops, Reaches, Next, Farther;
      var a, b :| a != id && b != id && Reaches(c, k, up, id, a) && b in Next(c, k, up, a)
                  && !Farther(c, k, up, id, a, b);
      var c' := SomeOrderFails(c, k, up, id, a, b);
      var order := ChainExists(c', k, up, id);
      assert Answers(c', k, up, id, order);
    }
  }

  lemma LayeredReordered(c: Contents, c': Contents, k: string, up: bool, id: string)
    requires Coherent(c) && Reordered(c, c') && Layered(c, k, up, id)
    ensures Layered(c', k, up, id)
  {
    hide Reaches, Farther, Next, Reordered;
    forall a, b | a != id && b != id && Reaches(c', k, up, id, a) && b in Next(c', k, up, a)
      ensures Farther(c', k, up, id, a, b)
    {
      HopCarries(c, c', k, up, id, a, b);
    }
  }

  function Device(id: string): Node { Node(id, "pdu", map[]) }

  function Cable(from: string, to: string): Edge { Edge(from, to, "powers", map[]) }

  // A UPS that powers a rack directly and through a PDU, its own cable to the rack
  // laid first or last.
  function Shortcut(direct: bool): Contents {
    Contents(map["rack" := Device("rack"), "ups" := Device("ups"), "pdu" := Device("pdu")],
             map["ups" := [Cable("ups", "rack"), Cable("ups", "pdu")], "pdu" := [Cable("pdu", "rack")]],
             map["rack" := if direct then [Cable("ups", "rack"), Cable("pdu", "rack")]
                           else [Cable("pdu", "rack"), Cable("ups", "rack")],
                 "pdu" := [Cable("ups", "pdu")]])
  }

  function ShortcutOrder(direct: bool): seq<string> { if direct then ["ups", "pdu"] else ["pdu", "ups"] }

  lemma ShortcutQueue(direct: bool)
    ensures var (c, all) := (Shortcut(direct), ["rack"] + ShortcutOrder(direct));
            && Queue(c, "powers", true, "rack", 1) == all
            && Queue(c, "powers", true, "rack", 2) == all
            && Queue(c, "powers", true, "rack", 3) == all
  {
    var (c, q) := (Shortcut(direct), ["rack"] + ShortcutOrder(direct));
    assert "rack"[0] != "ups"[0] && "rack"[0] != "pdu"[0] && "ups"[0] != "pdu"[0];
    var es := EdgesOf(c, "rack", true);
    assert es[..1] == [es[0]] && es[0..][..0] == [] && es[..1][..0] == [];
    assert FirstSeen(es, "powers", true, {"rack"}) == ShortcutOrder(direct);
    assert Members(["rack"]) == {"rack"};
    assert Queue(c, "powers", true, "rack", 0) == ["rack"];
    SeenAlready(EdgesOf(c, q[1], true), q);
    SeenAlready(EdgesOf(c, q[2], true), q);
  }

  lemma SeenAlready(edges: seq<Edge>, q: seq<string>)
    requires forall e :: e in edges ==> e.from in q
    ensures FirstSeen(edges, "powers", true, Members(q)) == []
  {
    FirstSeenIs(edges, "powers", true, Members(q));
    assert forall b :: b !in FirstSeen(edges, "powers", true, Members(q));
  }

  lemma ShortcutHops(direct: bool)
    ensures Next(Shortcut(direct), "powers", true, "pdu") == {"ups"}
    ensures Next(Shortcut(direct), "powers", true, "ups") == {}
    ensures "pdu" !in {"ups"}
  {
    assert "pdu"[0] != "ups"[0];
    assert Cable("ups", "pdu") in EdgesOf(Shortcut(direct), "pdu", true);
  }

  // The graph the six updates build.
  function Wired(direct: bool): Contents {
    var c := PutNode(PutNode(PutNode(EMPTY, Device("rack")).0, Device("ups")).0, Device("pdu")).0;
    var (e1, e2) := (Cable("ups", "rack"), Cable("pdu", "rack"));
    PutEdge(PutEdge(PutEdge(c, if direct then e1 else e2).0, if direct then e2 else e1).0, Cable("ups", "pdu")).0
  }

  lemma Linked(c: Contents, e: Edge)
    requires e.from != "" && e.to != "" && e.kind != "" && Known(c.nodes, e)
    ensures PutEdge(c, e).0 == Contents(c.nodes,
              c.outs[e.from := if e.from in c.outs then c.outs[e.from] + [e] else [e]],
              c.ins[e.to := if e.to in c.ins then c.ins[e.to] + [e] else [e]])
  {
    assert [] + [e] == [e];
  }

  lemma ThreeCables(nodes: map<string, Node>, r: string, u: string, p: string, direct: bool)
    requires r in nodes && u in nodes && p in nodes && r != u && r != p && u != p && r != "" && u != "" && p != ""
    ensures var (e1, e2, e3) := (Cable(u, r), Cable(p, r), Cable(u, p));
            var (first, second) := if direct then (e1, e2) else (e2, e1);
            PutEdge(PutEdge(PutEdge(Contents(nodes, map[], map[]), first).0, second).0, e3).0
            == Contents(nodes, map[u := [e1, e3], p := [e2]], map[r := [first, second], p := [e3]])
  {
    var (e1, e2, e3) := (Cable(u, r), Cable(p, r), Cable(u, p));
    var (first, second) := if direct then (e1, e2) else (e2, e1);
    var c := Contents(nodes, map[], map[]);
    assert [first] + [second] == [first, second] && [e1] + [e3] == [e1, e3];
    Linked(c, first);
    var c1 := Contents(nodes, map[first.from := [first]], map[r := [first]]);
    assert PutEdge(c, first).0 == c1;
    Linked(c1, second);
    var c2 := Contents(nodes, map[u := [e1], p := [e2]], map[r := [first, second]]);
    assert PutEdge(c1, second).0 == c2;
    Linked(c2, e3);
  }

  lemma ShortcutIsBuilt(direct: bool)
    ensures Wired(direct) == Shortcut(direct)
  {
    assert "rack"[0] != "ups"[0] && "rack"[0] != "pdu"[0] && "ups"[0] != "pdu"[0];
    assert PutNode(PutNode(PutNode(EMPTY, Device("rack")).0, Device("ups")).0, Device("pdu")).0
        == Contents(Shortcut(direct).nodes, map[], map[]);
    hide PutNode, PutEdge;
    ThreeCables(Shortcut(direct).nodes, "rack", "ups", "pdu", direct);
  }

  lemma ShortcutCoherent(direct: bool)
    ensures Coherent(Shortcut(direct))
  {
    ShortcutIsBuilt(direct);
    var (e1, e2) := (Cable("ups", "rack"), Cable("pdu", "rack"));
    hide Coherent, PutNode, PutEdge, Shortcut;
    RunKeepsCoherent([]);
    EffectKeepsCoherent(EMPTY, UpsertingNode(Device("rack")));
    var c1 := PutNode(EMPTY, Device("rack")).0;
    EffectKeepsCoherent(c1, UpsertingNode(Device("ups")));
    var c2 := PutNode(c1, Device("ups")).0;
    EffectKeepsCoherent(c2, UpsertingNode(Device("pdu")));
    var c3 := PutNode(c2, Device("pdu")).0;
    EffectKeepsCoherent(c3, UpsertingEdge(if direct then e1 else e2));
    var c4 := PutEdge(c3, if direct then e1 else e2).0;
    EffectKeepsCoherent(c4, UpsertingEdge(if direct then e2 else e1));
    EffectKeepsCoherent(PutEdge(c4, if direct then e2 else e1).0, UpsertingEdge(Cable("ups", "pdu")));
  }

  // The one answer to "what feeds the rack?".
  lemma ShortcutAnswer(direct: bool, order: seq<Node>)
    requires Answers(Shortcut(direct), "powers", true, "rack", order)
    ensures Ids(order) == ShortcutOrder(direct)
  {
    ShortcutQueue(direct);
    hide IsChain;
    var (c, n) := (Shortcut(direct), |order| + 1);
    if n > 3 {
      QueueExtends(c, "powers", true, "rack", 3, n);
    }
    hide Queue, Shortcut;
    assert n == 3;
    assert Ids(order) == (["rack"] + Ids(order))[1..];
  }

  lemma ShortcutsAlike()
    ensures Reordered(Shortcut(true), Shortcut(false))
  {
    ShortcutCoherent(true);
    ShortcutCoherent(false);
    assert multiset([Cable("ups", "rack"), Cable("pdu", "rack")])
        == multiset([Cable("pdu", "rack"), Cable("ups", "rack")]);
    hide Coherent;
  }

  // The UPS's cable to the rack laid first: the UPS is answered before the PDU it
  // feeds. The same cables laid in the other order: the PDU is answered first.
  lemma TopologicalOrderFails(order: seq<Node>, order': seq<Node>)
    requires Answers(Shortcut(true), "powers", true, "rack", order)
    requires Answers(Shortcut(false), "powers", true, "rack", order')
    ensures Reordered(Shortcut(true), Shortcut(false))
    ensures !BeforeItsHops(Shortcut(true), "powers", true, Ids(order))
    ensures BeforeItsHops(Shortcut(false), "powers", true, Ids(order'))
  {
    ShortcutVerdict(true, order);
    ShortcutVerdict(false, order');
    ShortcutsAlike();
  }

  lemma ShortcutVerdict(direct: bool, order: seq<Node>)
    requires Answers(Shortcut(direct), "powers", true, "rack", order)
    ensures BeforeItsHops(Shortcut(direct), "powers", true, Ids(order)) <==> !direct
  {
    ShortcutAnswer(direct, order);
    ShortcutHops(direct);
    hide Answers, Next, Shortcut;
    var ids := Ids(order);
    if direct {
      assert ids[0] in Next(Shortcut(direct), "powers", true, ids[1]);
    } else {
      forall i, j | 0 <= j <= i < 2 ensures ids[j] !in Next(Shortcut(direct), "powers", true, ids[i]) {
        assert ids[0] == "pdu" && ids[1] == "ups" && (i == 0 ==> j == 0);
      }
    }
  }

  // Built through the graph's own operations and asked, it gives that answer: the
  // wrong one if the UPS was wired to the rack first.
  method AnswersOutOfOrder(direct: bool) returns (g: Graph, order: seq<Node>)
    ensures fresh(g) && g.Valid() && g.View() == Shortcut(direct)
    ensures order == if direct then [Device("ups"), Device("pdu")] else [Device("pdu"), Device("ups")]
    ensures BeforeItsHops(g.View(), "powers", true, Ids(order)) <==> !direct
  {
    g := new Graph();
    var _ := g.UpsertNode(Device("rack"));
    var _ := g.UpsertNode(Device("ups"));
    var _ := g.UpsertNode(Device("pdu"));
    var _ := g.UpsertEdge(if direct then Cable("ups", "rack") else Cable("pdu", "rack"));
    var _ := g.UpsertEdge(if direct then Cable("pdu", "rack") else Cable("ups", "rack"));
    var _ := g.UpsertEdge(Cable("ups", "pdu"));
    ShortcutIsBuilt(direct);
    hide PutNode, PutEdge, Coherent;
    order := g.PowersChain("rack");
    hide *;
    ShortcutNodes(direct, order);
  }

  lemma ShortcutNodes(direct: bool, order: seq<Node>)
    requires Answers(Shortcut(direct), "powers", true, "rack", order)
    ensures order == if direct then [Device("ups"), Device("pdu")] else [Device("pdu"), Device("ups")]
    ensures BeforeItsHops(Shortcut(direct), "powers", true, Ids(order)) <==> !direct
  {
    ShortcutAnswer(direct, order);
    ShortcutVerdict(direct, order);
    hide BeforeItsHops, Queue, Reaches, NearestFirst;
    assert order[0] in order && order[1] in order;
    assert order[0].id == Ids(order)[0] && order[1].id == Ids(order)[1];
  }
}
