// The physical topology graph: nodes, and edges kept twice, under their source
// and under their target (go-telemetry/internal/topology/graph.go).
module Topology {
  datatype Node = Node(id: string, kind: string, labels: map<string, string>)
  datatype Edge = Edge(from: string, to: string, kind: string, labels: map<string, string>)
  datatype Spec = Spec(nodes: seq<Node>, edges: seq<Edge>)

  datatype GraphError = NodeIdRequired | NodeKindRequired(id: string) | EndpointsRequired | EdgeKindRequired
                      | UnknownFrom(id: string) | UnknownTo(id: string) | QueryFailed | UnexpectedColumns(n: nat)

  datatype Verdict = Done | Refused(error: GraphError)

  type Adjacency = map<string, seq<Edge>>

  datatype Contents = Contents(nodes: map<string, Node>, outs: Adjacency, ins: Adjacency)

  const EMPTY := Contents(map[], map[], map[])

  function At(m: Adjacency, id: string): seq<Edge> { if id in m then m[id] else [] }

  function Append(m: Adjacency, id: string, e: Edge): Adjacency { m[id := At(m, id) + [e]] }

  // ---- What each operation does to the contents ----------------------------

  function PutNode(c: Contents, n: Node): (Contents, Verdict) {
    if n.id == "" then (c, Refused(NodeIdRequired))
    else if n.kind == "" then (c, Refused(NodeKindRequired(n.id)))
    else (c.(nodes := c.nodes[n.id := n]), Done)
  }

  // Both endpoints must be there already.
  function Link(c: Contents, e: Edge): (Contents, Verdict) {
    if e.from !in c.nodes then (c, Refused(UnknownFrom(e.from)))
    else if e.to !in c.nodes then (c, Refused(UnknownTo(e.to)))
    else (c.(outs := Append(c.outs, e.from, e), ins := Append(c.ins, e.to, e)), Done)
  }

  function PutEdge(c: Contents, e: Edge): (Contents, Verdict) {
    if e.from == "" || e.to == "" then (c, Refused(EndpointsRequired))
    else if e.kind == "" then (c, Refused(EdgeKindRequired))
    else Link(c, e)
  }

  // The last node of an id wins.
  function NodeMap(nodes: seq<Node>): map<string, Node> {
    if nodes == [] then map[]
    else NodeMap(nodes[..|nodes| - 1])[nodes[|nodes| - 1].id := nodes[|nodes| - 1]]
  }

  // Links edges in turn and stops at the first that names an unknown node.
  function LinkAll(c: Contents, edges: seq<Edge>): (Contents, Verdict) {
    if edges == [] then (c, Done)
    else
      var before := LinkAll(c, edges[..|edges| - 1]);
      if before.1.Refused? then before else Link(before.0, edges[|edges| - 1])
  }

  function Loaded(spec: Spec): (Contents, Verdict) {
    LinkAll(EMPTY.(nodes := NodeMap(spec.nodes)), spec.edges)
  }

  // ---- Discovery (author.go) -----------------------------------------------

  datatype Cell = Text(text: string) | NotText
  datatype Answer = Failed | Table(columns: nat, rows: seq<seq<Cell>>)

  const KINDS := {"rack", "pdu", "ups", "cooling_loop", "server", "room", "cable"}

  function MapKind(k: string): string { if k in KINDS then k else "sensor" }

  // The kinds of the graph keep their names; any other device is a sensor.
  lemma KindsKept(k: string)
    ensures MapKind(k) == k <==> k in {"rack", "pdu", "ups", "cooling_loop", "server", "room", "cable", "sensor"}
    ensures MapKind(k) == k || MapKind(k) == "sensor"
  {
  }

  function TextOf(c: Cell): string { if c.Text? then c.text else "" }

  // The device a row names, if it names one at all.
  predicate Names(row: seq<Cell>, id: string) { |row| >= 2 && TextOf(row[0]) == id && id != "" }

  function DiscoverRow(c: Contents, row: seq<Cell>): Contents {
    if |row| < 2 || TextOf(row[0]) == "" || TextOf(row[0]) in c.nodes then c
    else c.(nodes := c.nodes[TextOf(row[0]) := Node(TextOf(row[0]), MapKind(TextOf(row[1])), map[])])
  }

  function DiscoverRows(c: Contents, rows: seq<seq<Cell>>): Contents {
    if rows == [] then c else DiscoverRow(DiscoverRows(c, rows[..|rows| - 1]), rows[|rows| - 1])
  }

  function Discovered(c: Contents, a: Answer): (Contents, Verdict) {
    match a
    case Failed => (c, Refused(QueryFailed))
    case Table(columns, rows) =>
      if columns < 2 then (c, Refused(UnexpectedColumns(columns))) else (DiscoverRows(c, rows), Done)
  }

  // ---- The invariant -------------------------------------------------------

  function OutCount(c: Contents, e: Edge): nat { multiset(At(c.outs, e.from))[e] }

  function InCount(c: Contents, e: Edge): nat { multiset(At(c.ins, e.to))[e] }

  ghost predicate NodesFiled(c: Contents) { forall id :: id in c.nodes ==> c.nodes[id].id == id }

  ghost predicate OutsFiled(c: Contents) {
    forall id, e :: e in At(c.outs, id) ==> e.from == id && e.from in c.nodes && e.to in c.nodes
  }

  ghost predicate InsFiled(c: Contents) {
    forall id, e :: e in At(c.ins, id) ==> e.to == id && e.from in c.nodes && e.to in c.nodes
  }

  ghost predicate Balanced(c: Contents) { forall e :: OutCount(c, e) == InCount(c, e) }

  // Nodes are filed under their ids; edges are filed under their endpoints, which
  // exist; and each edge occurs as often in one index as in the other.
  ghost predicate Coherent(c: Contents) {
    NodesFiled(c) && OutsFiled(c) && InsFiled(c) && Balanced(c)
  }

  lemma AppendAt(m: Adjacency, id: string, e: Edge, x: string)
    ensures At(Append(m, id, e), x) == At(m, x) + (if x == id then [e] else [])
  {
  }

  lemma LinkCounts(c: Contents, e: Edge, f: Edge)
    requires Link(c, e).1.Done?
    ensures OutCount(Link(c, e).0, f) == OutCount(c, f) + (if f == e then 1 else 0)
    ensures InCount(Link(c, e).0, f) == InCount(c, f) + (if f == e then 1 else 0)
  {
    AppendAt(c.outs, e.from, e, f.from);
    AppendAt(c.ins, e.to, e, f.to);
    hide Append, At;
  }

  lemma LinkKeepsFiled(c: Contents, e: Edge)
    requires OutsFiled(c) && InsFiled(c)
    ensures OutsFiled(Link(c, e).0) && InsFiled(Link(c, e).0)
  {
    var c' := Link(c, e).0;
    if Link(c, e).1.Done? {
      forall id, f | f in At(c'.outs, id) ensures f.from == id && f.from in c.nodes && f.to in c.nodes {
        AppendAt(c.outs, e.from, e, id);
      }
      forall id, f | f in At(c'.ins, id) ensures f.to == id && f.from in c.nodes && f.to in c.nodes {
        AppendAt(c.ins, e.to, e, id);
      }
    }
  }

  lemma LinkKeeps(c: Contents, e: Edge)
    requires Coherent(c)
    ensures Coherent(Link(c, e).0)
  {
    LinkKeepsFiled(c, e);
    hide OutsFiled, InsFiled, OutCount, InCount;
    var c' := Link(c, e).0;
    if Link(c, e).1.Done? {
      forall f ensures OutCount(c', f) == InCount(c', f) {
        LinkCounts(c, e, f);
      }
    }
  }

  lemma {:induction false} LinkAllKeeps(c: Contents, edges: seq<Edge>)
    requires Coherent(c)
    ensures Coherent(LinkAll(c, edges).0)
  {
    if edges != [] {
      var front := edges[..|edges| - 1];
      LinkAllKeeps(c, front);
      LinkKeeps(LinkAll(c, front).0, edges[|edges| - 1]);
    }
  }

  lemma {:induction false} LinkAllNodes(c: Contents, edges: seq<Edge>)
    ensures LinkAll(c, edges).0.nodes == c.nodes
  {
    if edges != [] {
      LinkAllNodes(c, edges[..|edges| - 1]);
    }
  }

  lemma {:induction false} NodeMapFiled(nodes: seq<Node>)
    ensures forall id :: id in NodeMap(nodes) ==> NodeMap(nodes)[id].id == id && NodeMap(nodes)[id] in nodes
    ensures forall n :: n in nodes ==> n.id in NodeMap(nodes)
  {
    if nodes != [] { NodeMapFiled(nodes[..|nodes| - 1]); }
  }

  // Of several nodes with one id the last stays.
  lemma {:induction false} LastNodeWins(nodes: seq<Node>, i: nat)
    requires i < |nodes| && forall j :: i < j < |nodes| ==> nodes[j].id != nodes[i].id
    ensures nodes[i].id in NodeMap(nodes) && NodeMap(nodes)[nodes[i].id] == nodes[i]
  {
    if i < |nodes| - 1 { LastNodeWins(nodes[..|nodes| - 1], i); }
  }

  lemma NewNodesKeep(c: Contents, c': Contents)
    requires Coherent(c) && c'.outs == c.outs && c'.ins == c.ins && c.nodes.Keys <= c'.nodes.Keys
    requires forall id :: id in c'.nodes ==> c'.nodes[id].id == id
    ensures Coherent(c')
  {
    forall e ensures OutCount(c', e) == InCount(c', e) { assert OutCount(c, e) == InCount(c, e); }
  }

  // Discovery adds exactly the devices the rows name and touches nothing that was there.
  lemma {:induction false} DiscoverExact(c: Contents, rows: seq<seq<Cell>>)
    requires Coherent(c)
    ensures var c' := DiscoverRows(c, rows);
            && c'.outs == c.outs && c'.ins == c.ins
            && (forall id :: id in c.nodes ==> id in c'.nodes && c'.nodes[id] == c.nodes[id])
            && (forall id :: id in c'.nodes <==> id in c.nodes || exists row :: row in rows && Names(row, id))
            && (forall id :: id in c'.nodes && id !in c.nodes ==> c'.nodes[id].id == id)
            && Coherent(c')
  {
    if rows != [] {
      var (front, row) := (rows[..|rows| - 1], rows[|rows| - 1]);
      DiscoverExact(c, front);
      var b := DiscoverRows(c, front);
      var c' := DiscoverRows(c, rows);
      assert rows == front + [row];
      forall id ensures id in c'.nodes <==> id in c.nodes || exists r :: r in rows && Names(r, id) {
        if Names(row, id) { assert row in rows; }
        assert id in c'.nodes <==> id in b.nodes || Names(row, id);
      }
      NewNodesKeep(c, c');
    }
  }

  // A discovery fails iff the query did or answered fewer than two columns, and then
  // changes nothing.
  lemma DiscoveryAnswers(c: Contents, a: Answer)
    ensures var (c', r) := Discovered(c, a);
            && (r == Refused(QueryFailed) <==> a.Failed?)
            && (r.Refused? && a.Table? ==> a.columns < 2 && r == Refused(UnexpectedColumns(a.columns)) && c' == c)
            && (a.Table? && a.columns >= 2 ==> r == Done && c' == DiscoverRows(c, a.rows))
            && (a.Failed? ==> c' == c) && (a.Table? && a.columns < 2 ==> r.Refused?)
  {
  }

  // The first row that names `id` makes it node `n`.
  ghost predicate MadeByFirstRow(rows: seq<seq<Cell>>, id: string, n: Node) {
    exists i :: 0 <= i < |rows| && Names(rows[i], id) && (forall j :: 0 <= j < i ==> !Names(rows[j], id))
                && n == Node(id, MapKind(TextOf(rows[i][1])), map[])
  }

  lemma {:induction false} DiscoverFirst(c: Contents, rows: seq<seq<Cell>>, id: string)
    requires Coherent(c) && id !in c.nodes && id in DiscoverRows(c, rows).nodes
    ensures MadeByFirstRow(rows, id, DiscoverRows(c, rows).nodes[id])
  {
    if rows != [] {
      var m := |rows| - 1;
      var (front, row) := (rows[..m], rows[m]);
      var b := DiscoverRows(c, front);
      DiscoverExact(c, front);
      if id in b.nodes {
        DiscoverFirst(c, front, id);
        var i :| 0 <= i < m && Names(front[i], id) && (forall j :: 0 <= j < i ==> !Names(front[j], id))
                 && b.nodes[id] == Node(id, MapKind(TextOf(front[i][1])), map[]);
        assert Names(rows[i], id) && forall j :: 0 <= j < i ==> rows[j] == front[j];
      } else {
        assert Names(row, id);
        assert forall j :: 0 <= j < m ==> rows[j] in front;
      }
    }
  }

  // ---- Every mix of operations ---------------------------------------------

  datatype Operation = UpsertingNode(node: Node) | UpsertingEdge(edge: Edge)
                     | Loading(spec: Spec) | Discovering(answer: Answer)

  function Effect(c: Contents, op: Operation): (Contents, Verdict) {
    match op
    case UpsertingNode(n) => PutNode(c, n)
    case UpsertingEdge(e) => PutEdge(c, e)
    case Loading(spec) => Loaded(spec)
    case Discovering(a) => Discovered(c, a)
  }

  function After(c: Contents, ops: seq<Operation>): Contents {
    if ops == [] then c else Effect(After(c, ops[..|ops| - 1]), ops[|ops| - 1]).0
  }

  lemma LoadedCoherent(spec: Spec)
    ensures Coherent(Loaded(spec).0) && Loaded(spec).0.nodes == NodeMap(spec.nodes)
  {
    NodeMapFiled(spec.nodes);
    LinkAllKeeps(EMPTY.(nodes := NodeMap(spec.nodes)), spec.edges);
    LinkAllNodes(EMPTY.(nodes := NodeMap(spec.nodes)), spec.edges);
  }

  lemma EffectKeepsCoherent(c: Contents, op: Operation)
    requires Coherent(c)
    ensures Coherent(Effect(c, op).0)
  {
    match op {
      case UpsertingNode(n) => NewNodesKeep(c, PutNode(c, n).0);
      case UpsertingEdge(e) => LinkKeeps(c, e);
      case Loading(spec) => LoadedCoherent(spec);
      case Discovering(a) => if a.Table? { DiscoverExact(c, a.rows); }
    }
  }

  // Whatever operations a graph has been through, also ones that failed midway,
  // its two indexes agree.
  lemma {:induction false} RunKeepsCoherent(ops: seq<Operation>)
    ensures Coherent(After(EMPTY, ops))
  {
    if ops != [] {
      RunKeepsCoherent(ops[..|ops| - 1]);
      EffectKeepsCoherent(After(EMPTY, ops[..|ops| - 1]), ops[|ops| - 1]);
    }
  }

  // ---- Loading -------------------------------------------------------------

  predicate Known(nodes: map<string, Node>, e: Edge) { e.from in nodes && e.to in nodes }

  function UnknownEnd(nodes: map<string, Node>, e: Edge): GraphError {
    if e.from in nodes then UnknownTo(e.to) else UnknownFrom(e.from)
  }

  lemma LinkCountsAll(c: Contents, e: Edge)
    requires Link(c, e).1.Done?
    ensures forall f :: OutCount(Link(c, e).0, f) == OutCount(c, f) + multiset([e])[f]
  {
    forall f ensures OutCount(Link(c, e).0, f) == OutCount(c, f) + multiset([e])[f] {
      LinkCounts(c, e, f);
    }
  }

  lemma {:induction false} LinkAllCounts(c: Contents, edges: seq<Edge>)
    requires LinkAll(c, edges).1.Done?
    ensures forall e :: OutCount(LinkAll(c, edges).0, e) == OutCount(c, e) + multiset(edges)[e]
  {
    hide OutCount, Link;
    if edges != [] {
      var m := |edges| - 1;
      LinkAllCounts(c, edges[..m]);
      LinkCountsAll(LinkAll(c, edges[..m]).0, edges[m]);
      assert edges == edges[..m] + [edges[m]];
    }
  }

  // Loading links the edges before the first one that names an unknown node, and
  // succeeds iff there is none.
  lemma {:induction false} LinkAllUntilUnknown(c: Contents, edges: seq<Edge>) returns (n: nat)
    ensures n <= |edges| && (forall i :: 0 <= i < n ==> Known(c.nodes, edges[i]))
    ensures LinkAll(c, edges).1.Done? <==> n == |edges|
    ensures n < |edges| ==> !Known(c.nodes, edges[n])
                            && LinkAll(c, edges).1 == Refused(UnknownEnd(c.nodes, edges[n]))
    ensures LinkAll(c, edges[..n]) == (LinkAll(c, edges).0, Done)
  {
    hide Append, At;
    if edges == [] {
      n := 0;
    } else {
      var m := |edges| - 1;
      n := LinkAllUntilUnknown(c, edges[..m]);
      LinkAllNodes(c, edges[..m]);
      assert edges[..m][..n] == edges[..n];
      if LinkAll(c, edges[..m]).1.Done? && Known(c.nodes, edges[m]) {
        n := |edges|;
        assert edges[..n] == edges;
      }
    }
  }

  lemma LoadResult(spec: Spec) returns (n: nat)
    ensures var (c, r) := Loaded(spec);
            && c.nodes == NodeMap(spec.nodes)
            && n <= |spec.edges| && (r.Done? <==> n == |spec.edges|)
            && (forall i :: 0 <= i < n ==> Known(c.nodes, spec.edges[i]))
            && (n < |spec.edges| ==> !Known(c.nodes, spec.edges[n]) && r == Refused(UnknownEnd(c.nodes, spec.edges[n])))
            && (forall e :: OutCount(c, e) == InCount(c, e) == multiset(spec.edges[..n])[e])
  {
    var start := EMPTY.(nodes := NodeMap(spec.nodes));
    LoadedCoherent(spec);
    n := LinkAllUntilUnknown(start, spec.edges);
    LinkAllCounts(start, spec.edges[..n]);
  }

  // ---- Single updates ------------------------------------------------------

  // A node is accepted iff it has an id and a kind. It then answers to its id;
  // every other node and all edges stay.
  lemma UpsertNodeExact(c: Contents, n: Node)
    ensures var (c', r) := PutNode(c, n);
            && (r.Done? <==> n.id != "" && n.kind != "")
            && (n.id == "" ==> r == Refused(NodeIdRequired))
            && (n.id != "" && n.kind == "" ==> r == Refused(NodeKindRequired(n.id)))
            && (r.Refused? ==> c' == c)
            && (r.Done? ==> n.id in c'.nodes && c'.nodes[n.id] == n && c'.nodes.Keys == c.nodes.Keys + {n.id})
            && (forall id :: id in c.nodes && id != n.id ==> id in c'.nodes && c'.nodes[id] == c.nodes[id])
            && (forall e :: OutCount(c', e) == OutCount(c, e) && InCount(c', e) == InCount(c, e))
  {
  }

  // An edge is accepted iff it has a kind and both ends are nodes with names. The
  // graph then holds it once more, and every other edge and all nodes as before.
  lemma UpsertEdgeExact(c: Contents, e: Edge)
    ensures var (c', r) := PutEdge(c, e);
            && (r.Done? <==> e.from != "" && e.to != "" && e.kind != "" && Known(c.nodes, e))
            && (r == Refused(EndpointsRequired) <==> e.from == "" || e.to == "")
            && (r == Refused(EdgeKindRequired) <==> e.from != "" && e.to != "" && e.kind == "")
            && (r.Refused? && e.from != "" && e.to != "" && e.kind != "" ==>
                  r.error == if e.from in c.nodes then UnknownTo(e.to) else UnknownFrom(e.from))
            && (r.Refused? ==> c' == c)
            && c'.nodes == c.nodes
            && (forall f :: OutCount(c', f) == OutCount(c, f) + if r.Done? && f == e then 1 else 0)
            && (forall f :: InCount(c', f) == InCount(c, f) + if r.Done? && f == e then 1 else 0)
  {
    if PutEdge(c, e).1.Done? {
      forall f ensures OutCount(Link(c, e).0, f) == OutCount(c, f) + (if f == e then 1 else 0)
                    && InCount(Link(c, e).0, f) == InCount(c, f) + (if f == e then 1 else 0)
      {
        LinkCounts(c, e, f);
      }
    }
    hide OutCount, InCount, Append;
  }
}
