/**
 * Conservation over the graph: edge ids are injective on the node ids the fold builds, so
 * a node's traffic is the traffic of its edges and no byte of a kept row is lost.
 */
module GraphTraffic {
  import opened Prelude
  import opened GraphIds
  import opened GraphModel

  // ---------------------------------------------------------------- sums over the edges of a graph

  datatype Measure = Out(node: string) | In(node: string) | Bytes

  function Eval(me: Measure, e: Edge): int {
    match me
    case Out(n) => (if e.source == n then e.totals.sent else 0) + (if e.target == n then e.totals.received else 0)
    case In(n) => (if e.source == n then e.totals.received else 0) + (if e.target == n then e.totals.sent else 0)
    case Bytes => e.totals.sent + e.totals.received
  }

  ghost function SumEdges(edges: map<string, Edge>, me: Measure): int {
    if edges == map[] then 0
    else
      var k :| k in edges;
      Eval(me, edges[k]) + SumEdges(edges - {k}, me)
  }

  lemma {:induction false} SumRemove(edges: map<string, Edge>, me: Measure, k: string)
    requires k in edges
    ensures SumEdges(edges, me) == Eval(me, edges[k]) + SumEdges(edges - {k}, me)
    decreases |edges|
  {
    hide Eval;
    var j :| j in edges && SumEdges(edges, me) == Eval(me, edges[j]) + SumEdges(edges - {j}, me);
    if j != k {
      SumRemove(edges - {j}, me, k);
      SumRemove(edges - {k}, me, j);
      assert edges - {j} - {k} == edges - {k} - {j};
    }
  }

  lemma SumUpdate(edges: map<string, Edge>, me: Measure, k: string, e: Edge)
    ensures SumEdges(edges[k := e], me)
            == SumEdges(edges, me) - (if k in edges then Eval(me, edges[k]) else 0) + Eval(me, e)
  {
    hide Eval;
    SumRemove(edges[k := e], me, k);
    assert edges[k := e] - {k} == edges - {k};
    if k in edges { SumRemove(edges, me, k); } else { assert edges - {k} == edges; }
  }

  // ---------------------------------------------------------------- the fold is over the kept rows

  /**
   * A stored row that belongs on the graph, in terms of the row and the settings: no port of
   * it is excluded, one of them is allowed if any are listed, neither address is noise or
   * listed, its two ends differ, and no registered VM of it was filtered out.
   */
  predicate Eligible(env: Env, nodes: map<string, Node>, r: FlowRow) {
    && r.src.port !in env.visibility.excludedPorts && r.dst.port !in env.visibility.excludedPorts
    && (env.visibility.allowedPorts == [] || r.src.port in env.visibility.allowedPorts || r.dst.port in env.visibility.allowedPorts)
    && !env.isNoise(r.src.ip) && !env.isNoise(r.dst.ip)
    && (r.src.ip in env.visibility.excludedIps ==> r.src.ip == "") && (r.dst.ip in env.visibility.excludedIps ==> r.dst.ip == "")
    && r.src.ip != r.dst.ip && (r.src.vm == r.dst.vm ==> r.src.vm == "")
    && (r.src.vm in env.registered ==> r.src.vm in nodes) && (r.dst.vm in env.registered ==> r.dst.vm in nodes)
  }

  lemma HiddenMeans(env: Env, r: FlowRow)
    ensures !Hidden(env, r)
            <==> && r.src.port !in env.visibility.excludedPorts && r.dst.port !in env.visibility.excludedPorts
                 && (env.visibility.allowedPorts == [] || r.src.port in env.visibility.allowedPorts || r.dst.port in env.visibility.allowedPorts)
                 && !env.isNoise(r.src.ip) && !env.isNoise(r.dst.ip)
                 && (r.src.ip in env.visibility.excludedIps ==> r.src.ip == "") && (r.dst.ip in env.visibility.excludedIps ==> r.dst.ip == "")
  {
  }

  /** The fold keeps a row, turned round or not, exactly when the stored row is eligible. */
  lemma KeptExactlyWhen(env: Env, nodes: map<string, Node>, row: FlowRow)
    ensures Kept(env, nodes, Normalize(row)) <==> Eligible(env, nodes, row)
  {
    HiddenMeans(env, Normalize(row));
    hide Hidden;
  }

  /** The rows that reach the graph, turned round where the fold turns them round. */
  function KeptRows(env: Env, nodes: map<string, Node>, rows: seq<FlowRow>): seq<FlowRow> {
    if rows == [] then []
    else
      var rest := KeptRows(env, nodes, Init(rows));
      if Eligible(env, nodes, Last(rows)) then rest + [Normalize(Last(rows))] else rest
  }

  function AddRows(g: Graph, rs: seq<FlowRow>): Graph {
    if rs == [] then g else AddRow(AddRows(g, Init(rs)), Last(rs))
  }

  ghost predicate RowsOk(rows: seq<FlowRow>) { forall i :: 0 <= i < |rows| ==> RowOk(rows[i]) }

  /** Registered VMs neither come nor go while rows are folded. */
  ghost predicate SameVisible(env: Env, a: map<string, Node>, b: map<string, Node>) {
    forall v :: v in env.registered ==> (v in a <==> v in b)
  }

  lemma AddRowKeepsVisible(env: Env, g: Graph, r: FlowRow)
    requires EnvOk(env) && RowOk(r) && Kept(env, g.nodes, r)
    ensures SameVisible(env, AddRow(g, r).nodes, g.nodes)
  {
    RowIdsOk(r);
    hide Hidden, SourceNode, TargetNode, EdgeWith, IsVmId;
  }

  lemma KeptIsStatic(env: Env, a: map<string, Node>, b: map<string, Node>, r: FlowRow)
    requires SameVisible(env, a, b)
    ensures Kept(env, a, r) == Kept(env, b, r)
  {
    hide Hidden;
  }

  lemma {:induction false} KeptRowsOk(env: Env, nodes: map<string, Node>, rows: seq<FlowRow>)
    requires RowsOk(rows)
    ensures RowsOk(KeptRows(env, nodes, rows))
  {
    hide Eligible, RowOk, Normalize;
    if rows != [] {
      assert RowOk(rows[|rows| - 1]);
      NormalizeOk(Last(rows));
      KeptRowsOk(env, nodes, Init(rows));
    }
  }

  lemma FlowStepKeepsVisible(env: Env, g: Graph, row: FlowRow)
    requires EnvOk(env) && RowOk(row)
    ensures SameVisible(env, FlowStep(env, g, row).nodes, g.nodes)
  {
    NormalizeOk(row);
    hide Kept, AddRow, RowOk, Normalize;
    if Kept(env, g.nodes, Normalize(row)) { AddRowKeepsVisible(env, g, Normalize(row)); }
  }

  lemma {:induction false} FoldKeepsVisible(env: Env, g: Graph, rows: seq<FlowRow>)
    requires EnvOk(env) && RowsOk(rows)
    ensures SameVisible(env, FlowFold(env, g, rows).nodes, g.nodes)
  {
    hide FlowStep, RowOk;
    if rows != [] {
      assert RowOk(rows[|rows| - 1]);
      FoldKeepsVisible(env, g, Init(rows));
      FlowStepKeepsVisible(env, FlowFold(env, g, Init(rows)), Last(rows));
    }
  }

  /** Folding is adding the kept rows one after the other; which rows are kept is fixed at the start. */
  lemma {:induction false} FoldAddsKeptRows(env: Env, g: Graph, rows: seq<FlowRow>)
    requires EnvOk(env) && RowsOk(rows)
    ensures FlowFold(env, g, rows) == AddRows(g, KeptRows(env, g.nodes, rows))
  {
    hide Kept, Eligible, AddRow, RowOk, Normalize, SameVisible;
    if rows != [] {
      var rest, r := Init(rows), Normalize(Last(rows));
      KeptExactlyWhen(env, g.nodes, Last(rows));
      FoldAddsKeptRows(env, g, rest);
      FoldKeepsVisible(env, g, rest);
      KeptIsStatic(env, FlowFold(env, g, rest).nodes, g.nodes, r);
      AddRowsSnoc(g, KeptRows(env, g.nodes, rest), r);
    }
  }

  lemma AddRowsSnoc(g: Graph, rs: seq<FlowRow>, r: FlowRow)
    ensures AddRows(g, rs + [r]) == AddRow(AddRows(g, rs), r)
  {
    hide AddRow;
    assert Init(rs + [r]) == rs;
  }

  // ---------------------------------------------------------------- edges keep their ends

  predicate EdgeKeyed(id: string, e: Edge) {
    id == EdgeId(e.source, e.target, e.protocol, e.scope) && !HasArrow(e.source) && IsProtocol(e.protocol)
    && IsScope(e.scope) && e.kind == Traffic
  }

  ghost predicate EdgesKeyed(edges: map<string, Edge>) { forall id :: id in edges ==> EdgeKeyed(id, edges[id]) }

  /** By injectivity, the edge a row finds under its id joins the row's own two nodes. */
  lemma RowFindsItsEdge(edges: map<string, Edge>, r: FlowRow)
    requires EdgesKeyed(edges) && RowOk(r) && RowId(r) in edges
    ensures var e := edges[RowId(r)];
            e.source == SourceId(r) && e.target == TargetId(r) && e.protocol == r.protocol && e.scope == r.scope
  {
    var e := edges[RowId(r)];
    RowIdsOk(r);
    assert EdgeKeyed(RowId(r), e);
    NamesArePlain(e.protocol);
    NamesArePlain(e.scope);
    NamesArePlain(r.protocol);
    NamesArePlain(r.scope);
    EdgeIdInjective(SourceId(r), TargetId(r), r.protocol, r.scope, e.source, e.target, e.protocol, e.scope);
  }

  lemma RowEdge(edges: map<string, Edge>, r: FlowRow)
    requires EdgesKeyed(edges) && RowOk(r)
    ensures var e := EdgeWith(Lookup(edges, RowId(r)), SourceId(r), TargetId(r), r);
            && EdgeKeyed(RowId(r), e) && e.source == SourceId(r) && e.target == TargetId(r)
            && e.totals == AddTotals(if RowId(r) in edges then edges[RowId(r)].totals else NO_TOTALS, r.totals)
  {
    RowIdsOk(r);
    if RowId(r) in edges { RowFindsItsEdge(edges, r); }
    hide SourceId, TargetId, AddTotals, UpdateTimes, IsProtocol, IsScope;
  }

  // ---------------------------------------------------------------- conservation

  function OutBytes(nodes: map<string, Node>, n: string): int { if n in nodes then nodes[n].trafficOut else 0 }

  function InBytes(nodes: map<string, Node>, n: string): int { if n in nodes then nodes[n].trafficIn else 0 }

  /** Every node's traffic is the traffic on its edges. */
  ghost predicate Conserved(g: Graph) {
    forall n :: OutBytes(g.nodes, n) == SumEdges(g.edges, Out(n)) && InBytes(g.nodes, n) == SumEdges(g.edges, In(n))
  }

  /** What one row adds to a measure. */
  function RowAmount(me: Measure, r: FlowRow): int {
    match me
    case Out(n) => (if SourceId(r) == n then r.totals.sent else 0) + (if TargetId(r) == n then r.totals.received else 0)
    case In(n) => (if SourceId(r) == n then r.totals.received else 0) + (if TargetId(r) == n then r.totals.sent else 0)
    case Bytes => r.totals.sent + r.totals.received
  }

  lemma RowAddsToEdges(g: Graph, r: FlowRow, me: Measure)
    requires EdgesKeyed(g.edges) && RowOk(r)
    ensures SumEdges(AddRow(g, r).edges, me) == SumEdges(g.edges, me) + RowAmount(me, r)
  {
    var id := RowId(r);
    var e := EdgeWith(Lookup(g.edges, id), SourceId(r), TargetId(r), r);
    RowEdge(g.edges, r);
    if id in g.edges { RowFindsItsEdge(g.edges, r); }
    SumUpdate(g.edges, me, id, e);
    assert AddRow(g, r).edges == g.edges[id := e];
    hide EdgeWith, SourceId, TargetId, AddRow, SumEdges, RowId;
  }

  lemma RowAddsToNodes(g: Graph, r: FlowRow, n: string)
    ensures OutBytes(AddRow(g, r).nodes, n) == OutBytes(g.nodes, n) + RowAmount(Out(n), r)
    ensures InBytes(AddRow(g, r).nodes, n) == InBytes(g.nodes, n) + RowAmount(In(n), r)
  {
    hide EdgeWith, SourceId, TargetId, ValueOr;
  }

  lemma AddRowConserves(g: Graph, r: FlowRow)
    requires EdgesKeyed(g.edges) && Conserved(g) && RowOk(r)
    ensures EdgesKeyed(AddRow(g, r).edges) && Conserved(AddRow(g, r))
  {
    RowEdge(g.edges, r);
    var h := AddRow(g, r);
    hide EdgeWith, AddTraffic, EdgeKeyed, SumEdges, RowAmount;
    forall n ensures OutBytes(h.nodes, n) == SumEdges(h.edges, Out(n)) && InBytes(h.nodes, n) == SumEdges(h.edges, In(n)) {
      RowAddsToEdges(g, r, Out(n));
      RowAddsToEdges(g, r, In(n));
      RowAddsToNodes(g, r, n);
    }
  }

  lemma {:induction false} AddRowsConserve(g: Graph, rs: seq<FlowRow>)
    requires EdgesKeyed(g.edges) && Conserved(g) && RowsOk(rs)
    ensures EdgesKeyed(AddRows(g, rs).edges) && Conserved(AddRows(g, rs))
  {
    if rs != [] {
      assert RowOk(rs[|rs| - 1]);
      AddRowsConserve(g, Init(rs));
      AddRowConserves(AddRows(g, Init(rs)), Last(rs));
    }
  }

  // ---------------------------------------------------------------- main results

  /** A graph before any row: the VM nodes of the filter, no traffic, no edges. */
  ghost predicate Fresh(g: Graph) {
    g.edges == map[] && forall n :: n in g.nodes ==> g.nodes[n].trafficIn == 0 && g.nodes[n].trafficOut == 0
                                                     && g.nodes[n].kind == VmNode
  }

  lemma FreshIsConserved(g: Graph)
    requires Fresh(g)
    ensures EdgesKeyed(g.edges) && Conserved(g)
  {
  }

  /**
   * For every list of rows, after the fold each node's outgoing traffic is the bytes sent on
   * edges leaving it plus the bytes received on edges entering it, and incoming traffic is
   * the mirror image.
   */
  lemma NodeTrafficIsEdgeTraffic(env: Env, g: Graph, rows: seq<FlowRow>)
    requires EnvOk(env) && RowsOk(rows) && Fresh(g)
    ensures Conserved(FlowFold(env, g, rows)) && EdgesKeyed(FlowFold(env, g, rows).edges)
  {
    FreshIsConserved(g);
    FoldAddsKeptRows(env, g, rows);
    KeptRowsOk(env, g.nodes, rows);
    AddRowsConserve(g, KeptRows(env, g.nodes, rows));
  }

  /** The bytes of the rows that are kept, counted before any turning round. */
  function KeptBytes(env: Env, nodes: map<string, Node>, rows: seq<FlowRow>): int {
    if rows == [] then 0
    else KeptBytes(env, nodes, Init(rows))
         + if Eligible(env, nodes, Last(rows)) then Last(rows).totals.sent + Last(rows).totals.received else 0
  }

  lemma {:induction false} RowsAddBytes(env: Env, g: Graph, rows: seq<FlowRow>)
    requires EnvOk(env) && RowsOk(rows) && Fresh(g)
    ensures SumEdges(AddRows(g, KeptRows(env, g.nodes, rows)).edges, Bytes) == KeptBytes(env, g.nodes, rows)
  {
    hide Eligible, AddRow, RowOk, Normalize, AddRows, Conserved, EdgesKeyed;
    if rows == [] {
      assert AddRows(g, []) == g by { NoRows(g); }
    } else {
      var rest, r := Init(rows), Normalize(Last(rows));
      assert RowOk(rows[|rows| - 1]);
      NormalizeOk(Last(rows));
      RowsAddBytes(env, g, rest);
      if Eligible(env, g.nodes, Last(rows)) {
        var ks := KeptRows(env, g.nodes, rest);
        KeptRowsOk(env, g.nodes, rest);
        FreshIsConserved(g);
        AddRowsConserve(g, ks);
        AddRowsSnoc(g, ks, r);
        RowAddsToEdges(AddRows(g, ks), r, Bytes);
        NormalizeKeepsBytes(Last(rows));
      }
    }
  }

  lemma NoRows(g: Graph)
    ensures AddRows(g, []) == g
  {
  }

  lemma NormalizeKeepsBytes(r: FlowRow)
    ensures var n := Normalize(r); n.totals.sent + n.totals.received == r.totals.sent + r.totals.received
  {
  }

  /** The bytes on all edges are the bytes of all kept rows, turned round or not. */
  lemma EdgeBytesAreRowBytes(env: Env, g: Graph, rows: seq<FlowRow>)
    requires EnvOk(env) && RowsOk(rows) && Fresh(g)
    ensures SumEdges(FlowFold(env, g, rows).edges, Bytes) == KeptBytes(env, g.nodes, rows)
  {
    FoldAddsKeptRows(env, g, rows);
    RowsAddBytes(env, g, rows);
  }
}
