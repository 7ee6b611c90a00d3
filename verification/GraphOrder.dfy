/**
 * What of the graph does not depend on the order of the rows, and what exactly the rest is:
 * ids, sums, extremes, weights and node traffic do not; the shown port, the averages and
 * the last status are functions of the edge's own rows in row order.
 */
module GraphOrder {
  import opened Prelude
  import opened GraphIds
  import opened GraphModel
  import opened GraphTraffic
  import GraphShape
  import opened Smoothing

  // ---------------------------------------------------------------- the order-free part

  datatype Facts = Facts(source: string, target: string, protocol: string, scope: string,
                         totals: Totals, times: Times, weight: int)

  /** Node ids with their traffic, edge ids with their sums, times and weight. */
  datatype View = View(traffic: map<string, (int, int)>, edges: map<string, Facts>)

  function FactsOf(e: Edge): Facts { Facts(e.source, e.target, e.protocol, e.scope, e.totals, e.times, e.weight) }

  function Project(g: Graph): View {
    View(TrafficOf(g.nodes), map id | id in g.edges :: FactsOf(g.edges[id]))
  }

  function Count(m: map<string, (int, int)>, n: string, inBytes: int, outBytes: int): map<string, (int, int)> {
    m[n := if n in m then (m[n].0 + inBytes, m[n].1 + outBytes) else (inBytes, outBytes)]
  }

  function StartOf(r: FlowRow): Facts {
    Facts(SourceId(r), TargetId(r), r.protocol, r.scope, NO_TOTALS, Times(r.firstSeen, r.lastSeen, 0, None), 0)
  }

  function FactsWith(before: Option<Facts>, r: FlowRow): Facts {
    var f := if before.Some? then before.value else StartOf(r);
    var totals := AddTotals(f.totals, r.totals);
    f.(totals := totals, times := UpdateTimes(f.times, r), weight := EdgeWeight(totals.sent + totals.received))
  }

  function CountRow(m: map<string, (int, int)>, r: FlowRow): map<string, (int, int)> {
    Count(Count(m, SourceId(r), r.totals.received, r.totals.sent), TargetId(r), r.totals.sent, r.totals.received)
  }

  function ViewAdd(v: View, r: FlowRow): View {
    View(CountRow(v.traffic, r), v.edges[RowId(r) := FactsWith(Lookup(v.edges, RowId(r)), r)])
  }

  lemma CountCommutes(m: map<string, (int, int)>, a: string, i: int, o: int, b: string, j: int, p: int)
    ensures Count(Count(m, a, i, o), b, j, p) == Count(Count(m, b, j, p), a, i, o)
  {
  }

  function TrafficOf(nodes: map<string, Node>): map<string, (int, int)> {
    map n | n in nodes :: (nodes[n].trafficIn, nodes[n].trafficOut)
  }

  lemma EnsureCountsNothing(nodes: map<string, Node>, id: string, node: Node)
    requires node.trafficIn == 0 && node.trafficOut == 0
    ensures TrafficOf(EnsureNode(nodes, id, node)) == Count(TrafficOf(nodes), id, 0, 0)
  {
  }

  lemma AddTrafficCounts(nodes: map<string, Node>, id: string, i: int, o: int)
    requires id in nodes
    ensures TrafficOf(AddTraffic(nodes, id, i, o)) == Count(TrafficOf(nodes), id, i, o)
  {
  }

  lemma CountTwice(m: map<string, (int, int)>, n: string, i: int, o: int)
    ensures Count(Count(m, n, 0, 0), n, i, o) == Count(m, n, i, o)
  {
  }

  lemma ProjectTraffic(g: Graph, r: FlowRow)
    ensures Project(AddRow(g, r)).traffic == CountRow(Project(g).traffic, r)
  {
    var s, t := SourceId(r), TargetId(r);
    var i, o := r.totals.received, r.totals.sent;
    var nodes1 := EnsureNode(g.nodes, s, SourceNode(r));
    var nodes2 := EnsureNode(nodes1, t, TargetNode(r));
    var m := TrafficOf(g.nodes);
    EnsureCountsNothing(g.nodes, s, SourceNode(r));
    EnsureCountsNothing(nodes1, t, TargetNode(r));
    AddTrafficCounts(nodes2, s, i, o);
    AddTrafficCounts(AddTraffic(nodes2, s, i, o), t, o, i);
    hide Count, SourceId, TargetId, SourceNode, TargetNode, EdgeWith, RowId;
    CountCommutes(Count(m, s, 0, 0), t, 0, 0, s, i, o);
    CountTwice(m, s, i, o);
    CountTwice(Count(m, s, i, o), t, o, i);
  }

  lemma ProjectEdges(g: Graph, r: FlowRow)
    ensures Project(AddRow(g, r)).edges == Project(g).edges[RowId(r) := FactsWith(Lookup(Project(g).edges, RowId(r)), r)]
  {
    hide SourceId, TargetId, AddTotals, UpdateTimes, EdgeWeight, AddTraffic, NodesWith, RowId;
    var id := RowId(r);
    assert AddRow(g, r).edges == g.edges[id := EdgeWith(Lookup(g.edges, id), SourceId(r), TargetId(r), r)];
    assert FactsOf(EdgeWith(Lookup(g.edges, id), SourceId(r), TargetId(r), r)) == FactsWith(Lookup(Project(g).edges, id), r);
  }

  lemma ProjectAdd(g: Graph, r: FlowRow)
    ensures Project(AddRow(g, r)) == ViewAdd(Project(g), r)
  {
    ProjectTraffic(g, r);
    ProjectEdges(g, r);
    hide AddRow, Project, CountRow, FactsWith;
  }

  // ---------------------------------------------------------------- rows commute

  lemma CountRowsCommute(m: map<string, (int, int)>, a: FlowRow, b: FlowRow)
    ensures CountRow(CountRow(m, a), b) == CountRow(CountRow(m, b), a)
  {
    hide SourceId, TargetId, Count;
    var s, t, u, v := SourceId(a), TargetId(a), SourceId(b), TargetId(b);
    var ai, ao, bi, bo := a.totals.received, a.totals.sent, b.totals.received, b.totals.sent;
    var m1 := Count(m, s, ai, ao);
    CountCommutes(m1, t, ao, ai, u, bi, bo);
    CountCommutes(Count(m1, u, bi, bo), t, ao, ai, v, bo, bi);
    CountCommutes(m, s, ai, ao, u, bi, bo);
    CountCommutes(Count(m, u, bi, bo), s, ai, ao, v, bo, bi);
  }

  lemma TimesCommute(t: Times, a: FlowRow, b: FlowRow)
    ensures UpdateTimes(UpdateTimes(t, a), b) == UpdateTimes(UpdateTimes(t, b), a)
  {
  }

  lemma FirstTimesCommute(a: FlowRow, b: FlowRow)
    ensures UpdateTimes(UpdateTimes(Times(a.firstSeen, a.lastSeen, 0, None), a), b)
            == UpdateTimes(UpdateTimes(Times(b.firstSeen, b.lastSeen, 0, None), b), a)
  {
  }

  lemma FactsCommute(before: Option<Facts>, a: FlowRow, b: FlowRow)
    requires SourceId(a) == SourceId(b) && TargetId(a) == TargetId(b) && a.protocol == b.protocol && a.scope == b.scope
    ensures FactsWith(Some(FactsWith(before, a)), b) == FactsWith(Some(FactsWith(before, b)), a)
  {
    hide SourceId, TargetId, UpdateTimes, EdgeWeight;
    if before.Some? { TimesCommute(before.value.times, a, b); } else { FirstTimesCommute(a, b); }
  }

  lemma SameIdSameEnds(a: FlowRow, b: FlowRow)
    requires RowOk(a) && RowOk(b) && RowId(a) == RowId(b)
    ensures SourceId(a) == SourceId(b) && TargetId(a) == TargetId(b) && a.protocol == b.protocol && a.scope == b.scope
  {
    RowIdsOk(a);
    RowIdsOk(b);
    NamesArePlain(a.protocol);
    NamesArePlain(a.scope);
    NamesArePlain(b.protocol);
    NamesArePlain(b.scope);
    EdgeIdInjective(SourceId(a), TargetId(a), a.protocol, a.scope, SourceId(b), TargetId(b), b.protocol, b.scope);
  }

  lemma ViewAddCommutes(v: View, a: FlowRow, b: FlowRow)
    requires RowOk(a) && RowOk(b)
    ensures ViewAdd(ViewAdd(v, a), b) == ViewAdd(ViewAdd(v, b), a)
  {
    CountRowsCommute(v.traffic, a, b);
    if RowId(a) == RowId(b) {
      SameIdSameEnds(a, b);
      FactsCommute(Lookup(v.edges, RowId(a)), a, b);
    }
    hide CountRow, FactsWith, RowId, RowOk;
    EdgeUpdatesCommute(v.edges, RowId(a), RowId(b), a, b);
  }

  lemma EdgeUpdatesCommute(edges: map<string, Facts>, i: string, j: string, a: FlowRow, b: FlowRow)
    requires i == j ==> FactsWith(Some(FactsWith(Lookup(edges, i), a)), b) == FactsWith(Some(FactsWith(Lookup(edges, i), b)), a)
    ensures var x := edges[i := FactsWith(Lookup(edges, i), a)];
            var y := edges[j := FactsWith(Lookup(edges, j), b)];
            x[j := FactsWith(Lookup(x, j), b)] == y[i := FactsWith(Lookup(y, i), a)]
  {
    hide FactsWith;
  }

  // ---------------------------------------------------------------- permutations

  function ViewStep(env: Env, nodes: map<string, Node>, v: View, row: FlowRow): View {
    if Kept(env, nodes, Normalize(row)) then ViewAdd(v, Normalize(row)) else v
  }

  function ViewFold(env: Env, nodes: map<string, Node>, v: View, rows: seq<FlowRow>): View {
    if rows == [] then v else ViewStep(env, nodes, ViewFold(env, nodes, v, Init(rows)), Last(rows))
  }

  lemma ViewStepCommutes(env: Env, nodes: map<string, Node>, v: View, a: FlowRow, b: FlowRow)
    requires RowOk(a) && RowOk(b)
    ensures ViewStep(env, nodes, ViewStep(env, nodes, v, a), b) == ViewStep(env, nodes, ViewStep(env, nodes, v, b), a)
  {
    NormalizeOk(a);
    NormalizeOk(b);
    ViewAddCommutes(v, Normalize(a), Normalize(b));
    hide ViewAdd, Kept, Normalize, RowOk;
  }

  lemma ViewFoldSnoc(env: Env, nodes: map<string, Node>, v: View, rows: seq<FlowRow>, row: FlowRow)
    ensures ViewFold(env, nodes, v, rows + [row]) == ViewStep(env, nodes, ViewFold(env, nodes, v, rows), row)
  {
    hide ViewStep;
    assert Init(rows + [row]) == rows;
  }

  /** Any row may be taken last. */
  lemma {:induction false} TakeLast(env: Env, nodes: map<string, Node>, v: View, rows: seq<FlowRow>, i: nat)
    requires i < |rows| && RowsOk(rows)
    ensures ViewFold(env, nodes, v, rows)
            == ViewStep(env, nodes, ViewFold(env, nodes, v, rows[..i] + rows[i + 1..]), rows[i])
    decreases |rows|
  {
    hide ViewStep, RowOk;
    var rest, x := Init(rows), rows[i];
    if i == |rows| - 1 {
      assert rows[..i] + rows[i + 1..] == rest;
    } else {
      var last, without := Last(rows), rest[..i] + rest[i + 1..];
      TakeLast(env, nodes, v, rest, i);
      assert rows[..i] + rows[i + 1..] == without + [last];
      ViewFoldSnoc(env, nodes, v, without, last);
      assert RowOk(rows[|rows| - 1]) && RowOk(rows[i]);
      ViewStepCommutes(env, nodes, ViewFold(env, nodes, v, without), x, last);
    }
  }

  lemma {:induction false} PermutationsAgree(env: Env, nodes: map<string, Node>, v: View, xs: seq<FlowRow>, ys: seq<FlowRow>)
    requires RowsOk(xs) && RowsOk(ys) && multiset(xs) == multiset(ys)
    ensures ViewFold(env, nodes, v, xs) == ViewFold(env, nodes, v, ys)
    decreases |xs|
  {
    hide ViewStep, RowOk;
    MultisetHasLast(xs, ys);
    if xs != [] {
      var i :| 0 <= i < |ys| && ys[i] == Last(xs);
      MultisetRemoveBoth(xs, ys, i);
      PermutationsAgree(env, nodes, v, Init(xs), ys[..i] + ys[i + 1..]);
      TakeLast(env, nodes, v, ys, i);
    }
  }

  lemma {:induction false} ProjectFold(env: Env, g: Graph, rows: seq<FlowRow>)
    requires EnvOk(env) && RowsOk(rows)
    ensures Project(FlowFold(env, g, rows)) == ViewFold(env, g.nodes, Project(g), rows)
  {
    hide AddRow, ViewAdd, Project, Kept, Normalize, SameVisible, RowOk;
    if rows != [] {
      var h, r := FlowFold(env, g, Init(rows)), Normalize(Last(rows));
      ProjectFold(env, g, Init(rows));
      FoldKeepsVisible(env, g, Init(rows));
      KeptIsStatic(env, h.nodes, g.nodes, r);
      ProjectAdd(h, r);
    }
  }

  /**
   * For any two orders of the same rows the fold gives the same node ids, edge ids, counters,
   * first and last seen, last observed, last error, weight and node traffic.
   */
  lemma RowOrderDoesNotMatter(env: Env, g: Graph, xs: seq<FlowRow>, ys: seq<FlowRow>)
    requires EnvOk(env) && RowsOk(xs) && RowsOk(ys) && multiset(xs) == multiset(ys)
    ensures Project(FlowFold(env, g, xs)) == Project(FlowFold(env, g, ys))
  {
    ProjectFold(env, g, xs);
    ProjectFold(env, g, ys);
    PermutationsAgree(env, g.nodes, Project(g), xs, ys);
  }

  // ---------------------------------------------------------------- what row order decides

  /** The kept rows of one edge, in row order. */
  function RowsOn(id: string, rs: seq<FlowRow>): seq<FlowRow> {
    if rs == [] then [] else if RowId(Last(rs)) == id then RowsOn(id, Init(rs)) + [Last(rs)] else RowsOn(id, Init(rs))
  }

  function Ports(rs: seq<FlowRow>): seq<int> { if rs == [] then [] else Ports(Init(rs)) + [Last(rs).dst.port] }

  function Rtts(rs: seq<FlowRow>): seq<real> { if rs == [] then [] else Rtts(Init(rs)) + [Last(rs).avgRtt] }

  function Delays(rs: seq<FlowRow>): seq<real> { if rs == [] then [] else Delays(Init(rs)) + [Last(rs).avgDelay] }

  function ShownPort(ps: seq<int>): int {
    if ps == [] then 0 else if |ps| == 1 then ps[0] else PreferredPort(ShownPort(Init(ps)), Last(ps))
  }

  function LastCode(rs: seq<FlowRow>): int {
    if rs == [] then 0 else if Last(rs).lastStatus != 0 then Last(rs).lastStatus else LastCode(Init(rs))
  }

  ghost predicate ShowsRows(e: Edge, rs: seq<FlowRow>) {
    && rs != [] && e.dstPort == ShownPort(Ports(rs))
    && e.avgRtt == GraphSmooth(Rtts(rs)) && e.avgDelay == GraphSmooth(Delays(rs))
    && e.lastStatus == LastCode(rs)
  }

  ghost predicate EdgesShowRows(edges: map<string, Edge>, rs: seq<FlowRow>) {
    && (forall id :: id in edges <==> RowsOn(id, rs) != [])
    && (forall id :: id in edges ==> ShowsRows(edges[id], RowsOn(id, rs)))
  }

  lemma EdgeShowsOneMore(before: Option<Edge>, s: string, t: string, rs: seq<FlowRow>, r: FlowRow)
    requires before.Some? ==> ShowsRows(before.value, rs)
    requires before.None? ==> rs == []
    ensures ShowsRows(EdgeWith(before, s, t, r), rs + [r])
  {
    hide AddTotals, UpdateTimes, EdgeWeight, MergeAverageMetric, PreferredPort;
    var ts := rs + [r];
    assert Init(ts) == rs && Last(ts) == r;
    assert Init(Ports(ts)) == Ports(rs) && Init(Rtts(ts)) == Rtts(rs) && Init(Delays(ts)) == Delays(rs);
    PortsLength(rs);
    PortsLength(ts);
    var e := EdgeWith(before, s, t, r);
    assert Last(Ports(ts)) == r.dst.port && Last(Rtts(ts)) == r.avgRtt && Last(Delays(ts)) == r.avgDelay;
    assert e.dstPort == ShownPort(Ports(ts));
    assert e.avgRtt == GraphSmooth(Rtts(ts));
    assert e.avgDelay == GraphSmooth(Delays(ts));
    assert rs == [] ==> LastCode(rs) == 0;
    assert e.lastStatus == LastCode(ts);
  }

  lemma {:induction false} PortsLength(rs: seq<FlowRow>)
    ensures |Ports(rs)| == |rs|
  {
    if rs != [] { PortsLength(Init(rs)); }
  }

  lemma {:induction false} AddedEdgesShowRows(g: Graph, rs: seq<FlowRow>)
    requires g.edges == map[]
    ensures EdgesShowRows(AddRows(g, rs).edges, rs)
  {
    hide ShowsRows, EdgeWith, RowId, NodesWith, AddTraffic;
    if rs != [] {
      var rest, r := Init(rs), Last(rs);
      AddedEdgesShowRows(g, rest);
      var h := AddRows(g, rest);
      EdgeShowsOneMore(Lookup(h.edges, RowId(r)), SourceId(r), TargetId(r), RowsOn(RowId(r), rest), r);
    }
  }

  predicate NonNegative(ps: seq<int>) { forall i :: 0 <= i < |ps| ==> ps[i] >= 0 }

  /** A service port: neither absent nor ephemeral. */
  predicate IsService(p: int) { 1 <= p <= 32767 }

  function FirstService(ps: seq<int>): int {
    if ps == [] then 0
    else if FirstService(Init(ps)) != 0 then FirstService(Init(ps))
    else if IsService(Last(ps)) then Last(ps) else 0
  }

  lemma {:induction false} ShownPortLaw(ps: seq<int>)
    requires NonNegative(ps)
    ensures FirstService(ps) != 0 ==> ShownPort(ps) == FirstService(ps) && IsService(FirstService(ps))
    ensures FirstService(ps) == 0 ==> !IsService(ShownPort(ps)) && ShownPort(ps) >= 0
    ensures FirstService(ps) == 0 <==> forall i :: 0 <= i < |ps| ==> !IsService(ps[i])
  {
    if ps != [] {
      ShownPortLaw(Init(ps));
      assert ps[|ps| - 1] == Last(ps);
      forall i | 0 <= i < |ps| - 1 ensures ps[i] == Init(ps)[i] {}
    }
  }

  lemma {:induction false} PortsOk(id: string, rs: seq<FlowRow>)
    requires RowsOk(rs)
    ensures NonNegative(Ports(RowsOn(id, rs)))
  {
    hide RowId;
    if rs != [] {
      assert RowOk(rs[|rs| - 1]);
      PortsOk(id, Init(rs));
      if RowId(Last(rs)) == id {
        assert Init(RowsOn(id, rs)) == RowsOn(id, Init(rs));
        assert Ports(RowsOn(id, rs)) == Ports(RowsOn(id, Init(rs))) + [Last(rs).dst.port];
      }
    }
  }

  /**
   * Each edge shows, of its kept rows in row order: the first service port when any row has
   * one, the convex average of the positive latencies, and the last status that was one.
   */
  lemma EdgeShowsItsRows(env: Env, g: Graph, rows: seq<FlowRow>, id: string)
    requires EnvOk(env) && RowsOk(rows) && g.edges == map[]
    ensures var rs := RowsOn(id, KeptRows(env, g.nodes, rows));
            var edges := FlowFold(env, g, rows).edges;
            && (id in edges <==> rs != [])
            && (id in edges ==>
                  && (FirstService(Ports(rs)) != 0 ==> edges[id].dstPort == FirstService(Ports(rs)))
                  && edges[id].avgRtt == Smooth(Rtts(rs)) && edges[id].avgDelay == Smooth(Delays(rs))
                  && edges[id].lastStatus == LastCode(rs))
  {
    hide FlowFold, KeptRows, RowsOn, AddRows, ShowsRows, Smooth, Rtts, Delays, Ports, FirstService, LastCode;
    var ks := KeptRows(env, g.nodes, rows);
    FoldAddsKeptRows(env, g, rows);
    KeptRowsOk(env, g.nodes, rows);
    AddedEdgesShowRows(g, ks);
    PortsOk(id, ks);
    var edges := AddRows(g, ks).edges;
    assert id in edges <==> RowsOn(id, ks) != [];
    if id in edges {
      assert ShowsRows(edges[id], RowsOn(id, ks));
      ShownRows(edges[id], RowsOn(id, ks));
    }
  }

  lemma ShownRows(e: Edge, rs: seq<FlowRow>)
    requires ShowsRows(e, rs) && NonNegative(Ports(rs))
    ensures FirstService(Ports(rs)) != 0 ==> e.dstPort == FirstService(Ports(rs))
    ensures e.avgRtt == Smooth(Rtts(rs)) && e.avgDelay == Smooth(Delays(rs)) && e.lastStatus == LastCode(rs)
  {
    hide Smooth, GraphSmooth, FirstService, ShownPort, Ports, Rtts, Delays;
    ShownPortLaw(Ports(rs));
    GraphSmoothIsSmooth(Rtts(rs));
    GraphSmoothIsSmooth(Delays(rs));
  }

  // ---------------------------------------------------------------- what the order-free part is

  datatype Column = BytesSent | BytesReceived | Packets | Connections | Requests | Errors | Retrans
                  | Http2 | Http4 | Http5

  function ColumnOf(c: Column, t: Totals): int {
    match c
    case BytesSent => t.sent
    case BytesReceived => t.received
    case Packets => t.packets
    case Connections => t.connections
    case Requests => t.requests
    case Errors => t.errors
    case Retrans => t.retrans
    case Http2 => t.http2
    case Http4 => t.http4
    case Http5 => t.http5
  }

  function ColumnSum(c: Column, rs: seq<FlowRow>): int {
    if rs == [] then 0 else ColumnSum(c, Init(rs)) + ColumnOf(c, Last(rs).totals)
  }

  ghost predicate SpansRows(t: Times, rs: seq<FlowRow>) {
    && (exists r :: r in rs && r.firstSeen == t.firstSeen) && (forall r :: r in rs ==> t.firstSeen <= r.firstSeen)
    && (exists r :: r in rs && r.lastSeen == t.lastSeen) && (forall r :: r in rs ==> r.lastSeen <= t.lastSeen)
    && (t.lastObserved == 0 || exists r :: r in rs && r.observedAt == t.lastObserved)
    && 0 <= t.lastObserved && (forall r :: r in rs ==> r.observedAt <= t.lastObserved)
  }

  /** The latest error of any row, and null when no row had one. */
  ghost predicate LatestError(e: Option<int>, rs: seq<FlowRow>) {
    && (e.Some? ==> exists r :: r in rs && r.lastErrorAt == e)
    && (forall r :: r in rs && r.lastErrorAt.Some? ==> e.Some? && r.lastErrorAt.value <= e.value)
  }

  ghost predicate SumsRows(e: Edge, rs: seq<FlowRow>) {
    && (forall c: Column :: ColumnOf(c, e.totals) == ColumnSum(c, rs))
    && SpansRows(e.times, rs) && LatestError(e.times.lastErrorAt, rs)
    && Weighs(e.weight, ColumnSum(BytesSent, rs) + ColumnSum(BytesReceived, rs))
    && !e.failed && !e.reachable
  }

  /** One for little traffic, and one more from 100 KiB, 1 MiB, 10 MiB and 100 MiB on. */
  predicate Weighs(weight: int, bytes: int) {
    && 1 <= weight <= 5 && (weight >= 2 <==> bytes >= 102_400) && (weight >= 3 <==> bytes >= 1_048_576)
    && (weight >= 4 <==> bytes >= 10_485_760) && (weight >= 5 <==> bytes >= 104_857_600)
  }

  lemma WeightMeans(bytes: int)
    ensures Weighs(EdgeWeight(bytes), bytes)
  {
  }

  lemma TotalsOneMore(t: Totals, rs: seq<FlowRow>, r: FlowRow)
    requires forall c: Column :: ColumnOf(c, t) == ColumnSum(c, rs)
    ensures forall c: Column :: ColumnOf(c, AddTotals(t, r.totals)) == ColumnSum(c, rs + [r])
  {
    forall c: Column ensures ColumnOf(c, AddTotals(t, r.totals)) == ColumnSum(c, rs + [r]) {
      assert Init(rs + [r]) == rs;
      assert ColumnOf(c, t) == ColumnSum(c, rs);
    }
  }

  lemma FirstSpan(r: FlowRow)
    ensures var t := UpdateTimes(Times(r.firstSeen, r.lastSeen, 0, None), r);
            SpansRows(t, [r]) && LatestError(t.lastErrorAt, [r])
  {
    assert r in [r];
  }

  lemma SpanOneMore(t: Times, rs: seq<FlowRow>, r: FlowRow)
    requires SpansRows(t, rs) && LatestError(t.lastErrorAt, rs)
    ensures SpansRows(UpdateTimes(t, r), rs + [r]) && LatestError(UpdateTimes(t, r).lastErrorAt, rs + [r])
  {
    var ts := rs + [r];
    assert r in ts && forall x :: x in ts <==> x in rs || x == r;
    var f :| f in rs && f.firstSeen == t.firstSeen;
    var l :| l in rs && l.lastSeen == t.lastSeen;
    assert f in ts && l in ts;
    if t.lastObserved != 0 { var o :| o in rs && o.observedAt == t.lastObserved; assert o in ts; }
    if t.lastErrorAt.Some? { var e :| e in rs && e.lastErrorAt == t.lastErrorAt; assert e in ts; }
  }

  lemma EdgeSumsOneMore(before: Option<Edge>, s: string, t: string, rs: seq<FlowRow>, r: FlowRow)
    requires before.Some? ==> SumsRows(before.value, rs)
    requires before.None? ==> rs == []
    ensures SumsRows(EdgeWith(before, s, t, r), rs + [r])
  {
    var e := EdgeWith(before, s, t, r);
    WeightMeans(e.totals.sent + e.totals.received);
    if before.Some? {
      TotalsOneMore(before.value.totals, rs, r);
      SpanOneMore(before.value.times, rs, r);
    } else {
      assert forall c: Column :: ColumnOf(c, NO_TOTALS) == ColumnSum(c, []);
      TotalsOneMore(NO_TOTALS, rs, r);
      FirstSpan(r);
    }
    hide AddTotals, UpdateTimes, SpansRows, LatestError, MergeAverageMetric, PreferredPort, EdgeWeight, Weighs, ColumnSum;
    assert ColumnOf(BytesSent, e.totals) == e.totals.sent && ColumnOf(BytesReceived, e.totals) == e.totals.received;
  }

  lemma {:induction false} AddedEdgesSumRows(g: Graph, rs: seq<FlowRow>, id: string)
    requires g.edges == map[]
    ensures var edges := AddRows(g, rs).edges;
            (id in edges <==> RowsOn(id, rs) != []) && (id in edges ==> SumsRows(edges[id], RowsOn(id, rs)))
  {
    hide SumsRows, EdgeWith, RowId, NodesWith, AddTraffic;
    if rs != [] {
      var rest, r := Init(rs), Last(rs);
      AddedEdgesSumRows(g, rest, id);
      var h := AddRows(g, rest);
      if RowId(r) == id { EdgeSumsOneMore(Lookup(h.edges, id), SourceId(r), TargetId(r), RowsOn(id, rest), r); }
    }
  }

  /**
   * Every edge is the sum of its kept rows in each counter, spans their times, carries their
   * latest error and weighs what their bytes weigh.
   */
  lemma EdgeSumsItsRows(env: Env, g: Graph, rows: seq<FlowRow>, id: string)
    requires EnvOk(env) && RowsOk(rows) && g.edges == map[] && id in FlowFold(env, g, rows).edges
    ensures SumsRows(FlowFold(env, g, rows).edges[id], RowsOn(id, KeptRows(env, g.nodes, rows)))
  {
    hide FlowFold, KeptRows, RowsOn, AddRows, SumsRows;
    FoldAddsKeptRows(env, g, rows);
    AddedEdgesSumRows(g, KeptRows(env, g.nodes, rows), id);
  }

  /**
   * A traffic edge is returned as failed exactly until the window after its rows' latest error
   * ends. 0 is the zero time, which counts as no error.
   */
  lemma TrafficFailsForAWindow(env: Env, e: Edge, rs: seq<FlowRow>)
    requires SumsRows(e, rs) && e.times.lastErrorAt != Some(0)
    ensures GraphShape.SetActivity(env, e).failed
            <==> exists r :: r in rs && r.lastErrorAt.Some? && env.now < r.lastErrorAt.value + env.window
  {
    hide SpansRows, Weighs;
  }

  // ---------------------------------------------------------------- turning round

  /** Normalising settles the direction: once is enough, and only a service's response is turned. */
  lemma NormalizeSettles(r: FlowRow)
    ensures Normalize(Normalize(r)) == Normalize(r)
    ensures (Normalize(r).src == r.src && Normalize(r).dst == r.dst)
            || (Normalize(r).src == r.dst && Normalize(r).dst == r.src && IsService(r.src.port) && IsEphemeral(r.dst.port))
  {
  }

  /** A service's response seen where it leaves: the client's side has already counted the request. */
  predicate OwnResponse(r: FlowRow) { ShouldFlip(r.src.port, r.dst.port) && r.direction == EGRESS }

  /** What a stored row adds to a column of its edge. */
  function Share(c: Column, r: FlowRow): int {
    match c
    case BytesSent => if ShouldFlip(r.src.port, r.dst.port) then r.totals.received else r.totals.sent
    case BytesReceived => if ShouldFlip(r.src.port, r.dst.port) then r.totals.sent else r.totals.received
    case Connections => if OwnResponse(r) then 0 else r.totals.connections
    case Requests => if OwnResponse(r) then 0 else r.totals.requests
    case _ => ColumnOf(c, r.totals)
  }

  /** The shares of the stored rows that end up on one edge. */
  function ShareSum(env: Env, nodes: map<string, Node>, rows: seq<FlowRow>, id: string, c: Column): int {
    if rows == [] then 0
    else
      var r := Normalize(Last(rows));
      ShareSum(env, nodes, Init(rows), id, c) + if Eligible(env, nodes, Last(rows)) && RowId(r) == id then Share(c, Last(rows)) else 0
  }

  lemma NormalizedShare(r: FlowRow, c: Column)
    ensures ColumnOf(c, Normalize(r).totals) == Share(c, r)
  {
  }

  lemma NoneOn(id: string, c: Column)
    ensures ColumnSum(c, RowsOn(id, [])) == 0
  {
  }

  lemma OneMoreOn(id: string, ks: seq<FlowRow>, r: FlowRow, c: Column)
    ensures ColumnSum(c, RowsOn(id, ks + [r]))
            == ColumnSum(c, RowsOn(id, ks)) + if RowId(r) == id then ColumnOf(c, r.totals) else 0
  {
    hide RowId, ColumnOf;
    assert Init(ks + [r]) == ks;
    assert Init(RowsOn(id, ks) + [r]) == RowsOn(id, ks);
  }

  lemma {:induction false} SharesAddUp(env: Env, nodes: map<string, Node>, rows: seq<FlowRow>, id: string, c: Column)
    ensures ColumnSum(c, RowsOn(id, KeptRows(env, nodes, rows))) == ShareSum(env, nodes, rows, id, c)
  {
    hide Eligible, Normalize, RowId, ColumnOf, Share, RowsOn, ColumnSum;
    if rows == [] {
      NoneOn(id, c);
    } else {
      SharesAddUp(env, nodes, Init(rows), id, c);
      NormalizedShare(Last(rows), c);
      OneMoreOn(id, KeptRows(env, nodes, Init(rows)), Normalize(Last(rows)), c);
    }
  }

  /**
   * In terms of the stored rows: an edge holds, of each kept row on it, bytes in the client's
   * sense of sent and received, every request and connection except those of a service's own
   * egress row, and the other counters as they are.
   */
  lemma EdgeHoldsShares(env: Env, g: Graph, rows: seq<FlowRow>, id: string, c: Column)
    requires EnvOk(env) && RowsOk(rows) && g.edges == map[] && id in FlowFold(env, g, rows).edges
    ensures ColumnOf(c, FlowFold(env, g, rows).edges[id].totals) == ShareSum(env, g.nodes, rows, id, c)
  {
    EdgeSumsItsRows(env, g, rows, id);
    hide FlowFold, KeptRows, RowsOn, SpansRows, LatestError, EdgeWeight;
    SharesAddUp(env, g.nodes, rows, id, c);
  }

  /**
   * A client's row and the row its server reports for the same traffic land on one edge.
   * The server's requests and connections are left out when its row is an egress row and
   * added to the client's when it is an ingress row: a connection that both sides report is
   * then counted twice.
   */
  lemma BothSidesShareAnEdge(g: Graph, r: FlowRow, response: FlowRow)
    requires IsEphemeral(r.src.port) && IsService(r.dst.port)
    requires response.src == r.dst && response.dst == r.src && response.protocol == r.protocol && response.scope == r.scope
    ensures RowId(Normalize(r)) == RowId(Normalize(response)) == RowId(r)
    ensures var h := AddRow(AddRow(g, Normalize(r)), Normalize(response));
            var before := if RowId(r) in g.edges then g.edges[RowId(r)].totals else NO_TOTALS;
            && RowId(r) in h.edges
            && var t := h.edges[RowId(r)].totals;
            && t.sent == before.sent + r.totals.sent + response.totals.received
            && t.received == before.received + r.totals.received + response.totals.sent
            && t.requests == before.requests + r.totals.requests
                             + (if response.direction == EGRESS then 0 else response.totals.requests)
            && t.connections == before.connections + r.totals.connections
                                + (if response.direction == EGRESS then 0 else response.totals.connections)
  {
    var n := Normalize(response);
    assert n.src == r.src && n.dst == r.dst && Normalize(r) == r;
    hide SourceId, TargetId, NodesWith, AddTraffic, UpdateTimes, EdgeWeight, MergeAverageMetric, PreferredPort, EdgeId;
    assert RowId(n) == RowId(r);
    var e := EdgeWith(Lookup(g.edges, RowId(r)), SourceId(r), TargetId(r), r);
    assert AddRow(g, r).edges == g.edges[RowId(r) := e];
    assert e.totals == AddTotals(if RowId(r) in g.edges then g.edges[RowId(r)].totals else NO_TOTALS, r.totals);
  }
}
