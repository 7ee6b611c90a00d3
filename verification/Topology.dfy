/**
 * From the stored tables to the drawn graph: the query joins flow rows with their VMs, the
 * graph folds what it returned, and the bytes on its edges are the bytes ingest logged.
 */
module Topology {
  import opened Prelude
  import opened FlowTable
  import IngestTx
  import opened GraphIds
  import opened GraphModel
  import opened GraphTraffic
  import opened GraphShape
  import GraphOrder

  /** How the database prints an address, and the columns it joins for a VM reference. */
  datatype Query = Query(host: Inet -> string, vmColumns: Option<string> -> Peer)

  function PeerOf(q: Query, vm: Option<string>, ip: Inet, port: int): Peer {
    q.vmColumns(vm).(vm := if vm.Some? then vm.value else "", ip := q.host(ip), port := port)
  }

  /** One line of the result. */
  function Selected(q: Query, r: Row): FlowRow {
    var k, c := r.key, r.counts;
    FlowRow(PeerOf(q, k.srcVm, k.srcIp, r.srcPort), PeerOf(q, k.dstVm, k.dstIp, k.dstPort), k.protocol, k.direction,
            k.scope,
            Totals(c.sent, c.received, c.packets, c.connections, c.requests, c.errors, c.retrans, c.http2, c.http4, c.http5),
            r.avgRtt, r.avgDelay, if r.lastStatus.Some? then r.lastStatus.value else 0, r.firstSeen, r.lastSeen,
            r.observedAt, r.lastErrorAt)
  }

  /** The column of the table that a column of the graph shows. */
  function StoredColumn(c: GraphOrder.Column): Column {
    match c
    case BytesSent => BytesSent
    case BytesReceived => BytesReceived
    case Packets => Packets
    case Connections => Connections
    case Requests => Requests
    case Errors => Errors
    case Retrans => Retrans
    case Http2 => Http2
    case Http4 => Http4
    case Http5 => Http5
  }

  /** Each line shows its row: every counter in its column, and the other columns by name. */
  lemma SelectedShows(q: Query, r: Row, c: GraphOrder.Column)
    ensures var l := Selected(q, r);
            && GraphOrder.ColumnOf(c, l.totals) == Recorded(StoredColumn(c), r.counts)
            && l.avgRtt == r.avgRtt && l.avgDelay == r.avgDelay && l.firstSeen == r.firstSeen && l.lastSeen == r.lastSeen
            && l.observedAt == r.observedAt && l.lastErrorAt == r.lastErrorAt
            && (r.lastStatus.Some? ==> l.lastStatus == r.lastStatus.value) && (r.lastStatus.None? ==> l.lastStatus == 0)
            && l.protocol == r.key.protocol && l.direction == r.key.direction && l.scope == r.key.scope
            && l.src.ip == q.host(r.key.srcIp) && l.dst.ip == q.host(r.key.dstIp)
            && l.src.port == r.srcPort && l.dst.port == r.key.dstPort
            && (l.src.vm == "" || r.key.srcVm == Some(l.src.vm)) && (r.key.srcVm.None? ==> l.src.vm == "")
            && (l.dst.vm == "" || r.key.dstVm == Some(l.dst.vm)) && (r.key.dstVm.None? ==> l.dst.vm == "")
            && (r.key.srcVm.Some? ==> l.src.vm == r.key.srcVm.value) && (r.key.dstVm.Some? ==> l.dst.vm == r.key.dstVm.value)
            && l.src.name == q.vmColumns(r.key.srcVm).name && l.dst.name == q.vmColumns(r.key.dstVm).name
  {
  }

  /** The result: whichever rows the filters, the order and the limit left, each once. */
  function Select(q: Query, rows: map<nat, Row>, ids: seq<nat>): seq<FlowRow>
    requires forall id :: id in ids ==> id in rows
  {
    if ids == [] then [] else Select(q, rows, Init(ids)) + [Selected(q, rows[Last(ids)])]
  }

  /** The rows of the result that end up on one of these edges. */
  function KeptIdsOn(env: Env, nodes: map<string, Node>, q: Query, rows: map<nat, Row>, ids: seq<nat>, on: set<string>): set<nat>
    requires forall id :: id in ids ==> id in rows
  {
    set id | id in ids && IsOn(env, nodes, Selected(q, rows[id]), on)
  }

  /** A stored row is kept and, turned round where needed, goes to one of these edges. */
  predicate IsOn(env: Env, nodes: map<string, Node>, row: FlowRow, on: set<string>) {
    Eligible(env, nodes, row) && RowId(Normalize(row)) in on
  }

  /** The bytes of the rows on these edges, as stored. */
  function KeptBytesOn(env: Env, nodes: map<string, Node>, rows: seq<FlowRow>, on: set<string>): int {
    if rows == [] then 0
    else KeptBytesOn(env, nodes, Init(rows), on)
         + if IsOn(env, nodes, Last(rows), on) then Last(rows).totals.sent + Last(rows).totals.received else 0
  }

  /** The bytes of all log entries that went into one of these rows. */
  function LoggedBytes(log: seq<LogEntry>, ids: set<nat>): int {
    if log == [] then 0
    else
      var e := Last(log).arrival.event;
      LoggedBytes(Init(log), ids) + if Last(log).flowId in ids then e.sent + e.received else 0
  }

  function RowBytes(c: Counts): int { c.sent + c.received }

  // ---------------------------------------------------------------- log entries per row

  /** A row's log entries weigh what its cumulative counters say. */
  lemma {:induction false} LogOneMore(log: seq<LogEntry>, ids: set<nat>, id: nat)
    requires id !in ids
    ensures LoggedBytes(log, ids + {id}) == LoggedBytes(log, ids) + RowBytes(SumCounts(Entries(log, id)))
  {
    if log != [] {
      LogOneMore(Init(log), ids, id);
      if Last(log).flowId == id {
        assert Init(Entries(log, id)) == Entries(Init(log), id);
        assert SumCounts(Entries(log, id)) == AddCounts(SumCounts(Entries(Init(log), id)), CountsOf(Last(log).arrival.event));
      }
    }
  }

  lemma {:induction false} NothingLogged(log: seq<LogEntry>)
    ensures LoggedBytes(log, {}) == 0
  {
    if log != [] { NothingLogged(Init(log)); }
  }

  /** Over any rows that agree with the log, the kept rows on any edges hold exactly the logged bytes. */
  lemma {:induction false} KeptBytesWereLogged(t: Tables, env: Env, nodes: map<string, Node>, q: Query, ids: seq<nat>, on: set<string>)
    requires LogInv(t) && Distinct(ids) && forall id :: id in ids ==> id in t.rows
    ensures KeptBytesOn(env, nodes, Select(q, t.rows, ids), on) == LoggedBytes(t.log, KeptIdsOn(env, nodes, q, t.rows, ids, on))
  {
    hide IsOn, Agrees, LoggedBytes, Entries, SumCounts, PeerOf;
    if ids == [] {
      assert KeptIdsOn(env, nodes, q, t.rows, ids, on) == {};
      NothingLogged(t.log);
    } else {
      var rest, id := Init(ids), Last(ids);
      assert ids == rest + [id];
      KeptBytesWereLogged(t, env, nodes, q, rest, on);
      var line, before := Selected(q, t.rows[id]), KeptIdsOn(env, nodes, q, t.rows, rest, on);
      assert id !in before;
      BytesAgree(t.rows[id], Entries(t.log, id));
      LogOneMore(t.log, before, id);
      assert Init(Select(q, t.rows, ids)) == Select(q, t.rows, rest);
      assert KeptIdsOn(env, nodes, q, t.rows, ids, on) == if IsOn(env, nodes, line, on) then before + {id} else before;
    }
  }

  lemma BytesAgree(r: Row, xs: seq<Arrival>)
    requires Agrees(r, xs)
    ensures RowBytes(r.counts) == RowBytes(SumCounts(xs))
  {
  }

  // ---------------------------------------------------------------- sums over some of the edges

  function Restrict(edges: map<string, Edge>, on: set<string>): map<string, Edge> {
    map id | id in edges && id in on :: edges[id]
  }

  lemma RestrictUpdate(edges: map<string, Edge>, on: set<string>, id: string, e: Edge)
    ensures Restrict(edges[id := e], on) == if id in on then Restrict(edges, on)[id := e] else Restrict(edges, on)
  {
  }

  lemma RowAddsOn(g: Graph, r: FlowRow, on: set<string>)
    requires EdgesKeyed(g.edges) && RowOk(r)
    ensures SumEdges(Restrict(AddRow(g, r).edges, on), Bytes)
            == SumEdges(Restrict(g.edges, on), Bytes) + if RowId(r) in on then r.totals.sent + r.totals.received else 0
  {
    var id := RowId(r);
    var e := EdgeWith(Lookup(g.edges, id), SourceId(r), TargetId(r), r);
    RowEdge(g.edges, r);
    assert AddRow(g, r).edges == g.edges[id := e];
    hide EdgeWith, SourceId, TargetId, AddRow, SumEdges, RowId, RowOk, EdgeKeyed;
    RestrictUpdate(g.edges, on, id, e);
    if id in on { SumUpdate(Restrict(g.edges, on), Bytes, id, e); }
  }

  lemma {:induction false} RowsAddBytesOn(env: Env, g: Graph, rows: seq<FlowRow>, on: set<string>)
    requires EnvOk(env) && RowsOk(rows) && Fresh(g)
    ensures SumEdges(Restrict(AddRows(g, KeptRows(env, g.nodes, rows)).edges, on), Bytes) == KeptBytesOn(env, g.nodes, rows, on)
  {
    hide Eligible, AddRow, RowOk, Normalize, AddRows, Conserved, EdgesKeyed, RowId;
    if rows == [] {
      NoRows(g);
    } else {
      var rest, r := Init(rows), Normalize(Last(rows));
      assert RowOk(rows[|rows| - 1]);
      NormalizeOk(Last(rows));
      RowsAddBytesOn(env, g, rest, on);
      if Eligible(env, g.nodes, Last(rows)) {
        var ks := KeptRows(env, g.nodes, rest);
        KeptRowsOk(env, g.nodes, rest);
        FreshIsConserved(g);
        AddRowsConserve(g, ks);
        AddRowsSnoc(g, ks, r);
        RowAddsOn(AddRows(g, ks), r, on);
        NormalizeKeepsBytes(Last(rows));
      }
    }
  }

  /** No probe changes a sum over any of the edges. */
  lemma {:induction false} ProbesAddNothing(env: Env, base: Graph, probes: seq<ProbeRow>, on: set<string>, me: Measure)
    requires EdgesKeyed(base.edges) && WellShaped(base) && Conserved(base) && ProbesOk(probes)
    ensures SumEdges(Restrict(ProbeFold(env, base, probes).edges, on), me) == SumEdges(Restrict(base.edges, on), me)
  {
    if probes != [] {
      var g, p := ProbeFold(env, base, Init(probes)), Last(probes);
      assert ProbeOk(probes[|probes| - 1]);
      ProbesAddNothing(env, base, Init(probes), on, me);
      ProbeFoldKeeps(env, base, Init(probes));
      if ProbeKept(env, g.nodes, p) {
        ProbeEdge(env, base.edges, g.edges, p);
        var e := ProbeEdgeWith(env, Lookup(g.edges, ProbeId(p)), p);
        hide ProbeEdgeWith, SilentEdge, ProbeId, EdgesKeyed, WellShaped, Conserved, ProbeKept, ProbeOk, SumEdges;
        RestrictUpdate(g.edges, on, ProbeId(p), e);
        if ProbeId(p) in on { SilentSum(Restrict(g.edges, on), ProbeId(p), e, me); }
      }
    }
  }

  /** Edges that carry the same bytes add up to the same. */
  lemma {:induction false} SumSame(a: map<string, Edge>, b: map<string, Edge>)
    requires a.Keys == b.Keys && forall id :: id in a ==> a[id].totals == b[id].totals
    ensures SumEdges(a, Bytes) == SumEdges(b, Bytes)
    decreases |a|
  {
    if a == map[] {
      assert b == map[];
    } else {
      var k :| k in a;
      SumRemove(a, Bytes, k);
      SumRemove(b, Bytes, k);
      SumSame(a - {k}, b - {k});
    }
  }

  // ---------------------------------------------------------------- which edges are returned

  /** Some kept row of the edge was observed within the window; 0 is the zero time. */
  ghost predicate Live(env: Env, kept: seq<FlowRow>, id: string) {
    env.now < env.window || exists r :: r in kept && RowId(r) == id && env.now < r.observedAt + env.window
  }

  ghost predicate ShownRow(env: Env, kept: seq<FlowRow>, r: FlowRow) { env.visibility.includeIdle || Live(env, kept, RowId(r)) }

  lemma {:induction false} RowsOnMember(id: string, rs: seq<FlowRow>, r: FlowRow)
    ensures r in GraphOrder.RowsOn(id, rs) <==> r in rs && RowId(r) == id
  {
    hide RowId;
    if rs != [] {
      RowsOnMember(id, Init(rs), r);
      assert rs == Init(rs) + [Last(rs)];
    }
  }

  /** An edge of kept rows is returned exactly when idle edges are, or one of its rows is live. */
  lemma ShownExactlyWhen(env: Env, seed: Graph, rows: seq<FlowRow>, built: Graph, id: string)
    requires EnvOk(env) && RowsOk(rows) && seed.edges == map[] && Isolated(FlowFold(env, seed, rows), built)
    requires id in FlowFold(env, seed, rows).edges
    ensures id in ShownEdges(env, built.edges)
            <==> env.visibility.includeIdle || Live(env, KeptRows(env, seed.nodes, rows), id)
  {
    GraphOrder.EdgeSumsItsRows(env, seed, rows, id);
    var e, kept := FlowFold(env, seed, rows).edges[id], KeptRows(env, seed.nodes, rows);
    assert built.edges[id] == e;
    hide FlowFold, KeptRows, GraphOrder.RowsOn, RowId, GraphOrder.LatestError, GraphOrder.ColumnSum, NodesIsolated;
    LiveFromTimes(env, e.times, kept, id);
  }

  lemma LiveFromTimes(env: Env, t: Times, kept: seq<FlowRow>, id: string)
    requires GraphOrder.SpansRows(t, GraphOrder.RowsOn(id, kept))
    ensures env.now < t.lastObserved + env.window <==> Live(env, kept, id)
  {
    hide GraphOrder.RowsOn, RowId;
    var rs := GraphOrder.RowsOn(id, kept);
    forall r ensures r in rs <==> r in kept && RowId(r) == id { RowsOnMember(id, kept, r); }
    if env.now < t.lastObserved + env.window && t.lastObserved != 0 {
      var r :| r in rs && r.observedAt == t.lastObserved;
    }
  }

  lemma {:induction false} KeptMember(env: Env, nodes: map<string, Node>, rows: seq<FlowRow>, row: FlowRow)
    requires row in rows && Eligible(env, nodes, row)
    ensures Normalize(row) in KeptRows(env, nodes, rows)
  {
    hide Eligible, Normalize;
    assert rows == Init(rows) + [Last(rows)];
    if row in Init(rows) { KeptMember(env, nodes, Init(rows), row); }
  }

  lemma {:induction false} SelectMember(q: Query, rows: map<nat, Row>, ids: seq<nat>, id: nat)
    requires id in ids && forall i :: i in ids ==> i in rows
    ensures Selected(q, rows[id]) in Select(q, rows, ids)
  {
    hide Selected;
    assert ids == Init(ids) + [Last(ids)];
    if id in Init(ids) { SelectMember(q, rows, Init(ids), id); }
  }

  /** The rows of the result that are on a returned edge. */
  ghost function ReturnedIds(env: Env, nodes: map<string, Node>, q: Query, rows: map<nat, Row>, ids: seq<nat>): set<nat>
    requires forall id :: id in ids ==> id in rows
  {
    set id | id in ids && Eligible(env, nodes, Selected(q, rows[id]))
             && ShownRow(env, KeptRows(env, nodes, Select(q, rows, ids)), Normalize(Selected(q, rows[id])))
  }

  lemma ReturnedIdsAreOn(env: Env, seed: Graph, q: Query, rows: map<nat, Row>, ids: seq<nat>, built: Graph)
    requires forall id :: id in ids ==> id in rows
    requires EnvOk(env) && RowsOk(Select(q, rows, ids)) && seed.edges == map[]
    requires Isolated(FlowFold(env, seed, Select(q, rows, ids)), built)
    ensures ReturnedIds(env, seed.nodes, q, rows, ids)
            == KeptIdsOn(env, seed.nodes, q, rows, ids, ShownEdges(env, built.edges).Keys)
  {
    var lines := Select(q, rows, ids);
    hide Eligible, Normalize, Selected, Select, FlowFold, KeptRows, RowId, Isolated, Live, ShownEdges, GraphOrder.RowsOn;
    forall id | id in ids && Eligible(env, seed.nodes, Selected(q, rows[id]))
      ensures ShownRow(env, KeptRows(env, seed.nodes, lines), Normalize(Selected(q, rows[id])))
              <==> RowId(Normalize(Selected(q, rows[id]))) in ShownEdges(env, built.edges).Keys
    {
      var r := Normalize(Selected(q, rows[id]));
      SelectMember(q, rows, ids, id);
      KeptMember(env, seed.nodes, lines, Selected(q, rows[id]));
      RowsOnMember(RowId(r), KeptRows(env, seed.nodes, lines), r);
      GraphOrder.EdgeShowsItsRows(env, seed, lines, RowId(r));
      ShownExactlyWhen(env, seed, lines, built, RowId(r));
    }
  }

  // ---------------------------------------------------------------- rows of a run are well formed

  predicate SoundRequest(q: IngestTx.Request) {
    && IsVmId(q.srcVm) && (q.dstVm.Some? ==> IsVmId(q.dstVm.value)) && IsScope(q.scope)
    && IsProtocol(q.arrival.event.protocol) && q.arrival.event.srcPort >= 0 && q.arrival.event.dstPort >= 0
  }

  /** What registration and validation guarantee of the steps of a run. */
  predicate SoundStep(step: IngestTx.Step) {
    (step.Begin? ==> SoundRequest(step.request)) && (step.Resolve? ==> IsVmId(step.vm))
  }

  predicate SoundRow(r: Row) {
    && (r.key.srcVm.Some? ==> IsVmId(r.key.srcVm.value)) && (r.key.dstVm.Some? ==> IsVmId(r.key.dstVm.value))
    && IsScope(r.key.scope) && IsProtocol(r.key.protocol) && r.srcPort >= 0 && r.key.dstPort >= 0
  }

  ghost predicate SoundDb(db: IngestTx.Db) {
    && (forall id :: id in db.tables.rows ==> SoundRow(db.tables.rows[id]))
    && (forall t :: t in db.txs ==> SoundRequest(db.txs[t].request))
  }

  lemma CommitKeepsSound(w: IngestTx.World, db: IngestTx.Db, t: nat)
    requires SoundDb(db) && t in db.txs && db.txs[t].phase.Logged?
    ensures SoundDb(IngestTx.CommitTx(w, db, t))
  {
    hide IsVmId, IsScope, IsProtocol;
  }

  lemma ResolveKeepsSound(r: Row, tenants: map<string, string>, vm: string, tenant: string, ip: Inet)
    requires SoundRow(r) && IsVmId(vm)
    ensures SoundRow(ResolveRow(r, tenants, vm, tenant, ip))
  {
  }

  lemma StepKeepsSound(w: IngestTx.World, db: IngestTx.Db, step: IngestTx.Step)
    requires SoundDb(db) && SoundStep(step)
    ensures SoundDb(IngestTx.Do(w, db, step))
  {
    if IngestTx.Enabled(w, db, step) {
      match step {
        case Commit(t) => CommitKeepsSound(w, db, t);
        case Resolve(tenants, vm, tenant, ip) =>
          forall id | id in db.tables.rows ensures SoundRow(ResolveRow(db.tables.rows[id], tenants, vm, tenant, ip)) {
            ResolveKeepsSound(db.tables.rows[id], tenants, vm, tenant, ip);
          }
        case Expire(_, _) =>
          hide IsVmId, IsScope, IsProtocol;
        case _ =>
          hide SoundRequest, SoundRow;
      }
    }
  }

  lemma {:induction false} RunIsSound(w: IngestTx.World, steps: seq<IngestTx.Step>)
    requires forall i :: 0 <= i < |steps| ==> SoundStep(steps[i])
    ensures SoundDb(IngestTx.Run(w, steps))
  {
    hide SoundStep, SoundDb, IngestTx.Do;
    if steps == [] {
      EmptyIsSound();
    } else {
      assert SoundStep(steps[|steps| - 1]);
      RunIsSound(w, Init(steps));
      StepKeepsSound(w, IngestTx.Run(w, Init(steps)), Last(steps));
    }
  }

  lemma EmptyIsSound()
    ensures SoundDb(IngestTx.START)
  {
  }

  lemma {:induction false} SelectedOk(q: Query, rows: map<nat, Row>, ids: seq<nat>)
    requires forall id :: id in ids ==> id in rows && SoundRow(rows[id])
    requires forall ip :: IsIpText(q.host(ip))
    ensures RowsOk(Select(q, rows, ids))
  {
    hide IsVmId, IsScope, IsProtocol, IsIpText;
    if ids != [] {
      assert ids == Init(ids) + [Last(ids)];
      SelectedOk(q, rows, Init(ids));
      assert RowOk(Selected(q, rows[Last(ids)]));
    }
  }

  // ---------------------------------------------------------------- main result

  lemma ReturnedSum(env: Env, f: Filter, vms: seq<Vm>, rows: seq<FlowRow>, probes: seq<ProbeRow>)
    requires InputsOk(env, vms, rows, probes)
    ensures var built := Build(env, f, vms, rows, probes);
            SumEdges(Returned(env, built).edges, Bytes)
            == KeptBytesOn(env, Seed(f, vms), rows, ShownEdges(env, built.edges).Keys)
  {
    var seed, built := Graph(Seed(f, vms), map[]), Build(env, f, vms, rows, probes);
    var on := ShownEdges(env, built.edges).Keys;
    SumSame(ShownEdges(env, built.edges), Restrict(built.edges, on));
    SeedIsFresh(f, vms);
    FlowFoldKeepsShape(env, seed, rows);
    NodeTrafficIsEdgeTraffic(env, seed, rows);
    hide FlowFold, WellShaped, Conserved, Seed, SumEdges, Fresh, EnvOk, RowsOk, EdgesKeyed, ShownEdges, Restrict, KeptBytesOn;
    ProbesAddNothing(env, FlowFold(env, seed, rows), probes, on, Bytes);
    FoldAddsKeptRows(env, seed, rows);
    RowsAddBytesOn(env, seed, rows, on);
  }

  /**
   * After every interleaving of ingests, host resolutions and VM expiries on registered VMs,
   * and for every result the query may return, every filter and every list of VMs and probes:
   * the bytes on the edges that are returned are the bytes in the log entries of the rows that
   * are kept and, unless idle edges are shown, share an edge with a row that is still live.
   */
  lemma ShownBytesWereLogged(w: IngestTx.World, steps: seq<IngestTx.Step>, q: Query, ids: seq<nat>,
                             env: Env, f: Filter, vms: seq<Vm>, probes: seq<ProbeRow>)
    requires forall i :: 0 <= i < |steps| ==> SoundStep(steps[i])
    requires forall ip :: IsIpText(q.host(ip))
    requires Distinct(ids) && forall id :: id in ids ==> id in IngestTx.Run(w, steps).tables.rows
    requires EnvOk(env) && env.registered == Registered(vms) && ProbesOk(probes)
    ensures var t := IngestTx.Run(w, steps).tables;
            SumEdges(Returned(env, Build(env, f, vms, Select(q, t.rows, ids), probes)).edges, Bytes)
            == LoggedBytes(t.log, ReturnedIds(env, Seed(f, vms), q, t.rows, ids))
  {
    IngestTx.RunKeepsLog(w, steps);
    RunIsSound(w, steps);
    var t := IngestTx.Run(w, steps).tables;
    SelectedOk(q, t.rows, ids);
    var rows, seed := Select(q, t.rows, ids), Graph(Seed(f, vms), map[]);
    var built := Build(env, f, vms, rows, probes);
    ReturnedSum(env, f, vms, rows, probes);
    ProbesLeaveTrafficAlone(env, f, vms, rows, probes);
    assert Build(env, f, vms, rows, []) == FlowFold(env, seed, rows);
    hide FlowFold, ProbeFold, Seed, SumEdges, LogInv, Select, KeptIdsOn, ReturnedIds, EnvOk, RowsOk, Isolated, Build, ShownEdges, IngestTx.Run;
    ReturnedIdsAreOn(env, seed, q, t.rows, ids, built);
    KeptBytesWereLogged(t, env, Seed(f, vms), q, ids, ShownEdges(env, built.edges).Keys);
  }
}
