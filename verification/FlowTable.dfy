/**
 * The two tables of the backend's ingest: one cumulative row per bucket key and an
 * append-only log of the windows that went into it. `Agrees` is the reference: it reads
 * a row off its log entries. Host resolution and VM expiry rewrite keys and references.
 */
module FlowTable {
  import opened Prelude
  import FlowState
  import opened Payload
  import opened Smoothing

  /** An address as the database compares it, not as it is spelled. */
  type Inet = int

  /** The columns the lookup compares. */
  datatype RowKey = RowKey(srcVm: Option<string>, dstVm: Option<string>, srcIp: Inet, dstIp: Inet,
                           protocol: string, dstPort: int, scope: string, direction: string)

  /** The key a window is stored under, once its two VMs and its scope are resolved. */
  function KeyFrom(inet: string -> Inet, e: FlowEvent, srcVm: string, dstVm: Option<string>, scope: string): RowKey {
    RowKey(Some(srcVm), dstVm, inet(e.srcIp), inet(e.dstIp), e.protocol, e.dstPort, scope, e.direction)
  }

  datatype Counts = Counts(sent: int, received: int, packets: int, connections: int, requests: int, errors: int,
                           retrans: int, http1: int, http2: int, http3: int, http4: int, http5: int)

  /** A validated window, the time it was observed and the start of its transaction. */
  datatype Arrival = Arrival(event: FlowEvent, observedAt: int, startedAt: int)

  datatype Row = Row(key: RowKey, agentId: Option<string>, srcPort: int, counts: Counts, avgRtt: real, avgDelay: real,
                     firstSeen: int, lastSeen: int, lastErrorAt: Option<int>, iface: Option<string>,
                     observedAt: int, lastStatus: Option<int>)

  datatype LogEntry = LogEntry(flowId: nat, arrival: Arrival, agentId: Option<string>,
                               srcVm: Option<string>, dstVm: Option<string>, scope: string)

  datatype Tables = Tables(rows: map<nat, Row>, log: seq<LogEntry>)

  // ---------------------------------------------------------------- statements on one row

  const NO_COUNTS := Counts(0, 0, 0, 0, 0, 0, 0, 0, 0, 0, 0, 0)

  function AddCounts(a: Counts, b: Counts): Counts {
    Counts(a.sent + b.sent, a.received + b.received, a.packets + b.packets, a.connections + b.connections,
           a.requests + b.requests, a.errors + b.errors, a.retrans + b.retrans, a.http1 + b.http1,
           a.http2 + b.http2, a.http3 + b.http3, a.http4 + b.http4, a.http5 + b.http5)
  }

  function CountsOf(e: FlowEvent): Counts {
    Counts(e.sent, e.received, e.packets, e.connections, e.requests, e.errors, e.retrans,
           e.http1, e.http2, e.http3, e.http4, e.http5)
  }

  function NullIfEmpty(s: string): Option<string> { if s == "" then None else Some(s) }

  function NullIfZeroStatus(code: int): Option<int> { if code < 100 || code > 599 then None else Some(code) }

  function LastErrorAt(a: Arrival): Option<int> { if a.event.errors <= 0 then None else Some(a.observedAt) }

  function Coalesce<T>(a: Option<T>, b: Option<T>): Option<T> { if a.Some? then a else b }

  /** The INSERT: `observed_at` is not in its column list and defaults to the transaction's start. */
  function NewRow(key: RowKey, a: Arrival): Row {
    Row(key, Some(a.event.agentId), a.event.srcPort, CountsOf(a.event), a.event.avgRttMs, a.event.avgDelayMs,
        a.event.firstSeen, a.event.lastSeen, LastErrorAt(a), NullIfEmpty(a.event.iface), a.startedAt,
        NullIfZeroStatus(a.event.lastStatus))
  }

  /** The UPDATE. */
  function UpdateRow(r: Row, a: Arrival): Row {
    r.(agentId := Some(a.event.agentId),
       counts := AddCounts(r.counts, CountsOf(a.event)),
       avgRtt := Blend(r.avgRtt, a.event.avgRttMs),
       avgDelay := Blend(r.avgDelay, a.event.avgDelayMs),
       firstSeen := Min(r.firstSeen, a.event.firstSeen),
       lastSeen := Max(r.lastSeen, a.event.lastSeen),
       lastErrorAt := if a.event.errors > 0
                      then Some(Max(if r.lastErrorAt.Some? then r.lastErrorAt.value else a.observedAt, a.observedAt))
                      else r.lastErrorAt,
       iface := Coalesce(NullIfEmpty(a.event.iface), r.iface),
       observedAt := a.observedAt,
       lastStatus := Coalesce(NullIfZeroStatus(a.event.lastStatus), r.lastStatus))
  }

  /** The row a list of ingests leaves when they run one after the other. */
  function SerialRow(key: RowKey, xs: seq<Arrival>): Row
    requires xs != []
  {
    if |xs| == 1 then NewRow(key, xs[0]) else UpdateRow(SerialRow(key, Init(xs)), Last(xs))
  }

  // ---------------------------------------------------------------- reference

  function SumCounts(xs: seq<Arrival>): Counts {
    if xs == [] then NO_COUNTS else AddCounts(SumCounts(Init(xs)), CountsOf(Last(xs).event))
  }

  function RttWindows(xs: seq<Arrival>): seq<real> {
    if xs == [] then [] else RttWindows(Init(xs)) + [Last(xs).event.avgRttMs]
  }

  function DelayWindows(xs: seq<Arrival>): seq<real> {
    if xs == [] then [] else DelayWindows(Init(xs)) + [Last(xs).event.avgDelayMs]
  }

  /** The latest status that was one, and the latest interface name that was given. */
  function LatestStatus(xs: seq<Arrival>): Option<int> {
    if xs == [] then None
    else if 100 <= Last(xs).event.lastStatus <= 599 then Some(Last(xs).event.lastStatus)
    else LatestStatus(Init(xs))
  }

  function LatestIface(xs: seq<Arrival>): Option<string> {
    if xs == [] then None else if Last(xs).event.iface != "" then Some(Last(xs).event.iface) else LatestIface(Init(xs))
  }

  ghost predicate IsFirstSeen(xs: seq<Arrival>, t: int) {
    (exists x :: x in xs && x.event.firstSeen == t) && forall x :: x in xs ==> t <= x.event.firstSeen
  }

  ghost predicate IsLastSeen(xs: seq<Arrival>, t: int) {
    (exists x :: x in xs && x.event.lastSeen == t) && forall x :: x in xs ==> x.event.lastSeen <= t
  }

  /** `t` is the latest observation time of a window with errors, and null when none had any. */
  ghost predicate IsErrorTime(xs: seq<Arrival>, t: Option<int>) {
    && (t.None? ==> forall x :: x in xs ==> x.event.errors <= 0)
    && (t.Some? ==> (exists x :: x in xs && x.event.errors > 0 && x.observedAt == t.value)
                    && forall x :: x in xs && x.event.errors > 0 ==> x.observedAt <= t.value)
  }

  ghost predicate TimesAgree(r: Row, xs: seq<Arrival>) {
    IsFirstSeen(xs, r.firstSeen) && IsLastSeen(xs, r.lastSeen) && IsErrorTime(xs, r.lastErrorAt)
  }

  /** The row says what its log entries say. */
  ghost predicate Agrees(r: Row, xs: seq<Arrival>) {
    && xs != []
    && r.counts == SumCounts(xs)
    && TimesAgree(r, xs)
    && r.lastStatus == LatestStatus(xs)
    && r.iface == LatestIface(xs)
    && r.srcPort == xs[0].event.srcPort
    && r.observedAt == (if |xs| == 1 then xs[0].startedAt else Last(xs).observedAt)
    && r.avgRtt == Smooth(RttWindows(xs))
    && r.avgDelay == Smooth(DelayWindows(xs))
  }

  /** The cumulative columns, one by one. */
  datatype Column = BytesSent | BytesReceived | Packets | Connections | Requests | Errors | Retrans
                  | Http1 | Http2 | Http3 | Http4 | Http5

  function Reported(c: Column, e: FlowEvent): int {
    match c
    case BytesSent => e.sent
    case BytesReceived => e.received
    case Packets => e.packets
    case Connections => e.connections
    case Requests => e.requests
    case Errors => e.errors
    case Retrans => e.retrans
    case Http1 => e.http1
    case Http2 => e.http2
    case Http3 => e.http3
    case Http4 => e.http4
    case Http5 => e.http5
  }

  function Recorded(c: Column, r: Counts): int {
    match c
    case BytesSent => r.sent
    case BytesReceived => r.received
    case Packets => r.packets
    case Connections => r.connections
    case Requests => r.requests
    case Errors => r.errors
    case Retrans => r.retrans
    case Http1 => r.http1
    case Http2 => r.http2
    case Http3 => r.http3
    case Http4 => r.http4
    case Http5 => r.http5
  }

  function ReportedSum(c: Column, xs: seq<Arrival>): int {
    if xs == [] then 0 else ReportedSum(c, Init(xs)) + Reported(c, Last(xs).event)
  }

  /** Each column of the counters is the plain sum of what the windows reported in it. */
  lemma {:induction false} ColumnsAreSums(xs: seq<Arrival>, c: Column)
    ensures Recorded(c, SumCounts(xs)) == ReportedSum(c, xs)
  {
    if xs != [] { ColumnsAreSums(Init(xs), c); }
  }

  // ---------------------------------------------------------------- one ingest keeps agreement

  lemma SmoothOne(v: real)
    requires v >= 0.0
    ensures Smooth([v]) == v
  {
    assert Init([v]) == [];
  }

  lemma NewTimes(key: RowKey, a: Arrival)
    ensures TimesAgree(NewRow(key, a), [a])
  {
    assert a in [a];
  }

  lemma NewRowAgrees(key: RowKey, a: Arrival)
    requires a.event.avgRttMs >= 0.0 && a.event.avgDelayMs >= 0.0
    ensures Agrees(NewRow(key, a), [a])
  {
    hide Smooth, TimesAgree, SumCounts, LatestStatus, LatestIface, RttWindows, DelayWindows;
    NewTimes(key, a);
    OneWindow(a);
    SmoothOne(a.event.avgRttMs);
    SmoothOne(a.event.avgDelayMs);
  }

  /** What one window reports. */
  lemma OneWindow(a: Arrival)
    ensures SumCounts([a]) == CountsOf(a.event)
    ensures LatestStatus([a]) == NullIfZeroStatus(a.event.lastStatus) && LatestIface([a]) == NullIfEmpty(a.event.iface)
    ensures RttWindows([a]) == [a.event.avgRttMs] && DelayWindows([a]) == [a.event.avgDelayMs]
  {
    var xs := [a];
    assert Init(xs) == [] && Last(xs) == a;
    assert SumCounts(xs) == AddCounts(SumCounts([]), CountsOf(a.event)) && SumCounts([]) == NO_COUNTS;
    assert LatestStatus([]) == None && LatestIface([]) == None;
    assert RttWindows(xs) == RttWindows([]) + [a.event.avgRttMs] && DelayWindows(xs) == DelayWindows([]) + [a.event.avgDelayMs];
  }

  lemma UpdateTimes(r: Row, xs: seq<Arrival>, a: Arrival)
    requires TimesAgree(r, xs)
    ensures TimesAgree(UpdateRow(r, a), xs + [a])
  {
    var ys := xs + [a];
    assert a in ys && forall x :: x in ys <==> x in xs || x == a;
    var f :| f in xs && f.event.firstSeen == r.firstSeen;
    var l :| l in xs && l.event.lastSeen == r.lastSeen;
    assert f in ys && l in ys;
    if r.lastErrorAt.Some? {
      var w :| w in xs && w.event.errors > 0 && w.observedAt == r.lastErrorAt.value;
      assert w in ys;
    }
  }

  lemma UpdateRowAgrees(r: Row, xs: seq<Arrival>, a: Arrival)
    requires Agrees(r, xs)
    ensures Agrees(UpdateRow(r, a), xs + [a])
  {
    hide Blend, AddCounts;
    var ys := xs + [a];
    assert Init(ys) == xs && Last(ys) == a && ys[0] == xs[0];
    UpdateTimes(r, xs, a);
    assert Init(RttWindows(ys)) == RttWindows(xs) && Init(DelayWindows(ys)) == DelayWindows(xs);
  }

  /** The serial row of any list of ingests agrees with that list, and keeps its key. */
  lemma {:induction false} SerialRowAgrees(key: RowKey, xs: seq<Arrival>)
    requires xs != [] && forall x :: x in xs ==> x.event.avgRttMs >= 0.0 && x.event.avgDelayMs >= 0.0
    ensures Agrees(SerialRow(key, xs), xs) && SerialRow(key, xs).key == key
    ensures SerialRow(key, xs).agentId == Some(Last(xs).event.agentId)
  {
    hide Agrees, UpdateRow, NewRow;
    if |xs| == 1 {
      assert xs == [xs[0]];
      NewRowAgrees(key, xs[0]);
      NewRowKey(key, xs[0]);
    } else {
      var ys := Init(xs);
      SerialRowAgrees(key, ys);
      UpdateRowAgrees(SerialRow(key, ys), ys, Last(xs));
      UpdateRowKey(SerialRow(key, ys), Last(xs));
      assert ys + [Last(xs)] == xs;
    }
  }

  lemma NewRowKey(key: RowKey, a: Arrival)
    ensures NewRow(key, a).key == key && NewRow(key, a).agentId == Some(a.event.agentId)
  {
  }

  lemma UpdateRowKey(r: Row, a: Arrival)
    ensures UpdateRow(r, a).key == r.key && UpdateRow(r, a).agentId == Some(a.event.agentId)
  {
  }

  lemma {:induction false} ErrorsPositive(xs: seq<Arrival>)
    requires forall x :: x in xs ==> x.event.errors >= 0
    ensures SumCounts(xs).errors >= 0
    ensures SumCounts(xs).errors > 0 <==> exists x :: x in xs && x.event.errors > 0
  {
    if xs != [] {
      assert xs == Init(xs) + [Last(xs)];
      ErrorsPositive(Init(xs));
      assert Last(xs) in xs;
      if x :| x in Init(xs) && x.event.errors > 0 { assert x in xs; }
    }
  }

  /** The error time is set exactly when errors were counted. */
  lemma ErrorTimeSet(r: Row, xs: seq<Arrival>)
    requires Agrees(r, xs) && forall x :: x in xs ==> x.event.errors >= 0
    ensures r.lastErrorAt.Some? <==> r.counts.errors > 0
  {
    ErrorsPositive(xs);
  }

  // ---------------------------------------------------------------- steps on the tables

  /** The log entries of one row, oldest first. */
  function Entries(log: seq<LogEntry>, id: nat): seq<Arrival> {
    if log == [] then []
    else if Last(log).flowId == id then Entries(Init(log), id) + [Last(log).arrival]
    else Entries(Init(log), id)
  }

  /** The aggregate statement and the log statement of one committed transaction. */
  function CommitWindow(t: Tables, id: nat, key: RowKey, a: Arrival): Tables {
    Tables(t.rows[id := if id in t.rows then UpdateRow(t.rows[id], a) else NewRow(key, a)],
           t.log + [LogEntry(id, a, Some(a.event.agentId), key.srcVm, key.dstVm, key.scope)])
  }

  /** The rows the statement rewrites. */
  predicate Resolvable(k: RowKey, tenants: map<string, string>, ip: Inet) {
    k.srcVm.Some? && k.srcVm.value in tenants && k.dstVm.None? && k.dstIp == ip
  }

  function ScopeFor(k: RowKey, tenants: map<string, string>, tenant: string): string
    requires k.srcVm.Some? && k.srcVm.value in tenants
  {
    if tenants[k.srcVm.value] == tenant then "internal_same_tenant" else "internal_cross_tenant"
  }

  /**
   * Host resolution: rows to this address without a destination VM get one, and a scope
   * by tenant. `tenants` are the VMs the statement joins with.
   */
  function ResolveRow(r: Row, tenants: map<string, string>, vm: string, tenant: string, ip: Inet): Row {
    if Resolvable(r.key, tenants, ip) then
      r.(key := r.key.(dstVm := Some(vm), scope := ScopeFor(r.key, tenants, tenant)))
    else r
  }

  function ResolveHost(t: Tables, tenants: map<string, string>, vm: string, tenant: string, ip: Inet): Tables {
    t.(rows := map id | id in t.rows :: ResolveRow(t.rows[id], tenants, vm, tenant, ip))
  }

  function Forget(v: Option<string>, gone: set<string>): Option<string> {
    if v.Some? && v.value in gone then None else v
  }

  function ExpireRow(r: Row, vms: set<string>, agents: set<string>): Row {
    r.(agentId := Forget(r.agentId, agents),
       key := r.key.(srcVm := Forget(r.key.srcVm, vms), dstVm := Forget(r.key.dstVm, vms)))
  }

  function ExpireEntry(l: LogEntry, vms: set<string>, agents: set<string>): LogEntry {
    l.(agentId := Forget(l.agentId, agents), srcVm := Forget(l.srcVm, vms), dstVm := Forget(l.dstVm, vms))
  }

  /** VM expiry: the foreign keys of deleted agents and VMs become null in both tables. */
  function ExpireVms(t: Tables, vms: set<string>, agents: set<string>): Tables {
    Tables(map id | id in t.rows :: ExpireRow(t.rows[id], vms, agents),
           seq(|t.log|, i requires 0 <= i < |t.log| => ExpireEntry(t.log[i], vms, agents)))
  }

  /** A row after host resolution: a scope by tenant and the VM, and nothing else is new. */
  ghost predicate Rewritten(before: Row, after: Row, tenants: map<string, string>, vm: string, tenant: string) {
    && after == before.(key := before.key.(dstVm := Some(vm), scope := after.key.scope))
    && (after.key.scope == "internal_same_tenant" || after.key.scope == "internal_cross_tenant")
    && (after.key.scope == "internal_same_tenant"
        <==> before.key.srcVm.Some? && before.key.srcVm.value in tenants && tenants[before.key.srcVm.value] == tenant)
  }

  lemma TenantScopesDiffer()
    ensures "internal_same_tenant" != "internal_cross_tenant"
  {
    assert "internal_same_tenant"[9] == 's' && "internal_cross_tenant"[9] == 'c';
  }

  /**
   * What resolution does to each row: one from a joined VM to this address without a
   * destination VM is rewritten, every other one and the whole log stay.
   */
  lemma ResolutionMeans(t: Tables, tenants: map<string, string>, vm: string, tenant: string, ip: Inet, id: nat)
    requires id in t.rows
    ensures var u, r := ResolveHost(t, tenants, vm, tenant, ip), t.rows[id];
            && u.rows.Keys == t.rows.Keys && u.log == t.log
            && if r.key.dstIp == ip && r.key.dstVm.None? && r.key.srcVm.Some? && r.key.srcVm.value in tenants
               then Rewritten(r, u.rows[id], tenants, vm, tenant) else u.rows[id] == r
  {
    TenantScopesDiffer();
  }

  /** A reference after expiry: null exactly when it was, or when what it referred to is gone. */
  ghost predicate Cleared(before: Option<string>, after: Option<string>, gone: set<string>) {
    && (after.None? <==> before.None? || before.value in gone)
    && (after.Some? ==> after == before)
  }

  /** What expiry does to each row and log entry: it clears references, and nothing else. */
  lemma ExpiryMeans(t: Tables, vms: set<string>, agents: set<string>)
    ensures var u := ExpireVms(t, vms, agents);
            && u.rows.Keys == t.rows.Keys && |u.log| == |t.log|
            && (forall id :: id in t.rows ==>
                  && Cleared(t.rows[id].agentId, u.rows[id].agentId, agents)
                  && Cleared(t.rows[id].key.srcVm, u.rows[id].key.srcVm, vms)
                  && Cleared(t.rows[id].key.dstVm, u.rows[id].key.dstVm, vms)
                  && u.rows[id] == t.rows[id].(agentId := u.rows[id].agentId,
                       key := t.rows[id].key.(srcVm := u.rows[id].key.srcVm, dstVm := u.rows[id].key.dstVm)))
            && (forall i :: 0 <= i < |t.log| ==>
                  && Cleared(t.log[i].agentId, u.log[i].agentId, agents)
                  && Cleared(t.log[i].srcVm, u.log[i].srcVm, vms) && Cleared(t.log[i].dstVm, u.log[i].dstVm, vms)
                  && u.log[i] == t.log[i].(agentId := u.log[i].agentId, srcVm := u.log[i].srcVm, dstVm := u.log[i].dstVm))
  {
  }

  /** Every row agrees with its log entries, and every entry belongs to a row. */
  ghost predicate LogInv(t: Tables) {
    && (forall id :: id in t.rows ==> Agrees(t.rows[id], Entries(t.log, id)))
    && (forall i :: 0 <= i < |t.log| ==> t.log[i].flowId in t.rows)
    && (forall i :: 0 <= i < |t.log| ==> t.log[i].arrival.event.errors >= 0)
  }

  lemma {:induction false} NoEntries(log: seq<LogEntry>, id: nat)
    requires forall i :: 0 <= i < |log| ==> log[i].flowId != id
    ensures Entries(log, id) == []
  {
    if log != [] { NoEntries(Init(log), id); }
  }

  lemma {:induction false} EntriesSound(log: seq<LogEntry>, id: nat)
    requires forall i :: 0 <= i < |log| ==> log[i].arrival.event.errors >= 0
    ensures forall x :: x in Entries(log, id) ==> x.event.errors >= 0
  {
    if log != [] { EntriesSound(Init(log), id); }
  }

  predicate Storable(a: Arrival) { a.event.errors >= 0 && a.event.avgRttMs >= 0.0 && a.event.avgDelayMs >= 0.0 }

  lemma CommitKeepsLog(t: Tables, id: nat, key: RowKey, a: Arrival)
    requires LogInv(t) && Storable(a)
    ensures LogInv(CommitWindow(t, id, key, a))
  {
    hide Agrees, UpdateRow, NewRow;
    var u := CommitWindow(t, id, key, a);
    assert Init(u.log) == t.log;
    if id in t.rows {
      UpdateRowAgrees(t.rows[id], Entries(t.log, id), a);
    } else {
      NoEntries(t.log, id);
      NewRowAgrees(key, a);
      assert Entries(u.log, id) == [a];
    }
    forall j | j in u.rows ensures Agrees(u.rows[j], Entries(u.log, j)) {
      if j != id { assert Entries(u.log, j) == Entries(t.log, j); }
    }
  }

  lemma KeyIsNotLogged(r: Row, s: Row, xs: seq<Arrival>)
    requires Agrees(r, xs) && s == r.(key := s.key, agentId := s.agentId)
    ensures Agrees(s, xs)
  {
    assert TimesAgree(s, xs);
  }

  lemma ResolveKeepsLog(t: Tables, tenants: map<string, string>, vm: string, tenant: string, ip: Inet)
    requires LogInv(t)
    ensures LogInv(ResolveHost(t, tenants, vm, tenant, ip))
  {
    hide Agrees;
    forall id | id in t.rows ensures Agrees(ResolveRow(t.rows[id], tenants, vm, tenant, ip), Entries(t.log, id)) {
      KeyIsNotLogged(t.rows[id], ResolveRow(t.rows[id], tenants, vm, tenant, ip), Entries(t.log, id));
    }
  }

  lemma {:induction false} ExpireEntries(log: seq<LogEntry>, out: seq<LogEntry>, id: nat)
    requires |log| == |out|
    requires forall i :: 0 <= i < |log| ==> out[i].flowId == log[i].flowId && out[i].arrival == log[i].arrival
    ensures Entries(out, id) == Entries(log, id)
  {
    if log != [] { ExpireEntries(Init(log), Init(out), id); }
  }

  lemma ExpireKeepsLog(t: Tables, vms: set<string>, agents: set<string>)
    requires LogInv(t)
    ensures LogInv(ExpireVms(t, vms, agents))
  {
    hide Agrees;
    var u := ExpireVms(t, vms, agents);
    forall id | id in t.rows ensures Agrees(u.rows[id], Entries(u.log, id)) {
      ExpireEntries(t.log, u.log, id);
      KeyIsNotLogged(t.rows[id], u.rows[id], Entries(t.log, id));
    }
  }

  // ---------------------------------------------------------------- key uniqueness across resolution

  predicate UniqueKeys(rows: map<nat, Row>) {
    forall i, j :: i in rows && j in rows && rows[i].key == rows[j].key ==> i == j
  }

  /** Equal in every column that resolution leaves alone. */
  predicate SameFixedColumns(a: RowKey, b: RowKey) {
    a.srcVm == b.srcVm && a.srcIp == b.srcIp && a.dstIp == b.dstIp && a.protocol == b.protocol
    && a.dstPort == b.dstPort && a.direction == b.direction
  }

  /** `b` would stand in the way of `a`: rewritten alongside it, or already what `a` becomes. */
  predicate InTheWay(a: RowKey, b: RowKey, tenants: map<string, string>, vm: string, tenant: string, ip: Inet) {
    && Resolvable(a, tenants, ip) && SameFixedColumns(a, b)
    && (b.dstVm.None? || (b.dstVm == Some(vm) && b.scope == ScopeFor(a, tenants, tenant)))
  }

  /**
   * Host resolution keeps row keys unique exactly when no other row is in the way of a row
   * it rewrites.
   */
  lemma ResolutionKeepsKeysUnique(t: Tables, tenants: map<string, string>, vm: string, tenant: string, ip: Inet)
    requires UniqueKeys(t.rows)
    ensures UniqueKeys(ResolveHost(t, tenants, vm, tenant, ip).rows)
            <==> forall i, j :: i in t.rows && j in t.rows && i != j
                                ==> !InTheWay(t.rows[i].key, t.rows[j].key, tenants, vm, tenant, ip)
  {
    var u := ResolveHost(t, tenants, vm, tenant, ip).rows;
    forall i, j | i in t.rows && j in t.rows && i != j
      ensures u[i].key == u[j].key
              <==> InTheWay(t.rows[i].key, t.rows[j].key, tenants, vm, tenant, ip)
                   || InTheWay(t.rows[j].key, t.rows[i].key, tenants, vm, tenant, ip)
    {
      assert t.rows[i].key != t.rows[j].key;
      ResolvedKeysMeet(t.rows[i], t.rows[j], tenants, vm, tenant, ip);
    }
    assert u.Keys == t.rows.Keys;
  }

  lemma ResolvedKeysMeet(a: Row, b: Row, tenants: map<string, string>, vm: string, tenant: string, ip: Inet)
    requires a.key != b.key
    ensures ResolveRow(a, tenants, vm, tenant, ip).key == ResolveRow(b, tenants, vm, tenant, ip).key
            <==> InTheWay(a.key, b.key, tenants, vm, tenant, ip) || InTheWay(b.key, a.key, tenants, vm, tenant, ip)
  {
  }

  // ---------------------------------------------------------------- key uniqueness across expiry

  /** Null already, or about to become null. */
  predicate Unset(v: Option<string>, gone: set<string>) { v.None? || v.value in gone }

  /** After these VMs are gone the two references can no longer be told apart. */
  predicate Blurred(a: Option<string>, b: Option<string>, gone: set<string>) {
    a == b || (Unset(a, gone) && Unset(b, gone))
  }

  predicate KeysBlurred(a: RowKey, b: RowKey, gone: set<string>) {
    && Blurred(a.srcVm, b.srcVm, gone) && Blurred(a.dstVm, b.dstVm, gone)
    && a.srcIp == b.srcIp && a.dstIp == b.dstIp && a.protocol == b.protocol && a.dstPort == b.dstPort
    && a.scope == b.scope && a.direction == b.direction
  }

  /**
   * VM expiry keeps row keys unique exactly when no two rows differ only in references to VMs
   * that are gone.
   */
  lemma ExpiryKeepsKeysUnique(t: Tables, vms: set<string>, agents: set<string>)
    ensures UniqueKeys(ExpireVms(t, vms, agents).rows)
            <==> forall i, j :: i in t.rows && j in t.rows && i != j ==> !KeysBlurred(t.rows[i].key, t.rows[j].key, vms)
  {
    var u := ExpireVms(t, vms, agents).rows;
    forall i, j | i in t.rows && j in t.rows
      ensures u[i].key == u[j].key <==> KeysBlurred(t.rows[i].key, t.rows[j].key, vms)
    {
      ExpiredKeysMeet(t.rows[i], t.rows[j], vms, agents);
    }
    assert u.Keys == t.rows.Keys;
  }

  lemma ExpiredKeysMeet(a: Row, b: Row, vms: set<string>, agents: set<string>)
    ensures ExpireRow(a, vms, agents).key == ExpireRow(b, vms, agents).key <==> KeysBlurred(a.key, b.key, vms)
  {
  }
}
