/**
 * The services' own form: one object holding the two tables, updated statement by
 * statement. Each method is tied to the table function of the same effect.
 */
module FlowService {
  import opened Prelude
  import opened Payload
  import opened FlowTable
  import opened Smoothing
  import IngestTx

  datatype Vm = Vm(id: string, tenant: string)

  /** Everything an ingest reads from outside the two tables. */
  datatype Env = Env(isAddr: string -> bool, inet: string -> Inet, unregisteredScope: string -> string,
                     now: int, startedAt: int, source: Option<Vm>, destination: Option<Vm>)

  datatype Outcome = Invalid(why: Rejection) | AgentUnknown | Stored(id: nat)

  function ScopeOf(env: Env, source: Vm, e: FlowEvent): string {
    match env.destination
    case Some(d) => if source.tenant == d.tenant then "internal_same_tenant" else "internal_cross_tenant"
    case None => env.unregisteredScope(e.dstIp)
  }

  function KeyOfEvent(env: Env, source: Vm, e: FlowEvent): RowKey {
    KeyFrom(env.inet, e, source.id, DestinationId(env), ScopeOf(env, source, e))
  }

  function DestinationId(env: Env): Option<string> {
    match env.destination case Some(d) => Some(d.id) case None => None
  }

  /**
   * The key of a window from its VMs: the destination VM when there is one, and then a scope
   * by whether the tenants are the same; else none, and the classifier's scope of the address.
   */
  ghost predicate ResolvesTo(key: RowKey, env: Env, source: Vm, e: FlowEvent) {
    && key.srcVm == Some(source.id) && key.srcIp == env.inet(e.srcIp) && key.dstIp == env.inet(e.dstIp)
    && key.protocol == e.protocol && key.dstPort == e.dstPort && key.direction == e.direction
    && (key.dstVm.None? <==> env.destination.None?)
    && (env.destination.None? ==> key.scope == env.unregisteredScope(e.dstIp))
    && (env.destination.Some? ==>
          && key.dstVm == Some(env.destination.value.id)
          && (key.scope == "internal_same_tenant" || key.scope == "internal_cross_tenant")
          && (key.scope == "internal_same_tenant" <==> source.tenant == env.destination.value.tenant))
  }

  lemma KeyResolves(env: Env, source: Vm, e: FlowEvent)
    ensures ResolvesTo(KeyOfEvent(env, source, e), env, source, e)
  {
    TenantScopesDiffer();
  }

  /** The log entry of a window: where it went, and its own columns. */
  predicate Records(entry: LogEntry, id: nat, key: RowKey, a: Arrival) {
    && entry.flowId == id && entry.arrival == a && entry.agentId == Some(a.event.agentId)
    && entry.srcVm == key.srcVm && entry.dstVm == key.dstVm && entry.scope == key.scope
  }

  /** The row a window goes to: one that has its key, or a new one when none has. */
  predicate Target(rows: map<nat, Row>, key: RowKey, id: nat, newId: nat) {
    if id in rows then rows[id].key == key else id == newId && forall i :: i in rows ==> rows[i].key != key
  }

  /** The CASE expression of one average column. */
  method Average(avg: real, v: real) returns (r: real)
    ensures r == Blend(avg, v)
  {
    r := avg;
    if v > 0.0 && avg > 0.0 {
      r := (avg + v) / 2.0;
    } else if v > 0.0 {
      r := v;
    }
  }

  /** The columns that keep an extreme or the latest value. */
  method Mark(row: Row, a: Arrival) returns (r: Row)
    ensures r == UpdateRow(row, a).(counts := row.counts, avgRtt := row.avgRtt, avgDelay := row.avgDelay)
  {
    hide Blend, AddCounts;
    r := row;
    if a.event.firstSeen < r.firstSeen { r := r.(firstSeen := a.event.firstSeen); }
    if a.event.lastSeen > r.lastSeen { r := r.(lastSeen := a.event.lastSeen); }
    r := r.(agentId := Some(a.event.agentId));
    if a.event.iface != "" { r := r.(iface := Some(a.event.iface)); }
    if a.event.errors > 0 && (r.lastErrorAt.None? || r.lastErrorAt.value < a.observedAt) {
      r := r.(lastErrorAt := Some(a.observedAt));
    }
    r := r.(observedAt := a.observedAt);
    if 100 <= a.event.lastStatus <= 599 { r := r.(lastStatus := Some(a.event.lastStatus)); }
  }

  class FlowStore {
    var rows: map<nat, Row>
    var log: seq<LogEntry>

    constructor ()
      ensures View() == Tables(map[], []) && LogInv(View())
    {
      rows, log := map[], [];
    }

    ghost function View(): Tables
      reads this
    {
      Tables(rows, log)
    }

    /** The UPDATE statement on one row. */
    method Aggregate(id: nat, a: Arrival)
      requires id in rows
      modifies `rows
      ensures rows == old(rows)[id := UpdateRow(old(rows)[id], a)]
    {
      var r := rows[id];
      r := r.(counts := AddCounts(r.counts, CountsOf(a.event)));
      var avgRtt := Average(r.avgRtt, a.event.avgRttMs);
      var avgDelay := Average(r.avgDelay, a.event.avgDelayMs);
      r := r.(avgRtt := avgRtt, avgDelay := avgDelay);
      hide Blend, AddCounts;
      r := Mark(r, a);
      rows := rows[id := r];
    }

    /** Lookup, insert or update, and log, under one key. */
    method Store(key: RowKey, a: Arrival, newId: nat) returns (id: nat)
      requires newId !in rows && Storable(a) && LogInv(View())
      modifies this
      ensures LogInv(View()) && View() == CommitWindow(old(View()), id, key, a)
      ensures Target(old(rows), key, id, newId)
    {
      hide LogInv, UpdateRow, NewRow;
      var matching := set i | i in rows && rows[i].key == key;
      id := newId;
      if matching == {} {
        assert forall i :: i in rows ==> i !in matching;
        rows := rows[id := NewRow(key, a)];
      } else {
        id :| id in matching;
        Aggregate(id, a);
      }
      log := log + [LogEntry(id, a, Some(a.event.agentId), key.srcVm, key.dstVm, key.scope)];
      CommitKeepsLog(old(View()), id, key, a);
    }

    /**
     * One serial ingest. `newId` is the identifier an insert would generate. A rejected
     * event leaves both tables alone; an accepted one changes one row and adds one entry.
     */
    method Ingest(raw: FlowEvent, env: Env, observedAt: int, newId: nat) returns (out: Outcome)
      requires newId !in rows && LogInv(View())
      modifies this
      ensures LogInv(View())
      ensures out.Stored? <==> Validate(raw, env.isAddr, env.now).Accepted? && env.source.Some?
      ensures !out.Stored? ==> View() == old(View())
      ensures out.Invalid? ==> Validate(raw, env.isAddr, env.now) == Rejected(out.why)
      ensures out.Stored? ==>
                var a := Arrival(Validate(raw, env.isAddr, env.now).event, observedAt, env.startedAt);
                && rows.Keys == old(rows).Keys + {out.id} && out.id in rows
                && (forall i :: i in old(rows) && i != out.id ==> rows[i] == old(rows)[i])
                && ResolvesTo(rows[out.id].key, env, env.source.value, a.event)
                && rows[out.id].agentId == Some(a.event.agentId)
                && Target(old(rows), rows[out.id].key, out.id, newId)
                && |log| == |old(log)| + 1 && log[..|old(log)|] == old(log)
                && Records(log[|old(log)|], out.id, rows[out.id].key, a)
                && View() == CommitWindow(old(View()), out.id, rows[out.id].key, a)
    {
      hide LogInv, KeyOfEvent, CommitWindow, Target, ResolvesTo, Records, Canonical, Fault, Timed, Counted;
      var ref := new EventRef(raw);
      var failure := ref.ValidateFlowEvent(env.isAddr, env.now);
      if failure.Some? { return Invalid(failure.value); }
      if env.source.None? { return AgentUnknown; }
      var a := Arrival(ref.e, observedAt, env.startedAt);
      AcceptedIsNormal(raw, env.isAddr, env.now);
      NormalIsStorable(a, env.isAddr);
      ghost var before, key := View(), KeyOfEvent(env, env.source.value, ref.e);
      var id := Store(KeyOfEvent(env, env.source.value, ref.e), a, newId);
      KeyResolves(env, env.source.value, ref.e);
      WindowStored(before, id, key, a, newId);
      out := Stored(id);
    }

    /** Host resolution as one statement over the flow rows. */
    method ResolveUnknownHost(tenants: map<string, string>, vm: string, tenant: string, ip: Inet)
      modifies `rows
      ensures View() == ResolveHost(old(View()), tenants, vm, tenant, ip)
    {
      var todo := rows.Keys;
      while todo != {}
        invariant todo <= rows.Keys == old(rows).Keys
        invariant forall i :: i in todo ==> rows[i] == old(rows)[i]
        invariant forall i :: i in rows.Keys - todo ==> rows[i] == ResolveRow(old(rows)[i], tenants, vm, tenant, ip)
        decreases todo
      {
        var i :| i in todo;
        rows := rows[i := ResolveRow(rows[i], tenants, vm, tenant, ip)];
        todo := todo - {i};
      }
    }

    /**
     * VM expiry: `selected` is what the query returned, one VM per joined agent and so
     * possibly more than once; the list of deleted VMs holds each once, in query order.
     */
    method DeleteExpired(selected: seq<string>, agentVm: map<string, string>) returns (vmIds: seq<string>)
      modifies this
      ensures Distinct(vmIds) && forall v :: v in vmIds <==> v in selected
      ensures View() == ExpireVms(old(View()), set v | v in selected, set a | a in agentVm && agentVm[a] in selected)
    {
      vmIds := [];
      var seen: set<string> := {};
      for i := 0 to |selected|
        invariant seen == set v | v in selected[..i]
        invariant Distinct(vmIds) && forall v :: v in vmIds <==> v in seen
      {
        assert selected[..i + 1] == selected[..i] + [selected[i]];
        if selected[i] !in seen {
          seen := seen + {selected[i]};
          vmIds := vmIds + [selected[i]];
        }
      }
      assert selected[..|selected|] == selected;
      var vms := set v | v in selected;
      var agents := set a | a in agentVm && agentVm[a] in selected;
      var entries := log;
      rows := map i | i in rows :: ExpireRow(rows[i], vms, agents);
      log := seq(|entries|, i requires 0 <= i < |entries| => ExpireEntry(entries[i], vms, agents));
      assert View() == ExpireVms(old(View()), vms, agents);
    }
  }

  lemma WindowStored(t: Tables, id: nat, key: RowKey, a: Arrival, newId: nat)
    requires Target(t.rows, key, id, newId)
    ensures var u := CommitWindow(t, id, key, a);
            && u.rows.Keys == t.rows.Keys + {id} && (forall i :: i in t.rows && i != id ==> u.rows[i] == t.rows[i])
            && u.rows[id].key == key && u.rows[id].agentId == Some(a.event.agentId)
            && |u.log| == |t.log| + 1 && u.log[..|t.log|] == t.log && Records(u.log[|t.log|], id, key, a)
  {
    hide UpdateRow, NewRow;
    NewRowKey(key, a);
    if id in t.rows { UpdateRowKey(t.rows[id], a); }
  }

  lemma NormalIsStorable(a: Arrival, isAddr: string -> bool)
    requires Normal(a.event, isAddr)
    ensures Storable(a)
  {
  }

  /** What a serial ingest asks the database for. */
  function RequestOf(env: Env, source: Vm, a: Arrival): IngestTx.Request {
    IngestTx.Request(a, source.id, DestinationId(env), ScopeOf(env, source, a.event))
  }

  /**
   * A serial ingest is a transaction: wherever no other one is under way, its six steps take
   * the tables to where `FlowStore.Ingest` takes them, so the theorems about interleavings
   * hold of it.
   */
  lemma SerialIngestIsATransaction(w: IngestTx.World, steps: seq<IngestTx.Step>, tx: nat,
                                   env: Env, source: Vm, a: Arrival, id: nat, newId: nat)
    requires w.inet == env.inet && Storable(a)
    requires var db := IngestTx.Run(w, steps);
             IngestTx.Quiet(db) && tx !in db.txs && newId !in db.tables.rows
             && Target(db.tables.rows, KeyOfEvent(env, source, a.event), id, newId)
    ensures var db, found := IngestTx.Run(w, steps), if id in IngestTx.Run(w, steps).tables.rows then Some(id) else None;
            IngestTx.Run(w, steps + IngestTx.Alone(tx, RequestOf(env, source, a), found, newId)).tables
            == CommitWindow(db.tables, id, KeyOfEvent(env, source, a.event), a)
  {
    var found := if id in IngestTx.Run(w, steps).tables.rows then Some(id) else None;
    hide IngestTx.Run, CommitWindow, Storable;
    IngestTx.TransactionAlone(w, steps, tx, RequestOf(env, source, a), found, newId);
  }
}
