/**
 * Concurrent ingest transactions, statement by statement, under read-committed isolation:
 * resolve, take the advisory lock, look the row up, insert or update, log, commit. Writes
 * of a transaction become visible at its commit; the lock is held until then. Host
 * resolution and VM expiry interleave as single statements. A step that is not enabled
 * changes nothing, so every sequence of steps is a run.
 */
module IngestTx {
  import opened Prelude
  import opened Payload
  import opened FlowTable

  /** What a transaction resolved before it asked for the lock. */
  datatype Request = Request(arrival: Arrival, srcVm: string, dstVm: Option<string>, scope: string)

  datatype Phase = Resolved | Locked | LookedUp(found: Option<nat>) | Written(target: nat, insert: bool)
                 | Logged(target: nat, insert: bool) | Committed | Aborted

  datatype Tx = Tx(request: Request, phase: Phase)

  /** `order` is history: the transactions in the order they got their locks. */
  datatype Db = Db(tables: Tables, txs: map<nat, Tx>, order: seq<nat>)

  /** How addresses compare, and how lock texts hash. */
  datatype World = World(inet: string -> Inet, hash: string -> int)

  datatype Step =
    | Begin(tx: nat, request: Request)
    | Lock(tx: nat)
    | Lookup(tx: nat, found: Option<nat>)
    | Write(tx: nat, newId: nat)
    | Log(tx: nat)
    | Commit(tx: nat)
    | Abort(tx: nat)
    | Resolve(tenants: map<string, string>, vm: string, tenant: string, ip: Inet)
    | Expire(vms: set<string>, agents: set<string>)

  const START := Db(Tables(map[], []), map[], [])

  // ---------------------------------------------------------------- keys and locks

  function KeyFor(w: World, q: Request): RowKey { KeyFrom(w.inet, q.arrival.event, q.srcVm, q.dstVm, q.scope) }

  function Digits(n: nat): string {
    if n < 10 then [('0' as int + n) as char] else Digits(n / 10) + [('0' as int + n % 10) as char]
  }

  function Decimal(n: int): string { if n < 0 then "-" + Digits(-n) else Digits(n) }

  /** The texts the lock takes for the two ends. */
  function SourceText(q: Request): string { ValueOr(q.arrival.event.srcIp, q.srcVm) }

  function DestinationText(q: Request): string {
    ValueOr(if q.dstVm.Some? then q.dstVm.value else "", q.arrival.event.dstIp)
  }

  function LockTail(e: FlowEvent, scope: string): string {
    "|" + e.protocol + "|" + e.direction + "|" + Decimal(e.dstPort) + "|" + scope
  }

  function LockText(q: Request): string {
    q.srcVm + "|" + SourceText(q) + "|" + DestinationText(q) + LockTail(q.arrival.event, q.scope)
  }

  function LockOf(w: World, q: Request): int { w.hash(LockText(q)) }

  /** Two spellings of one address are the same text. */
  predicate SameSpelling(w: World, a: string, b: string) { w.inet(a) == w.inet(b) ==> a == b }

  /** With canonical address texts, requests for one row always ask for one lock. */
  lemma CanonicalTextsShareLocks(w: World, a: Request, b: Request)
    requires SameSpelling(w, a.arrival.event.srcIp, b.arrival.event.srcIp)
    requires SameSpelling(w, a.arrival.event.dstIp, b.arrival.event.dstIp)
    requires KeyFor(w, a) == KeyFor(w, b)
    ensures LockText(a) == LockText(b) && LockOf(w, a) == LockOf(w, b)
  {
    assert a.srcVm == b.srcVm && a.dstVm == b.dstVm;
  }

  // ---------------------------------------------------------------- steps

  predicate Holding(p: Phase) { p.Locked? || p.LookedUp? || p.Written? || p.Logged? }

  predicate Staged(p: Phase) { p.Written? || p.Logged? }

  /** No transaction holds the lock this request needs. */
  ghost predicate LockFree(w: World, db: Db, q: Request) {
    forall t :: t in db.txs && Holding(db.txs[t].phase) ==> LockOf(w, db.txs[t].request) != LockOf(w, q)
  }

  /** A generated identifier no row and no staged insert uses. */
  ghost predicate FreshId(db: Db, id: nat) {
    && id !in db.tables.rows
    && forall t :: t in db.txs && Staged(db.txs[t].phase) ==> db.txs[t].phase.target != id
  }

  /** What the SELECT ... LIMIT 1 may answer on the committed rows. */
  ghost predicate Answers(rows: map<nat, Row>, key: RowKey, found: Option<nat>) {
    match found
    case Some(id) => id in rows && rows[id].key == key
    case None => forall id :: id in rows ==> rows[id].key != key
  }

  ghost predicate Enabled(w: World, db: Db, step: Step) {
    match step
    case Begin(t, q) => t !in db.txs && Storable(q.arrival)
    case Lock(t) => t in db.txs && db.txs[t].phase.Resolved? && LockFree(w, db, db.txs[t].request)
    case Lookup(t, found) => t in db.txs && db.txs[t].phase.Locked?
                             && Answers(db.tables.rows, KeyFor(w, db.txs[t].request), found)
    case Write(t, id) => t in db.txs && db.txs[t].phase.LookedUp? && FreshId(db, id)
    case Log(t) => t in db.txs && db.txs[t].phase.Written?
    case Commit(t) => t in db.txs && db.txs[t].phase.Logged?
    case Abort(t) => t in db.txs && !db.txs[t].phase.Committed?
    case Resolve(_, _, _, _) => true
    case Expire(_, _) => true
  }

  function SetPhase(db: Db, t: nat, p: Phase): Db
    requires t in db.txs
  {
    db.(txs := db.txs[t := db.txs[t].(phase := p)])
  }

  function CommitTx(w: World, db: Db, t: nat): Db
    requires t in db.txs && db.txs[t].phase.Logged?
  {
    var q := db.txs[t].request;
    SetPhase(db, t, Committed).(tables := CommitWindow(db.tables, db.txs[t].phase.target, KeyFor(w, q), q.arrival))
  }

  ghost function Do(w: World, db: Db, step: Step): Db {
    if !Enabled(w, db, step) then db
    else
      match step
      case Begin(t, q) => db.(txs := db.txs[t := Tx(q, Resolved)])
      case Lock(t) => SetPhase(db, t, Locked).(order := db.order + [t])
      case Lookup(t, found) => SetPhase(db, t, LookedUp(found))
      case Write(t, id) =>
        var f := db.txs[t].phase.found;
        SetPhase(db, t, if f.Some? then Written(f.value, false) else Written(id, true))
      case Log(t) => SetPhase(db, t, Logged(db.txs[t].phase.target, db.txs[t].phase.insert))
      case Commit(t) => CommitTx(w, db, t)
      case Abort(t) => SetPhase(db, t, Aborted)
      case Resolve(tenants, vm, tenant, ip) => db.(tables := ResolveHost(db.tables, tenants, vm, tenant, ip))
      case Expire(vms, agents) => db.(tables := ExpireVms(db.tables, vms, agents))
  }

  ghost function Run(w: World, steps: seq<Step>): Db {
    if steps == [] then START else Do(w, Run(w, Init(steps)), Last(steps))
  }

  // ---------------------------------------------------------------- the log agrees, in every run

  ghost predicate TxsStorable(db: Db) { forall t :: t in db.txs ==> Storable(db.txs[t].request.arrival) }

  lemma StepKeepsLog(w: World, db: Db, step: Step)
    requires LogInv(db.tables) && TxsStorable(db)
    ensures LogInv(Do(w, db, step).tables) && TxsStorable(Do(w, db, step))
  {
    hide LogInv, CommitWindow, ResolveHost, ExpireVms;
    if Enabled(w, db, step) {
      match step {
        case Commit(t) =>
          CommitKeepsLog(db.tables, db.txs[t].phase.target, KeyFor(w, db.txs[t].request), db.txs[t].request.arrival);
        case Resolve(tenants, vm, tenant, ip) => ResolveKeepsLog(db.tables, tenants, vm, tenant, ip);
        case Expire(vms, agents) => ExpireKeepsLog(db.tables, vms, agents);
        case _ =>
      }
    }
  }

  lemma {:induction false} RunKeepsLog(w: World, steps: seq<Step>)
    ensures LogInv(Run(w, steps).tables) && TxsStorable(Run(w, steps))
  {
    if steps != [] {
      RunKeepsLog(w, Init(steps));
      StepKeepsLog(w, Run(w, Init(steps)), Last(steps));
    }
  }

  /**
   * In every run of ingests mixed with host resolution and VM expiry, each row agrees with
   * its log entries, column by column, and its error time is set exactly when it counted errors.
   */
  lemma RowsAgreeWithLog(w: World, steps: seq<Step>, id: nat)
    requires id in Run(w, steps).tables.rows
    ensures var t := Run(w, steps).tables;
            && Agrees(t.rows[id], Entries(t.log, id))
            && (forall c :: Recorded(c, t.rows[id].counts) == ReportedSum(c, Entries(t.log, id)))
            && (t.rows[id].lastErrorAt.Some? <==> t.rows[id].counts.errors > 0)
  {
    RunKeepsLog(w, steps);
    var t := Run(w, steps).tables;
    hide Run, TimesAgree, SumCounts;
    assert t.rows[id].counts == SumCounts(Entries(t.log, id));
    forall c ensures Recorded(c, t.rows[id].counts) == ReportedSum(c, Entries(t.log, id)) {
      ColumnsAreSums(Entries(t.log, id), c);
    }
    EntriesSound(t.log, id);
    ErrorTimeSet(t.rows[id], Entries(t.log, id));
  }

  // ---------------------------------------------------------------- one row per key, in every ingest run

  predicate IngestOnly(steps: seq<Step>) {
    forall i :: 0 <= i < |steps| ==> !steps[i].Resolve? && !steps[i].Expire?
  }

  /** Every two transactions begun in the run that want one row want one lock. */
  ghost predicate LocksCover(w: World, txs: map<nat, Tx>) {
    forall a, b :: a in txs && b in txs && KeyFor(w, txs[a].request) == KeyFor(w, txs[b].request)
                   ==> LockOf(w, txs[a].request) == LockOf(w, txs[b].request)
  }

  /** At most one transaction holds any lock. */
  ghost predicate Exclusive(w: World, db: Db) {
    forall a, b :: (a in db.txs && b in db.txs && Holding(db.txs[a].phase) && Holding(db.txs[b].phase)
                    && LockOf(w, db.txs[a].request) == LockOf(w, db.txs[b].request)) ==> a == b
  }

  /** What a transaction learned from its lookup still holds. */
  ghost predicate Knows(w: World, db: Db, t: nat)
    requires t in db.txs
  {
    var key := KeyFor(w, db.txs[t].request);
    match db.txs[t].phase
    case LookedUp(found) => Answers(db.tables.rows, key, found)
    case Written(id, insert) => Answers(db.tables.rows, key, if insert then None else Some(id))
    case Logged(id, insert) => Answers(db.tables.rows, key, if insert then None else Some(id))
    case _ => true
  }

  ghost predicate StagedInsert(db: Db, t: nat, id: nat)
    requires t in db.txs
  {
    Staged(db.txs[t].phase) && db.txs[t].phase.insert && db.txs[t].phase.target == id
  }

  ghost predicate FreshInserts(db: Db) {
    && (forall t, id :: t in db.txs && StagedInsert(db, t, id) ==> id !in db.tables.rows)
    && (forall a, b, id :: a in db.txs && b in db.txs && StagedInsert(db, a, id) && StagedInsert(db, b, id) ==> a == b)
  }

  ghost predicate KeyInv(w: World, db: Db) {
    && UniqueKeys(db.tables.rows)
    && Exclusive(w, db)
    && FreshInserts(db)
    && (forall t :: t in db.txs ==> Knows(w, db, t))
  }

  /** A commit writes one row, under the key of its transaction, and no other row changes key. */
  lemma CommittedKeys(w: World, db: Db, t: nat)
    requires KeyInv(w, db) && t in db.txs && db.txs[t].phase.Logged?
    ensures var rows' := CommitTx(w, db, t).tables.rows;
            && rows'.Keys == db.tables.rows.Keys + {db.txs[t].phase.target}
            && rows'[db.txs[t].phase.target].key == KeyFor(w, db.txs[t].request)
            && forall i :: i in rows' && i != db.txs[t].phase.target ==> rows'[i] == db.tables.rows[i]
  {
    assert Knows(w, db, t);
    var id := db.txs[t].phase.target;
    if id in db.tables.rows {
      assert !StagedInsert(db, t, id);
      UpdateRowKey(db.tables.rows[id], db.txs[t].request.arrival);
    }
  }

  /** While one transaction holds the lock of a row, no other one that wants it does. */
  lemma HoldersDiffer(w: World, db: Db, t: nat, u: nat)
    requires Exclusive(w, db) && LocksCover(w, db.txs) && t in db.txs && u in db.txs && t != u
    requires Holding(db.txs[t].phase) && Holding(db.txs[u].phase)
    ensures KeyFor(w, db.txs[u].request) != KeyFor(w, db.txs[t].request)
  {
    hide LockOf, KeyFor;
  }

  lemma AnswersStable(rows: map<nat, Row>, rows': map<nat, Row>, target: nat, key: RowKey, found: Option<nat>)
    requires Answers(rows, key, found) && rows'.Keys == rows.Keys + {target}
    requires rows'[target].key != key
    requires forall i :: i in rows' && i != target ==> rows'[i] == rows[i]
    requires target in rows ==> rows[target].key != key
    ensures Answers(rows', key, found)
  {
  }

  lemma CommitKeepsKnowledgeOf(w: World, db: Db, t: nat, u: nat)
    requires KeyInv(w, db) && LocksCover(w, db.txs) && t in db.txs && db.txs[t].phase.Logged?
    requires u in db.txs && u != t
    ensures Knows(w, CommitTx(w, db, t), u)
  {
    CommittedKeys(w, db, t);
    assert Knows(w, db, u) && Knows(w, db, t);
    if Holding(db.txs[u].phase) {
      HoldersDiffer(w, db, t, u);
      var rows, rows' := db.tables.rows, CommitTx(w, db, t).tables.rows;
      var id, key := db.txs[t].phase.target, KeyFor(w, db.txs[u].request);
      hide CommitWindow, LockOf, KeyFor, UniqueKeys, Answers;
      assert id in rows ==> rows[id].key != key by { RowOfUpdate(w, db, t); }
      forall found | Answers(rows, key, found) ensures Answers(rows', key, found) {
        AnswersStable(rows, rows', id, key, found);
      }
    }
  }

  lemma RowOfUpdate(w: World, db: Db, t: nat)
    requires KeyInv(w, db) && t in db.txs && db.txs[t].phase.Logged?
    ensures var id := db.txs[t].phase.target;
            id in db.tables.rows ==> db.tables.rows[id].key == KeyFor(w, db.txs[t].request)
  {
    assert Knows(w, db, t);
    assert db.txs[t].phase.insert ==> StagedInsert(db, t, db.txs[t].phase.target);
  }

  lemma CommitKeepsUnique(w: World, db: Db, t: nat)
    requires KeyInv(w, db) && t in db.txs && db.txs[t].phase.Logged?
    ensures UniqueKeys(CommitTx(w, db, t).tables.rows)
  {
    CommittedKeys(w, db, t);
    hide CommitWindow, LockOf, KeyFor;
    assert Knows(w, db, t);
  }

  /** A staged insert never shares its identifier with another staged write. */
  lemma TargetsDiffer(w: World, db: Db, t: nat, u: nat, id: nat)
    requires KeyInv(w, db) && t in db.txs && u in db.txs && t != u
    requires StagedInsert(db, u, id) && Staged(db.txs[t].phase)
    ensures db.txs[t].phase.target != id
  {
    assert Knows(w, db, t);
    var own := db.txs[t].phase.target;
    assert db.txs[t].phase.insert ==> StagedInsert(db, t, own);
  }

  lemma CommitKeepsFresh(w: World, db: Db, t: nat)
    requires KeyInv(w, db) && t in db.txs && db.txs[t].phase.Logged?
    ensures FreshInserts(CommitTx(w, db, t))
  {
    CommittedKeys(w, db, t);
    hide CommitWindow, LockOf, KeyFor, Knows, UniqueKeys, Exclusive;
    var out := CommitTx(w, db, t);
    forall u, id | u in out.txs && StagedInsert(out, u, id)
      ensures u in db.txs && u != t && StagedInsert(db, u, id) && id !in out.tables.rows
    {
      TargetsDiffer(w, db, t, u, id);
    }
  }

  lemma CommitKeepsExclusive(w: World, db: Db, t: nat)
    requires Exclusive(w, db) && t in db.txs && db.txs[t].phase.Logged?
    ensures Exclusive(w, CommitTx(w, db, t))
  {
    hide CommitWindow, LockOf, KeyFor;
  }

  lemma CommitKeepsKeys(w: World, db: Db, t: nat)
    requires KeyInv(w, db) && LocksCover(w, db.txs) && t in db.txs && db.txs[t].phase.Logged?
    ensures KeyInv(w, CommitTx(w, db, t))
  {
    CommitKeepsUnique(w, db, t);
    CommitKeepsFresh(w, db, t);
    CommitKeepsExclusive(w, db, t);
    var out := CommitTx(w, db, t);
    hide CommitWindow, LockOf, KeyFor, UniqueKeys, Exclusive, FreshInserts;
    forall u | u in out.txs ensures Knows(w, out, u) {
      if u != t { CommitKeepsKnowledgeOf(w, db, t, u); }
    }
  }

  predicate PhaseStep(step: Step) { !step.Commit? && !step.Resolve? && !step.Expire? }

  lemma PhaseKeepsExclusive(w: World, db: Db, step: Step)
    requires Exclusive(w, db) && Enabled(w, db, step) && PhaseStep(step)
    ensures Exclusive(w, Do(w, db, step))
  {
    hide LockOf, KeyFor;
  }

  lemma PhaseKeepsFresh(w: World, db: Db, step: Step)
    requires FreshInserts(db) && Enabled(w, db, step) && PhaseStep(step)
    ensures FreshInserts(Do(w, db, step))
  {
    hide LockOf, KeyFor;
    var out := Do(w, db, step);
    forall t, id | t in out.txs && StagedInsert(out, t, id) && !(t in db.txs && StagedInsert(db, t, id))
      ensures step.Write? && t == step.tx && id == step.newId {
    }
  }

  lemma PhaseKeepsKnowledge(w: World, db: Db, step: Step)
    requires (forall t :: t in db.txs ==> Knows(w, db, t)) && Enabled(w, db, step) && PhaseStep(step)
    ensures var out := Do(w, db, step); forall t :: t in out.txs ==> Knows(w, out, t)
  {
    hide LockOf, KeyFor;
    var out := Do(w, db, step);
    assert out.tables == db.tables;
    forall t | t in out.txs ensures Knows(w, out, t) {
      if t in db.txs { assert Knows(w, db, t); }
    }
  }

  lemma PhaseKeepsKeys(w: World, db: Db, step: Step)
    requires KeyInv(w, db) && Enabled(w, db, step) && PhaseStep(step)
    ensures KeyInv(w, Do(w, db, step))
  {
    hide Exclusive, FreshInserts, Knows, Answers, LockFree, FreshId;
    PhaseKeepsExclusive(w, db, step);
    PhaseKeepsFresh(w, db, step);
    PhaseKeepsKnowledge(w, db, step);
  }

  lemma StepKeepsKeys(w: World, db: Db, step: Step)
    requires KeyInv(w, db) && LocksCover(w, db.txs) && !step.Resolve? && !step.Expire?
    ensures KeyInv(w, Do(w, db, step))
  {
    hide KeyInv, LocksCover;
    if Enabled(w, db, step) {
      if step.Commit? {
        CommitKeepsKeys(w, db, step.tx);
      } else {
        PhaseKeepsKeys(w, db, step);
      }
    }
  }

  // ---------------------------------------------------------------- rows are serial folds in lock order

  /** The committed arrivals for one key, in the order their transactions got the lock. */
  function Serial(w: World, txs: map<nat, Tx>, order: seq<nat>, key: RowKey): seq<Arrival> {
    if order == [] then []
    else
      var rest, t := Serial(w, txs, Init(order), key), Last(order);
      if t in txs && txs[t].phase.Committed? && KeyFor(w, txs[t].request) == key
      then rest + [txs[t].request.arrival] else rest
  }

  /** Locks are taken once, and whoever took a lock earlier has let go of it. */
  ghost predicate OrderInv(w: World, db: Db) {
    && (forall i :: 0 <= i < |db.order| ==> db.order[i] in db.txs && !db.txs[db.order[i]].phase.Resolved?)
    && Distinct(db.order)
    && (forall t :: t in db.txs && Holding(db.txs[t].phase) ==> t in db.order)
    && (forall i, j :: (0 <= i < j < |db.order|
                        && LockOf(w, db.txs[db.order[i]].request) == LockOf(w, db.txs[db.order[j]].request))
                       ==> !Holding(db.txs[db.order[i]].phase))
  }

  ghost predicate HasRow(rows: map<nat, Row>, key: RowKey) { exists id :: id in rows && rows[id].key == key }

  ghost predicate SerialInv(w: World, db: Db) {
    && (forall id :: id in db.tables.rows ==> IsSerial(w, db, db.tables.rows[id]))
    && (forall t :: t in db.txs && db.txs[t].phase.Committed? ==> HasRow(db.tables.rows, KeyFor(w, db.txs[t].request)))
  }

  ghost predicate IsSerial(w: World, db: Db, r: Row) {
    var xs := Serial(w, db.txs, db.order, r.key);
    xs != [] && r == SerialRow(r.key, xs)
  }

  lemma {:induction false} SerialSame(w: World, txs: map<nat, Tx>, txs': map<nat, Tx>, order: seq<nat>, key: RowKey)
    requires forall i :: 0 <= i < |order| ==> order[i] in txs && order[i] in txs'
    requires forall i :: 0 <= i < |order| ==> txs'[order[i]].request == txs[order[i]].request
    requires forall i :: 0 <= i < |order| && KeyFor(w, txs[order[i]].request) == key
                         ==> txs'[order[i]].phase.Committed? == txs[order[i]].phase.Committed?
    ensures Serial(w, txs', order, key) == Serial(w, txs, order, key)
  {
    hide KeyFor;
    if order != [] {
      assert order[|order| - 1] == Last(order);
      SerialSame(w, txs, txs', Init(order), key);
    }
  }

  /** Committing the last transaction of a key in lock order appends it. */
  lemma {:induction false} SerialCommit(w: World, txs: map<nat, Tx>, order: seq<nat>, p: nat, key: RowKey)
    requires p < |order| && Distinct(order)
    requires forall i :: 0 <= i < |order| ==> order[i] in txs
    requires KeyFor(w, txs[order[p]].request) == key && !txs[order[p]].phase.Committed?
    requires forall j :: p < j < |order| ==> KeyFor(w, txs[order[j]].request) != key
    ensures var t := order[p];
            Serial(w, txs[t := txs[t].(phase := Committed)], order, key)
            == Serial(w, txs, order, key) + [txs[t].request.arrival]
  {
    hide KeyFor;
    var t := order[p];
    var txs' := txs[t := txs[t].(phase := Committed)];
    var front := Init(order);
    if p == |order| - 1 {
      SerialSame(w, txs, txs', front, key);
    } else {
      assert front[p] == t;
      SerialCommit(w, txs, front, p, key);
    }
  }

  lemma {:induction false} NoSerial(w: World, txs: map<nat, Tx>, order: seq<nat>, key: RowKey)
    requires forall t :: t in txs && txs[t].phase.Committed? ==> KeyFor(w, txs[t].request) != key
    ensures Serial(w, txs, order, key) == []
  {
    hide KeyFor;
    if order != [] { NoSerial(w, txs, Init(order), key); }
  }

  /** At its commit, no transaction later in lock order wants the same row. */
  lemma HolderIsLast(w: World, db: Db, t: nat, p: nat)
    requires OrderInv(w, db) && LocksCover(w, db.txs) && t in db.txs && Holding(db.txs[t].phase)
    requires p < |db.order| && db.order[p] == t
    ensures forall j :: p < j < |db.order|
                        ==> KeyFor(w, db.txs[db.order[j]].request) != KeyFor(w, db.txs[t].request)
  {
    hide KeyFor, LockOf;
  }

  lemma CommitExtendsSerial(w: World, db: Db, t: nat)
    requires OrderInv(w, db) && LocksCover(w, db.txs) && t in db.txs && db.txs[t].phase.Logged?
    ensures var out, key := CommitTx(w, db, t), KeyFor(w, db.txs[t].request);
            Serial(w, out.txs, out.order, key) == Serial(w, db.txs, db.order, key) + [db.txs[t].request.arrival]
  {
    var p :| 0 <= p < |db.order| && db.order[p] == t;
    HolderIsLast(w, db, t, p);
    SerialCommit(w, db.txs, db.order, p, KeyFor(w, db.txs[t].request));
  }

  lemma SerialRowSnoc(key: RowKey, xs: seq<Arrival>, a: Arrival)
    ensures SerialRow(key, xs + [a]) == if xs == [] then NewRow(key, a) else UpdateRow(SerialRow(key, xs), a)
  {
    hide UpdateRow, NewRow;
    assert Init(xs + [a]) == xs;
  }

  lemma NoCommittedNoRow(w: World, db: Db, key: RowKey)
    requires SerialInv(w, db) && forall id :: id in db.tables.rows ==> db.tables.rows[id].key != key
    ensures Serial(w, db.txs, db.order, key) == []
  {
    hide KeyFor, IsSerial;
    forall u | u in db.txs && db.txs[u].phase.Committed? ensures KeyFor(w, db.txs[u].request) != key {
      assert HasRow(db.tables.rows, KeyFor(w, db.txs[u].request));
    }
    NoSerial(w, db.txs, db.order, key);
  }

  ghost predicate AllInv(w: World, db: Db) { KeyInv(w, db) && OrderInv(w, db) && SerialInv(w, db) }

  /** Transaction `t` is about to commit. */
  ghost predicate Committing(w: World, db: Db, t: nat) {
    AllInv(w, db) && LocksCover(w, db.txs) && t in db.txs && db.txs[t].phase.Logged?
  }

  lemma CommitWritesSerialRow(w: World, db: Db, t: nat)
    requires Committing(w, db, t)
    ensures var out := CommitTx(w, db, t);
            db.txs[t].phase.target in out.tables.rows && IsSerial(w, out, out.tables.rows[db.txs[t].phase.target])
  {
    var id, key := db.txs[t].phase.target, KeyFor(w, db.txs[t].request);
    CommittedKeys(w, db, t);
    CommitExtendsSerial(w, db, t);
    SerialRowSnoc(key, Serial(w, db.txs, db.order, key), db.txs[t].request.arrival);
    assert Knows(w, db, t);
    RowOfUpdate(w, db, t);
    hide KeyFor, LockOf, UpdateRow, NewRow, SerialRow, Serial, KeyInv, OrderInv, LocksCover;
    if id in db.tables.rows {
      assert IsSerial(w, db, db.tables.rows[id]);
    } else {
      NoCommittedNoRow(w, db, key);
    }
  }

  lemma CommitKeepsOtherRows(w: World, db: Db, t: nat, i: nat)
    requires KeyInv(w, db) && OrderInv(w, db) && SerialInv(w, db) && t in db.txs && db.txs[t].phase.Logged?
    requires i in db.tables.rows && i != db.txs[t].phase.target
    ensures var out := CommitTx(w, db, t); i in out.tables.rows && IsSerial(w, out, out.tables.rows[i])
  {
    var out := CommitTx(w, db, t);
    CommittedKeys(w, db, t);
    CommitKeepsUnique(w, db, t);
    assert out.tables.rows[i].key != out.tables.rows[db.txs[t].phase.target].key;
    hide KeyFor, LockOf, CommitWindow, SerialRow, Serial, KeyInv;
    assert IsSerial(w, db, db.tables.rows[i]);
    SerialSame(w, db.txs, out.txs, db.order, db.tables.rows[i].key);
  }

  lemma CommitKeepsHasRow(w: World, db: Db, t: nat)
    requires KeyInv(w, db) && SerialInv(w, db) && t in db.txs && db.txs[t].phase.Logged?
    ensures var out := CommitTx(w, db, t);
            forall u :: u in out.txs && out.txs[u].phase.Committed?
                        ==> HasRow(out.tables.rows, KeyFor(w, out.txs[u].request))
  {
    var out := CommitTx(w, db, t);
    CommittedKeys(w, db, t);
    RowOfUpdate(w, db, t);
    hide KeyFor, LockOf, CommitWindow, IsSerial, KeyInv;
    forall u | u in out.txs && out.txs[u].phase.Committed?
      ensures HasRow(out.tables.rows, KeyFor(w, out.txs[u].request))
    {
      if u != t {
        var i :| i in db.tables.rows && db.tables.rows[i].key == KeyFor(w, db.txs[u].request);
        assert i in out.tables.rows && out.tables.rows[i].key == KeyFor(w, db.txs[u].request);
      }
    }
  }

  lemma CommitKeepsSerial(w: World, db: Db, t: nat)
    requires Committing(w, db, t)
    ensures SerialInv(w, CommitTx(w, db, t))
  {
    var out := CommitTx(w, db, t);
    CommitWritesSerialRow(w, db, t);
    CommitKeepsHasRow(w, db, t);
    hide KeyFor, IsSerial, KeyInv, LocksCover, OrderInv;
    forall i | i in out.tables.rows ensures IsSerial(w, out, out.tables.rows[i]) {
      if i != db.txs[t].phase.target { CommitKeepsOtherRows(w, db, t, i); }
    }
  }

  lemma StepKeepsOrder(w: World, db: Db, step: Step)
    requires OrderInv(w, db) && Enabled(w, db, step)
    ensures OrderInv(w, Do(w, db, step))
  {
    hide KeyFor, LockOf, CommitWindow, ResolveHost, ExpireVms;
  }

  lemma PhaseKeepsSerial(w: World, db: Db, step: Step)
    requires OrderInv(w, db) && SerialInv(w, db) && Enabled(w, db, step) && PhaseStep(step)
    ensures SerialInv(w, Do(w, db, step))
  {
    hide KeyFor, LockOf, SerialRow;
    var out := Do(w, db, step);
    forall key ensures Serial(w, out.txs, out.order, key) == Serial(w, db.txs, db.order, key) {
      SerialSame(w, db.txs, out.txs, db.order, key);
      if step.Lock? { assert Init(out.order) == db.order; }
    }
    forall i | i in out.tables.rows ensures IsSerial(w, out, out.tables.rows[i]) {
      assert IsSerial(w, db, db.tables.rows[i]);
    }
  }

  /** Requests are fixed once begun, so a cover of the later transactions covers the earlier ones. */
  lemma CoverShrinks(w: World, db: Db, step: Step)
    requires LocksCover(w, Do(w, db, step).txs)
    ensures LocksCover(w, db.txs)
  {
    hide KeyFor, LockOf;
    var out := Do(w, db, step);
    forall t | t in db.txs ensures t in out.txs && out.txs[t].request == db.txs[t].request {}
  }

  lemma {:induction false} RunKeepsKeys(w: World, steps: seq<Step>)
    requires IngestOnly(steps) && LocksCover(w, Run(w, steps).txs)
    ensures AllInv(w, Run(w, steps))
  {
    if steps != [] {
      var db, step := Run(w, Init(steps)), Last(steps);
      assert step == steps[|steps| - 1];
      CoverShrinks(w, db, step);
      RunKeepsKeys(w, Init(steps));
      hide KeyInv, OrderInv, SerialInv, LocksCover;
      StepKeepsKeys(w, db, step);
      if Enabled(w, db, step) {
        StepKeepsOrder(w, db, step);
        if step.Commit? { CommitKeepsSerial(w, db, step.tx); } else { PhaseKeepsSerial(w, db, step); }
      }
    }
  }

  // ---------------------------------------------------------------- main results

  /**
   * In every interleaving of ingest transactions whose equal row keys share a lock, each
   * bucket key has at most one committed row, and that row is the serial fold of its
   * committed ingests in the order they got the lock.
   */
  lemma OneSerialRowPerKey(w: World, steps: seq<Step>)
    requires IngestOnly(steps) && LocksCover(w, Run(w, steps).txs)
    ensures var db := Run(w, steps);
            && UniqueKeys(db.tables.rows)
            && (forall id :: id in db.tables.rows ==> IsSerial(w, db, db.tables.rows[id]))
            && (forall t :: t in db.txs && db.txs[t].phase.Committed?
                            ==> HasRow(db.tables.rows, KeyFor(w, db.txs[t].request)))
  {
    RunKeepsKeys(w, steps);
  }

  /** Every address text in the run is the only spelling of its address in the run. */
  ghost predicate CanonicalTexts(w: World, txs: map<nat, Tx>) {
    forall a, b :: a in txs && b in txs
      ==> SameSpelling(w, txs[a].request.arrival.event.srcIp, txs[b].request.arrival.event.srcIp)
          && SameSpelling(w, txs[a].request.arrival.event.dstIp, txs[b].request.arrival.event.dstIp)
  }

  /** Canonical address texts are enough, whatever the hash does. */
  lemma CanonicalTextsGiveOneRow(w: World, steps: seq<Step>)
    requires IngestOnly(steps) && CanonicalTexts(w, Run(w, steps).txs)
    ensures var db := Run(w, steps);
            UniqueKeys(db.tables.rows) && forall id :: id in db.tables.rows ==> IsSerial(w, db, db.tables.rows[id])
  {
    var txs := Run(w, steps).txs;
    forall a, b | a in txs && b in txs && KeyFor(w, txs[a].request) == KeyFor(w, txs[b].request)
      ensures LockOf(w, txs[a].request) == LockOf(w, txs[b].request)
    {
      CanonicalTextsShareLocks(w, txs[a].request, txs[b].request);
    }
    OneSerialRowPerKey(w, steps);
  }

  /** The run of two transactions side by side: both look before either commits. */
  function SideBySide(a: Request, b: Request): seq<Step> {
    [Begin(0, a), Begin(1, b), Lock(0), Lock(1), Lookup(0, None), Lookup(1, None),
     Write(0, 0), Write(1, 1), Log(0), Log(1), Commit(0), Commit(1)]
  }

  lemma RunPrefix(w: World, steps: seq<Step>, i: nat)
    requires i < |steps|
    ensures Run(w, steps[..i + 1]) == Do(w, Run(w, steps[..i]), steps[i])
  {
    hide Do;
    assert Init(steps[..i + 1]) == steps[..i];
  }

  /** Two open transactions on empty tables. */
  function Pair(a: Tx, b: Tx, order: seq<nat>): Db { Db(Tables(map[], []), map[0 := a, 1 := b], order) }

  lemma BothBegin(w: World, a: Request, b: Request)
    requires Storable(a.arrival) && Storable(b.arrival)
    ensures Run(w, SideBySide(a, b)[..2]) == Pair(Tx(a, Resolved), Tx(b, Resolved), [])
  {
    var s := SideBySide(a, b);
    assert Run(w, s[..0]) == START;
    hide LockOf, KeyFor, Run, Storable;
    RunPrefix(w, s, 0);
    RunPrefix(w, s, 1);
  }

  lemma FirstLocks(w: World, a: Request, b: Request)
    requires Storable(a.arrival) && Storable(b.arrival)
    ensures Run(w, SideBySide(a, b)[..3]) == Pair(Tx(a, Locked), Tx(b, Resolved), [0])
  {
    BothBegin(w, a, b);
    hide LockOf, KeyFor, Run;
    RunPrefix(w, SideBySide(a, b), 2);
  }

  lemma BothLock(w: World, a: Request, b: Request)
    requires Storable(a.arrival) && Storable(b.arrival) && LockOf(w, a) != LockOf(w, b)
    ensures Run(w, SideBySide(a, b)[..4]) == Pair(Tx(a, Locked), Tx(b, Locked), [0, 1])
  {
    FirstLocks(w, a, b);
    hide LockOf, KeyFor, Run;
    RunPrefix(w, SideBySide(a, b), 3);
  }

  /** Both transactions get through their lookups without seeing each other. */
  lemma BothLookUp(w: World, a: Request, b: Request)
    requires Storable(a.arrival) && Storable(b.arrival) && LockOf(w, a) != LockOf(w, b)
    ensures Run(w, SideBySide(a, b)[..6]) == Pair(Tx(a, LookedUp(None)), Tx(b, LookedUp(None)), [0, 1])
  {
    BothLock(w, a, b);
    hide LockOf, KeyFor, Run;
    RunPrefix(w, SideBySide(a, b), 4);
    RunPrefix(w, SideBySide(a, b), 5);
  }

  lemma BothWrite(w: World, a: Request, b: Request)
    requires Storable(a.arrival) && Storable(b.arrival) && LockOf(w, a) != LockOf(w, b)
    ensures Run(w, SideBySide(a, b)[..8]) == Pair(Tx(a, Written(0, true)), Tx(b, Written(1, true)), [0, 1])
  {
    BothLookUp(w, a, b);
    hide LockOf, KeyFor, Run;
    RunPrefix(w, SideBySide(a, b), 6);
    RunPrefix(w, SideBySide(a, b), 7);
  }

  lemma BothLog(w: World, a: Request, b: Request)
    requires Storable(a.arrival) && Storable(b.arrival) && LockOf(w, a) != LockOf(w, b)
    ensures Run(w, SideBySide(a, b)[..10]) == Pair(Tx(a, Logged(0, true)), Tx(b, Logged(1, true)), [0, 1])
  {
    BothWrite(w, a, b);
    hide LockOf, KeyFor, Run;
    RunPrefix(w, SideBySide(a, b), 8);
    RunPrefix(w, SideBySide(a, b), 9);
  }

  /**
   * The condition is needed: two requests for one row whose locks differ have a run that
   * commits two rows with one key.
   */
  lemma DifferentLocksDuplicate(w: World, a: Request, b: Request)
    requires Storable(a.arrival) && Storable(b.arrival)
    requires KeyFor(w, a) == KeyFor(w, b) && LockOf(w, a) != LockOf(w, b)
    ensures IngestOnly(SideBySide(a, b)) && !UniqueKeys(Run(w, SideBySide(a, b)).tables.rows)
  {
    BothLog(w, a, b);
    var s := SideBySide(a, b);
    assert s[..12] == s;
    hide LockOf, KeyFor, Run;
    RunPrefix(w, s, 10);
    RunPrefix(w, s, 11);
    var d := Run(w, s[..11]);
    assert d.tables.rows == map[0 := NewRow(KeyFor(w, a), a.arrival)];
    var rows := Run(w, s).tables.rows;
    assert rows == map[0 := NewRow(KeyFor(w, a), a.arrival), 1 := NewRow(KeyFor(w, b), b.arrival)];
    assert 0 in rows && 1 in rows && rows[0].key == rows[1].key;
  }

  // ---------------------------------------------------------------- exactly when

  /** Every transaction of the run comes from this set of requests. */
  predicate Uses(steps: seq<Step>, requests: set<Request>) {
    forall i :: 0 <= i < |steps| && steps[i].Begin? ==> steps[i].request in requests
  }

  lemma {:induction false} RequestsUsed(w: World, steps: seq<Step>, requests: set<Request>)
    requires Uses(steps, requests)
    ensures forall t :: t in Run(w, steps).txs ==> Run(w, steps).txs[t].request in requests
  {
    if steps != [] {
      assert steps[|steps| - 1] == Last(steps);
      RequestsUsed(w, Init(steps), requests);
      hide LockFree, Answers, FreshId, CommitWindow, ResolveHost, ExpireVms, KeyFor;
    }
  }

  /** Requests that want one row want one lock. */
  predicate LocksMatchKeys(w: World, requests: set<Request>) {
    forall a, b :: a in requests && b in requests && KeyFor(w, a) == KeyFor(w, b) ==> LockOf(w, a) == LockOf(w, b)
  }

  /**
   * The advisory lock replaces a unique index exactly as far as lock texts follow row keys:
   * no interleaving of ingests drawn from a set of requests leaves two rows with one key if
   * and only if any two of the requests that want one row want one lock.
   */
  lemma UniqueExactlyWhenLocksMatch(w: World, requests: set<Request>)
    requires forall q :: q in requests ==> Storable(q.arrival)
    ensures (forall steps :: IngestOnly(steps) && Uses(steps, requests) ==> UniqueKeys(Run(w, steps).tables.rows))
            <==> LocksMatchKeys(w, requests)
  {
    hide LockOf, KeyFor, UniqueKeys, Storable;
    if LocksMatchKeys(w, requests) {
      forall steps | IngestOnly(steps) && Uses(steps, requests) ensures UniqueKeys(Run(w, steps).tables.rows) {
        RequestsUsed(w, steps, requests);
        OneSerialRowPerKey(w, steps);
      }
    } else {
      var a, b :| a in requests && b in requests && KeyFor(w, a) == KeyFor(w, b) && LockOf(w, a) != LockOf(w, b);
      DifferentLocksDuplicate(w, a, b);
      assert Uses(SideBySide(a, b), requests);
    }
  }

  lemma Sandwich(before: string, a: string, b: string, after: string)
    ensures before + a + after == before + b + after <==> a == b
  {
    var s, t := before + a + after, before + b + after;
    if s == t {
      assert |a| == |b|;
      assert s[|before|..|before| + |a|] == a && t[|before|..|before| + |b|] == b;
    }
  }

  function Respelled(q: Request, srcIp: string, dstIp: string): Request {
    q.(arrival := q.arrival.(event := q.arrival.event.(srcIp := srcIp, dstIp := dstIp)))
  }

  lemma TailKept(q: Request, srcIp: string, dstIp: string)
    ensures LockTail(Respelled(q, srcIp, dstIp).arrival.event, q.scope) == LockTail(q.arrival.event, q.scope)
  {
  }

  /**
   * Another spelling of the source address asks for another lock, always; `ValueOr` is the
   * code's fallback for an empty text, which validation never lets through.
   */
  lemma SpellingChangesTheLock(q: Request, other: string)
    ensures LockText(Respelled(q, other, q.arrival.event.dstIp)) == LockText(q)
            <==> ValueOr(other, q.srcVm) == ValueOr(q.arrival.event.srcIp, q.srcVm)
  {
    var r := Respelled(q, other, q.arrival.event.dstIp);
    TailKept(q, other, q.arrival.event.dstIp);
    hide LockTail;
    var after := "|" + DestinationText(q) + LockTail(q.arrival.event, q.scope);
    assert DestinationText(r) == DestinationText(q);
    assert SourceText(r) == ValueOr(other, q.srcVm);
    hide DestinationText, SourceText, ValueOr;
    assert LockText(r) == q.srcVm + "|" + SourceText(r) + after;
    assert LockText(q) == q.srcVm + "|" + SourceText(q) + after;
    Sandwich(q.srcVm + "|", SourceText(r), SourceText(q), after);
    assert SourceText(q) == ValueOr(q.arrival.event.srcIp, q.srcVm) by { SourceTextIs(q); }
  }

  lemma SourceTextIs(q: Request)
    ensures SourceText(q) == ValueOr(q.arrival.event.srcIp, q.srcVm)
  {
  }

  /** Another spelling of the destination address does so exactly when the destination is no registered VM. */
  lemma DestinationSpellingChangesTheLock(q: Request, other: string)
    requires other != q.arrival.event.dstIp
    ensures LockText(Respelled(q, q.arrival.event.srcIp, other)) != LockText(q) <==> q.dstVm.None? || q.dstVm.value == ""
  {
    var r := Respelled(q, q.arrival.event.srcIp, other);
    TailKept(q, q.arrival.event.srcIp, other);
    hide LockTail;
    assert SourceText(r) == SourceText(q);
    assert DestinationText(r) == DestinationText(q) <==> q.dstVm.Some? && q.dstVm.value != "";
    hide DestinationText, SourceText;
    Sandwich(q.srcVm + "|" + SourceText(q) + "|", DestinationText(r), DestinationText(q), LockTail(q.arrival.event, q.scope));
  }

  // ---------------------------------------------------------------- lock texts are no coarser than rows

  function Bar(a: string, rest: string): string { a + "|" + rest }

  lemma BarDecodes(a: string, x: string, b: string, y: string)
    requires '|' !in a && '|' !in b
    ensures Bar(a, x) == Bar(b, y) <==> a == b && x == y
  {
    var s, t := Bar(a, x), Bar(b, y);
    if s == t {
      assert s[|a|] == '|' && t[|b|] == '|';
      assert |a| == |b|;
      assert a == s[..|a|] && b == t[..|b|] && x == s[|a| + 1..] && y == t[|b| + 1..];
    }
  }

  /** The tail from the protocol on, and the whole text, as one field before the rest. */
  function TailFields(e: FlowEvent, scope: string): string {
    Bar(e.protocol, Bar(e.direction, Bar(Decimal(e.dstPort), scope)))
  }

  lemma TailNested(e: FlowEvent, scope: string)
    ensures LockTail(e, scope) == "|" + TailFields(e, scope)
  {
    var p, d, n := e.protocol, e.direction, Decimal(e.dstPort);
    hide Decimal;
    assert LockTail(e, scope) == "|" + p + "|" + d + ("|" + n + "|" + scope);
    assert "|" + n + "|" + scope == "|" + Bar(n, scope);
    assert "|" + p + "|" + d + ("|" + Bar(n, scope)) == "|" + p + "|" + Bar(d, Bar(n, scope));
    assert "|" + p + "|" + Bar(d, Bar(n, scope)) == "|" + Bar(p, Bar(d, Bar(n, scope)));
  }

  lemma TextNested(q: Request)
    ensures LockText(q)
            == Bar(q.srcVm, Bar(SourceText(q), Bar(DestinationText(q), TailFields(q.arrival.event, q.scope))))
  {
    var e := q.arrival.event;
    TailNested(e, q.scope);
    var vm, src, dst, tail := q.srcVm, SourceText(q), DestinationText(q), TailFields(e, q.scope);
    hide LockTail, TailFields, SourceText, DestinationText;
    assert LockText(q) == vm + "|" + src + "|" + (dst + ("|" + tail));
    assert dst + ("|" + tail) == Bar(dst, tail);
    assert vm + "|" + src + "|" + Bar(dst, tail) == vm + "|" + Bar(src, Bar(dst, tail));
  }

  lemma {:induction false} DigitsInjective(m: nat, n: nat)
    requires Digits(m) == Digits(n)
    ensures m == n
  {
    DigitsShape(m);
    DigitsShape(n);
    if m >= 10 && n >= 10 {
      assert Digits(m)[..|Digits(m)| - 1] == Digits(m / 10) && Digits(n)[..|Digits(n)| - 1] == Digits(n / 10);
      assert Digits(m)[|Digits(m)| - 1] == ('0' as int + m % 10) as char && Digits(n)[|Digits(n)| - 1] == ('0' as int + n % 10) as char;
      DigitsInjective(m / 10, n / 10);
    }
  }

  lemma {:induction false} DigitsShape(n: nat)
    ensures |Digits(n)| >= 1 && (n < 10 <==> |Digits(n)| == 1)
    ensures forall i :: 0 <= i < |Digits(n)| ==> '0' <= Digits(n)[i] <= '9'
  {
    if n >= 10 { DigitsShape(n / 10); }
  }

  lemma DecimalInjective(m: int, n: int)
    ensures Decimal(m) == Decimal(n) <==> m == n
    ensures '|' !in Decimal(m)
  {
    DigitsShape(if m < 0 then -m else m);
    DigitsShape(if n < 0 then -n else n);
    if Decimal(m) == Decimal(n) {
      assert m < 0 <==> Decimal(m)[0] == '-';
      assert n < 0 <==> Decimal(n)[0] == '-';
      if m < 0 {
        assert Decimal(m)[1..] == Digits(-m) && Decimal(n)[1..] == Digits(-n);
        DigitsInjective(-m, -n);
      } else {
        DigitsInjective(m, n);
      }
    }
  }

  /** No field of the lock text contains the separator. */
  predicate Separable(q: Request) {
    '|' !in q.srcVm && '|' !in SourceText(q) && '|' !in DestinationText(q)
    && '|' !in q.arrival.event.protocol && '|' !in q.arrival.event.direction
  }

  lemma TailsMeet(d: FlowEvent, s: string, e: FlowEvent, t: string)
    requires '|' !in d.protocol && '|' !in d.direction && '|' !in e.protocol && '|' !in e.direction
    ensures TailFields(d, s) == TailFields(e, t)
            <==> d.protocol == e.protocol && d.direction == e.direction && d.dstPort == e.dstPort && s == t
  {
    DecimalInjective(d.dstPort, e.dstPort);
    DecimalInjective(e.dstPort, d.dstPort);
    hide Decimal, Bar;
    BarDecodes(d.protocol, Bar(d.direction, Bar(Decimal(d.dstPort), s)), e.protocol, Bar(e.direction, Bar(Decimal(e.dstPort), t)));
    BarDecodes(d.direction, Bar(Decimal(d.dstPort), s), e.direction, Bar(Decimal(e.dstPort), t));
    BarDecodes(Decimal(d.dstPort), s, Decimal(e.dstPort), t);
  }

  /**
   * Two requests ask for one lock text exactly when they agree in source VM, source text,
   * destination VM or text, protocol, direction, port and scope: the lock serialises nothing
   * that the lookup tells apart by these.
   */
  lemma LockTextsMeet(a: Request, b: Request)
    requires Separable(a) && Separable(b)
    ensures LockText(a) == LockText(b)
            <==> && a.srcVm == b.srcVm && a.scope == b.scope
                 && ValueOr(a.arrival.event.srcIp, a.srcVm) == ValueOr(b.arrival.event.srcIp, b.srcVm)
                 && ValueOr(if a.dstVm.Some? then a.dstVm.value else "", a.arrival.event.dstIp)
                    == ValueOr(if b.dstVm.Some? then b.dstVm.value else "", b.arrival.event.dstIp)
                 && a.arrival.event.protocol == b.arrival.event.protocol
                 && a.arrival.event.direction == b.arrival.event.direction
                 && a.arrival.event.dstPort == b.arrival.event.dstPort
  {
    var d, e := a.arrival.event, b.arrival.event;
    TextNested(a);
    TextNested(b);
    TailsMeet(d, a.scope, e, b.scope);
    hide Bar, TailFields, LockText, ValueOr;
    var s, t := TailFields(d, a.scope), TailFields(e, b.scope);
    BarDecodes(a.srcVm, Bar(SourceText(a), Bar(DestinationText(a), s)), b.srcVm, Bar(SourceText(b), Bar(DestinationText(b), t)));
    BarDecodes(SourceText(a), Bar(DestinationText(a), s), SourceText(b), Bar(DestinationText(b), t));
    BarDecodes(DestinationText(a), s, DestinationText(b), t);
  }

  // ---------------------------------------------------------------- one transaction after another

  lemma RunSnoc(w: World, steps: seq<Step>, x: Step)
    ensures Run(w, steps + [x]) == Do(w, Run(w, steps), x)
  {
    hide Do;
    assert Init(steps + [x]) == steps;
  }

  /** No transaction is under way. */
  ghost predicate Quiet(db: Db) { forall t :: t in db.txs ==> !Holding(db.txs[t].phase) }

  /** All steps of one transaction, with nothing in between. */
  function Alone(t: nat, q: Request, found: Option<nat>, newId: nat): seq<Step> {
    [Begin(t, q), Lock(t), Lookup(t, found), Write(t, newId), Log(t), Commit(t)]
  }

  function Targeted(found: Option<nat>, newId: nat): nat { if found.Some? then found.value else newId }

  function With(db: Db, t: nat, q: Request, p: Phase): Db { db.(txs := db.txs[t := Tx(q, p)]) }

  lemma AloneLocks(w: World, db: Db, t: nat, q: Request)
    requires Quiet(db) && t !in db.txs && Storable(q.arrival)
    ensures Do(w, Do(w, db, Begin(t, q)), Lock(t)) == With(db, t, q, Locked).(order := db.order + [t])
  {
    hide LockOf, KeyFor;
    assert Do(w, db, Begin(t, q)) == With(db, t, q, Resolved);
    assert With(db, t, q, Resolved).txs[t := Tx(q, Locked)] == db.txs[t := Tx(q, Locked)];
  }

  lemma AloneLooksUp(w: World, db: Db, t: nat, q: Request, found: Option<nat>)
    requires Answers(db.tables.rows, KeyFor(w, q), found)
    ensures Do(w, With(db, t, q, Locked), Lookup(t, found)) == With(db, t, q, LookedUp(found))
  {
    hide LockOf, KeyFor, Answers;
  }

  lemma AloneWrites(w: World, db: Db, t: nat, q: Request, found: Option<nat>, newId: nat)
    requires Quiet(db) && t !in db.txs && newId !in db.tables.rows
    ensures Do(w, With(db, t, q, LookedUp(found)), Write(t, newId))
            == With(db, t, q, Written(Targeted(found, newId), found.None?))
  {
    hide LockOf, KeyFor;
  }

  lemma AloneCommits(w: World, db: Db, t: nat, q: Request, id: nat, insert: bool)
    ensures Do(w, Do(w, With(db, t, q, Written(id, insert)), Log(t)), Commit(t))
            == With(db, t, q, Committed).(tables := CommitWindow(db.tables, id, KeyFor(w, q), q.arrival))
  {
    hide LockOf, KeyFor, CommitWindow;
    assert Do(w, With(db, t, q, Written(id, insert)), Log(t)) == With(db, t, q, Logged(id, insert));
  }

  /** Where the six steps lead. */
  ghost function DoAlone(w: World, db: Db, t: nat, q: Request, found: Option<nat>, newId: nat): Db {
    var looked := Do(w, Do(w, Do(w, db, Begin(t, q)), Lock(t)), Lookup(t, found));
    Do(w, Do(w, Do(w, looked, Write(t, newId)), Log(t)), Commit(t))
  }

  lemma AloneDoes(w: World, db: Db, t: nat, q: Request, found: Option<nat>, newId: nat)
    requires Quiet(db) && t !in db.txs && Storable(q.arrival)
    requires Answers(db.tables.rows, KeyFor(w, q), found) && newId !in db.tables.rows
    ensures DoAlone(w, db, t, q, found, newId)
            == With(db, t, q, Committed).(order := db.order + [t],
                 tables := CommitWindow(db.tables, Targeted(found, newId), KeyFor(w, q), q.arrival))
  {
    hide Do, KeyFor, LockOf, CommitWindow, Answers;
    var ordered := db.(order := db.order + [t]);
    AloneLocks(w, db, t, q);
    AloneLooksUp(w, ordered, t, q, found);
    AloneWrites(w, ordered, t, q, found, newId);
    AloneCommits(w, ordered, t, q, Targeted(found, newId), found.None?);
  }

  lemma RunAlone(w: World, steps: seq<Step>, t: nat, q: Request, found: Option<nat>, newId: nat)
    ensures Run(w, steps + Alone(t, q, found, newId)) == DoAlone(w, Run(w, steps), t, q, found, newId)
  {
    hide Run, Do;
    var s1 := steps + [Begin(t, q)];
    var s2 := s1 + [Lock(t)];
    var s3 := s2 + [Lookup(t, found)];
    var s4 := s3 + [Write(t, newId)];
    var s5 := s4 + [Log(t)];
    RunSnoc(w, steps, Begin(t, q));
    RunSnoc(w, s1, Lock(t));
    RunSnoc(w, s2, Lookup(t, found));
    RunSnoc(w, s3, Write(t, newId));
    RunSnoc(w, s4, Log(t));
    RunSnoc(w, s5, Commit(t));
    assert s5 + [Commit(t)] == steps + Alone(t, q, found, newId);
  }

  /** A transaction that runs alone commits its window to the row its lookup finds, or to a new one. */
  lemma TransactionAlone(w: World, steps: seq<Step>, t: nat, q: Request, found: Option<nat>, newId: nat)
    requires var db := Run(w, steps);
             Quiet(db) && t !in db.txs && Storable(q.arrival)
             && Answers(db.tables.rows, KeyFor(w, q), found) && newId !in db.tables.rows
    ensures var db, out := Run(w, steps), Run(w, steps + Alone(t, q, found, newId));
            && out.tables == CommitWindow(db.tables, Targeted(found, newId), KeyFor(w, q), q.arrival)
            && out.txs == db.txs[t := Tx(q, Committed)] && Quiet(out)
  {
    hide Run, DoAlone, KeyFor, CommitWindow, Answers, Alone;
    AloneDoes(w, Run(w, steps), t, q, found, newId);
    RunAlone(w, steps, t, q, found, newId);
  }

  // ---------------------------------------------------------------- resolution and expiry do duplicate keys

  /** A destination VM is ingested to, expires, is ingested to unresolved and comes back. */
  function GoneAndBack(w: World, q: Request, vm: string, scope: string): seq<Step> {
    Alone(0, q, None, 0) + [Expire({vm}, {})] + Alone(1, q.(dstVm := None, scope := scope), None, 1)
  }

  lemma OneRowOfAVm(w: World, q: Request, vm: string)
    requires Storable(q.arrival) && q.dstVm == Some(vm) && q.srcVm != vm
    ensures var db := Run(w, Alone(0, q, None, 0) + [Expire({vm}, {})]);
            Quiet(db) && db.txs.Keys == {0} && db.tables.rows.Keys == {0}
            && db.tables.rows[0].key == KeyFor(w, q).(dstVm := None)
  {
    var first := Alone(0, q, None, 0);
    assert [] + first == first;
    TransactionAlone(w, [], 0, q, None, 0);
    RunSnoc(w, first, Expire({vm}, {}));
    NewRowKey(KeyFor(w, q), q.arrival);
    hide Run, NewRow, UpdateRow, Alone;
  }

  lemma TwoRowsOfAVm(w: World, q: Request, vm: string, scope: string)
    requires Storable(q.arrival) && q.dstVm == Some(vm) && q.srcVm != vm && scope != q.scope
    ensures var rows := Run(w, GoneAndBack(w, q, vm, scope)).tables.rows;
            && rows.Keys == {0, 1}
            && rows[0].key == KeyFor(w, q).(dstVm := None) && rows[1].key == KeyFor(w, q).(dstVm := None, scope := scope)
  {
    var r := q.(dstVm := None, scope := scope);
    OneRowOfAVm(w, q, vm);
    NewRowKey(KeyFor(w, r), r.arrival);
    hide Run, NewRow, UpdateRow, Alone;
    TransactionAlone(w, Alone(0, q, None, 0) + [Expire({vm}, {})], 1, r, None, 1);
  }

  /**
   * Host resolution duplicates keys in runs the code has: for every stored window to a VM that
   * expires, is ingested to under another scope while it is unknown, and registers again.
   */
  lemma ResolutionCanDuplicateKeys(w: World, q: Request, vm: string, scope: string, tenants: map<string, string>, tenant: string)
    requires Storable(q.arrival) && q.dstVm == Some(vm) && q.srcVm != vm && scope != q.scope && q.srcVm in tenants
    ensures var before := GoneAndBack(w, q, vm, scope);
            && UniqueKeys(Run(w, before).tables.rows)
            && !UniqueKeys(Run(w, before + [Resolve(tenants, vm, tenant, w.inet(q.arrival.event.dstIp))]).tables.rows)
  {
    TwoRowsOfAVm(w, q, vm, scope);
    var before, ip := GoneAndBack(w, q, vm, scope), w.inet(q.arrival.event.dstIp);
    RunSnoc(w, before, Resolve(tenants, vm, tenant, ip));
    hide Run, GoneAndBack;
    var t := Run(w, before).tables;
    var rows := ResolveHost(t, tenants, vm, tenant, ip).rows;
    assert 0 in rows && 1 in rows && rows[0].key == rows[1].key;
  }

  /** Expiry does, too: an address that moved from one VM to another, when both expire together. */
  lemma ExpiryCanDuplicateKeys(w: World, q: Request, a: string, b: string)
    requires Storable(q.arrival) && a != b
    ensures var before := Alone(0, q.(dstVm := Some(a)), None, 0) + Alone(1, q.(dstVm := Some(b)), None, 1);
            && UniqueKeys(Run(w, before).tables.rows)
            && !UniqueKeys(Run(w, before + [Expire({a, b}, {})]).tables.rows)
  {
    var p, r := q.(dstVm := Some(a)), q.(dstVm := Some(b));
    var first := Alone(0, p, None, 0);
    assert [] + first == first;
    TransactionAlone(w, [], 0, p, None, 0);
    NewRowKey(KeyFor(w, p), p.arrival);
    NewRowKey(KeyFor(w, r), r.arrival);
    hide Run, NewRow, UpdateRow;
    TransactionAlone(w, first, 1, r, None, 1);
    var before := first + Alone(1, r, None, 1);
    RunSnoc(w, before, Expire({a, b}, {}));
    var t := Run(w, before).tables;
    assert t.rows.Keys == {0, 1};
    var rows := ExpireVms(t, {a, b}, {}).rows;
    assert 0 in rows && 1 in rows && rows[0].key == rows[1].key;
  }
}
