/**
 * The agent's runs and the backend's runs as one system. Each post that reaches the backend is
 * a transaction that carries the state's payload; it commits before or after the sender stops
 * waiting, or never. Transactions of other agents, host resolution and VM expiry interleave.
 * A step that is not enabled changes nothing.
 */
module Joined {
  import opened Prelude
  import opened FlowState
  import opened Payload
  import A = AgentLoop
  import Tx = IngestTx
  import FlowTable
  import EndToEnd
  import opened AtLeastOnce

  /** The agent, what parses as an address, and how the database compares and hashes. */
  datatype Config = Config(agentId: string, isAddr: string -> bool, w: Tx.World)

  /**
   * The two runs so far; `flight` is the transaction of the post that the sender is waiting
   * for, `owed` are those it stopped waiting for that are yet to commit.
   */
  datatype Joint = Joint(agent: seq<A.Step>, db: seq<Tx.Step>, flight: Option<nat>, owed: seq<nat>)

  datatype Step =
    | Local(act: A.Step)                                 // a step of the agent that is no post
    | Server(statement: Tx.Step)                         // a step of the backend
    | Send(tx: nat, request: Tx.Request, now: int)       // a post arrives and passes validation
    | Answer(answer: A.Answer)                           // the sender stops waiting for it
    | Refused                                            // a post fails before it becomes a transaction

  const START := Joint([], [], None, [])

  ghost function Agent(j: Joint): A.System { A.Run(j.agent) }

  ghost function Db(c: Config, j: Joint): Tx.Db { Tx.Run(c.w, j.db) }

  predicate Ours(c: Config, q: Tx.Request) { q.arrival.event.agentId == c.agentId }

  predicate IsCommitted(db: Tx.Db, t: nat) { t in db.txs && db.txs[t].phase.Committed? }

  /** An answer marked lost says that the post commits, now or later; a failed one never does. */
  ghost predicate Enabled(c: Config, j: Joint, step: Step) {
    var s, db := Agent(j), Db(c, j);
    match step
    case Local(x) =>
      && !x.Post? && (j.flight.Some? ==> !x.GiveUp?)
      && (x.Accept? ==> WellFormed(x.event, c.isAddr) && x.event.agentId == c.agentId)
    case Server(x) =>
      && (x.Begin? ==> !Ours(c, x.request))
      && (x.Commit? && x.tx in db.txs && Ours(c, db.txs[x.tx].request) ==> j.flight == Some(x.tx) || x.tx in j.owed)
      && (x.Abort? ==> x.tx !in j.owed)
    case Send(t, q, now) =>
      && j.flight.None? && A.Enabled(s, A.Post(A.Failed)) && BelowLimit(s.sender.current, TWO_63)
      && Validate(FromFlowState(s.sender.current), c.isAddr, now) == Accepted(q.arrival.event)
      && Tx.Enabled(c.w, db, Tx.Begin(t, q))
    case Answer(a) =>
      && j.flight.Some? && A.Enabled(s, A.Post(a))
      && (a.Acked? ==> IsCommitted(db, j.flight.value)) && (a.Failed? ==> !IsCommitted(db, j.flight.value))
    case Refused => j.flight.None? && A.Enabled(s, A.Post(A.Failed))
  }

  function Without(ts: seq<nat>, t: nat): seq<nat> {
    if ts == [] then [] else if Last(ts) == t then Without(Init(ts), t) else Without(Init(ts), t) + [Last(ts)]
  }

  ghost function Do(c: Config, j: Joint, step: Step): Joint {
    if !Enabled(c, j, step) then j
    else
      match step
      case Local(x) => j.(agent := j.agent + [x])
      case Server(x) => j.(db := j.db + [x], owed := if x.Commit? && Tx.Enabled(c.w, Db(c, j), x) then Without(j.owed, x.tx) else j.owed)
      case Send(t, q, _) => j.(db := j.db + [Tx.Begin(t, q)], flight := Some(t))
      case Answer(a) => j.(agent := j.agent + [A.Post(a)], flight := None,
                           owed := if a.Lost? && !IsCommitted(Db(c, j), j.flight.value) then j.owed + [j.flight.value] else j.owed)
      case Refused => j.(agent := j.agent + [A.Post(A.Failed)])
  }

  ghost function Run(c: Config, steps: seq<Step>): Joint {
    if steps == [] then START else Do(c, Run(c, Init(steps)), Last(steps))
  }

  // ---------------------------------------------------------------- what the log and the debts hold

  /** The logged events of one agent, and of all others. */
  function EventsFrom(log: seq<FlowTable.LogEntry>, agentId: string): seq<FlowEvent> {
    if log == [] then []
    else EventsFrom(Init(log), agentId) + if Last(log).arrival.event.agentId == agentId then [Last(log).arrival.event] else []
  }

  function OtherEvents(log: seq<FlowTable.LogEntry>, agentId: string): seq<FlowEvent> {
    if log == [] then []
    else OtherEvents(Init(log), agentId) + if Last(log).arrival.event.agentId == agentId then [] else [Last(log).arrival.event]
  }

  function EventOf(txs: map<nat, Tx.Tx>, t: nat): FlowEvent
    requires t in txs
  {
    txs[t].request.arrival.event
  }

  function TxEvents(txs: map<nat, Tx.Tx>, ts: seq<nat>): seq<FlowEvent>
    requires forall i :: 0 <= i < |ts| ==> ts[i] in txs
  {
    if ts == [] then [] else TxEvents(txs, Init(ts)) + [EventOf(txs, ts[|ts| - 1])]
  }

  function One(hit: bool): nat { if hit then 1 else 0 }

  /** How often an event occurs in a list. */
  function Count(es: seq<FlowEvent>, e: FlowEvent): nat { multiset(es)[e] }

  lemma CountSnoc(es: seq<FlowEvent>, x: FlowEvent, e: FlowEvent)
    ensures Count(es + [x], e) == Count(es, e) + One(x == e)
  {
  }

  /** Whether the post in flight has committed this event. */
  ghost function InFlight(db: Tx.Db, flight: Option<nat>, e: FlowEvent): nat {
    One(flight.Some? && IsCommitted(db, flight.value) && EventOf(db.txs, flight.value) == e)
  }

  // ---------------------------------------------------------------- invariant

  ghost predicate FlightInv(c: Config, s: A.System, db: Tx.Db, j: Joint) {
    j.flight.Some? ==>
      && j.flight.value in db.txs && j.flight.value !in j.owed && A.Enabled(s, A.Post(A.Failed))
      && EventOf(db.txs, j.flight.value) == FromFlowState(s.sender.current)
      && Ours(c, db.txs[j.flight.value].request) && BelowLimit(s.sender.current, TWO_63)
  }

  ghost predicate OwedInv(c: Config, db: Tx.Db, owed: seq<nat>) {
    && Distinct(owed)
    && forall i :: 0 <= i < |owed| ==> owed[i] in db.txs && !db.txs[owed[i]].phase.Committed? && Ours(c, db.txs[owed[i]].request)
  }

  ghost predicate AgentInv(c: Config, s: A.System) {
    && (forall e :: e in s.accepted ==> WellFormed(e, c.isAddr) && e.agentId == c.agentId)
    && (forall i :: 0 <= i < |s.logged| ==> BelowLimit(s.logged[i], TWO_63))
  }

  /** Logged and owed is what the posts committed, counting the one in flight once it has. */
  ghost predicate LogInv(c: Config, s: A.System, db: Tx.Db, j: Joint)
    requires OwedInv(c, db, j.owed)
  {
    forall e :: Count(EventsFrom(db.tables.log, c.agentId), e) + Count(TxEvents(db.txs, j.owed), e)
                == Count(Payloads(s.logged), e) + InFlight(db, j.flight, e)
  }

  ghost predicate Holds(c: Config, s: A.System, db: Tx.Db, j: Joint) {
    FlightInv(c, s, db, j) && OwedInv(c, db, j.owed) && AgentInv(c, s) && LogInv(c, s, db, j)
  }

  ghost predicate Inv(c: Config, j: Joint) { Holds(c, Agent(j), Db(c, j), j) }

  // ---------------------------------------------------------------- the agent's steps

  /** A step that is no post leaves the log alone, and the sender too while a post is in flight. */
  lemma LocalEffect(s: A.System, x: A.Step)
    requires !x.Post?
    ensures var t := A.Do(s, x);
            && t.logged == s.logged
            && (s.sender.Sending? && !x.GiveUp? ==> t.sender == s.sender)
            && (forall e :: e in t.accepted ==> e in s.accepted || x == A.Accept(e))
  {
  }

  lemma LocalKeeps(c: Config, j: Joint, x: A.Step)
    requires Inv(c, j) && Enabled(c, j, Local(x))
    ensures Inv(c, Do(c, j, Local(x)))
  {
    A.RunSnoc(j.agent, x);
    LocalEffect(Agent(j), x);
    hide A.Run, A.Do, Tx.Run, WellFormed, BelowLimit;
  }

  lemma PostEffect(s: A.System, a: A.Answer)
    requires A.Enabled(s, A.Post(a))
    ensures var t := A.Do(s, A.Post(a));
            t.accepted == s.accepted && t.logged == s.logged + If(!a.Failed?, s.sender.current)
  {
  }

  lemma PayloadsSnoc(states: seq<State>, x: State)
    ensures Payloads(states + [x]) == Payloads(states) + [FromFlowState(x)]
  {
    hide FromFlowState;
  }

  lemma RefusedKeeps(c: Config, j: Joint)
    requires Inv(c, j) && Enabled(c, j, Refused)
    ensures Inv(c, Do(c, j, Refused))
  {
    A.RunSnoc(j.agent, A.Post(A.Failed));
    PostEffect(Agent(j), A.Failed);
    hide A.Run, A.Do, Tx.Run, WellFormed, BelowLimit;
    assert Agent(j).logged + [] == Agent(j).logged;
  }

  lemma TxEventsSnoc(txs: map<nat, Tx.Tx>, ts: seq<nat>, t: nat)
    requires t in txs && forall i :: 0 <= i < |ts| ==> ts[i] in txs
    ensures TxEvents(txs, ts + [t]) == TxEvents(txs, ts) + [EventOf(txs, t)]
  {
    hide EventOf;
    assert Init(ts + [t]) == ts;
  }

  lemma OwedGrows(c: Config, db: Tx.Db, owed: seq<nat>, t: nat)
    requires OwedInv(c, db, owed) && t in db.txs && !db.txs[t].phase.Committed? && Ours(c, db.txs[t].request) && t !in owed
    ensures OwedInv(c, db, owed + [t])
    ensures TxEvents(db.txs, owed + [t]) == TxEvents(db.txs, owed) + [EventOf(db.txs, t)]
  {
    TxEventsSnoc(db.txs, owed, t);
  }

  /** The answer fits what became of the post's transaction, and a lost post that did not commit is owed. */
  ghost predicate Answers(db: Tx.Db, j: Joint, k: Joint, a: A.Answer) {
    && j.flight.Some? && k.flight.None?
    && (a.Acked? ==> IsCommitted(db, j.flight.value)) && (a.Failed? ==> !IsCommitted(db, j.flight.value))
    && k.owed == if a.Lost? && !IsCommitted(db, j.flight.value) then j.owed + [j.flight.value] else j.owed
  }

  /** One event more among the payloads: it was in flight and committed, or is now owed. */
  lemma AnswerCounts(log: nat, owed: nat, owed': nat, paid: nat, paid': nat, hit: bool, committed: bool, a: A.Answer)
    requires (a.Acked? ==> committed) && (a.Failed? ==> !committed)
    requires log + owed == paid + One(committed && hit)
    requires paid' == paid + One(!a.Failed? && hit) && owed' == owed + One(a.Lost? && !committed && hit)
    ensures log + owed' == paid'
  {
  }

  function If<T>(more: bool, x: T): seq<T> { if more then [x] else [] }

  lemma AppendCounts(es: seq<FlowEvent>, x: FlowEvent, more: bool, e: FlowEvent)
    ensures Count(es + If(more, x), e) == Count(es, e) + One(more && x == e)
  {
    if more { CountSnoc(es, x, e); } else { assert es + [] == es; }
  }

  lemma AnswerShapes(c: Config, s: A.System, s': A.System, db: Tx.Db, j: Joint, k: Joint, a: A.Answer)
    requires FlightInv(c, s, db, j) && OwedInv(c, db, j.owed) && Answers(db, j, k, a)
    requires s'.logged == s.logged + If(!a.Failed?, s.sender.current)
    ensures OwedInv(c, db, k.owed)
    ensures var t := j.flight.value;
            && Payloads(s'.logged) == Payloads(s.logged) + If(!a.Failed?, EventOf(db.txs, t))
            && TxEvents(db.txs, k.owed) == TxEvents(db.txs, j.owed) + If(a.Lost? && !IsCommitted(db, t), EventOf(db.txs, t))
  {
    var t := j.flight.value;
    if !IsCommitted(db, t) { OwedGrows(c, db, j.owed, t); }
    PayloadsSnoc(s.logged, s.sender.current);
    hide FromFlowState, TxEvents, Payloads, BelowLimit, A.Enabled;
    if a.Failed? { assert s'.logged == s.logged; }
  }

  lemma AnswerMoves(c: Config, s: A.System, s': A.System, db: Tx.Db, j: Joint, k: Joint, a: A.Answer)
    requires FlightInv(c, s, db, j) && OwedInv(c, db, j.owed) && LogInv(c, s, db, j) && Answers(db, j, k, a)
    requires s'.logged == s.logged + If(!a.Failed?, s.sender.current)
    ensures OwedInv(c, db, k.owed) && LogInv(c, s', db, k)
  {
    AnswerShapes(c, s, s', db, j, k, a);
    var t := j.flight.value;
    var x, log, owed, paid := EventOf(db.txs, t), EventsFrom(db.tables.log, c.agentId), TxEvents(db.txs, j.owed), Payloads(s.logged);
    hide FromFlowState, TxEvents, EventsFrom, Payloads, BelowLimit, A.Enabled, Count, If, One, EventOf;
    forall e ensures Count(log, e) + Count(TxEvents(db.txs, k.owed), e) == Count(Payloads(s'.logged), e) + InFlight(db, k.flight, e) {
      AppendCounts(paid, x, !a.Failed?, e);
      AppendCounts(owed, x, a.Lost? && !IsCommitted(db, t), e);
      assert Count(log, e) + Count(owed, e) == Count(paid, e) + InFlight(db, j.flight, e);
      assert InFlight(db, k.flight, e) == One(false) == 0 by { NoneIsNone(); }
      AnswerCounts(Count(log, e), Count(owed, e), Count(TxEvents(db.txs, k.owed), e),
                   Count(paid, e), Count(Payloads(s'.logged), e), x == e, IsCommitted(db, t), a);
    }
  }

  lemma NoneIsNone()
    ensures One(false) == 0
  {
  }

  lemma AnswerKeeps(c: Config, j: Joint, a: A.Answer)
    requires Inv(c, j) && Enabled(c, j, Answer(a))
    ensures Inv(c, Do(c, j, Answer(a)))
  {
    var s, db, k := Agent(j), Db(c, j), Do(c, j, Answer(a));
    A.RunSnoc(j.agent, A.Post(a));
    PostEffect(s, a);
    hide A.Run, A.Do, Tx.Run, WellFormed, BelowLimit, FromFlowState, OwedInv, LogInv;
    AnswerMoves(c, s, Agent(k), db, j, k, a);
  }

  // ---------------------------------------------------------------- the backend's steps

  lemma {:induction false} SameArrivals(log: seq<FlowTable.LogEntry>, out: seq<FlowTable.LogEntry>, agentId: string)
    requires |log| == |out| && forall i :: 0 <= i < |log| ==> out[i].arrival == log[i].arrival
    ensures EventsFrom(out, agentId) == EventsFrom(log, agentId)
  {
    if log != [] { SameArrivals(Init(log), Init(out), agentId); }
  }

  /** The step commits transaction `t`. */
  ghost predicate Commits(w: Tx.World, db: Tx.Db, x: Tx.Step) { x.Commit? && Tx.Enabled(w, db, x) }

  lemma ServerLogs(w: Tx.World, db: Tx.Db, x: Tx.Step, agentId: string)
    ensures var out := Tx.Do(w, db, x);
            EventsFrom(out.tables.log, agentId)
            == EventsFrom(db.tables.log, agentId)
               + if Commits(w, db, x) && EventOf(db.txs, x.tx).agentId == agentId then [EventOf(db.txs, x.tx)] else []
  {
    hide FlowTable.UpdateRow, FlowTable.NewRow, Tx.KeyFor, Tx.LockFree, Tx.Answers, Tx.FreshId;
    var out, log := Tx.Do(w, db, x), db.tables.log;
    if Commits(w, db, x) {
      assert Init(out.tables.log) == log && Last(out.tables.log).arrival == db.txs[x.tx].request.arrival;
    } else if Tx.Enabled(w, db, x) && x.Expire? {
      SameArrivals(log, out.tables.log, agentId);
    }
  }

  lemma ServerTxs(w: Tx.World, db: Tx.Db, x: Tx.Step)
    ensures var out := Tx.Do(w, db, x);
            forall t :: t in db.txs ==>
              && t in out.txs && out.txs[t].request == db.txs[t].request
              && (out.txs[t].phase.Committed? <==> db.txs[t].phase.Committed? || (Commits(w, db, x) && x.tx == t))
  {
    hide FlowTable.CommitWindow, Tx.KeyFor, Tx.LockFree, Tx.Answers, Tx.FreshId, FlowTable.ResolveHost, FlowTable.ExpireVms;
  }

  lemma {:induction false} TxEventsSame(txs: map<nat, Tx.Tx>, txs': map<nat, Tx.Tx>, ts: seq<nat>)
    requires forall i :: 0 <= i < |ts| ==> ts[i] in txs && ts[i] in txs' && txs'[ts[i]].request == txs[ts[i]].request
    ensures TxEvents(txs', ts) == TxEvents(txs, ts)
  {
    if ts != [] { TxEventsSame(txs, txs', Init(ts)); }
  }

  lemma {:induction false} WithoutMember(ts: seq<nat>, t: nat, u: nat)
    ensures u in Without(ts, t) <==> u in ts && u != t
    ensures t !in ts ==> Without(ts, t) == ts
  {
    if ts != [] {
      assert ts == Init(ts) + [Last(ts)];
      WithoutMember(Init(ts), t, u);
    }
  }

  lemma {:induction false} WithoutDistinct(ts: seq<nat>, t: nat)
    requires Distinct(ts)
    ensures Distinct(Without(ts, t))
  {
    if ts != [] {
      WithoutDistinct(Init(ts), t);
      WithoutMember(Init(ts), t, Last(ts));
      assert ts == Init(ts) + [Last(ts)];
    }
  }

  /** Taking a transaction off the list takes its event off the events. */
  lemma {:induction false} WithoutEvents(txs: map<nat, Tx.Tx>, ts: seq<nat>, t: nat, e: FlowEvent)
    requires Distinct(ts) && t in txs && forall i :: 0 <= i < |ts| ==> ts[i] in txs
    ensures forall i :: 0 <= i < |Without(ts, t)| ==> Without(ts, t)[i] in txs
    ensures Count(TxEvents(txs, ts), e) == Count(TxEvents(txs, Without(ts, t)), e) + One(t in ts && EventOf(txs, t) == e)
  {
    hide Count, EventOf;
    forall i | 0 <= i < |Without(ts, t)| ensures Without(ts, t)[i] in txs { WithoutMember(ts, t, Without(ts, t)[i]); }
    if ts != [] {
      var u := Last(ts);
      assert ts == Init(ts) + [u];
      WithoutMember(Init(ts), t, t);
      CountSnoc(TxEvents(txs, Init(ts)), EventOf(txs, u), e);
      if u != t {
        WithoutEvents(txs, Init(ts), t, e);
        assert Without(ts, t) == Without(Init(ts), t) + [u];
        TxEventsSnoc(txs, Without(Init(ts), t), u);
        CountSnoc(TxEvents(txs, Without(Init(ts), t)), EventOf(txs, u), e);
      }
    }
  }

  lemma {:induction false} WithoutOwed(c: Config, db: Tx.Db, owed: seq<nat>, t: nat)
    requires OwedInv(c, db, owed)
    ensures OwedInv(c, db, Without(owed, t)) && t !in Without(owed, t)
  {
    WithoutDistinct(owed, t);
    WithoutMember(owed, t, t);
    forall i | 0 <= i < |Without(owed, t)|
      ensures Without(owed, t)[i] in db.txs && !db.txs[Without(owed, t)[i]].phase.Committed? && Ours(c, db.txs[Without(owed, t)[i]].request)
    {
      WithoutMember(owed, t, Without(owed, t)[i]);
      assert Without(owed, t)[i] in owed;
    }
  }

  lemma OwedAfter(c: Config, db: Tx.Db, x: Tx.Step, owed: seq<nat>)
    requires OwedInv(c, db, owed) && (Commits(c.w, db, x) ==> x.tx !in owed)
    ensures OwedInv(c, Tx.Do(c.w, db, x), owed) && TxEvents(Tx.Do(c.w, db, x).txs, owed) == TxEvents(db.txs, owed)
  {
    ServerTxs(c.w, db, x);
    hide Tx.Do, Tx.Enabled;
    TxEventsSame(db.txs, Tx.Do(c.w, db, x).txs, owed);
    forall i | 0 <= i < |owed| && Commits(c.w, db, x) ensures owed[i] != x.tx { assert owed[i] in owed; }
  }

  /** A commit moves the event of its transaction from the debts or the flight to the log. */
  lemma CommitMoves(c: Config, s: A.System, db: Tx.Db, out: Tx.Db, j: Joint, k: Joint, t: nat)
    requires Holds(c, s, db, j) && t in db.txs && !db.txs[t].phase.Committed?
    requires OwedInv(c, out, k.owed) && k.flight == j.flight && t in out.txs
    requires forall u :: u in db.txs ==>
               && u in out.txs && out.txs[u].request == db.txs[u].request
               && (out.txs[u].phase.Committed? <==> db.txs[u].phase.Committed? || u == t)
    requires Ours(c, db.txs[t].request) ==> j.flight == Some(t) || t in j.owed
    requires var e := EventOf(db.txs, t);
             EventsFrom(out.tables.log, c.agentId)
             == EventsFrom(db.tables.log, c.agentId) + if Ours(c, db.txs[t].request) then [e] else []
    requires forall e :: Count(TxEvents(db.txs, j.owed), e) == Count(TxEvents(out.txs, k.owed), e) + One(t in j.owed && EventOf(db.txs, t) == e)
    requires t in j.owed ==> Ours(c, db.txs[t].request)
    ensures LogInv(c, s, out, k)
  {
    hide TxEvents, EventsFrom, Payloads, WellFormed, BelowLimit, FromFlowState, A.Enabled, AgentInv, Count;
    var log := EventsFrom(db.tables.log, c.agentId);
    assert log + [] == log;
    forall e ensures Count(EventsFrom(out.tables.log, c.agentId), e) + Count(TxEvents(out.txs, k.owed), e)
                     == Count(Payloads(s.logged), e) + InFlight(out, k.flight, e)
    {
      CountSnoc(log, EventOf(db.txs, t), e);
      assert Count(log, e) + Count(TxEvents(db.txs, j.owed), e) == Count(Payloads(s.logged), e) + InFlight(db, j.flight, e);
    }
  }

  lemma CommitKeeps(c: Config, s: A.System, db: Tx.Db, j: Joint, x: Tx.Step)
    requires Holds(c, s, db, j) && Commits(c.w, db, x)
    requires Ours(c, db.txs[x.tx].request) ==> j.flight == Some(x.tx) || x.tx in j.owed
    ensures Holds(c, s, Tx.Do(c.w, db, x), j.(owed := Without(j.owed, x.tx)))
  {
    var out, k, t := Tx.Do(c.w, db, x), j.(owed := Without(j.owed, x.tx)), x.tx;
    assert !db.txs[t].phase.Committed?;
    assert t in j.owed ==> Ours(c, db.txs[t].request);
    WithoutOwed(c, db, j.owed, t);
    OwedAfter(c, db, x, k.owed);
    ServerTxs(c.w, db, x);
    ServerLogs(c.w, db, x, c.agentId);
    forall e ensures Count(TxEvents(db.txs, j.owed), e)
                     == Count(TxEvents(out.txs, k.owed), e) + One(t in j.owed && EventOf(db.txs, t) == e)
    {
      WithoutEvents(db.txs, j.owed, t, e);
    }
    WithoutMember(j.owed, t, t);
    if j.flight.Some? { WithoutMember(j.owed, t, j.flight.value); }
    hide Tx.Do, Tx.Enabled, TxEvents, EventsFrom, WellFormed, BelowLimit, FromFlowState, OwedInv, A.Enabled, Without, LogInv, AgentInv, Count;
    CommitMoves(c, s, db, out, j, k, t);
  }

  lemma OtherServerKeeps(c: Config, s: A.System, db: Tx.Db, j: Joint, x: Tx.Step)
    requires Holds(c, s, db, j) && !Commits(c.w, db, x)
    ensures Holds(c, s, Tx.Do(c.w, db, x), j)
  {
    OwedAfter(c, db, x, j.owed);
    ServerTxs(c.w, db, x);
    ServerLogs(c.w, db, x, c.agentId);
    hide Tx.Do, Tx.Enabled, TxEvents, EventsFrom, Payloads, WellFormed, BelowLimit, FromFlowState, OwedInv, A.Enabled;
    assert EventsFrom(db.tables.log, c.agentId) + [] == EventsFrom(db.tables.log, c.agentId);
  }

  lemma HoldsOf(c: Config, s: A.System, db: Tx.Db, j: Joint, k: Joint)
    requires Holds(c, s, db, j) && k.flight == j.flight && k.owed == j.owed
    ensures Holds(c, s, db, k)
  {
  }

  lemma ServerKeeps(c: Config, j: Joint, x: Tx.Step)
    requires Inv(c, j) && Enabled(c, j, Server(x))
    ensures Inv(c, Do(c, j, Server(x)))
  {
    var s, db, k := Agent(j), Db(c, j), Do(c, j, Server(x));
    Tx.RunSnoc(c.w, j.db, x);
    hide A.Run, Tx.Run, Holds, Tx.Do, Without;
    if Commits(c.w, db, x) {
      CommittingIsKnown(c.w, db, x);
      CommitKeeps(c, s, db, j, x);
      HoldsOf(c, s, Tx.Do(c.w, db, x), j.(owed := Without(j.owed, x.tx)), k);
    } else {
      OtherServerKeeps(c, s, db, j, x);
      HoldsOf(c, s, Tx.Do(c.w, db, x), j, k);
    }
  }

  lemma CommittingIsKnown(w: Tx.World, db: Tx.Db, x: Tx.Step)
    requires Commits(w, db, x)
    ensures x.tx in db.txs
  {
  }

  // ---------------------------------------------------------------- sending

  /** What is sent is accepted unchanged and carries the agent's own id. */
  lemma SentIsUnchanged(c: Config, steps: seq<A.Step>, now: int)
    requires AgentInv(c, A.Run(steps)) && A.Run(steps).sender.Sending? && BelowLimit(A.Run(steps).sender.current, TWO_63)
    ensures var p := FromFlowState(A.Run(steps).sender.current);
            Validate(p, c.isAddr, now) == Accepted(p) && p.agentId == c.agentId
  {
    A.DeliveryDiscipline(steps);
    var s := A.Run(steps);
    var state := s.sender.current;
    assert state in Flatten(s.batches) by { assert A.InSender(s.sender)[0] == state; assert state in A.InSender(s.sender); }
    hide Validate, BelowLimit, WellFormed, A.Run, Fold;
    EndToEnd.PostedPayloadsAreAccepted(steps, state, c.isAddr, now);
    EndToEnd.StatesAreFolds(steps, state);
    var xs :| xs != [] && SameKey(state.key, xs) && state == Fold(state.key, xs) && forall e :: e in xs ==> e in s.accepted;
    assert xs[0] in xs && KeyOf(xs[0]) == state.key;
  }

  lemma SendKeeps(c: Config, j: Joint, t: nat, q: Tx.Request, now: int)
    requires Inv(c, j) && Enabled(c, j, Send(t, q, now))
    ensures Inv(c, Do(c, j, Send(t, q, now)))
  {
    var s, db, k, x := Agent(j), Db(c, j), Do(c, j, Send(t, q, now)), Tx.Begin(t, q);
    SentIsUnchanged(c, j.agent, now);
    Tx.RunSnoc(c.w, j.db, x);
    BeginEffect(c.w, db, t, q);
    hide Validate, A.Run, Tx.Run, Tx.Do;
    OtherServerKeeps(c, s, db, j, x);
    FlightStarts(c, s, Tx.Do(c.w, db, x), j, k, t);
  }

  lemma BeginEffect(w: Tx.World, db: Tx.Db, t: nat, q: Tx.Request)
    requires Tx.Enabled(w, db, Tx.Begin(t, q))
    ensures var out := Tx.Do(w, db, Tx.Begin(t, q));
            t !in db.txs && t in out.txs && out.txs[t] == Tx.Tx(q, Tx.Resolved)
  {
  }

  lemma FlightStarts(c: Config, s: A.System, out: Tx.Db, j: Joint, k: Joint, t: nat)
    requires Holds(c, s, out, j) && j.flight.None? && k.flight == Some(t) && k.owed == j.owed
    requires t in out.txs && out.txs[t].phase.Resolved? && Ours(c, out.txs[t].request) && t !in j.owed
    requires A.Enabled(s, A.Post(A.Failed)) && BelowLimit(s.sender.current, TWO_63)
    requires EventOf(out.txs, t) == FromFlowState(s.sender.current)
    ensures Holds(c, s, out, k)
  {
  }

  // ---------------------------------------------------------------- main results

  lemma NothingHolds(c: Config)
    ensures Inv(c, START)
  {
    assert Payloads([]) == [];
  }

  lemma {:induction false} RunKeeps(c: Config, steps: seq<Step>)
    ensures Inv(c, Run(c, steps))
  {
    hide Inv, Do, Enabled;
    if steps == [] {
      NothingHolds(c);
    } else {
      RunKeeps(c, Init(steps));
      StepKeeps(c, Run(c, Init(steps)), Last(steps));
    }
  }

  lemma StepKeeps(c: Config, j: Joint, step: Step)
    requires Inv(c, j)
    ensures Inv(c, Do(c, j, step))
  {
    hide Inv, Enabled;
    if Enabled(c, j, step) {
      match step
      case Local(x) => LocalKeeps(c, j, x);
      case Server(x) => ServerKeeps(c, j, x);
      case Send(t, q, now) => SendKeeps(c, j, t, q, now);
      case Answer(a) => AnswerKeeps(c, j, a);
      case Refused => RefusedKeeps(c, j);
    }
  }

  /**
   * In every joint run: what the backend logged from the agent, together with what is yet to
   * commit of posts the sender no longer waits for, is the payload of each post that commits,
   * once each, and of the post in flight once it has committed.
   */
  lemma LogHoldsPosts(c: Config, steps: seq<Step>)
    ensures var j := Run(c, steps);
            && (forall i :: 0 <= i < |j.owed| ==> j.owed[i] in Db(c, j).txs)
            && forall e :: Count(EventsFrom(Db(c, j).tables.log, c.agentId), e) + Count(TxEvents(Db(c, j).txs, j.owed), e)
                           == Count(Payloads(Agent(j).logged), e) + InFlight(Db(c, j), j.flight, e)
  {
    RunKeeps(c, steps);
  }

  lemma {:induction false} LogSplits(log: seq<FlowTable.LogEntry>, agentId: string, e: FlowEvent)
    ensures Count(EventsOf(log), e) == Count(EventsFrom(log, agentId), e) + Count(OtherEvents(log, agentId), e)
  {
    hide EventsOf, Count;
    if log == [] {
      NoEvents(e);
    } else {
      LogSplits(Init(log), agentId, e);
      EventsOfSnoc(log);
      var x := Last(log).arrival.event;
      CountSnoc(EventsOf(Init(log)), x, e);
      CountSnoc(EventsFrom(Init(log), agentId), x, e);
      CountSnoc(OtherEvents(Init(log), agentId), x, e);
      assert EventsFrom(Init(log), agentId) + [] == EventsFrom(Init(log), agentId);
      assert OtherEvents(Init(log), agentId) + [] == OtherEvents(Init(log), agentId);
    }
  }

  lemma NoEvents(e: FlowEvent)
    ensures EventsOf([]) == [] && Count([], e) == 0
  {
  }

  lemma {:induction false} OthersAreOthers(log: seq<FlowTable.LogEntry>, agentId: string)
    ensures forall i :: 0 <= i < |OtherEvents(log, agentId)| ==> OtherEvents(log, agentId)[i].agentId != agentId
  {
    if log != [] { OthersAreOthers(Init(log), agentId); }
  }

  lemma EventsOfSnoc(log: seq<FlowTable.LogEntry>)
    requires log != []
    ensures EventsOf(log) == EventsOf(Init(log)) + [Last(log).arrival.event]
  {
  }

  /** With nothing in flight or owed, the log holds the committed posts' payloads and others' events. */
  lemma QuietLog(c: Config, s: A.System, db: Tx.Db, j: Joint)
    requires Holds(c, s, db, j) && j.flight.None? && j.owed == []
    ensures var log := db.tables.log;
            multiset(EventsOf(log)) == multiset(Payloads(s.logged) + OtherEvents(log, c.agentId))
  {
    var log := db.tables.log;
    assert TxEvents(db.txs, []) == [];
    hide EventsOf, EventsFrom, OtherEvents, Payloads, AgentInv, FlightInv, TxEvents;
    forall e ensures multiset(EventsOf(log))[e] == multiset(Payloads(s.logged) + OtherEvents(log, c.agentId))[e] {
      LogSplits(log, c.agentId, e);
      assert Count(EventsFrom(log, c.agentId), e) + Count(TxEvents(db.txs, []), e) == Count(Payloads(s.logged), e) + InFlight(db, j.flight, e);
    }
  }

  /**
   * Whenever no post is in flight and none is yet to commit, the backend's log reports for
   * each key of the agent and each column what was acknowledged plus what was committed
   * unanswered, whatever else was ingested in between.
   */
  lemma BackendHoldsAckedPlusLost(c: Config, steps: seq<Step>, k: Key, col: FlowTable.Column)
    requires Run(c, steps).flight.None? && Run(c, steps).owed == [] && k.agentId == c.agentId
    ensures var s, log := Agent(Run(c, steps)), Db(c, Run(c, steps)).tables.log;
            ReportedFor(EventsOf(log), k, col)
            == A.Held(A.Outcome(s.done, true), k, CounterOf(col)) + A.Held(LostBy(Attempts(s)), k, CounterOf(col))
  {
    RunKeeps(c, steps);
    var j := Run(c, steps);
    var log := Db(c, j).tables.log;
    hide Run, A.Run, Tx.Run, BelowLimit, WellFormed, EventsFrom, OtherEvents, EventsOf, Payloads, FlightInv, OwedInv, LogInv;
    QuietLog(c, Agent(j), Db(c, j), j);
    OthersAreOthers(log, c.agentId);
    LogReports(j.agent, log, OtherEvents(log, c.agentId), k, col);
  }
}
