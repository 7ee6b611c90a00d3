/**
 * Agent and backend joined. The sender posts a state again when it gets no answer, also when
 * the backend had committed the post, so the log may hold a state up to three times. This
 * module says what the log then holds, and exactly when it holds what was acknowledged.
 */
module AtLeastOnce {
  import opened Prelude
  import opened FlowState
  import opened AgentLoop
  import opened Payload
  import FlowTable

  // ---------------------------------------------------------------- which posts committed

  /** The state once for each post that committed and was not acknowledged. */
  function LostCopies(state: State, posts: seq<Answer>): seq<State> {
    if posts == [] then [] else LostCopies(state, Init(posts)) + if Last(posts).Lost? then [state] else []
  }

  function CommittedBy(ds: seq<Delivery>): seq<State> {
    if ds == [] then [] else CommittedBy(Init(ds)) + Copies(Last(ds).state, Last(ds).posts)
  }

  function LostBy(ds: seq<Delivery>): seq<State> {
    if ds == [] then [] else LostBy(Init(ds)) + LostCopies(Last(ds).state, Last(ds).posts)
  }

  /** The posts of all states so far, those of the state in the sender last. */
  function Attempts(s: System): seq<Delivery> {
    s.done + if s.sender.Sending? then [Delivery(s.sender.current, s.sender.posts)] else []
  }

  predicate NoneLost(ds: seq<Delivery>) {
    forall i, j :: 0 <= i < |ds| && 0 <= j < |ds[i].posts| ==> !ds[i].posts[j].Lost?
  }

  /** An acknowledgement ends a state's posts. */
  predicate AckedAtMostLast(d: Delivery) { forall i :: 0 <= i < |d.posts| - 1 ==> !d.posts[i].Acked? }

  // ---------------------------------------------------------------- the log is the committed posts

  lemma CommittedSnoc(ds: seq<Delivery>, d: Delivery)
    ensures CommittedBy(ds + [d]) == CommittedBy(ds) + Copies(d.state, d.posts)
  {
    assert Init(ds + [d]) == ds;
  }

  lemma StartsEmpty(ds: seq<Delivery>, batch: seq<State>)
    ensures CommittedBy(Attempts(START.(done := ds, sender := StartBatch(batch)))) == CommittedBy(ds)
  {
    if batch == [] {
      assert ds + [] == ds;
    } else {
      CommittedSnoc(ds, Delivery(batch[0], []));
      assert CommittedBy(ds) + [] == CommittedBy(ds);
    }
  }

  lemma CommittedOneMore(ds: seq<Delivery>, d: Delivery, a: Answer)
    ensures CommittedBy(ds + [d.(posts := d.posts + [a])])
            == CommittedBy(ds + [d]) + if a.Failed? then [] else [d.state]
  {
    CommittedSnoc(ds, d);
    CommittedSnoc(ds, d.(posts := d.posts + [a]));
    CopiesSnoc(d.state, d.posts, a);
    hide CommittedBy, Copies;
    assert CommittedBy(ds) + Copies(d.state, d.posts) + [] == CommittedBy(ds) + (Copies(d.state, d.posts) + []);
  }

  lemma PostLogs(s: System, a: Answer)
    requires Enabled(s, Post(a)) && s.logged == CommittedBy(Attempts(s))
    ensures var t := Do(s, Post(a)); t.logged == CommittedBy(Attempts(t))
  {
    var t, d := Do(s, Post(a)), Delivery(s.sender.current, s.sender.posts);
    var e := d.(posts := d.posts + [a]);
    CommittedOneMore(s.done, d, a);
    hide CommittedBy;
    assert t.logged == CommittedBy(s.done + [e]);
    if a.Acked? {
      assert Attempts(t) == Attempts(START.(done := s.done + [e], sender := StartBatch(s.sender.rest)));
      hide Attempts, Do;
      StartsEmpty(s.done + [e], s.sender.rest);
    } else {
      assert Attempts(t) == s.done + [e];
    }
  }

  lemma StepLogs(s: System, step: Step)
    requires s.logged == CommittedBy(Attempts(s))
    ensures var t := Do(s, step); t.logged == CommittedBy(Attempts(t))
  {
    if Enabled(s, step) {
      match step
      case Post(a) => PostLogs(s, a);
      case Take =>
        StartsEmpty(s.done, s.queue[0]);
        assert Attempts(s) == s.done;
        assert Attempts(Do(s, Take)) == Attempts(START.(done := s.done, sender := StartBatch(s.queue[0])));
      case GiveUp =>
        StartsEmpty(Attempts(s), s.sender.rest);
        assert Do(s, GiveUp).done == Attempts(s);
        assert Attempts(Do(s, GiveUp)) == Attempts(START.(done := Attempts(s), sender := StartBatch(s.sender.rest)));
      case _ =>
        assert Attempts(Do(s, step)) == Attempts(s);
    }
  }

  /** In every run the backend's log of this agent is, in order, its states once per committed post. */
  lemma {:induction false} LogIsCommittedPosts(steps: seq<Step>)
    ensures Run(steps).logged == CommittedBy(Attempts(Run(steps)))
  {
    if steps != [] {
      LogIsCommittedPosts(Init(steps));
      hide Do, Attempts;
      StepLogs(Run(Init(steps)), Last(steps));
    }
  }

  // ---------------------------------------------------------------- committed, acknowledged, lost

  lemma {:induction false} NoAckNoDifference(state: State, posts: seq<Answer>)
    requires forall i :: 0 <= i < |posts| ==> !posts[i].Acked?
    ensures Copies(state, posts) == LostCopies(state, posts)
  {
    if posts != [] { NoAckNoDifference(state, Init(posts)); }
  }

  lemma CopiesSplit(d: Delivery)
    requires AckedAtMostLast(d)
    ensures Copies(d.state, d.posts) == LostCopies(d.state, d.posts) + if Delivered(d) then [d.state] else []
  {
    if d.posts != [] { NoAckNoDifference(d.state, Init(d.posts)); }
  }

  lemma {:induction false} AmountsSplit(ds: seq<Delivery>, k: Key, c: Counter)
    requires forall i :: 0 <= i < |ds| ==> AckedAtMostLast(ds[i])
    ensures Held(CommittedBy(ds), k, c) == Held(Outcome(ds, true), k, c) + Held(LostBy(ds), k, c)
    ensures |CommittedBy(ds)| == |Outcome(ds, true)| + |LostBy(ds)|
  {
    if ds != [] {
      var d := Last(ds);
      AmountsSplit(Init(ds), k, c);
      CopiesSplit(d);
      var acked := if Delivered(d) then [d.state] else [];
      HeldConcat(CommittedBy(Init(ds)), Copies(d.state, d.posts), k, c);
      HeldConcat(LostCopies(d.state, d.posts), acked, k, c);
      HeldConcat(LostBy(Init(ds)), LostCopies(d.state, d.posts), k, c);
      HeldConcat(Outcome(Init(ds), true), acked, k, c);
      assert Outcome(ds, true) == Outcome(Init(ds), true) + acked;
    }
  }

  lemma {:induction false} LostCopiesEmpty(state: State, posts: seq<Answer>)
    ensures LostCopies(state, posts) == [] <==> forall j :: 0 <= j < |posts| ==> !posts[j].Lost?
  {
    if posts != [] {
      LostCopiesEmpty(state, Init(posts));
      assert posts[|posts| - 1] == Last(posts);
      forall j | 0 <= j < |posts| - 1 ensures posts[j] == Init(posts)[j] {}
    }
  }

  lemma {:induction false} LostByEmpty(ds: seq<Delivery>)
    ensures LostBy(ds) == [] <==> NoneLost(ds)
  {
    if ds != [] {
      LostByEmpty(Init(ds));
      LostCopiesEmpty(Last(ds).state, Last(ds).posts);
      assert ds[|ds| - 1] == Last(ds);
      forall i | 0 <= i < |ds| - 1 ensures ds[i] == Init(ds)[i] {}
    }
  }

  lemma {:induction false} NoneLostSame(ds: seq<Delivery>)
    requires NoneLost(ds) && forall i :: 0 <= i < |ds| ==> AckedAtMostLast(ds[i])
    ensures CommittedBy(ds) == Outcome(ds, true)
  {
    if ds != [] {
      var d := Last(ds);
      assert d == ds[|ds| - 1];
      NoneLostSame(Init(ds));
      CopiesSplit(d);
      LostCopiesEmpty(d.state, d.posts);
    }
  }

  /** The posts of a run end at an acknowledgement, and only states that are through have one. */
  lemma AttemptsInOrder(steps: seq<Step>)
    ensures var s := Run(steps);
            && (forall i :: 0 <= i < |Attempts(s)| ==> AckedAtMostLast(Attempts(s)[i]))
            && Outcome(Attempts(s), true) == Outcome(s.done, true)
  {
    RunKeeps(steps);
    var s := Run(steps);
    hide Run, EventsInv;
    if s.sender.Sending? {
      var d := Delivery(s.sender.current, s.sender.posts);
      assert Init(s.done + [d]) == s.done;
      assert !Delivered(d);
    } else {
      assert Attempts(s) == s.done;
    }
  }

  // ---------------------------------------------------------------- main results

  /**
   * In every run, for every key and counter: what the backend logged is what was acknowledged
   * plus, once more for each, what was in a post that committed without being acknowledged.
   */
  lemma LoggedIsAckedPlusLost(steps: seq<Step>, k: Key, c: Counter)
    ensures var s := Run(steps);
            Held(s.logged, k, c) == Held(Outcome(s.done, true), k, c) + Held(LostBy(Attempts(s)), k, c)
  {
    LogIsCommittedPosts(steps);
    AttemptsInOrder(steps);
    hide Run;
    AmountsSplit(Attempts(Run(steps)), k, c);
  }

  /** The log is exactly what was acknowledged if and only if no committed post went unanswered. */
  lemma ExactlyOnceWhenNoneLost(steps: seq<Step>)
    ensures var s := Run(steps); s.logged == Outcome(s.done, true) <==> NoneLost(Attempts(s))
  {
    LogIsCommittedPosts(steps);
    AttemptsInOrder(steps);
    var ds := Attempts(Run(steps));
    hide Run;
    LostByEmpty(ds);
    AmountsSplit(ds, Key("", "", "", 0, "", "", ""), Sent);
    if NoneLost(ds) { NoneLostSame(ds); }
  }

  lemma {:induction false} HeldZero(states: seq<State>, k: Key, c: Counter)
    ensures Held(states, k, c) == 0 <==> forall x :: x in states && x.key == k ==> StateAmount(c, x) == 0
  {
    if states != [] {
      HeldZero(Init(states), k, c);
      assert states == Init(states) + [Last(states)];
    }
  }

  /** Key by key and counter by counter: the amounts agree exactly when the lost posts held none of it. */
  lemma AmountsAgreeExactlyWhen(steps: seq<Step>, k: Key, c: Counter)
    ensures var s := Run(steps);
            Held(s.logged, k, c) == Held(Outcome(s.done, true), k, c)
            <==> forall x :: x in LostBy(Attempts(s)) && x.key == k ==> StateAmount(c, x) == 0
  {
    LoggedIsAckedPlusLost(steps, k, c);
    hide Run;
    HeldZero(LostBy(Attempts(Run(steps))), k, c);
  }

  // ---------------------------------------------------------------- the backend's own log

  /** The bucket an exported event came from. */
  function KeyOfPayload(e: FlowEvent): Key {
    Key(e.agentId, e.srcIp, e.dstIp, e.dstPort, e.protocol, e.direction, e.iface)
  }

  function CounterOf(c: FlowTable.Column): Counter {
    match c
    case BytesSent => Sent
    case BytesReceived => Received
    case Packets => Packets
    case Connections => Opens
    case Requests => Requests
    case Errors => Errors
    case Retrans => Retrans
    case Http1 => Http1
    case Http2 => Http2
    case Http3 => Http3
    case Http4 => Http4
    case Http5 => Http5
  }

  function EventsOf(log: seq<FlowTable.LogEntry>): seq<FlowEvent> {
    seq(|log|, i requires 0 <= i < |log| => log[i].arrival.event)
  }

  function Payloads(states: seq<State>): seq<FlowEvent> {
    seq(|states|, i requires 0 <= i < |states| => FromFlowState(states[i]))
  }

  /** What events of key `k` report in one column together. */
  function ReportedFor(es: seq<FlowEvent>, k: Key, c: FlowTable.Column): int {
    if es == [] then 0
    else ReportedFor(Init(es), k, c) + if KeyOfPayload(Last(es)) == k then FlowTable.Reported(c, Last(es)) else 0
  }

  lemma {:induction false} ReportedWithout(es: seq<FlowEvent>, i: nat, k: Key, c: FlowTable.Column)
    requires i < |es|
    ensures ReportedFor(es, k, c) == ReportedFor(es[..i] + es[i + 1..], k, c)
                                     + if KeyOfPayload(es[i]) == k then FlowTable.Reported(c, es[i]) else 0
  {
    hide FlowTable.Reported;
    if i == |es| - 1 {
      assert es[..i] + es[i + 1..] == Init(es);
    } else {
      ReportedWithout(Init(es), i, k, c);
      assert Init(es)[..i] + Init(es)[i + 1..] == Init(es[..i] + es[i + 1..]);
    }
  }

  lemma {:induction false} ReportedPermuted(xs: seq<FlowEvent>, ys: seq<FlowEvent>, k: Key, c: FlowTable.Column)
    requires multiset(xs) == multiset(ys)
    ensures ReportedFor(xs, k, c) == ReportedFor(ys, k, c)
    decreases |xs|
  {
    hide FlowTable.Reported;
    MultisetHasLast(xs, ys);
    if xs != [] {
      var i :| 0 <= i < |ys| && ys[i] == Last(xs);
      MultisetRemoveBoth(xs, ys, i);
      ReportedPermuted(Init(xs), ys[..i] + ys[i + 1..], k, c);
      ReportedWithout(ys, i, k, c);
    }
  }

  /** In range, a payload reports exactly what its state holds. */
  lemma PayloadReports(s: State, c: FlowTable.Column)
    requires BelowLimit(s, TWO_63)
    ensures FlowTable.Reported(c, FromFlowState(s)) == StateAmount(CounterOf(c), s) && KeyOfPayload(FromFlowState(s)) == s.key
  {
    assert StateAmount(CounterOf(c), s) < TWO_63;
    CastSign(StateAmount(CounterOf(c), s));
    hide AsInt64;
  }

  lemma {:induction false} PayloadsReport(states: seq<State>, k: Key, c: FlowTable.Column)
    requires forall i :: 0 <= i < |states| ==> BelowLimit(states[i], TWO_63)
    ensures ReportedFor(Payloads(states), k, c) == Held(states, k, CounterOf(c))
  {
    hide FlowTable.Reported, StateAmount, BelowLimit, FromFlowState;
    if states != [] {
      PayloadsReport(Init(states), k, c);
      PayloadReports(states[|states| - 1], c);
      assert Init(Payloads(states)) == Payloads(Init(states));
    }
  }

  lemma {:induction false} OthersReportNothing(es: seq<FlowEvent>, others: seq<FlowEvent>, k: Key, c: FlowTable.Column)
    requires forall i :: 0 <= i < |others| ==> KeyOfPayload(others[i]) != k
    ensures ReportedFor(es + others, k, c) == ReportedFor(es, k, c)
  {
    hide FlowTable.Reported;
    if others == [] {
      assert es + others == es;
    } else {
      InitOfConcat(es, others);
      OthersReportNothing(es, Init(others), k, c);
      assert KeyOfPayload(others[|others| - 1]) != k;
    }
  }

  /**
   * Any log that holds the events of this agent's committed posts, in whatever order they
   * were committed and whatever others were logged for other keys, reports for each key and
   * column what was acknowledged plus what was committed unanswered.
   */
  lemma LogReports(steps: seq<Step>, log: seq<FlowTable.LogEntry>, others: seq<FlowEvent>, k: Key, c: FlowTable.Column)
    requires multiset(EventsOf(log)) == multiset(Payloads(Run(steps).logged) + others)
    requires forall i :: 0 <= i < |others| ==> KeyOfPayload(others[i]) != k
    requires forall i :: 0 <= i < |Run(steps).logged| ==> BelowLimit(Run(steps).logged[i], TWO_63)
    ensures var s := Run(steps);
            ReportedFor(EventsOf(log), k, c)
            == Held(Outcome(s.done, true), k, CounterOf(c)) + Held(LostBy(Attempts(s)), k, CounterOf(c))
  {
    LoggedIsAckedPlusLost(steps, k, CounterOf(c));
    hide Run, EventsOf, BelowLimit;
    ReportedPermuted(EventsOf(log), Payloads(Run(steps).logged) + others, k, c);
    OthersReportNothing(Payloads(Run(steps).logged), others, k, c);
    PayloadsReport(Run(steps).logged, k, c);
  }
}
