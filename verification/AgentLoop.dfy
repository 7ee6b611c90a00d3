/**
 * The agent's main loop and its sender goroutine as one step system. The loop accepts
 * events, drains on a tick, and hands the batch to a queue of 32 batches or keeps it;
 * the sender posts each state up to three times. A step that is not enabled leaves the
 * system as it is, so every sequence of steps is a run and every interleaving is covered.
 */
module AgentLoop {
  import opened Prelude
  import opened FlowState
  import opened Accumulator

  const QUEUE_CAPACITY := 32
  const MAX_POSTS := 3

  /**
   * How a post ends: committed by the backend and acknowledged, committed with the answer
   * lost on the way, or not committed. The sender cannot tell the last two apart.
   */
  datatype Answer = Acked | Lost | Failed

  /** One state the sender is through with, and how each of its posts ended. */
  datatype Delivery = Delivery(state: State, posts: seq<Answer>)

  datatype Sender = Idle | Sending(current: State, posts: seq<Answer>, rest: seq<State>)

  /**
   * `accepted`, `since`, `segments`, `batches` and `logged` are history: no step reads them.
   * `logged` holds what the backend committed, once per post that did.
   */
  datatype System = System(pending: Flows, queue: seq<seq<State>>, sender: Sender, done: seq<Delivery>,
                           cancelled: bool, stopped: bool,
                           accepted: seq<Metric>, since: seq<Metric>,
                           segments: seq<seq<Metric>>, batches: seq<seq<State>>, logged: seq<State>)

  datatype Step =
    | Accept(event: Metric)        // an event that passes the filters reaches the accumulator
    | Tick(batch: seq<State>)      // the ticker fires; `batch` is the order Drain happened to choose
    | Take                         // the sender receives the oldest queued batch
    | Post(answer: Answer)         // one HTTP post and how it ends
    | GiveUp                       // the wait after the last failed post ends, or the context is done
    | Cancel                       // the process is told to stop
    | Stop                         // the main loop returns

  const START := System(map[], [], Idle, [], false, false, [], [], [], [], [])

  ghost predicate Enabled(s: System, step: Step) {
    match step
    case Accept(_) => !s.stopped
    case Tick(batch) => !s.stopped && Enumerates(batch, s.pending)
    case Take => s.sender.Idle? && s.queue != []
    case Post(_) => s.sender.Sending? && |s.sender.posts| < MAX_POSTS
    case GiveUp => s.sender.Sending? && s.sender.posts != [] && (|s.sender.posts| == MAX_POSTS || s.cancelled)
    case Cancel => true
    case Stop => true
  }

  function StartBatch(states: seq<State>): Sender {
    if states == [] then Idle else Sending(states[0], [], states[1..])
  }

  /** The state once for each post of it that the backend committed. */
  function Copies(state: State, posts: seq<Answer>): seq<State> {
    if posts == [] then []
    else Copies(state, Init(posts)) + if Last(posts).Failed? then [] else [state]
  }

  function Commit(s: System, answer: Answer): System
    requires s.sender.Sending?
  {
    if answer.Failed? then s else s.(logged := s.logged + [s.sender.current])
  }

  function Finish(s: System, posts: seq<Answer>): System
    requires s.sender.Sending?
  {
    s.(sender := StartBatch(s.sender.rest), done := s.done + [Delivery(s.sender.current, posts)])
  }

  function TickBatch(s: System, batch: seq<State>): System {
    if batch == [] then s
    else if |s.queue| < QUEUE_CAPACITY then
      s.(pending := map[], queue := s.queue + [batch], since := [],
         segments := s.segments + [s.since], batches := s.batches + [batch])
    else s.(pending := AddAll(map[], batch))
  }

  ghost function Do(s: System, step: Step): System {
    if !Enabled(s, step) then s
    else
      match step
      case Accept(e) => s.(pending := AddEvent(s.pending, e), accepted := s.accepted + [e], since := s.since + [e])
      case Tick(batch) => TickBatch(s, batch)
      case Take => s.(sender := StartBatch(s.queue[0]), queue := s.queue[1..])
      case Post(a) => if a.Acked? then Finish(Commit(s, a), s.sender.posts + [a])
                      else Commit(s, a).(sender := s.sender.(posts := s.sender.posts + [a]))
      case GiveUp => Finish(s, s.sender.posts)
      case Cancel => s.(cancelled := true)
      case Stop => s.(stopped := true)
  }

  ghost function Run(steps: seq<Step>): System {
    if steps == [] then START else Do(Run(Init(steps)), Last(steps))
  }

  // ---------------------------------------------------------------- where the states are

  function InSender(s: Sender): seq<State> {
    match s case Idle => [] case Sending(current, _, rest) => [current] + rest
  }

  function Delivered(d: Delivery): bool { d.posts != [] && Last(d.posts).Acked? }

  function States(ds: seq<Delivery>): seq<State> {
    if ds == [] then [] else States(Init(ds)) + [Last(ds).state]
  }

  /** The states whose last post was acknowledged (or, for `ok == false`, was not). */
  function Outcome(ds: seq<Delivery>, ok: bool): seq<State> {
    if ds == [] then []
    else if Delivered(Last(ds)) == ok then Outcome(Init(ds), ok) + [Last(ds).state]
    else Outcome(Init(ds), ok)
  }

  // ---------------------------------------------------------------- invariant

  /** Posts stop at the first success, and there are at most three of them. */
  predicate PostsInOrder(posts: seq<Answer>) {
    |posts| <= 3 && forall i :: 0 <= i < |posts| - 1 ==> !posts[i].Acked?
  }

  /** Given up means three failures, or at least one failure and a cancelled context. */
  predicate WellDelivered(d: Delivery, cancelled: bool) {
    && d.posts != [] && PostsInOrder(d.posts)
    && (!Delivered(d) ==> |d.posts| == 3 || cancelled)
  }

  predicate SenderOk(s: Sender) {
    s.Sending? ==> |s.posts| <= 3 && forall i :: 0 <= i < |s.posts| ==> !s.posts[i].Acked?
  }

  /** Events: the accumulator and the batches are groupings of what was accepted. */
  ghost predicate EventsInv(s: System) {
    && s.accepted == Flatten(s.segments) + s.since
    && s.pending == Group(s.since)
    && Batched(s.batches, s.segments)
  }

  ghost predicate Batched(batches: seq<seq<State>>, segments: seq<seq<Metric>>) {
    |segments| == |batches| && forall i :: 0 <= i < |batches| ==> Enumerates(batches[i], Group(segments[i]))
  }

  /** States: what was queued is through, in the sender, or waiting, in that order. */
  ghost predicate StatesInv(s: System) {
    && Flatten(s.batches) == States(s.done) + InSender(s.sender) + Flatten(s.queue)
    && |s.queue| <= QUEUE_CAPACITY
    && SenderOk(s.sender)
    && (forall i :: 0 <= i < |s.done| ==> WellDelivered(s.done[i], s.cancelled))
  }

  ghost predicate Inv(s: System) { EventsInv(s) && StatesInv(s) }

  lemma AcceptKeeps(s: System, e: Metric)
    requires Inv(s)
    ensures Inv(Do(s, Accept(e)))
  {
    if Enabled(s, Accept(e)) {
      AddEventGroups(s.since, e);
      assert s.accepted + [e] == Flatten(s.segments) + (s.since + [e]);
    }
  }

  lemma {:induction false} FlattenSnoc<T>(xss: seq<seq<T>>, xs: seq<T>)
    ensures Flatten(xss + [xs]) == Flatten(xss) + xs
  {
    assert Init(xss + [xs]) == xss;
  }

  lemma BatchedSnoc(batches: seq<seq<State>>, segments: seq<seq<Metric>>, batch: seq<State>, xs: seq<Metric>)
    requires Batched(batches, segments) && Enumerates(batch, Group(xs))
    ensures Batched(batches + [batch], segments + [xs])
  {
  }

  lemma QueuedEvents(s: System, batch: seq<State>)
    requires EventsInv(s) && Enumerates(batch, s.pending) && batch != [] && |s.queue| < QUEUE_CAPACITY
    ensures EventsInv(TickBatch(s, batch))
  {
    BatchedSnoc(s.batches, s.segments, batch, s.since);
    FlattenSnoc(s.segments, s.since);
    assert Group([]) == map[];
  }

  lemma QueuedStates(s: System, batch: seq<State>)
    requires StatesInv(s) && batch != [] && |s.queue| < QUEUE_CAPACITY
    ensures StatesInv(TickBatch(s, batch))
  {
    FlattenSnoc(s.batches, batch);
    FlattenSnoc(s.queue, batch);
    var front := States(s.done) + InSender(s.sender);
    assert front + Flatten(s.queue) + batch == front + (Flatten(s.queue) + batch);
  }

  lemma RetainedKeeps(s: System, batch: seq<State>)
    requires Inv(s) && Enumerates(batch, s.pending) && |s.queue| >= QUEUE_CAPACITY
    ensures TickBatch(s, batch) == s
  {
    GroupWellKeyed(s.since);
    DrainThenAddAll(s.pending, batch);
  }

  lemma TickKeeps(s: System, batch: seq<State>)
    requires Inv(s)
    ensures Inv(Do(s, Tick(batch)))
  {
    if Enabled(s, Tick(batch)) && batch != [] {
      if |s.queue| < QUEUE_CAPACITY {
        QueuedEvents(s, batch);
        QueuedStates(s, batch);
      } else {
        RetainedKeeps(s, batch);
      }
    }
  }

  lemma FinishKeeps(s: System, posts: seq<Answer>)
    requires Inv(s) && s.sender.Sending? && WellDelivered(Delivery(s.sender.current, posts), s.cancelled)
    ensures Inv(Finish(s, posts))
  {
    var t := Finish(s, posts);
    assert Init(t.done) == s.done;
    assert States(t.done) + InSender(t.sender) == States(s.done) + InSender(s.sender);
  }

  lemma PostKeeps(s: System, a: Answer)
    requires Inv(s) && Enabled(s, Post(a))
    ensures Inv(Do(s, Post(a)))
  {
    var t := Commit(s, a);
    assert Inv(t);
    if a.Acked? { FinishKeeps(t, s.sender.posts + [a]); }
  }

  lemma TakeKeeps(s: System)
    requires Inv(s)
    ensures Inv(Do(s, Take))
  {
    if Enabled(s, Take) {
      var t := Do(s, Take);
      assert InSender(t.sender) == s.queue[0];
      assert Flatten(s.queue) == s.queue[0] + Flatten(s.queue[1..]) by {
        FlattenCons(s.queue[0], s.queue[1..]);
        assert [s.queue[0]] + s.queue[1..] == s.queue;
      }
      assert EventsInv(t);
      assert States(s.done) + [] + (s.queue[0] + Flatten(t.queue)) == States(s.done) + s.queue[0] + Flatten(t.queue);
    }
  }

  lemma StepKeeps(s: System, step: Step)
    requires Inv(s)
    ensures Inv(Do(s, step))
  {
    match step
    case Accept(e) => AcceptKeeps(s, e);
    case Tick(batch) => TickKeeps(s, batch);
    case Take => TakeKeeps(s);
    case Post(a) => if Enabled(s, step) { PostKeeps(s, a); }
    case GiveUp => if Enabled(s, step) { FinishKeeps(s, s.sender.posts); }
    case Cancel =>
    case Stop =>
  }

  /** Every reachable system satisfies the invariant. */
  lemma {:induction false} RunKeeps(steps: seq<Step>)
    ensures Inv(Run(steps))
  {
    if steps == [] {
      assert Group([]) == map[];
    } else {
      RunKeeps(Init(steps));
      StepKeeps(Run(Init(steps)), Last(steps));
    }
  }

  // ---------------------------------------------------------------- main results

  /**
   * The accumulator refines group-by-key: in every run it is the per-key, arrival-order
   * fold of the events accepted since the last queued batch, and the events before those
   * are exactly the ones of the queued batches, each batch a grouping of its own segment.
   */
  lemma AccumulatorRefinesGrouping(steps: seq<Step>)
    ensures var s := Run(steps);
            && s.pending == Group(s.since)
            && s.accepted == Flatten(s.segments) + s.since
            && Batched(s.batches, s.segments)
  {
    RunKeeps(steps);
  }

  /** A tick that finds the queue full changes nothing at all. */
  lemma FullQueueLosesNothing(steps: seq<Step>, batch: seq<State>)
    requires Enabled(Run(steps), Tick(batch)) && |Run(steps).queue| == 32
    ensures Run(steps + [Tick(batch)]) == Run(steps)
  {
    RunKeeps(steps);
    RetainedKeeps(Run(steps), batch);
    assert Init(steps + [Tick(batch)]) == steps;
  }

  /**
   * Every state of every queued batch is handled once and in order: posted and through,
   * being posted, or waiting. Each one is posted at most three times, nothing is posted
   * after a success, and without cancellation only a third failure gives a state up.
   */
  lemma DeliveryDiscipline(steps: seq<Step>)
    ensures var s := Run(steps);
            && Flatten(s.batches) == States(s.done) + InSender(s.sender) + Flatten(s.queue)
            && |s.queue| <= 32
            && SenderOk(s.sender)
            && forall d :: d in s.done ==> WellDelivered(d, s.cancelled)
  {
    RunKeeps(steps);
  }

  function PendingAmount(m: Flows, k: Key, c: Counter): nat {
    if k in m then StateAmount(c, m[k]) else 0
  }

  /** What the states of key `k` in a list hold together. */
  function Held(states: seq<State>, k: Key, c: Counter): nat {
    if states == [] then 0
    else Held(Init(states), k, c) + if Last(states).key == k then StateAmount(c, Last(states)) else 0
  }

  lemma {:induction false} HeldConcat(xs: seq<State>, ys: seq<State>, k: Key, c: Counter)
    ensures Held(xs + ys, k, c) == Held(xs, k, c) + Held(ys, k, c)
  {
    if ys == [] {
      assert xs + ys == xs;
    } else {
      InitOfConcat(xs, ys);
      HeldConcat(xs, Init(ys), k, c);
    }
  }

  lemma {:induction false} HeldAbsent(states: seq<State>, k: Key, c: Counter)
    requires forall i :: 0 <= i < |states| ==> states[i].key != k
    ensures Held(states, k, c) == 0
  {
    if states != [] { HeldAbsent(Init(states), k, c); }
  }

  lemma {:induction false} HeldOnce(states: seq<State>, i: nat, k: Key, c: Counter)
    requires i < |states| && states[i].key == k
    requires forall j :: 0 <= j < |states| && j != i ==> states[j].key != k
    ensures Held(states, k, c) == StateAmount(c, states[i])
  {
    if i == |states| - 1 {
      HeldAbsent(Init(states), k, c);
    } else {
      HeldOnce(Init(states), i, k, c);
    }
  }

  /** A drained batch holds what its events amount to, for every key and counter. */
  lemma BatchHoldsEvents(batch: seq<State>, xs: seq<Metric>, k: Key, c: Counter)
    requires Enumerates(batch, Group(xs))
    ensures Held(batch, k, c) == Total(c, Select(k, xs))
  {
    GroupWellKeyed(xs);
    SelectAbsent(k, xs);
    if k in Keys(xs) {
      FoldSummarises(k, Select(k, xs));
      assert Group(xs)[k] in batch;
      var i :| 0 <= i < |batch| && batch[i] == Group(xs)[k];
      HeldOnce(batch, i, k, c);
    } else {
      forall i | 0 <= i < |batch| ensures batch[i].key != k { assert batch[i] in batch; }
      HeldAbsent(batch, k, c);
    }
  }

  lemma {:induction false} BatchesHoldEvents(batches: seq<seq<State>>, segments: seq<seq<Metric>>, k: Key, c: Counter)
    requires |batches| == |segments|
    requires forall i :: 0 <= i < |batches| ==> Enumerates(batches[i], Group(segments[i]))
    ensures Held(Flatten(batches), k, c) == Total(c, Select(k, Flatten(segments)))
  {
    if batches != [] {
      BatchesHoldEvents(Init(batches), Init(segments), k, c);
      BatchHoldsEvents(Last(batches), Last(segments), k, c);
      HeldConcat(Flatten(Init(batches)), Last(batches), k, c);
      SelectConcat(k, Flatten(Init(segments)), Last(segments));
      TotalConcat(c, Select(k, Flatten(Init(segments))), Select(k, Last(segments)));
    }
  }

  lemma {:induction false} OutcomesSplit(ds: seq<Delivery>, k: Key, c: Counter)
    ensures Held(States(ds), k, c) == Held(Outcome(ds, true), k, c) + Held(Outcome(ds, false), k, c)
  {
    if ds != [] {
      OutcomesSplit(Init(ds), k, c);
      var s := Last(ds).state;
      HeldConcat(States(Init(ds)), [s], k, c);
      HeldConcat(Outcome(Init(ds), Delivered(Last(ds))), [s], k, c);
    }
  }

  lemma PendingHoldsEvents(xs: seq<Metric>, k: Key, c: Counter)
    ensures PendingAmount(Group(xs), k, c) == Total(c, Select(k, xs))
  {
    SelectAbsent(k, xs);
    if k in Keys(xs) { FoldSummarises(k, Select(k, xs)); }
  }

  /**
   * Conservation over whole runs: for every key and additive counter, what was accepted is
   * what is pending, queued, in the sender, acknowledged or given up.
   */
  lemma Conservation(steps: seq<Step>, k: Key, c: Counter)
    ensures var s := Run(steps);
            Total(c, Select(k, s.accepted))
            == PendingAmount(s.pending, k, c) + Held(Flatten(s.queue), k, c) + Held(InSender(s.sender), k, c)
               + Held(Outcome(s.done, true), k, c) + Held(Outcome(s.done, false), k, c)
  {
    RunKeeps(steps);
    var s := Run(steps);
    SelectConcat(k, Flatten(s.segments), s.since);
    TotalConcat(c, Select(k, Flatten(s.segments)), Select(k, s.since));
    PendingHoldsEvents(s.since, k, c);
    BatchesHoldEvents(s.batches, s.segments, k, c);
    HeldConcat(States(s.done) + InSender(s.sender), Flatten(s.queue), k, c);
    HeldConcat(States(s.done), InSender(s.sender), k, c);
    OutcomesSplit(s.done, k, c);
  }

  // ---------------------------------------------------------------- the tick, in place

  /** The ticker branch: drain, then hand the batch over or put it back. */
  method OnTick(store: Store, queue: seq<seq<State>>) returns (batch: seq<State>, queue': seq<seq<State>>)
    requires store.Valid()
    modifies store, store.flows.Values
    ensures store.Valid() && Enumerates(batch, old(store.View()))
    ensures batch == [] ==> queue' == queue
    ensures batch != [] && |queue| < 32 ==> queue' == queue + [batch] && store.View() == map[]
    ensures batch == [] || |queue| >= 32 ==> queue' == queue && store.View() == old(store.View())
    ensures forall s: System :: s.pending == old(store.View()) && s.queue == queue && !s.stopped
                                ==> Enabled(s, Tick(batch)) && Do(s, Tick(batch)).pending == store.View()
                                    && Do(s, Tick(batch)).queue == queue'
  {
    ghost var before := store.View();
    batch := store.Drain();
    queue' := queue;
    if |batch| == 0 {
      assert batch == [];
      EmptyBatch(before);
      return;
    }
    if |queue| < QUEUE_CAPACITY {
      queue' := queue + [batch];
    } else {
      store.AbsorbAll(batch);
      DrainThenAddAll(before, batch);
    }
  }

  // ---------------------------------------------------------------- the retry loop

  /** Where a sequence of steps leads from a given system. */
  ghost function After(s: System, steps: seq<Step>): System {
    if steps == [] then s else Do(After(s, Init(steps)), Last(steps))
  }

  lemma AfterSnoc(s: System, steps: seq<Step>, x: Step)
    ensures After(s, steps + [x]) == Do(After(s, steps), x)
  {
    hide Do;
    assert Init(steps + [x]) == steps;
  }

  lemma {:induction false} RunAfter(steps: seq<Step>, more: seq<Step>)
    ensures Run(steps + more) == After(Run(steps), more)
  {
    hide Do;
    if more == [] {
      assert steps + more == steps;
    } else {
      InitOfConcat(steps, more);
      RunAfter(steps, Init(more));
    }
  }

  /** The system once a state's posts so far ended like this; `cancelled` may have become true. */
  function Posted(s: System, posts: seq<Answer>, cancelled: bool): System
    requires s.sender.Sending?
  {
    s.(sender := s.sender.(posts := posts), logged := s.logged + Copies(s.sender.current, posts), cancelled := cancelled)
  }

  /** One more post of the loop is one enabled step. */
  lemma PostedOneMore(s: System, posts: seq<Answer>, a: Answer)
    requires s.sender.Sending? && |posts| < MAX_POSTS
    ensures var next := Posted(s, posts + [a], s.cancelled);
            Do(Posted(s, posts, s.cancelled), Post(a)) == if a.Acked? then Finish(next, posts + [a]) else next
  {
    assert Init(posts + [a]) == posts;
    assert s.logged + Copies(s.sender.current, posts) + [s.sender.current]
           == s.logged + (Copies(s.sender.current, posts) + [s.sender.current]);
    hide Copies;
    assert Copies(s.sender.current, posts + [a])
           == Copies(s.sender.current, posts) + if a.Failed? then [] else [s.sender.current] by { CopiesSnoc(s.sender.current, posts, a); }
  }

  lemma CopiesSnoc(state: State, posts: seq<Answer>, a: Answer)
    ensures Copies(state, posts + [a]) == Copies(state, posts) + if a.Failed? then [] else [state]
  {
    assert Init(posts + [a]) == posts;
  }

  /**
   * `sendFlow` for the state in the sender after the run `before`: `answers[i]` is how the
   * i-th post would end, `doneAt[i]` whether the wait after it ends because the context is
   * done. `steps` are the steps that the loop performs: they continue the run to where the
   * state is through, after the posts that the loop made and no others.
   */
  method SendFlow(answers: seq<Answer>, doneAt: seq<bool>, ghost before: seq<Step>)
    returns (ok: bool, posts: seq<Answer>, ghost steps: seq<Step>)
    requires |answers| == MAX_POSTS && |doneAt| == MAX_POSTS
    requires Run(before).sender.Sending? && Run(before).sender.posts == []
    ensures 0 < |posts| <= 3 && posts == answers[..|posts|] && PostsInOrder(posts)
    ensures ok == Last(posts).Acked?
    ensures !ok ==> |posts| == 3 || doneAt[|posts| - 1]
    ensures forall i :: 0 <= i < |posts| - 1 ==> !doneAt[i]
    ensures var s := Run(before);
            Run(before + steps) == Finish(Posted(s, posts, s.cancelled || (!ok && doneAt[|posts| - 1])), posts)
  {
    hide Run, After, Do, Posted, Finish, Copies, Enabled;
    ghost var s := Run(before);
    posts, steps := [], [];
    NothingPosted(s);
    for attempt := 0 to MAX_POSTS
      invariant posts == answers[..attempt]
      invariant forall i :: 0 <= i < attempt ==> !posts[i].Acked? && !doneAt[i]
      invariant After(s, steps) == Posted(s, posts, s.cancelled)
    {
      var answer := answers[attempt];
      PostedOneMore(s, posts, answer);
      AfterSnoc(s, steps, Post(answer));
      assert posts + [answer] == answers[..attempt + 1];
      posts := posts + [answer];
      steps := steps + [Post(answer)];
      if answer.Acked? {
        RunAfter(before, steps);
        return true, posts, steps;
      }
      if doneAt[attempt] {
        GivesUp(s, steps, posts);
        RunAfter(before, steps + [Cancel] + [GiveUp]);
        return false, posts, steps + [Cancel] + [GiveUp];
      }
    }
    GivesUpLast(s, steps, posts);
    RunAfter(before, steps + [GiveUp]);
    return false, posts, steps + [GiveUp];
  }

  /**
   * One turn of `runFlowSender`: the oldest batch is taken and each of its states is sent, in
   * order. `answers[i]` and `doneAt[i]` are what the posts of the i-th state meet. The run
   * goes on to where the whole batch is through and the sender is idle again.
   */
  method SendBatch(batch: seq<State>, answers: seq<seq<Answer>>, doneAt: seq<seq<bool>>, ghost before: seq<Step>)
    returns (ghost steps: seq<Step>)
    requires |answers| == |batch| == |doneAt|
    requires forall i :: 0 <= i < |batch| ==> |answers[i]| == MAX_POSTS && |doneAt[i]| == MAX_POSTS
    requires Run(before).sender.Idle? && Run(before).queue != [] && Run(before).queue[0] == batch
    ensures Through(Run(before), Run(before + steps), batch, |batch|) && Run(before + steps).sender.Idle?
  {
    steps := [Take];
    TakesBatch(before);
    hide Run, Through, Finish, Posted, PostsInOrder, StartBatch;
    for i := 0 to |batch|
      invariant Through(Run(before), Run(before + steps), batch, i)
      invariant Run(before + steps).sender == StartBatch(batch[i..])
    {
      ghost var t := Run(before + steps);
      StartsAt(batch, i);
      var ok, posts, more := SendFlow(answers[i], doneAt[i], before + steps);
      ThroughOneMore(Run(before), t, batch, i, posts, t.cancelled || (!ok && doneAt[i][|posts| - 1]));
      assert before + steps + more == before + (steps + more);
      steps := steps + more;
    }
    StartsAt(batch, |batch|);
  }

  lemma StartsAt(batch: seq<State>, i: nat)
    requires i <= |batch|
    ensures StartBatch(batch[i..]) == if i == |batch| then Idle else Sending(batch[i], [], batch[i + 1..])
  {
  }

  /** From `s` to `t` the oldest batch was taken and its first `n` states are through, in order. */
  ghost predicate Through(s: System, t: System, batch: seq<State>, n: nat)
    requires n <= |batch|
  {
    && s.queue != [] && t.queue == s.queue[1..] && t.pending == s.pending
    && s.done <= t.done && States(t.done) == States(s.done) + batch[..n]
  }

  lemma TakesBatch(before: seq<Step>)
    requires Run(before).sender.Idle? && Run(before).queue != []
    ensures var s, t := Run(before), Run(before + [Take]);
            Through(s, t, s.queue[0], 0) && t.sender == StartBatch(s.queue[0][0..])
  {
    RunSnoc(before, Take);
    hide Run;
    assert States(Run(before).done) + [] == States(Run(before).done);
    assert Run(before).queue[0][0..] == Run(before).queue[0];
  }

  lemma ThroughOneMore(s: System, t: System, batch: seq<State>, i: nat, posts: seq<Answer>, cancelled: bool)
    requires i < |batch| && Through(s, t, batch, i) && t.sender == Sending(batch[i], [], batch[i + 1..])
    ensures var u := Finish(Posted(t, posts, cancelled), posts);
            Through(s, u, batch, i + 1) && u.sender == StartBatch(batch[i + 1..])
  {
    hide Copies;
    StatesSnoc(t.done, Delivery(batch[i], posts));
    assert States(s.done) + batch[..i] + [batch[i]] == States(s.done) + batch[..i + 1];
  }

  lemma RunSnoc(steps: seq<Step>, x: Step)
    ensures Run(steps + [x]) == Do(Run(steps), x)
  {
    hide Do;
    assert Init(steps + [x]) == steps;
  }

  lemma StatesSnoc(ds: seq<Delivery>, d: Delivery)
    ensures States(ds + [d]) == States(ds) + [d.state]
  {
    assert Init(ds + [d]) == ds;
  }

  lemma NothingPosted(s: System)
    requires s.sender.Sending? && s.sender.posts == []
    ensures After(s, []) == Posted(s, [], s.cancelled)
  {
    assert s.logged + Copies(s.sender.current, []) == s.logged;
  }

  lemma GivesUpLast(s: System, steps: seq<Step>, posts: seq<Answer>)
    requires s.sender.Sending? && |posts| == MAX_POSTS && After(s, steps) == Posted(s, posts, s.cancelled)
    ensures After(s, steps + [GiveUp]) == Finish(Posted(s, posts, s.cancelled), posts)
  {
    AfterSnoc(s, steps, GiveUp);
    hide After, Copies;
  }

  lemma GivesUp(s: System, steps: seq<Step>, posts: seq<Answer>)
    requires s.sender.Sending? && posts != [] && After(s, steps) == Posted(s, posts, s.cancelled)
    ensures After(s, steps + [Cancel] + [GiveUp]) == Finish(Posted(s, posts, true), posts)
  {
    AfterSnoc(s, steps, Cancel);
    AfterSnoc(s, steps + [Cancel], GiveUp);
    hide After, Copies;
  }
}
