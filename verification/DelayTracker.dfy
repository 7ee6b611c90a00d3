/**
 * Application delay per socket: the first unanswered send starts the clock, the next
 * receive that returns bytes stops it. Both kernel maps are LRU, so an entry may be
 * evicted at any time; evictions are steps of the trace like any other.
 */
module DelayTracker {
  import opened Prelude
  import opened CaptureStats

  const MAX_US := 60_000_000

  type Sock = nat
  type Thread = nat

  /** `start`: socket to first unanswered send. `recv`: thread to the socket it is receiving on. */
  datatype Tracker = Tracker(start: map<Sock, int>, recv: map<Thread, Sock>)

  /** One probe invocation or one eviction, at a clock reading in nanoseconds. Socket 0 is null. */
  datatype Input =
    | Send(sk: Sock, now: int)
    | Receive(thread: Thread, sk: Sock, now: int)
    | Return(thread: Thread, result: int, now: int)
    | EvictStart(sk: Sock, now: int)
    | EvictRecv(thread: Thread, now: int)

  /** A delay taken at position `at` of the trace. */
  datatype Sample = Sample(sk: Sock, from: int, to: int, us: nat, at: nat)

  // ---------------------------------------------------------------- the probes

  function MarkRequestSent(t: Tracker, sk: Sock, now: int): Tracker {
    if sk == 0 || sk in t.start then t else t.(start := t.start[sk := now])
  }

  /** The delay in microseconds, 0 when there is none to report. */
  function DelayUs(from: int, now: int): nat {
    if now < from then 0
    else
      var us := (now - from) / 1000;
      if us == 0 || us > MAX_US then 0 else us
  }

  /** The socket a returning receive took bytes from. */
  function Answered(t: Tracker, x: Input): Option<Sock> {
    if x.Return? && x.thread in t.recv && x.result > 0 then Some(t.recv[x.thread]) else None
  }

  function Next(t: Tracker, x: Input): Tracker {
    match x
    case Send(sk, now) => MarkRequestSent(t, sk, now)
    case Receive(thread, sk, _) => if sk == 0 then t else t.(recv := t.recv[thread := sk])
    case Return(thread, _, _) =>
      var a := Answered(t, x);
      Tracker(if a.Some? then t.start - {a.value} else t.start, t.recv - {thread})
    case EvictStart(sk, _) => t.(start := t.start - {sk})
    case EvictRecv(thread, _) => t.(recv := t.recv - {thread})
  }

  function Measure(t: Tracker, x: Input, at: nat): Option<Sample> {
    var a := Answered(t, x);
    if a.Some? && a.value in t.start && DelayUs(t.start[a.value], x.now) > 0
    then Some(Sample(a.value, t.start[a.value], x.now, DelayUs(t.start[a.value], x.now), at)) else None
  }

  function Run(trace: seq<Input>): Tracker {
    if trace == [] then Tracker(map[], map[]) else Next(Run(Init(trace)), Last(trace))
  }

  function Samples(trace: seq<Input>): seq<Sample> {
    if trace == [] then []
    else
      var m := Measure(Run(Init(trace)), Last(trace), |trace| - 1);
      if m.Some? then Samples(Init(trace)) + [m.value] else Samples(Init(trace))
  }

  // ---------------------------------------------------------------- reference

  ghost predicate Monotone(trace: seq<Input>) {
    forall i, j :: 0 <= i <= j < |trace| ==> trace[i].now <= trace[j].now
  }

  /** The socket a thread is receiving on, read off the trace alone. */
  function Receiving(trace: seq<Input>, thread: Thread): Option<Sock> {
    if trace == [] then None
    else
      match Last(trace)
      case Receive(th, sk, _) => if th == thread && sk != 0 then Some(sk) else Receiving(Init(trace), thread)
      case Return(th, _, _) => if th == thread then None else Receiving(Init(trace), thread)
      case EvictRecv(th, _) => if th == thread then None else Receiving(Init(trace), thread)
      case _ => Receiving(Init(trace), thread)
  }

  /** Position `m` ends the wait on `sk`: a receive returned bytes from it, or its entry was evicted. */
  ghost predicate Ends(trace: seq<Input>, m: nat, sk: Sock)
    requires m < |trace|
  {
    match trace[m]
    case Return(th, result, _) => result > 0 && Receiving(trace[..m], th) == Some(sk)
    case EvictStart(s, _) => s == sk
    case _ => false
  }

  ghost predicate Sends(trace: seq<Input>, i: nat, sk: Sock)
    requires i < |trace|
  {
    trace[i].Send? && trace[i].sk == sk && sk != 0
  }

  /** Some wait on `sk` ended strictly between two positions. */
  ghost predicate EndsBetween(trace: seq<Input>, lo: int, hi: int, sk: Sock)
    requires -1 <= lo && hi <= |trace|
  {
    exists m: nat :: lo < m < hi && Ends(trace, m, sk)
  }

  /** Position `i` is the first send on `sk` since a wait on it last ended. */
  ghost predicate FirstOpenSend(trace: seq<Input>, i: nat, sk: Sock)
    requires i < |trace|
  {
    && Sends(trace, i, sk)
    && !EndsBetween(trace, i, |trace|, sk)
    && forall k: nat :: k < i && Sends(trace, k, sk) ==> EndsBetween(trace, k, i, sk)
  }

  // ---------------------------------------------------------------- the maps mean what they should

  lemma {:induction false} RecvMeaning(trace: seq<Input>, thread: Thread)
    ensures Receiving(trace, thread)
            == if thread in Run(trace).recv then Some(Run(trace).recv[thread]) else None
  {
    if trace != [] { RecvMeaning(Init(trace), thread); }
  }

  lemma EndsPrefix(trace: seq<Input>, x: Input, m: nat, sk: Sock)
    requires m < |trace|
    ensures Ends(trace + [x], m, sk) == Ends(trace, m, sk)
  {
    assert (trace + [x])[..m] == trace[..m];
  }

  lemma EndsLast(trace: seq<Input>, x: Input, sk: Sock)
    ensures Ends(trace + [x], |trace|, sk)
            <==> Answered(Run(trace), x) == Some(sk) || (x.EvictStart? && x.sk == sk)
  {
    assert (trace + [x])[..|trace|] == trace;
    if x.Return? { RecvMeaning(trace, x.thread); }
  }

  lemma EndsBetweenPrefix(trace: seq<Input>, x: Input, lo: int, hi: int, sk: Sock)
    requires -1 <= lo && hi <= |trace|
    ensures EndsBetween(trace + [x], lo, hi, sk) == EndsBetween(trace, lo, hi, sk)
  {
    forall m: nat | lo < m < hi ensures Ends(trace + [x], m, sk) == Ends(trace, m, sk) { EndsPrefix(trace, x, m, sk); }
  }

  /** A socket has a start entry exactly when a send on it is still open, and then it holds the first one. */
  ghost predicate StartMeans(trace: seq<Input>, sk: Sock) {
    if sk in Run(trace).start
    then exists i: nat :: i < |trace| && FirstOpenSend(trace, i, sk) && trace[i].now == Run(trace).start[sk]
    else forall k: nat :: k < |trace| && Sends(trace, k, sk) ==> EndsBetween(trace, k, |trace|, sk)
  }

  lemma EndsBetweenSplit(trace: seq<Input>, x: Input, lo: int, sk: Sock)
    requires -1 <= lo < |trace|
    ensures EndsBetween(trace + [x], lo, |trace| + 1, sk)
            <==> EndsBetween(trace, lo, |trace|, sk) || Ends(trace + [x], |trace|, sk)
  {
    EndsBetweenPrefix(trace, x, lo, |trace|, sk);
    var t := trace + [x];
    if EndsBetween(t, lo, |trace| + 1, sk) {
      var m: nat :| lo < m < |trace| + 1 && Ends(t, m, sk);
      assert m == |trace| || EndsBetween(t, lo, |trace|, sk);
    }
    if EndsBetween(t, lo, |trace|, sk) {
      var m: nat :| lo < m < |trace| && Ends(t, m, sk);
      assert lo < m < |trace| + 1;
    }
  }

  lemma FirstOpenSendKept(trace: seq<Input>, x: Input, i: nat, sk: Sock)
    requires i < |trace| && FirstOpenSend(trace, i, sk) && !Ends(trace + [x], |trace|, sk)
    ensures FirstOpenSend(trace + [x], i, sk)
  {
    var t := trace + [x];
    EndsBetweenSplit(trace, x, i, sk);
    forall k: nat | k < i && Sends(t, k, sk) ensures EndsBetween(t, k, i, sk) {
      assert Sends(trace, k, sk);
      EndsBetweenPrefix(trace, x, k, i, sk);
    }
  }

  lemma OpensNow(trace: seq<Input>, x: Input, sk: Sock)
    requires x.Send? && x.sk == sk && sk != 0
    requires forall k: nat :: k < |trace| && Sends(trace, k, sk) ==> EndsBetween(trace, k, |trace|, sk)
    ensures FirstOpenSend(trace + [x], |trace|, sk)
  {
    var t := trace + [x];
    forall k: nat | k < |trace| && Sends(t, k, sk) ensures EndsBetween(t, k, |trace|, sk) {
      assert Sends(trace, k, sk);
      EndsBetweenPrefix(trace, x, k, |trace|, sk);
    }
  }

  lemma AllEnded(trace: seq<Input>, x: Input, sk: Sock)
    requires Ends(trace + [x], |trace|, sk)
             || (!(x.Send? && x.sk == sk && sk != 0)
                 && forall k: nat :: k < |trace| && Sends(trace, k, sk) ==> EndsBetween(trace, k, |trace|, sk))
    ensures forall k: nat :: k < |trace| + 1 && Sends(trace + [x], k, sk)
                             ==> EndsBetween(trace + [x], k, |trace| + 1, sk)
  {
    var t := trace + [x];
    forall k: nat | k < |trace| + 1 && Sends(t, k, sk) ensures EndsBetween(t, k, |trace| + 1, sk) {
      if k < |trace| {
        assert Sends(trace, k, sk);
        EndsBetweenSplit(trace, x, k, sk);
      }
    }
  }

  lemma StartStep(trace: seq<Input>, x: Input, sk: Sock)
    requires StartMeans(trace, sk)
    ensures StartMeans(trace + [x], sk)
  {
    var t := trace + [x];
    assert Init(t) == trace && Last(t) == x;
    EndsLast(trace, x, sk);
    hide Ends, EndsBetween, FirstOpenSend;
    if Ends(t, |trace|, sk) {
      AllEnded(trace, x, sk);
    } else if sk in Run(trace).start {
      var i: nat :| i < |trace| && FirstOpenSend(trace, i, sk) && trace[i].now == Run(trace).start[sk];
      FirstOpenSendKept(trace, x, i, sk);
      assert t[i].now == Run(t).start[sk];
    } else if x.Send? && x.sk == sk && sk != 0 {
      OpensNow(trace, x, sk);
      assert t[|trace|].now == Run(t).start[sk];
    } else {
      AllEnded(trace, x, sk);
    }
  }

  lemma {:induction false} StartMeaning(trace: seq<Input>, sk: Sock)
    ensures StartMeans(trace, sk)
  {
    if trace != [] {
      StartMeaning(Init(trace), sk);
      StartStep(Init(trace), Last(trace), sk);
      assert Init(trace) + [Last(trace)] == trace;
    }
  }

  // ---------------------------------------------------------------- main results

  /** `s` was taken when a receive on its socket returned bytes, and measures from the first open send. */
  ghost predicate Measures(trace: seq<Input>, s: Sample) {
    && s.at < |trace| && trace[s.at].Return? && trace[s.at].result > 0 && s.to == trace[s.at].now
    && Receiving(trace[..s.at], trace[s.at].thread) == Some(s.sk)
    && (exists i: nat :: i < s.at && FirstOpenSend(trace[..s.at], i, s.sk) && trace[i].now == s.from)
    && s.from <= s.to && s.us == (s.to - s.from) / 1000 && 1 <= s.us <= 60_000_000
  }

  lemma MeasureMeans(trace: seq<Input>, x: Input)
    requires Measure(Run(trace), x, |trace|).Some?
    ensures Measures(trace + [x], Measure(Run(trace), x, |trace|).value)
  {
    var s := Measure(Run(trace), x, |trace|).value;
    assert (trace + [x])[..|trace|] == trace;
    RecvMeaning(trace, x.thread);
    StartMeaning(trace, s.sk);
    var i: nat :| i < |trace| && FirstOpenSend(trace, i, s.sk) && trace[i].now == Run(trace).start[s.sk];
    assert (trace + [x])[i].now == s.from;
  }

  lemma MeasuresPrefix(trace: seq<Input>, x: Input, s: Sample)
    requires Measures(trace, s)
    ensures Measures(trace + [x], s)
  {
    var t := trace + [x];
    assert t[..s.at] == trace[..s.at];
    var i: nat :| i < s.at && FirstOpenSend(trace[..s.at], i, s.sk) && trace[i].now == s.from;
    assert t[i] == trace[i];
  }

  /**
   * For every trace, clock and eviction pattern: each sample measures from the first send on
   * its socket since the last wait ended, to the receive that answered it, in 1..60000000 us.
   */
  lemma {:induction false} SamplesMeasureFirstSend(trace: seq<Input>)
    ensures forall s :: s in Samples(trace) ==> Measures(trace, s)
  {
    if trace != [] {
      var rest, x := Init(trace), Last(trace);
      assert rest + [x] == trace;
      SamplesMeasureFirstSend(rest);
      hide Measures;
      forall s | s in Samples(trace) ensures Measures(trace, s) {
        if s in Samples(rest) { MeasuresPrefix(rest, x, s); } else { MeasureMeans(rest, x); }
      }
    }
  }

  // ---------------------------------------------------------------- every answer is measured

  /** At most one send is the first open one. */
  lemma FirstOpenSendUnique(trace: seq<Input>, i: nat, j: nat, sk: Sock)
    requires i < |trace| && j < |trace| && FirstOpenSend(trace, i, sk) && FirstOpenSend(trace, j, sk)
    ensures i == j
  {
    OpenIsLater(trace, i, j, sk);
    OpenIsLater(trace, j, i, sk);
  }

  lemma OpenIsLater(trace: seq<Input>, i: nat, j: nat, sk: Sock)
    requires i < |trace| && j < |trace| && FirstOpenSend(trace, i, sk) && FirstOpenSend(trace, j, sk)
    ensures !(i < j)
  {
    EndsWiden(trace, i, j, sk);
  }

  lemma EndsWiden(trace: seq<Input>, lo: int, hi: int, sk: Sock)
    requires -1 <= lo && hi <= |trace|
    ensures EndsBetween(trace, lo, hi, sk) ==> EndsBetween(trace, lo, |trace|, sk)
  {
    if EndsBetween(trace, lo, hi, sk) {
      var m: nat :| lo < m < hi && Ends(trace, m, sk);
      assert lo < m < |trace|;
    }
  }

  /** A receive returns bytes at `m` on a socket with an open send, `us` microseconds after the first one. */
  ghost predicate AnsweredAfter(trace: seq<Input>, m: nat, sk: Sock, us: int)
    requires m < |trace|
  {
    && trace[m].Return? && trace[m].result > 0 && Receiving(trace[..m], trace[m].thread) == Some(sk)
    && exists i: nat :: i < m && FirstOpenSend(trace[..m], i, sk) && us == (trace[m].now - trace[i].now) / 1000
  }

  lemma {:induction false} SamplesGrow(trace: seq<Input>, m: nat, s: Sample)
    requires m <= |trace| && s in Samples(trace[..m])
    ensures s in Samples(trace)
    decreases |trace|
  {
    if m == |trace| {
      assert trace[..m] == trace;
    } else {
      assert Init(trace)[..m] == trace[..m];
      SamplesGrow(Init(trace), m, s);
    }
  }

  /** The start entry of an answered socket is the time of its first open send. */
  lemma StartOf(trace: seq<Input>, i: nat, sk: Sock)
    requires i < |trace| && FirstOpenSend(trace, i, sk)
    ensures sk in Run(trace).start && Run(trace).start[sk] == trace[i].now
  {
    StartMeaning(trace, sk);
    if sk in Run(trace).start {
      var j: nat :| j < |trace| && FirstOpenSend(trace, j, sk) && trace[j].now == Run(trace).start[sk];
      FirstOpenSendUnique(trace, i, j, sk);
    }
  }

  lemma AnswerIsMeasured(trace: seq<Input>, m: nat, sk: Sock, us: int)
    requires m < |trace| && AnsweredAfter(trace, m, sk, us) && 1 <= us <= 60_000_000
    ensures exists s :: s in Samples(trace) && s.at == m && s.sk == sk && s.us == us
  {
    var p := trace[..m];
    var i: nat :| i < m && FirstOpenSend(p, i, sk) && us == (trace[m].now - trace[i].now) / 1000;
    assert p[i] == trace[i];
    StartOf(p, i, sk);
    RecvMeaning(p, trace[m].thread);
    var taken := Measure(Run(p), trace[m], m);
    assert taken.Some? && taken.value.us == us;
    assert Init(trace[..m + 1]) == p && Last(trace[..m + 1]) == trace[m];
    assert taken.value in Samples(trace[..m + 1]);
    SamplesGrow(trace, m + 1, taken.value);
  }

  /** Samples are listed in the order they were taken in, at most one for each position. */
  ghost predicate TakenInOrder(ss: seq<Sample>, n: nat) {
    && (forall i :: 0 <= i < |ss| ==> ss[i].at < n)
    && (forall i, j :: 0 <= i < j < |ss| ==> ss[i].at < ss[j].at)
  }

  lemma TakenOneMore(ss: seq<Sample>, n: nat, s: Sample)
    requires TakenInOrder(ss, n) && s.at == n
    ensures TakenInOrder(ss + [s], n + 1)
  {
  }

  lemma {:induction false} SamplesInOrder(trace: seq<Input>)
    ensures TakenInOrder(Samples(trace), |trace|)
  {
    if trace != [] {
      SamplesInOrder(Init(trace));
      var taken := Measure(Run(Init(trace)), Last(trace), |trace| - 1);
      if taken.Some? { TakenOneMore(Samples(Init(trace)), |trace| - 1, taken.value); }
    }
  }

  /**
   * For every trace, position and duration: a sample of `us` is taken at `m` if and only if a
   * receive returned bytes there on a socket whose first open send was that long ago, and
   * `us` lies in 1..60000000. At most one sample is taken at a position.
   */
  lemma SampleTakenExactlyWhen(trace: seq<Input>, m: nat, sk: Sock, us: int)
    requires m < |trace|
    ensures (exists s :: s in Samples(trace) && s.at == m && s.sk == sk && s.us == us)
            <==> AnsweredAfter(trace, m, sk, us) && 1 <= us <= 60_000_000
    ensures var ss := Samples(trace); forall i, j :: 0 <= i < |ss| && 0 <= j < |ss| && ss[i].at == ss[j].at ==> i == j
  {
    SamplesInOrder(trace);
    SamplesMeasureFirstSend(trace);
    if AnsweredAfter(trace, m, sk, us) && 1 <= us <= 60_000_000 { AnswerIsMeasured(trace, m, sk, us); }
    hide Samples;
  }

  /** Later samples of a socket start after earlier ones ended. */
  ghost predicate DisjointPerSocket(ss: seq<Sample>) {
    forall i, j :: 0 <= i < j < |ss| && ss[i].sk == ss[j].sk ==> ss[i].to <= ss[j].from
  }

  /** Open waits and samples lie within the trace's time, and a wait opens after the samples before it. */
  ghost predicate ClockInv(trace: seq<Input>) {
    SamplesInTime(trace) && WaitsInTime(trace) && DisjointPerSocket(Samples(trace))
  }

  ghost predicate SamplesInTime(trace: seq<Input>) {
    var ss := Samples(trace);
    forall i :: 0 <= i < |ss| ==> trace != [] && trace[0].now <= ss[i].from <= ss[i].to <= Last(trace).now
  }

  ghost predicate WaitsInTime(trace: seq<Input>) {
    var ss, start := Samples(trace), Run(trace).start;
    && (forall sk :: sk in start ==> trace != [] && trace[0].now <= start[sk] <= Last(trace).now)
    && (forall sk, i :: sk in start && 0 <= i < |ss| && ss[i].sk == sk ==> ss[i].to <= start[sk])
  }

  lemma TimeMovesOn(trace: seq<Input>, x: Input)
    requires Monotone(trace + [x]) && trace != []
    ensures trace[0].now <= Last(trace).now <= x.now
  {
    var t := trace + [x];
    assert t[0] == trace[0] && t[|trace| - 1] == Last(trace) && t[|trace|] == x;
  }

  lemma MeasureShape(t: Tracker, x: Input, at: nat)
    requires Measure(t, x, at).Some?
    ensures var s := Measure(t, x, at).value;
            s.sk in t.start && s.from == t.start[s.sk] && s.to == x.now && s.from <= s.to
  {
  }

  lemma SamplesStep(trace: seq<Input>, x: Input)
    requires ClockInv(trace) && Monotone(trace + [x])
    ensures SamplesInTime(trace + [x]) && DisjointPerSocket(Samples(trace + [x]))
  {
    var t := trace + [x];
    assert Init(t) == trace && Last(t) == x;
    if trace != [] { TimeMovesOn(trace, x); }
    if Measure(Run(trace), x, |trace|).Some? { MeasureShape(Run(trace), x, |trace|); }
    hide Measure, Monotone;
  }

  /** A wait that is open after a step was open before, or opens now; one that was measured is over. */
  lemma OpenWaits(t: Tracker, x: Input, sk: Sock, at: nat)
    requires sk in Next(t, x).start
    ensures (sk in t.start && Next(t, x).start[sk] == t.start[sk]) || Next(t, x).start[sk] == x.now
    ensures Measure(t, x, at).Some? ==> Measure(t, x, at).value.sk != sk
  {
  }

  lemma WaitsStep(trace: seq<Input>, x: Input)
    requires ClockInv(trace) && Monotone(trace + [x])
    ensures WaitsInTime(trace + [x])
  {
    var t := trace + [x];
    assert Init(t) == trace && Last(t) == x && (trace != [] ==> t[0] == trace[0]);
    if trace != [] { TimeMovesOn(trace, x); }
    var before, after, m := Run(trace), Run(t), Measure(Run(trace), x, |trace|);
    var ss, ss' := Samples(trace), Samples(t);
    assert after == Next(before, x) && ss' == if m.Some? then ss + [m.value] else ss;
    hide DisjointPerSocket, Monotone, Next, Measure, Run, Samples;
    forall sk | sk in after.start ensures t[0].now <= after.start[sk] <= x.now {
      OpenWaits(before, x, sk, |trace|);
    }
    forall sk, i | sk in after.start && 0 <= i < |ss'| && ss'[i].sk == sk ensures ss'[i].to <= after.start[sk] {
      OpenWaits(before, x, sk, |trace|);
      if i < |ss| { assert ss'[i] == ss[i] && ss[i].to <= Last(trace).now; }
    }
  }

  lemma {:induction false} ClockHolds(trace: seq<Input>)
    requires Monotone(trace)
    ensures ClockInv(trace)
  {
    if trace != [] {
      ClockHolds(Init(trace));
      assert Init(trace) + [Last(trace)] == trace;
      SamplesStep(Init(trace), Last(trace));
      WaitsStep(Init(trace), Last(trace));
    }
  }

  function TotalUs(ss: seq<Sample>, sk: Sock): nat {
    if ss == [] then 0 else TotalUs(Init(ss), sk) + if Last(ss).sk == sk then Last(ss).us else 0
  }

  lemma {:induction false} TotalFits(ss: seq<Sample>, sk: Sock, lo: int, hi: int)
    requires DisjointPerSocket(ss) && lo <= hi
    requires forall i :: 0 <= i < |ss| && ss[i].sk == sk
                         ==> lo <= ss[i].from && ss[i].to <= hi && ss[i].us * 1000 <= ss[i].to - ss[i].from
    ensures TotalUs(ss, sk) * 1000 <= hi - lo
  {
    if ss != [] {
      var s := Last(ss);
      assert s == ss[|ss| - 1];
      TotalFits(Init(ss), sk, lo, if s.sk == sk then s.from else hi);
    }
  }

  /**
   * With a monotone clock the measured intervals of a socket are disjoint, evictions or not,
   * so its samples together never exceed the elapsed time.
   */
  lemma SamplesNeverOverlap(trace: seq<Input>, sk: Sock)
    requires Monotone(trace) && trace != []
    ensures DisjointPerSocket(Samples(trace))
    ensures TotalUs(Samples(trace), sk) * 1000 <= Last(trace).now - trace[0].now
  {
    ClockHolds(trace);
    SamplesMeasureFirstSend(trace);
    var ss := Samples(trace);
    assert trace[0].now <= trace[|trace| - 1].now;
    forall i | 0 <= i < |ss| && ss[i].sk == sk
      ensures trace[0].now <= ss[i].from && ss[i].to <= Last(trace).now && ss[i].us * 1000 <= ss[i].to - ss[i].from
    {
      assert ss[i] in ss;
    }
    TotalFits(ss, sk, trace[0].now, Last(trace).now);
  }

  // ---------------------------------------------------------------- the probes, in place

  class Probes {
    var start: map<Sock, int>
    var recv: map<Thread, Sock>
    var events: seq<(Sock, nat)>
    const counters: Counters

    ghost function View(): Tracker
      reads this
    {
      Tracker(start, recv)
    }

    /** The null socket is never tracked. */
    ghost predicate Valid()
      reads this
    {
      0 !in start && forall t :: t in recv ==> recv[t] != 0
    }

    constructor (shared: Counters)
      ensures Valid() && View() == Run([]) && events == [] && counters == shared
    {
      start, recv, events, counters := map[], map[], [], shared;
    }

    method TraceSend(sk: Sock, now: int)
      requires Valid()
      modifies `start
      ensures Valid() && View() == Next(old(View()), Send(sk, now))
    {
      if sk == 0 || sk in start { return; }
      start := start[sk := now];
    }

    method TraceReceive(thread: Thread, sk: Sock, now: int)
      requires Valid()
      modifies `recv
      ensures Valid() && View() == Next(old(View()), Receive(thread, sk, now))
    {
      if sk == 0 { return; }
      recv := recv[thread := sk];
    }

    /** Removes the start entry whether or not the delay is worth reporting. */
    method TakeResponseDelayUs(sk: Sock, now: int) returns (us: nat)
      requires Valid()
      modifies `start
      ensures Valid() && start == old(start) - {sk}
      ensures us == if sk in old(start) then DelayUs(old(start)[sk], now) else 0
    {
      if sk == 0 || sk !in start { return 0; }
      var started := start[sk];
      start := start - {sk};
      if now < started { return 0; }
      us := (now - started) / 1000;
      if us == 0 || us > MAX_US { return 0; }
    }

    /** The return probe: a sample is emitted when there is one and the ring has room. */
    method TraceReturn(thread: Thread, result: int, now: int, reserved: bool)
      requires Valid()
      modifies this, counters
      ensures Valid() && View() == Next(old(View()), Return(thread, result, now))
      ensures var m := Measure(old(View()), Return(thread, result, now), 0);
              && events == (if m.Some? && reserved then old(events) + [(m.value.sk, m.value.us)] else old(events))
              && counters.stats == if m.Some? && !reserved then Bump(old(counters.stats), RingbufFull) else old(counters.stats)
    {
      if thread !in recv { return; }
      var sk := recv[thread];
      recv := recv - {thread};
      if result <= 0 { return; }
      var us := TakeResponseDelayUs(sk, now);
      if us == 0 { return; }
      if !reserved {
        counters.Count(RingbufFull);
        return;
      }
      events := events + [(sk, us)];
    }
  }
}
