/**
 * The hub's latest-wins throttle. The first submission of a type arms a timer; later ones
 * replace the payload until the timer's flush takes it. Taking the payload and broadcasting
 * it are separate steps, because the flush lets go of the lock in between.
 */
module HubThrottle {
  import opened Prelude

  type Kind = string
  type Payload = nat

  datatype Timer = Timer(kind: Kind, due: int)

  /** A flush, with the position of its payload among the submissions of its kind. */
  datatype Flush = Flush(kind: Kind, payload: Payload, index: int, at: int)

  /**
   * `pending` is the throttled map. `timers` are the armed timers, `outbox` the payloads
   * taken but not yet broadcast. `submitted`, `flushed`, `sent` and `out` are history: `sent`
   * the flushes that were broadcast, `out` every payload that was, those submitted without an
   * interval included, which are broadcast at once.
   */
  datatype Hub = Hub(pending: map<Kind, Payload>, timers: seq<Timer>, outbox: seq<Flush>, clock: int,
                     submitted: map<Kind, seq<Payload>>, flushed: seq<Flush>, sent: seq<Flush>, out: seq<Payload>)

  datatype Step =
    | Submit(kind: Kind, payload: Payload, interval: int, now: int)
    | Fire(timer: nat, now: int)
    | Emit(item: nat)

  const START := Hub(map[], [], [], 0, map[], [], [], [])

  function SubmittedOf(h: Hub, kind: Kind): seq<Payload> { if kind in h.submitted then h.submitted[kind] else [] }

  predicate Enabled(h: Hub, step: Step) {
    match step
    case Submit(_, _, _, now) => h.clock <= now
    case Fire(i, now) => i < |h.timers| && h.clock <= now && h.timers[i].due <= now
    case Emit(i) => i < |h.outbox|
  }

  function Remove<T>(xs: seq<T>, i: nat): seq<T>
    requires i < |xs|
  {
    xs[..i] + xs[i + 1..]
  }

  function SubmitTo(h: Hub, kind: Kind, payload: Payload, interval: int, now: int): Hub {
    if interval <= 0 then h.(out := h.out + [payload], clock := now)
    else
      h.(pending := h.pending[kind := payload],
         timers := if kind in h.pending then h.timers else h.timers + [Timer(kind, now + interval)],
         submitted := h.submitted[kind := SubmittedOf(h, kind) + [payload]],
         clock := now)
  }

  /** `flushLatest`: take the payload, if there is one; the timer is spent either way. */
  function FireTimer(h: Hub, i: nat, now: int): Hub
    requires i < |h.timers|
  {
    var kind := h.timers[i].kind;
    var g := h.(timers := Remove(h.timers, i), clock := now);
    if kind !in h.pending then g
    else
      var f := Flush(kind, h.pending[kind], |SubmittedOf(h, kind)| - 1, now);
      g.(pending := h.pending - {kind}, flushed := h.flushed + [f], outbox := h.outbox + [f])
  }

  function Do(h: Hub, step: Step): Hub {
    if !Enabled(h, step) then h
    else
      match step
      case Submit(kind, payload, interval, now) => SubmitTo(h, kind, payload, interval, now)
      case Fire(i, now) => FireTimer(h, i, now)
      case Emit(i) => h.(outbox := Remove(h.outbox, i), sent := h.sent + [h.outbox[i]],
                         out := h.out + [h.outbox[i].payload])
  }

  function Run(steps: seq<Step>): Hub {
    if steps == [] then START else Do(Run(Init(steps)), Last(steps))
  }

  // ---------------------------------------------------------------- invariant

  /** One armed timer for each pending kind, and no other. */
  ghost predicate TimersMatch(kinds: set<Kind>, timers: seq<Timer>) {
    && (forall i :: 0 <= i < |timers| ==> timers[i].kind in kinds)
    && (forall i, j :: 0 <= i < j < |timers| ==> timers[i].kind != timers[j].kind)
    && (forall k :: k in kinds ==> exists i :: 0 <= i < |timers| && timers[i].kind == k)
  }

  ghost predicate TimersInv(h: Hub) { TimersMatch(h.pending.Keys, h.timers) }

  /** Where the latest flush of a kind is, or -1. */
  function LastAt(fs: seq<Flush>, kind: Kind): (r: int)
    ensures -1 <= r < |fs| && (r >= 0 ==> fs[r].kind == kind) && forall j :: r < j < |fs| ==> fs[j].kind != kind
  {
    if fs == [] then -1 else if Last(fs).kind == kind then |fs| - 1 else LastAt(Init(fs), kind)
  }

  function LastFlush(fs: seq<Flush>, kind: Kind): Option<Flush> {
    if LastAt(fs, kind) < 0 then None else Some(fs[LastAt(fs, kind)])
  }

  /** The last submission of a kind is what is pending, or what was flushed last. */
  ghost predicate LatestInv(h: Hub, kind: Kind) {
    var xs := SubmittedOf(h, kind);
    && (kind in h.pending ==> xs != [] && h.pending[kind] == Last(xs))
    && (kind !in h.pending && xs != [] ==>
          LastFlush(h.flushed, kind).Some? && LastFlush(h.flushed, kind).value.index == |xs| - 1)
    && (LastFlush(h.flushed, kind).Some? ==> LastFlush(h.flushed, kind).value.index < |xs|)
    && (kind in h.pending && LastFlush(h.flushed, kind).Some? ==> LastFlush(h.flushed, kind).value.index < |xs| - 1)
  }

  /** Flushes carry what was submitted, each submission at most once and in order. */
  ghost predicate FlushesInv(h: Hub) {
    && (forall i :: 0 <= i < |h.flushed| ==>
          var f := h.flushed[i];
          0 <= f.index < |SubmittedOf(h, f.kind)| && f.payload == SubmittedOf(h, f.kind)[f.index] && f.at <= h.clock)
    && (forall i, j :: 0 <= i < j < |h.flushed| && h.flushed[i].kind == h.flushed[j].kind
                       ==> h.flushed[i].index < h.flushed[j].index)
  }

  ghost predicate Inv(h: Hub) {
    TimersInv(h) && (forall k :: LatestInv(h, k)) && FlushesInv(h)
    && multiset(h.flushed) == multiset(h.outbox) + multiset(h.sent)
  }

  lemma SubmitKeepsLatest(h: Hub, kind: Kind, payload: Payload, interval: int, now: int, k: Kind)
    requires LatestInv(h, k)
    ensures LatestInv(SubmitTo(h, kind, payload, interval, now), k)
  {
  }

  lemma SubmitKeepsFlushes(h: Hub, kind: Kind, payload: Payload, interval: int, now: int)
    requires FlushesInv(h) && h.clock <= now
    ensures FlushesInv(SubmitTo(h, kind, payload, interval, now))
  {
  }

  lemma SubmitKeeps(h: Hub, kind: Kind, payload: Payload, interval: int, now: int)
    requires Inv(h) && h.clock <= now
    ensures Inv(SubmitTo(h, kind, payload, interval, now))
  {
    hide LatestInv, FlushesInv, TimersInv;
    var g := SubmitTo(h, kind, payload, interval, now);
    forall k ensures LatestInv(g, k) { SubmitKeepsLatest(h, kind, payload, interval, now, k); }
    SubmitKeepsFlushes(h, kind, payload, interval, now);
    SubmitKeepsTimers(h, kind, payload, interval, now);
  }

  lemma ArmTimer(kinds: set<Kind>, timers: seq<Timer>, t: Timer)
    requires TimersMatch(kinds, timers) && t.kind !in kinds
    ensures TimersMatch(kinds + {t.kind}, timers + [t])
  {
    var ts := timers + [t];
    assert ts[|timers|].kind == t.kind;
    forall k | k in kinds ensures exists i :: 0 <= i < |ts| && ts[i].kind == k {
      var i :| 0 <= i < |timers| && timers[i].kind == k;
      assert ts[i].kind == k;
    }
  }

  lemma SubmitKeepsTimers(h: Hub, kind: Kind, payload: Payload, interval: int, now: int)
    requires TimersInv(h)
    ensures TimersInv(SubmitTo(h, kind, payload, interval, now))
  {
    hide TimersMatch;
    var g := SubmitTo(h, kind, payload, interval, now);
    if interval > 0 {
      assert g.pending.Keys == h.pending.Keys + {kind};
      if kind in h.pending {
        assert g.pending.Keys == h.pending.Keys;
      } else {
        ArmTimer(h.pending.Keys, h.timers, Timer(kind, now + interval));
      }
    }
  }

  lemma RemoveIndex<T>(xs: seq<T>, i: nat, j: nat)
    requires i < |xs| && j < |xs| - 1
    ensures |Remove(xs, i)| == |xs| - 1 && Remove(xs, i)[j] == xs[if j < i then j else j + 1]
  {
  }

  lemma FireKeepsTimers(h: Hub, i: nat, now: int)
    requires TimersInv(h) && i < |h.timers|
    ensures TimersInv(FireTimer(h, i, now))
  {
    var g := FireTimer(h, i, now);
    assert h.timers[i].kind in h.pending;
    assert |g.timers| == |h.timers| - 1;
    forall j | 0 <= j < |g.timers| ensures g.timers[j] == h.timers[if j < i then j else j + 1] { RemoveIndex(h.timers, i, j); }
    hide Remove;
    forall k | k in g.pending ensures exists j :: 0 <= j < |g.timers| && g.timers[j].kind == k {
      var j :| 0 <= j < |h.timers| && h.timers[j].kind == k;
      assert g.timers[if j < i then j else j - 1].kind == k;
    }
  }

  lemma FireKeepsLatest(h: Hub, i: nat, now: int, k: Kind)
    requires Inv(h) && Enabled(h, Fire(i, now))
    ensures LatestInv(FireTimer(h, i, now), k)
  {
    assert h.timers[i].kind in h.pending && LatestInv(h, k) && LatestInv(h, h.timers[i].kind);
    var g := FireTimer(h, i, now);
    assert Init(g.flushed) == h.flushed;
    assert LastAt(g.flushed, k) == if k == h.timers[i].kind then |h.flushed| else LastAt(h.flushed, k);
  }

  lemma FireKeepsFlushes(h: Hub, i: nat, now: int)
    requires Inv(h) && Enabled(h, Fire(i, now))
    ensures FlushesInv(FireTimer(h, i, now))
  {
    var kind := h.timers[i].kind;
    assert kind in h.pending && LatestInv(h, kind);
    var n, l := |h.flushed|, LastAt(h.flushed, kind);
    forall a | 0 <= a < n && h.flushed[a].kind == kind ensures h.flushed[a].index < |SubmittedOf(h, kind)| - 1 {
      assert a <= l;
    }
  }

  lemma FireKeeps(h: Hub, i: nat, now: int)
    requires Inv(h) && Enabled(h, Fire(i, now))
    ensures Inv(FireTimer(h, i, now))
  {
    FireKeepsTimers(h, i, now);
    FireKeepsFlushes(h, i, now);
    forall k ensures LatestInv(FireTimer(h, i, now), k) { FireKeepsLatest(h, i, now, k); }
    hide LatestInv, FlushesInv, TimersInv;
  }

  lemma EmitKeeps(h: Hub, i: nat)
    requires Inv(h) && i < |h.outbox|
    ensures Inv(Do(h, Emit(i)))
  {
    var g := Do(h, Emit(i));
    assert h.outbox == h.outbox[..i] + [h.outbox[i]] + h.outbox[i + 1..];
    forall k ensures LatestInv(g, k) { assert LatestInv(h, k); }
  }

  lemma StepKeeps(h: Hub, step: Step)
    requires Inv(h)
    ensures Inv(Do(h, step))
  {
    hide Inv;
    if Enabled(h, step) {
      match step
      case Submit(kind, payload, interval, now) => SubmitKeeps(h, kind, payload, interval, now);
      case Fire(i, now) => FireKeeps(h, i, now);
      case Emit(i) => EmitKeeps(h, i);
    }
  }

  lemma {:induction false} RunKeeps(steps: seq<Step>)
    ensures Inv(Run(steps))
  {
    if steps != [] {
      RunKeeps(Init(steps));
      hide Inv, Do;
      StepKeeps(Run(Init(steps)), Last(steps));
    }
  }

  // ---------------------------------------------------------------- main results

  /** In every run each kind has at most one armed timer, and a timer that fires finds a payload. */
  lemma OneTimerPerKind(steps: seq<Step>)
    ensures TimersInv(Run(steps))
  {
    RunKeeps(steps);
  }

  /** Position `j` of the submissions of a kind reached a flush or is still pending. */
  ghost predicate Survives(h: Hub, kind: Kind, j: int) {
    || (kind in h.pending && j == |SubmittedOf(h, kind)| - 1)
    || exists i :: 0 <= i < |h.flushed| && h.flushed[i].kind == kind && h.flushed[i].index == j
  }

  /**
   * Latest wins: the last submission of a kind is pending or was its last flush, so every
   * submission is flushed, pending, or gives way to a later one that is.
   */
  lemma LatestWins(steps: seq<Step>, kind: Kind, i: nat)
    requires i < |SubmittedOf(Run(steps), kind)|
    ensures var h := Run(steps); exists j :: i <= j < |SubmittedOf(h, kind)| && Survives(h, kind, j)
    ensures var h := Run(steps);
            kind !in h.pending ==> LastFlush(h.flushed, kind).Some?
                                   && LastFlush(h.flushed, kind).value.payload == Last(SubmittedOf(h, kind))
  {
    RunKeeps(steps);
    var h := Run(steps);
    assert LatestInv(h, kind);
    if kind !in h.pending { assert h.flushed[LastAt(h.flushed, kind)].index == |SubmittedOf(h, kind)| - 1; }
    assert Survives(h, kind, |SubmittedOf(h, kind)| - 1);
  }

  /** Each flush carries its own submission, in submission order, and is broadcast at most once. */
  lemma FlushesAreSubmissions(steps: seq<Step>)
    ensures FlushesInv(Run(steps))
    ensures var h := Run(steps); multiset(h.flushed) == multiset(h.outbox) + multiset(h.sent)
  {
    RunKeeps(steps);
  }

  /** Every throttled submission of the kind waits at least `d`. */
  predicate IntervalsAtLeast(steps: seq<Step>, kind: Kind, d: int) {
    forall i :: 0 <= i < |steps| && steps[i].Submit? && steps[i].kind == kind && steps[i].interval > 0
                ==> steps[i].interval >= d
  }

  ghost predicate SpacedInv(h: Hub, kind: Kind, d: int) {
    && (forall i, j :: 0 <= i < j < |h.flushed| && h.flushed[i].kind == h.flushed[j].kind == kind
                       ==> h.flushed[j].at - h.flushed[i].at >= d)
    && (forall i, t :: 0 <= i < |h.flushed| && 0 <= t < |h.timers| && h.flushed[i].kind == h.timers[t].kind == kind
                       ==> h.timers[t].due - h.flushed[i].at >= d)
    && (forall i :: 0 <= i < |h.flushed| ==> h.flushed[i].at <= h.clock)
  }

  lemma SpacedStep(h: Hub, step: Step, kind: Kind, d: int)
    requires TimersInv(h) && SpacedInv(h, kind, d)
    requires step.Submit? && step.kind == kind && step.interval > 0 ==> step.interval >= d
    ensures SpacedInv(Do(h, step), kind, d)
  {
    var g := Do(h, step);
    if Enabled(h, step) && step.Fire? {
      forall t | 0 <= t < |g.timers|
        ensures g.timers[t] == h.timers[if t < step.timer then t else t + 1] && g.timers[t].kind != h.timers[step.timer].kind
      {
        RemoveIndex(h.timers, step.timer, t);
      }
      hide Remove;
    }
  }

  lemma {:induction false} SpacedRun(steps: seq<Step>, kind: Kind, d: int)
    requires IntervalsAtLeast(steps, kind, d)
    ensures SpacedInv(Run(steps), kind, d)
  {
    if steps != [] {
      assert steps[|steps| - 1] == Last(steps);
      SpacedRun(Init(steps), kind, d);
      RunKeeps(Init(steps));
      hide SpacedInv, Do;
      SpacedStep(Run(Init(steps)), Last(steps), kind, d);
    }
  }

  /** Flushes of a kind are at least its interval apart. */
  lemma FlushesAreSpaced(steps: seq<Step>, kind: Kind, d: int)
    requires IntervalsAtLeast(steps, kind, d)
    ensures var fs := Run(steps).flushed;
            forall i, j :: 0 <= i < j < |fs| && fs[i].kind == fs[j].kind == kind ==> fs[j].at - fs[i].at >= d
  {
    SpacedRun(steps, kind, d);
  }

  /** What was submitted without an interval, in order. */
  function DirectOf(steps: seq<Step>): seq<Payload> {
    if steps == [] then []
    else
      var x := Last(steps);
      DirectOf(Init(steps)) + if x.Submit? && x.interval <= 0 && Enabled(Run(Init(steps)), x) then [x.payload] else []
  }

  function PayloadsOf(fs: seq<Flush>): seq<Payload> {
    if fs == [] then [] else PayloadsOf(Init(fs)) + [Last(fs).payload]
  }

  lemma PayloadsSnoc(fs: seq<Flush>, f: Flush)
    ensures PayloadsOf(fs + [f]) == PayloadsOf(fs) + [f.payload]
  {
    assert Init(fs + [f]) == fs;
  }

  lemma StepHandsOut(h: Hub, x: Step)
    ensures var g := Do(h, x);
            if Enabled(h, x) && x.Submit? && x.interval <= 0 then g.out == h.out + [x.payload] && g.sent == h.sent
            else if Enabled(h, x) && x.Emit? then g.out == h.out + [h.outbox[x.item].payload] && g.sent == h.sent + [h.outbox[x.item]]
            else g.out == h.out && g.sent == h.sent
  {
  }

  /** What browsers are handed is, each once, the flushes that were broadcast and what was submitted without an interval. */
  lemma {:induction false} BroadcastsAre(steps: seq<Step>)
    ensures multiset(Run(steps).out) == multiset(DirectOf(steps)) + multiset(PayloadsOf(Run(steps).sent))
  {
    if steps != [] {
      var h, x := Run(Init(steps)), Last(steps);
      BroadcastsAre(Init(steps));
      StepHandsOut(h, x);
      var direct := DirectOf(Init(steps));
      assert direct + [] == direct;
      if Enabled(h, x) && x.Emit? { PayloadsSnoc(h.sent, h.outbox[x.item]); }
      hide PayloadsOf, Do, Enabled;
    }
  }

  /** Step `n` armed this timer: the first submission of its kind when nothing of it was pending. */
  ghost predicate ArmedBy(steps: seq<Step>, t: Timer, n: int) {
    && 0 <= n < |steps| && steps[n].Submit? && steps[n].kind == t.kind && steps[n].interval > 0
    && Enabled(Run(steps[..n]), steps[n]) && t.kind !in Run(steps[..n]).pending
    && t.due == steps[n].now + steps[n].interval
  }

  lemma ArmedStays(steps: seq<Step>, x: Step, t: Timer, n: int)
    requires ArmedBy(steps, t, n)
    ensures ArmedBy(steps + [x], t, n)
  {
    assert (steps + [x])[..n] == steps[..n] && (steps + [x])[n] == steps[n];
  }

  /** In every run, each timer is due exactly its interval after the submission that armed it. */
  lemma {:induction false} TimersAreArmed(steps: seq<Step>, t: Timer)
    requires t in Run(steps).timers
    ensures exists n :: ArmedBy(steps, t, n)
  {
    var rest, x := Init(steps), Last(steps);
    assert steps == rest + [x] && steps[..|rest|] == rest;
    var h := Run(rest);
    TimersOfStep(h, x, t);
    if t in h.timers {
      hide Run, Do;
      TimersAreArmed(rest, t);
      var n :| ArmedBy(rest, t, n);
      ArmedStays(rest, x, t, n);
    } else {
      assert ArmedBy(steps, t, |rest|);
    }
  }

  lemma TimersOfStep(h: Hub, x: Step, t: Timer)
    requires t in Do(h, x).timers
    ensures t in h.timers
            || (x.Submit? && Enabled(h, x) && x.interval > 0 && x.kind == t.kind && t.kind !in h.pending && t.due == x.now + x.interval)
  {
  }

  /**
   * Flush order is not broadcast order: for every kind there is a run in which a flush that
   * is held up between taking its payload and broadcasting it is overtaken by the next one.
   */
  lemma FlushCanBeOvertaken(kind: Kind)
    ensures exists steps :: var h := Run(steps);
              && h.pending == map[] && h.outbox == [] && |h.sent| == 2
              && h.sent[0].kind == h.sent[1].kind == kind && h.sent[0].index > h.sent[1].index
              && h.flushed == [h.sent[1], h.sent[0]]
  {
    var steps := [Submit(kind, 1, 500, 0), Fire(0, 500), Submit(kind, 2, 500, 500), Fire(0, 1000)];
    var f, g := Flush(kind, 1, 0, 500), Flush(kind, 2, 1, 1000);
    TwoFlushes(kind, steps, f, g);
    var h := Run(steps);
    var more := steps + [Emit(1)];
    var all := more + [Emit(0)];
    assert Run(more) == Do(h, Emit(1)) by { assert Init(more) == steps; }
    assert Run(all) == Do(Run(more), Emit(0)) by { assert Init(all) == more; }
    hide Do, Run;
    EmitBackwards(h, f, g);
    assert Run(all).sent == [g, f] && Run(all).flushed == [f, g];
  }

  /** One submission and its timer's callback, at the end of a run with nothing armed. */
  lemma FlushNext(steps: seq<Step>, kind: Kind, payload: Payload, now: int)
    requires var h := Run(steps); h.pending == map[] && h.timers == [] && h.clock <= now
    ensures var h := Run(steps);
            var xs := SubmittedOf(h, kind) + [payload];
            var f := Flush(kind, payload, |xs| - 1, now + 500);
            Run(steps + [Submit(kind, payload, 500, now)] + [Fire(0, now + 500)])
            == h.(clock := now + 500, submitted := h.submitted[kind := xs], flushed := h.flushed + [f], outbox := h.outbox + [f])
  {
    SubmitThenFire(Run(steps), kind, payload, now);
    RunSnoc(steps, Submit(kind, payload, 500, now));
    RunSnoc(steps + [Submit(kind, payload, 500, now)], Fire(0, now + 500));
    hide Do, Run, SubmittedOf;
  }

  lemma TwoFlushes(kind: Kind, steps: seq<Step>, f: Flush, g: Flush)
    requires steps == [Submit(kind, 1, 500, 0), Fire(0, 500), Submit(kind, 2, 500, 500), Fire(0, 1000)]
    requires f == Flush(kind, 1, 0, 500) && g == Flush(kind, 2, 1, 1000)
    ensures var h := Run(steps); h.outbox == h.flushed == [f, g] && h.sent == [] && h.pending == map[]
  {
    assert Run([]) == START;
    hide Do, Run;
    FlushNext([], kind, 1, 0);
    var first := [] + [Submit(kind, 1, 500, 0)] + [Fire(0, 500)];
    FlushNext(first, kind, 2, 500);
    assert first + [Submit(kind, 2, 500, 500)] + [Fire(0, 1000)] == steps;
  }

  lemma EmitBackwards(h: Hub, f: Flush, g: Flush)
    requires h.outbox == [f, g]
    ensures Do(Do(h, Emit(1)), Emit(0)) == h.(outbox := [], sent := h.sent + [g, f], out := h.out + [g.payload, f.payload])
  {
    assert Remove(h.outbox, 1) == [f] && Remove([f], 0) == [];
  }

  /** With nothing armed, one submission and its timer's callback make one flush. */
  lemma SubmitThenFire(h: Hub, kind: Kind, payload: Payload, now: int)
    requires h.pending == map[] && h.timers == [] && h.clock <= now
    ensures var xs := SubmittedOf(h, kind) + [payload];
            var f := Flush(kind, payload, |xs| - 1, now + 500);
            Do(Do(h, Submit(kind, payload, 500, now)), Fire(0, now + 500))
            == h.(clock := now + 500, submitted := h.submitted[kind := xs], flushed := h.flushed + [f],
                  outbox := h.outbox + [f])
  {
    var g := Do(h, Submit(kind, payload, 500, now));
    assert g.timers == [Timer(kind, now + 500)] && Remove(g.timers, 0) == [];
    assert g.pending - {kind} == map[];
  }

  // ---------------------------------------------------------------- the two methods, in place

  lemma RunSnoc(steps: seq<Step>, x: Step)
    ensures Run(steps + [x]) == Do(Run(steps), x)
  {
    hide Do;
    assert Init(steps + [x]) == steps;
  }

  /**
   * The throttled map with its timers and what was handed to the clients. `trace` is the run
   * that the object is in: each method adds the steps it performs, so every theorem about
   * `Run` is about the object.
   */
  class Throttle {
    var pending: map<Kind, Payload>
    var timers: seq<Timer>
    var broadcasts: seq<Payload>
    ghost var trace: seq<Step>

    ghost predicate Valid()
      reads this
    {
      pending == Run(trace).pending && timers == Run(trace).timers && broadcasts == Run(trace).out
    }

    constructor ()
      ensures Valid() && trace == []
    {
      pending, timers, broadcasts := map[], [], [];
      trace := [];
    }

    /** `BroadcastLatest` is one submission. */
    method BroadcastLatest(kind: Kind, payload: Payload, interval: int, now: int)
      requires Valid() && Run(trace).clock <= now
      modifies this
      ensures Valid() && trace == old(trace) + [Submit(kind, payload, interval, now)]
    {
      RunSnoc(trace, Submit(kind, payload, interval, now));
      trace := trace + [Submit(kind, payload, interval, now)];
      if interval <= 0 {
        broadcasts := broadcasts + [payload];
        return;
      }
      if kind in pending {
        pending := pending[kind := payload];
        return;
      }
      pending := pending[kind := payload];
      timers := timers + [Timer(kind, now + interval)];
    }

    /**
     * The part of the callback of timer `i` that runs under the lock. In every reachable
     * state it finds a payload, which then waits to be broadcast.
     */
    method TakeLatest(i: nat, now: int) returns (taken: Option<Payload>)
      requires Valid() && i < |timers| && timers[i].due <= now && Run(trace).clock <= now
      modifies this
      ensures Valid() && trace == old(trace) + [Fire(i, now)]
      ensures taken.Some? && Run(trace).outbox != [] && Last(Run(trace).outbox).payload == taken.value
      ensures |Run(trace).outbox| == |Run(old(trace)).outbox| + 1 && broadcasts == old(broadcasts)
    {
      OneTimerPerKind(trace);
      RunSnoc(trace, Fire(i, now));
      var kind := timers[i].kind;
      assert kind in pending;
      trace := trace + [Fire(i, now)];
      timers := timers[..i] + timers[i + 1..];
      taken := None;
      if kind in pending {
        taken := Some(pending[kind]);
        pending := pending - {kind};
      }
    }

    /** The part after the lock: the `k`-th waiting payload is broadcast. */
    method Deliver(payload: Payload, ghost k: nat)
      requires Valid() && k < |Run(trace).outbox| && Run(trace).outbox[k].payload == payload
      modifies this
      ensures Valid() && trace == old(trace) + [Emit(k)]
    {
      RunSnoc(trace, Emit(k));
      trace := trace + [Emit(k)];
      broadcasts := broadcasts + [payload];
    }

    /** `flushLatest` undisturbed: the timer's step, and at once the broadcast of what it took. */
    method FlushLatest(i: nat, now: int)
      requires Valid() && i < |timers| && timers[i].due <= now && Run(trace).clock <= now
      modifies this
      ensures Valid() && trace == old(trace) + [Fire(i, now), Emit(|Run(old(trace)).outbox|)]
    {
      var taken := TakeLatest(i, now);
      if taken.Some? { Deliver(taken.value, |Run(trace).outbox| - 1); }
      assert trace == old(trace) + [Fire(i, now), Emit(|Run(old(trace)).outbox|)];
    }
  }
}
