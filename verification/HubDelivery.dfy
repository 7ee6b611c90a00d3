/**
 * In which order browsers are told. A flush takes its payload under the lock and broadcasts
 * it after the lock is released, so flushes wait in the outbox in between and may leave it in
 * any order. This module says exactly when the broadcasts of a kind are in submission order.
 */
module HubDelivery {
  import opened Prelude
  import opened HubThrottle

  /** The flushes of one kind, in the order given, are in the order they were submitted in. */
  ghost predicate InOrder(fs: seq<Flush>, kind: Kind) {
    forall i, j :: 0 <= i < j < |fs| && fs[i].kind == fs[j].kind == kind ==> fs[i].index < fs[j].index
  }

  /** Every broadcast of the kind so far is older than everything of it that waits. */
  ghost predicate SentBeforeWaiting(h: Hub, kind: Kind) {
    forall i, o :: 0 <= i < |h.sent| && 0 <= o < |h.outbox| && h.sent[i].kind == h.outbox[o].kind == kind
                   ==> h.sent[i].index < h.outbox[o].index
  }

  ghost predicate AtMostOneWaits(h: Hub, kind: Kind) {
    forall i, j :: 0 <= i < |h.outbox| && 0 <= j < |h.outbox| && h.outbox[i].kind == h.outbox[j].kind == kind ==> i == j
  }

  ghost predicate Orderly(h: Hub, kind: Kind) {
    InOrder(h.sent, kind) && SentBeforeWaiting(h, kind) && AtMostOneWaits(h, kind)
  }

  /** Something of the kind was overtaken, or is bound to be. */
  ghost predicate Spoiled(h: Hub, kind: Kind) { !InOrder(h.sent, kind) || !SentBeforeWaiting(h, kind) }

  predicate OnlyEmits(steps: seq<Step>) { forall i :: 0 <= i < |steps| ==> steps[i].Emit? }

  // ---------------------------------------------------------------- one broadcast

  lemma EmitShape(h: Hub, k: nat)
    requires k < |h.outbox|
    ensures var g := Do(h, Emit(k));
            && g.sent == h.sent + [h.outbox[k]] && |g.outbox| == |h.outbox| - 1
            && (forall j :: 0 <= j < k ==> g.outbox[j] == h.outbox[j])
            && (forall j :: k <= j < |g.outbox| ==> g.outbox[j] == h.outbox[j + 1])
  {
  }

  lemma EmitKeepsOrderly(h: Hub, k: nat, kind: Kind)
    requires Orderly(h, kind)
    ensures Orderly(Do(h, Emit(k)), kind)
  {
    if k < |h.outbox| {
      EmitShape(h, k);
      hide Do;
    }
  }

  lemma EmitKeepsSpoiled(h: Hub, k: nat, kind: Kind)
    requires Spoiled(h, kind)
    ensures Spoiled(Do(h, Emit(k)), kind)
  {
    if k < |h.outbox| {
      EmitShape(h, k);
      var g := Do(h, Emit(k));
      hide Do;
      if !InOrder(h.sent, kind) {
        var i, j :| 0 <= i < j < |h.sent| && h.sent[i].kind == h.sent[j].kind == kind && h.sent[i].index >= h.sent[j].index;
        assert g.sent[i] == h.sent[i] && g.sent[j] == h.sent[j];
      } else {
        var i, o :| 0 <= i < |h.sent| && 0 <= o < |h.outbox| && h.sent[i].kind == h.outbox[o].kind == kind
                    && h.sent[i].index >= h.outbox[o].index;
        assert g.sent[i] == h.sent[i] && g.sent[|h.sent|] == h.outbox[k];
        if o != k { assert g.outbox[if o < k then o else o - 1] == h.outbox[o]; }
      }
    }
  }

  // ---------------------------------------------------------------- every way of emptying the outbox

  lemma {:induction false} EmitsKeep(steps: seq<Step>, more: seq<Step>, kind: Kind)
    requires OnlyEmits(more)
    ensures Orderly(Run(steps), kind) ==> Orderly(Run(steps + more), kind)
    ensures Spoiled(Run(steps), kind) ==> Spoiled(Run(steps + more), kind)
  {
    if more == [] {
      assert steps + more == steps;
    } else {
      assert more[|more| - 1] == Last(more);
      EmitsKeep(steps, Init(more), kind);
      assert steps + more == (steps + Init(more)) + [Last(more)];
      RunSnoc(steps + Init(more), Last(more));
      hide Do, Run, Orderly, Spoiled;
      var h, k := Run(steps + Init(more)), Last(more).item;
      if Orderly(h, kind) { EmitKeepsOrderly(h, k, kind); }
      if Spoiled(h, kind) { EmitKeepsSpoiled(h, k, kind); }
    }
  }

  /** Broadcasting the oldest first is one way of emptying it. */
  lemma {:induction false} CanEmpty(steps: seq<Step>, n: nat) returns (more: seq<Step>)
    requires |Run(steps).outbox| == n
    ensures OnlyEmits(more) && Run(steps + more).outbox == []
    decreases n
  {
    if n == 0 {
      more := [];
      assert steps + more == steps;
    } else {
      RunSnoc(steps, Emit(0));
      var rest := CanEmpty(steps + [Emit(0)], n - 1);
      more := [Emit(0)] + rest;
      assert steps + more == steps + [Emit(0)] + rest;
    }
  }

  /** Two waiting flushes of a kind: broadcasting the newer one first spoils the order. */
  lemma NewerFirst(h: Hub, i: nat, j: nat, kind: Kind)
    requires i < |h.outbox| && j < |h.outbox| && i != j && h.outbox[i].kind == h.outbox[j].kind == kind
    requires h.outbox[i].index >= h.outbox[j].index
    ensures Spoiled(Do(h, Emit(i)), kind)
  {
    EmitShape(h, i);
    var g := Do(h, Emit(i));
    hide Do;
    assert g.sent[|h.sent|] == h.outbox[i] && g.outbox[if j < i then j else j - 1] == h.outbox[j];
  }

  lemma SpoiledCanShow(steps: seq<Step>, kind: Kind) returns (more: seq<Step>)
    requires Spoiled(Run(steps), kind)
    ensures OnlyEmits(more) && Run(steps + more).outbox == [] && !InOrder(Run(steps + more).sent, kind)
  {
    more := CanEmpty(steps, |Run(steps).outbox|);
    EmitsKeep(steps, more, kind);
  }

  lemma TwoWaitingCanShow(steps: seq<Step>, i: nat, j: nat, kind: Kind) returns (more: seq<Step>)
    requires var o := Run(steps).outbox;
             i < |o| && j < |o| && i != j && o[i].kind == o[j].kind == kind && o[i].index >= o[j].index
    ensures OnlyEmits(more) && Run(steps + more).outbox == [] && !InOrder(Run(steps + more).sent, kind)
  {
    NewerFirst(Run(steps), i, j, kind);
    RunSnoc(steps, Emit(i));
    hide Do, Run, Spoiled, InOrder;
    var rest := SpoiledCanShow(steps + [Emit(i)], kind);
    more := [Emit(i)] + rest;
    assert steps + more == steps + [Emit(i)] + rest;
  }

  lemma DisorderCanShow(steps: seq<Step>, kind: Kind) returns (more: seq<Step>)
    requires !Orderly(Run(steps), kind)
    ensures OnlyEmits(more) && Run(steps + more).outbox == [] && !InOrder(Run(steps + more).sent, kind)
  {
    hide Run, InOrder, SentBeforeWaiting;
    var o := Run(steps).outbox;
    if Spoiled(Run(steps), kind) {
      more := SpoiledCanShow(steps, kind);
    } else {
      var i, j :| 0 <= i < |o| && 0 <= j < |o| && o[i].kind == o[j].kind == kind && i != j;
      if o[i].index >= o[j].index {
        more := TwoWaitingCanShow(steps, i, j, kind);
      } else {
        more := TwoWaitingCanShow(steps, j, i, kind);
      }
    }
  }

  /**
   * In every reachable state: every way of broadcasting what waits leaves the broadcasts of a
   * kind in submission order, if and only if they are so far, everything of the kind that
   * waits is newer than they are, and at most one flush of the kind waits.
   */
  lemma OrderedExactlyWhen(steps: seq<Step>, kind: Kind)
    ensures (forall more :: OnlyEmits(more) && Run(steps + more).outbox == [] ==> InOrder(Run(steps + more).sent, kind))
            <==> Orderly(Run(steps), kind)
  {
    if Orderly(Run(steps), kind) {
      forall more | OnlyEmits(more) && Run(steps + more).outbox == [] ensures InOrder(Run(steps + more).sent, kind) {
        EmitsKeep(steps, more, kind);
      }
    } else {
      var more := DisorderCanShow(steps, kind);
      assert OnlyEmits(more);
    }
  }

  // ---------------------------------------------------------------- runs without a race

  ghost predicate Waits(h: Hub, kind: Kind) { exists o :: 0 <= o < |h.outbox| && h.outbox[o].kind == kind }

  /** The step fires a timer of the kind. */
  predicate Fires(h: Hub, step: Step, kind: Kind) { step.Fire? && Enabled(h, step) && h.timers[step.timer].kind == kind }

  /** No timer of the kind fires while a flush of the kind still waits to be broadcast. */
  ghost predicate NoRace(steps: seq<Step>, kind: Kind) {
    forall n :: 0 <= n < |steps| && Fires(Run(steps[..n]), steps[n], kind) ==> !Waits(Run(steps[..n]), kind)
  }

  lemma NoRaceInit(steps: seq<Step>, kind: Kind)
    requires steps != [] && NoRace(steps, kind)
    ensures NoRace(Init(steps), kind)
    ensures Fires(Run(Init(steps)), Last(steps), kind) ==> !Waits(Run(Init(steps)), kind)
  {
    assert steps[..|steps| - 1] == Init(steps);
    forall n | 0 <= n < |Init(steps)| ensures Init(steps)[..n] == steps[..n] && Init(steps)[n] == steps[n] {}
  }

  /** What was broadcast or waits was flushed. */
  lemma SentWasFlushed(h: Hub, f: Flush)
    requires multiset(h.flushed) == multiset(h.outbox) + multiset(h.sent) && (f in h.sent || f in h.outbox)
    ensures f in h.flushed
  {
    assert f in multiset(h.sent) || f in multiset(h.outbox);
    assert f in multiset(h.flushed);
  }

  /** A new flush is newer than every earlier one of its kind. */
  lemma NewestFlush(h: Hub, i: nat, now: int, s: nat)
    requires Inv(h) && Enabled(h, Fire(i, now)) && s < |h.sent| && h.sent[s].kind == h.timers[i].kind
    ensures h.timers[i].kind in h.pending && h.sent[s].index < |SubmittedOf(h, h.timers[i].kind)| - 1
  {
    FireKeepsFlushes(h, i, now);
    SentWasFlushed(h, h.sent[s]);
    var a :| 0 <= a < |h.flushed| && h.flushed[a] == h.sent[s];
    assert h.timers[i].kind in h.pending;
    var g := FireTimer(h, i, now);
    assert g.flushed[a] == h.flushed[a] && g.flushed[|h.flushed|].kind == h.timers[i].kind;
  }

  lemma FireKeepsOrderly(h: Hub, i: nat, now: int, kind: Kind)
    requires Inv(h) && Enabled(h, Fire(i, now)) && Orderly(h, kind)
    requires h.timers[i].kind == kind ==> !Waits(h, kind)
    ensures Orderly(Do(h, Fire(i, now)), kind)
  {
    var g := Do(h, Fire(i, now));
    assert h.timers[i].kind in h.pending by { assert TimersInv(h); }
    assert g.sent == h.sent && g.outbox == h.outbox + [Last(g.outbox)];
    assert Last(g.outbox).kind == h.timers[i].kind && Last(g.outbox).index == |SubmittedOf(h, h.timers[i].kind)| - 1;
    forall s | 0 <= s < |h.sent| && h.sent[s].kind == h.timers[i].kind ensures h.sent[s].index < Last(g.outbox).index {
      NewestFlush(h, i, now, s);
    }
    hide Do, Inv;
  }

  lemma {:induction false} NoRaceKeepsOrderly(steps: seq<Step>, kind: Kind)
    requires NoRace(steps, kind)
    ensures Orderly(Run(steps), kind)
  {
    if steps != [] {
      NoRaceInit(steps, kind);
      NoRaceKeepsOrderly(Init(steps), kind);
      RunKeeps(Init(steps));
      var h, step := Run(Init(steps)), Last(steps);
      assert Run(steps) == Do(h, step);
      hide Inv, Orderly, NoRace, Run;
      if Enabled(h, step) {
        match step
        case Submit(_, _, _, _) => SubmitKeepsOrderly(h, step, kind);
        case Fire(i, now) => FireKeepsOrderly(h, i, now, kind);
        case Emit(k) => EmitKeepsOrderly(h, k, kind);
      }
    }
  }

  lemma SubmitKeepsOrderly(h: Hub, step: Step, kind: Kind)
    requires step.Submit? && Orderly(h, kind)
    ensures Orderly(Do(h, step), kind)
  {
  }

  /**
   * Latest wins for what browsers are told, too, in every run without a race on the kind: its
   * broadcasts are in submission order, and with nothing of it pending or waiting the last
   * one carried the last submission.
   */
  lemma DeliveredLatestWins(steps: seq<Step>, kind: Kind)
    requires NoRace(steps, kind)
    ensures InOrder(Run(steps).sent, kind)
    ensures var h := Run(steps);
            kind !in h.pending && !Waits(h, kind) && SubmittedOf(h, kind) != [] ==>
              LastFlush(h.sent, kind).Some? && LastFlush(h.sent, kind).value.payload == Last(SubmittedOf(h, kind))
  {
    NoRaceKeepsOrderly(steps, kind);
    RunKeeps(steps);
    var h := Run(steps);
    hide Run;
    if kind !in h.pending && !Waits(h, kind) && SubmittedOf(h, kind) != [] { LastSentIsLatest(h, kind); }
  }

  lemma LastSentIsLatest(h: Hub, kind: Kind)
    requires Inv(h) && InOrder(h.sent, kind) && kind !in h.pending && !Waits(h, kind) && SubmittedOf(h, kind) != []
    ensures LastFlush(h.sent, kind).Some? && LastFlush(h.sent, kind).value.payload == Last(SubmittedOf(h, kind))
  {
    assert LatestInv(h, kind);
    var f, n := LastFlush(h.flushed, kind).value, |SubmittedOf(h, kind)|;
    assert f in h.flushed && f.kind == kind && f.index == n - 1;
    assert f in h.sent by { assert f in multiset(h.flushed); assert f !in multiset(h.outbox); }
    var p :| 0 <= p < |h.sent| && h.sent[p] == f;
    var l := LastAt(h.sent, kind);
    assert p <= l;
    SentWasFlushed(h, h.sent[l]);
    var a :| 0 <= a < |h.flushed| && h.flushed[a] == h.sent[l];
    assert h.flushed[a].index < n;
  }
}
