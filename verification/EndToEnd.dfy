/**
 * From captured events to the backend's door: whatever the agent loop and its sender do,
 * each state they ever post is the fold of events that were accepted, and its payload
 * passes the backend's validation as it is.
 */
module EndToEnd {
  import opened Prelude
  import opened FlowState
  import opened Accumulator
  import opened AgentLoop
  import opened Payload

  lemma {:induction false} FlattenMember<T>(xss: seq<seq<T>>, x: T)
    requires x in Flatten(xss)
    ensures exists i :: 0 <= i < |xss| && x in xss[i]
  {
    if x in Last(xss) {
      assert x in xss[|xss| - 1];
    } else {
      FlattenMember(Init(xss), x);
      var i :| 0 <= i < |Init(xss)| && x in Init(xss)[i];
      assert x in xss[i];
    }
  }

  lemma {:induction false} FlattenContains<T>(xss: seq<seq<T>>, i: nat, x: T)
    requires i < |xss| && x in xss[i]
    ensures x in Flatten(xss)
  {
    if i < |xss| - 1 {
      assert Init(xss)[i] == xss[i];
      FlattenContains(Init(xss), i, x);
    }
  }

  lemma {:induction false} SelectMember(k: Key, xs: seq<Metric>, e: Metric)
    requires e in Select(k, xs)
    ensures e in xs
  {
    assert xs == Init(xs) + [Last(xs)];
    if e in Select(k, Init(xs)) { SelectMember(k, Init(xs), e); }
  }

  /** Every state that is through, being posted or waiting is a fold of accepted events of its key. */
  lemma StatesAreFolds(steps: seq<Step>, state: State)
    requires state in Flatten(Run(steps).batches)
    ensures exists xs :: xs != [] && SameKey(state.key, xs) && state == Fold(state.key, xs)
                         && forall e :: e in xs ==> e in Run(steps).accepted
  {
    var s := Run(steps);
    AccumulatorRefinesGrouping(steps);
    FlattenMember(s.batches, state);
    var i :| 0 <= i < |s.batches| && state in s.batches[i];
    hide Run, Fold;
    var seg := s.segments[i];
    assert Enumerates(s.batches[i], Group(seg));
    var xs := Select(state.key, seg);
    SelectAbsent(state.key, seg);
    forall e | e in xs ensures e in s.accepted {
      SelectMember(state.key, seg, e);
      FlattenContains(s.segments, i, e);
    }
    assert state == Fold(state.key, xs);
  }

  /**
   * In every run whose accepted events are well-formed, every state of every queued batch
   * whose counters fit is accepted by the backend unchanged, at whatever time it arrives.
   */
  lemma PostedPayloadsAreAccepted(steps: seq<Step>, state: State, isAddr: string -> bool, now: int)
    requires forall e :: e in Run(steps).accepted ==> WellFormed(e, isAddr)
    requires state in Flatten(Run(steps).batches) && BelowLimit(state, TWO_63)
    ensures Validate(FromFlowState(state), isAddr, now) == Accepted(FromFlowState(state))
  {
    StatesAreFolds(steps, state);
    var accepted := Run(steps).accepted;
    hide Run, WellFormed, Validate, FromFlowState, Fold;
    var xs :| xs != [] && SameKey(state.key, xs) && state == Fold(state.key, xs) && forall e :: e in xs ==> e in accepted;
    forall e | e in xs ensures WellFormed(e, isAddr) { assert e in accepted; }
    PayloadAcceptedUnchanged(state.key, xs, isAddr, now);
  }
}
