/**
 * The round-trip probe admits one sample per socket and second. Its map is LRU as well:
 * an eviction forgets when a socket was last admitted.
 */
module RttLimiter {
  import opened Prelude
  import opened CaptureStats

  const INTERVAL := 1_000_000_000
  const TWO_64: int := 0x1_0000_0000_0000_0000

  datatype Input = Segment(sk: nat, rttUs: nat, now: int) | Evict(sk: nat, now: int)

  type LastEmit = map<nat, int>

  /** `should_emit_rtt_sample`: the elapsed time is an unsigned 64-bit difference. */
  predicate ShouldEmit(last: LastEmit, sk: nat, now: int) {
    !(sk in last && (now - last[sk]) % TWO_64 < INTERVAL)
  }

  predicate Admits(last: LastEmit, x: Input) {
    x.Segment? && x.sk != 0 && x.rttUs != 0 && ShouldEmit(last, x.sk, x.now)
  }

  function Next(last: LastEmit, x: Input): LastEmit {
    if x.Evict? then last - {x.sk} else if Admits(last, x) then last[x.sk := x.now] else last
  }

  function Run(trace: seq<Input>): LastEmit {
    if trace == [] then map[] else Next(Run(Init(trace)), Last(trace))
  }

  /** Samples of `sk` admitted at a time in [a, b]. */
  function Admitted(trace: seq<Input>, sk: nat, a: int, b: int): nat {
    if trace == [] then 0
    else Admitted(Init(trace), sk, a, b)
         + if Admits(Run(Init(trace)), Last(trace)) && Last(trace).sk == sk && a <= Last(trace).now <= b then 1 else 0
  }

  /** Times the entry of `sk` was evicted in [a, b]. */
  function Evictions(trace: seq<Input>, sk: nat, a: int, b: int): nat {
    if trace == [] then 0
    else Evictions(Init(trace), sk, a, b) + if Last(trace).Evict? && Last(trace).sk == sk && a <= Last(trace).now <= b then 1 else 0
  }

  /** A monotone 64-bit clock. */
  ghost predicate Clock(trace: seq<Input>) {
    && (forall i :: 0 <= i < |trace| ==> 0 <= trace[i].now < TWO_64)
    && forall i, j :: 0 <= i <= j < |trace| ==> trace[i].now <= trace[j].now
  }

  // ---------------------------------------------------------------- any two admissions

  /** Position `i` of the trace is an admitted sample of `sk`. */
  ghost predicate AdmittedAt(trace: seq<Input>, i: nat, sk: nat)
    requires i < |trace|
  {
    Admits(Run(trace[..i]), trace[i]) && trace[i].sk == sk
  }

  ghost predicate EvictedBetween(trace: seq<Input>, i: int, j: int, sk: nat)
    requires j <= |trace|
  {
    exists k :: 0 <= i < k < j && trace[k].Evict? && trace[k].sk == sk
  }

  lemma RunStep(trace: seq<Input>, i: nat)
    requires i < |trace|
    ensures Run(trace[..i + 1]) == Next(Run(trace[..i]), trace[i])
  {
    assert Init(trace[..i + 1]) == trace[..i];
  }

  /** Until it is evicted, the entry of a socket is at least as late as any admission of it. */
  lemma {:induction false} EntryStays(trace: seq<Input>, i: nat, j: nat, sk: nat)
    requires Clock(trace) && i < j <= |trace| && AdmittedAt(trace, i, sk) && !EvictedBetween(trace, i, j, sk)
    ensures sk in Run(trace[..j]) && trace[i].now <= Run(trace[..j])[sk] <= trace[j - 1].now
    decreases j
  {
    RunStep(trace, j - 1);
    if j > i + 1 {
      EntryStays(trace, i, j - 1, sk);
      hide Run;
      assert !(trace[j - 1].Evict? && trace[j - 1].sk == sk);
      assert trace[j - 2].now <= trace[j - 1].now;
    }
  }

  /** Between any two admissions of a socket lies a whole interval, or an eviction of its entry. */
  lemma AdmissionsAreSpaced(trace: seq<Input>, i: nat, j: nat, sk: nat)
    requires Clock(trace) && i < j < |trace| && AdmittedAt(trace, i, sk) && AdmittedAt(trace, j, sk)
    ensures trace[j].now - trace[i].now >= INTERVAL || EvictedBetween(trace, i, j, sk)
  {
    if !EvictedBetween(trace, i, j, sk) {
      EntryStays(trace, i, j, sk);
      hide Run;
      assert trace[j - 1].now <= trace[j].now < TWO_64 && 0 <= trace[i].now;
    }
  }

  /** An entry is the time of an admission since which the socket was not evicted. */
  lemma {:induction false} EntryIsAdmission(trace: seq<Input>, j: nat, sk: nat)
    requires j <= |trace| && sk in Run(trace[..j])
    ensures exists i: nat :: i < j && AdmittedAt(trace, i, sk) && !EvictedBetween(trace, i, j, sk)
                             && Run(trace[..j])[sk] == trace[i].now
  {
    if j > 0 {
      RunStep(trace, j - 1);
      var x := trace[j - 1];
      if Admits(Run(trace[..j - 1]), x) && x.sk == sk {
        assert AdmittedAt(trace, j - 1, sk) && !EvictedBetween(trace, j - 1, j, sk);
      } else {
        hide Run;
        EntryIsAdmission(trace, j - 1, sk);
        var i: nat :| i < j - 1 && AdmittedAt(trace, i, sk) && !EvictedBetween(trace, i, j - 1, sk)
                      && Run(trace[..j - 1])[sk] == trace[i].now;
        assert !EvictedBetween(trace, i, j, sk);
      }
    }
  }

  /** No admission of the socket since its last eviction is less than a second old. */
  ghost predicate Rested(trace: seq<Input>, j: nat, sk: nat)
    requires j < |trace|
  {
    forall i: nat :: i < j && AdmittedAt(trace, i, sk) && !EvictedBetween(trace, i, j, sk)
                     ==> trace[j].now - trace[i].now >= 1_000_000_000
  }

  /** A sample is admitted if and only if it has a socket and a round trip and the socket is rested. */
  lemma AdmittedExactlyWhen(trace: seq<Input>, j: nat, sk: nat)
    requires Clock(trace) && j < |trace|
    ensures AdmittedAt(trace, j, sk)
            <==> trace[j].Segment? && trace[j].sk == sk && sk != 0 && trace[j].rttUs != 0 && Rested(trace, j, sk)
  {
    if AdmittedAt(trace, j, sk) {
      forall i: nat | i < j && AdmittedAt(trace, i, sk) && !EvictedBetween(trace, i, j, sk)
        ensures trace[j].now - trace[i].now >= 1_000_000_000
      {
        AdmissionsAreSpaced(trace, i, j, sk);
      }
    } else if trace[j].Segment? && trace[j].sk == sk && sk != 0 && trace[j].rttUs != 0 {
      EntryIsAdmission(trace, j, sk);
      var i: nat :| i < j && AdmittedAt(trace, i, sk) && !EvictedBetween(trace, i, j, sk)
                    && Run(trace[..j])[sk] == trace[i].now;
      assert trace[i].now <= trace[j].now && 0 <= trace[i].now && trace[j].now < TWO_64;
      hide Run;
      assert trace[j].now - trace[i].now < 1_000_000_000;
    }
  }

  // ---------------------------------------------------------------- how many in a window

  /**
   * `latest` bounds the admissions of the window so far. An entry evicted within the window
   * leaves one eviction to spare.
   */
  ghost predicate Spaced(trace: seq<Input>, sk: nat, a: int, b: int, latest: int)
    requires trace != []
  {
    var n, spare := Admitted(trace, sk, a, b), if sk in Run(trace) || Last(trace).now > b then 0 else 1;
    && (sk in Run(trace) ==> latest <= Run(trace)[sk] <= Last(trace).now)
    && 0 <= latest && a <= latest <= b && latest <= Last(trace).now
    && (n - 1 + spare - Evictions(trace, sk, a, b)) * INTERVAL <= latest - a
  }

  lemma SpacedStep(trace: seq<Input>, x: Input, sk: nat, a: int, b: int, latest: int)
    requires Clock(trace + [x]) && trace != [] && Spaced(trace, sk, a, b, latest)
    ensures exists l :: Spaced(trace + [x], sk, a, b, l)
  {
    var t := trace + [x];
    assert Init(t) == trace && Last(t) == x;
    assert Last(trace) == t[|trace| - 1] && t[|trace| - 1].now <= t[|trace|].now;
    var counted := Admits(Run(trace), x) && x.sk == sk && a <= x.now <= b;
    assert 0 <= x.now < TWO_64 && 0 <= Last(trace).now by { assert t[|trace|] == x; }
    assert Spaced(t, sk, a, b, if counted then x.now else latest) by {
      if counted && sk in Run(trace) { FarEnough(Run(trace), x, sk); }
    }
  }

  lemma FarEnough(last: LastEmit, x: Input, sk: nat)
    requires Admits(last, x) && x.sk == sk && sk in last && last[sk] <= x.now && x.now < TWO_64 + last[sk]
    ensures x.now - last[sk] >= INTERVAL
  {
  }

  lemma FirstSpaced(trace: seq<Input>, x: Input, sk: nat, a: int, b: int)
    requires 0 <= x.now && Admitted(trace, sk, a, b) == 0 && Admitted(trace + [x], sk, a, b) > 0
    ensures Spaced(trace + [x], sk, a, b, x.now)
  {
    assert Init(trace + [x]) == trace && Last(trace + [x]) == x;
  }

  lemma {:induction false} WindowIsSpaced(trace: seq<Input>, sk: nat, a: int, b: int)
    requires Clock(trace)
    ensures Admitted(trace, sk, a, b) > 0 ==> trace != [] && exists l :: Spaced(trace, sk, a, b, l)
  {
    if trace != [] {
      var rest, x := Init(trace), Last(trace);
      assert rest + [x] == trace;
      WindowIsSpaced(rest, sk, a, b);
      hide Spaced, Admitted;
      if Admitted(rest, sk, a, b) > 0 {
        var l :| Spaced(rest, sk, a, b, l);
        SpacedStep(rest, x, sk, a, b, l);
      } else if Admitted(trace, sk, a, b) > 0 {
        assert x == trace[|trace| - 1];
        FirstSpaced(rest, x, sk, a, b);
        assert Spaced(trace, sk, a, b, x.now);
      }
    }
  }

  /**
   * In every trace, at most floor((b - a) / 1s) + 1 samples of a socket are admitted in
   * [a, b], plus one for each time its entry was evicted in [a, b]; without eviction that is
   * the bound.
   */
  lemma RateIsBounded(trace: seq<Input>, sk: nat, a: int, b: int)
    requires Clock(trace) && a <= b
    ensures Admitted(trace, sk, a, b) <= (b - a) / INTERVAL + 1 + Evictions(trace, sk, a, b)
  {
    WindowIsSpaced(trace, sk, a, b);
    var n, e := Admitted(trace, sk, a, b), Evictions(trace, sk, a, b);
    if n > 0 {
      var l :| Spaced(trace, sk, a, b, l);
      assert (n - 1 - e) * INTERVAL <= b - a;
    }
  }

  class Limiter {
    var last: LastEmit
    var events: seq<(nat, nat)>
    const counters: Counters

    constructor (shared: Counters)
      ensures last == Run([]) && events == [] && counters == shared
    {
      last, events, counters := map[], [], shared;
    }

    method ShouldEmitRttSample(sk: nat, now: int) returns (emit: bool)
      modifies `last
      ensures emit == ShouldEmit(old(last), sk, now)
      ensures last == if emit then old(last)[sk := now] else old(last)
    {
      if sk in last && (now - last[sk]) % TWO_64 < INTERVAL { return false; }
      last := last[sk := now];
      emit := true;
    }

    /** An admitted sample uses up its interval even when the ring has no room for it. */
    method EmitTcpRttSample(sk: nat, rttUs: nat, now: int, reserved: bool)
      modifies this, counters
      ensures last == Next(old(last), Segment(sk, rttUs, now))
      ensures var admitted := Admits(old(last), Segment(sk, rttUs, now));
              && events == (if admitted && reserved then old(events) + [(sk, rttUs)] else old(events))
              && counters.stats == if admitted && !reserved then Bump(old(counters.stats), RingbufFull) else old(counters.stats)
    {
      if sk == 0 || rttUs == 0 { return; }
      var emit := ShouldEmitRttSample(sk, now);
      if !emit { return; }
      if !reserved {
        counters.Count(RingbufFull);
        return;
      }
      events := events + [(sk, rttUs)];
    }
  }
}
