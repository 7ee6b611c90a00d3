/**
 * All probes on one counter map. The packet probe, the delay probes, the round-trip probe and
 * the retransmission probe run in any order; each invocation is one step. `reserved` says
 * whether the ring had room for the event of the step.
 */
module KernelProbes {
  import opened Prelude
  import opened CaptureStats
  import Packet
  import DelayTracker
  import RttLimiter

  datatype Kernel = Kernel(stats: Stats, tracker: DelayTracker.Tracker, last: RttLimiter.LastEmit)

  datatype Step =
    | Frame(data: seq<Packet.Byte>, direction: int, length: nat, now: nat, reserved: bool)
    | Delay(input: DelayTracker.Input, reserved: bool)
    | Rtt(sample: RttLimiter.Input, reserved: bool)
    | Retransmit(sk: nat, reserved: bool)

  const START := Kernel(map[], DelayTracker.Tracker(map[], map[]), map[])

  /** The counter a frame ends in; `ignored` are the configured ports. */
  function FateOf(step: Step, ignored: set<nat>): Stat
    requires step.Frame?
  {
    Packet.FateOf(Packet.Capture(step.data, step.direction, step.length, step.now, ignored, step.reserved))
  }

  /** A socket probe has an event to emit and the ring has no room for it. */
  predicate MeetsFullRing(k: Kernel, step: Step) {
    match step
    case Frame(_, _, _, _, _) => false
    case Delay(x, reserved) => !reserved && DelayTracker.Measure(k.tracker, x, 0).Some?
    case Rtt(x, reserved) => !reserved && RttLimiter.Admits(k.last, x)
    case Retransmit(sk, reserved) => !reserved && sk != 0
  }

  function Do(k: Kernel, step: Step, ignored: set<nat>): Kernel {
    var stats := if step.Frame? then Bump(Bump(k.stats, Seen), FateOf(step, ignored))
                 else if MeetsFullRing(k, step) then Bump(k.stats, RingbufFull) else k.stats;
    Kernel(stats, if step.Delay? then DelayTracker.Next(k.tracker, step.input) else k.tracker,
           if step.Rtt? then RttLimiter.Next(k.last, step.sample) else k.last)
  }

  function Run(steps: seq<Step>, ignored: set<nat>): Kernel {
    if steps == [] then START else Do(Run(Init(steps), ignored), Last(steps), ignored)
  }

  // ---------------------------------------------------------------- reference

  /** How often a socket probe met a full ring. */
  function SocketDrops(steps: seq<Step>, ignored: set<nat>): nat {
    if steps == [] then 0
    else SocketDrops(Init(steps), ignored) + if MeetsFullRing(Run(Init(steps), ignored), Last(steps)) then 1 else 0
  }

  /** How many frames there were, and how many of them ended in one way. */
  function Frames(steps: seq<Step>): nat {
    if steps == [] then 0 else Frames(Init(steps)) + if Last(steps).Frame? then 1 else 0
  }

  function FramesEnding(steps: seq<Step>, ignored: set<nat>, s: Stat): nat {
    if steps == [] then 0
    else FramesEnding(Init(steps), ignored, s) + if Last(steps).Frame? && Packet.Ending(Last(steps).data, ignored, Last(steps).reserved) == s then 1 else 0
  }

  lemma FateIsNotSeen(step: Step, ignored: set<nat>)
    requires step.Frame?
    ensures FateOf(step, ignored) != Seen
  {
    Packet.CaptureReason(step.data, step.direction, step.length, step.now, ignored, step.reserved);
  }

  lemma FateIsEnding(step: Step, ignored: set<nat>)
    requires step.Frame?
    ensures FateOf(step, ignored) == Packet.Ending(step.data, ignored, step.reserved)
  {
    Packet.CaptureEnds(step.data, step.direction, step.length, step.now, ignored, step.reserved);
  }

  // ---------------------------------------------------------------- main results

  /**
   * In every run each counter says how many frames ended that way, except the ring-full
   * counter, which also holds the drops of the socket probes.
   */
  lemma {:induction false} CountersMean(steps: seq<Step>, ignored: set<nat>, s: Stat)
    ensures At(Run(steps, ignored).stats, Seen) == Frames(steps)
    ensures s != Seen ==> At(Run(steps, ignored).stats, s)
                          == FramesEnding(steps, ignored, s) + if s == RingbufFull then SocketDrops(steps, ignored) else 0
  {
    hide FateOf, MeetsFullRing, Packet.Ending;
    if steps != [] {
      CountersMean(Init(steps), ignored, s);
      if Last(steps).Frame? {
        FateIsNotSeen(Last(steps), ignored);
        FateIsEnding(Last(steps), ignored);
        NoFrameMeets(Run(Init(steps), ignored), Last(steps));
      }
    }
  }

  lemma NoFrameMeets(k: Kernel, step: Step)
    requires step.Frame?
    ensures !MeetsFullRing(k, step)
  {
  }

  /** Balance: frames seen plus the socket probes' drops are the sum of all fates, in every run. */
  lemma {:induction false} CaptureBalance(steps: seq<Step>, ignored: set<nat>)
    ensures var stats := Run(steps, ignored).stats;
            At(stats, Seen) + SocketDrops(steps, ignored) == SumAt(stats, FATES)
  {
    hide FateOf, MeetsFullRing, SumAt;
    if steps == [] {
      NothingCounted(FATES);
    } else {
      var k, step := Run(Init(steps), ignored), Last(steps);
      CaptureBalance(Init(steps), ignored);
      if step.Frame? {
        NoFrameMeets(k, step);
        FateIsNotSeen(step, ignored);
        FrameKeepsExcess(k.stats, FateOf(step, ignored));
      } else if MeetsFullRing(k, step) {
        DropAddsExcess(k.stats, RingbufFull);
      }
    }
  }

  lemma {:induction false} NoDrops(steps: seq<Step>, ignored: set<nat>)
    ensures SocketDrops(steps, ignored) == 0
            <==> forall n :: 0 <= n < |steps| ==> !MeetsFullRing(Run(steps[..n], ignored), steps[n])
  {
    hide MeetsFullRing, Run;
    if steps != [] {
      NoDrops(Init(steps), ignored);
      assert steps[..|steps| - 1] == Init(steps);
      forall n | 0 <= n < |steps| - 1 ensures Init(steps)[..n] == steps[..n] && Init(steps)[n] == steps[n] {}
      assert Last(steps) == steps[|steps| - 1];
    }
  }

  /** The fates add up to the frames seen if and only if no socket probe ever met a full ring. */
  lemma BalancedExactlyWhen(steps: seq<Step>, ignored: set<nat>)
    ensures var stats := Run(steps, ignored).stats;
            At(stats, Seen) == SumAt(stats, FATES)
            <==> forall n :: 0 <= n < |steps| ==> !MeetsFullRing(Run(steps[..n], ignored), steps[n])
  {
    CaptureBalance(steps, ignored);
    NoDrops(steps, ignored);
  }

  // ---------------------------------------------------------------- the retransmission probe, in place

  class Retransmissions {
    const counters: Counters
    var events: seq<nat>

    constructor (shared: Counters)
      ensures counters == shared && events == []
    {
      counters, events := shared, [];
    }

    method EmitTcpRetransmission(sk: nat, reserved: bool)
      modifies this, counters
      ensures forall k: Kernel, ignored: set<nat> :: k.stats == old(counters.stats)
                ==> Do(k, Retransmit(sk, reserved), ignored).stats == counters.stats
      ensures events == if sk != 0 && reserved then old(events) + [sk] else old(events)
    {
      if sk == 0 { return; }
      if !reserved {
        counters.Count(RingbufFull);
        return;
      }
      events := events + [sk];
    }
  }

  // ---------------------------------------------------------------- all probes of a host, in place

  lemma RunSnoc(steps: seq<Step>, x: Step, ignored: set<nat>)
    ensures Run(steps + [x], ignored) == Do(Run(steps, ignored), x, ignored)
  {
    hide Do;
    assert Init(steps + [x]) == steps;
  }

  /**
   * The probes that are attached side by side, with the one counter map they share. `trace` is
   * the run the host is in, so every theorem about `Run` is about its counters.
   */
  class Host {
    const counters: Counters
    const packets: Packet.Probe
    const delays: DelayTracker.Probes
    const rtts: RttLimiter.Limiter
    const retransmissions: Retransmissions
    ghost var trace: seq<Step>

    ghost predicate Valid()
      reads this, counters, packets, delays, rtts, retransmissions
    {
      && packets.counters == delays.counters == counters
      && rtts.counters == retransmissions.counters == counters
      && delays.Valid()
      && Run(trace, packets.ignored) == Kernel(counters.stats, delays.View(), rtts.last)
    }

    constructor (ports: set<nat>)
      ensures Valid() && trace == [] && packets.ignored == ports
      ensures fresh(counters) && fresh(packets) && fresh(delays) && fresh(rtts) && fresh(retransmissions)
    {
      var shared := new Counters();
      var p := new Packet.Probe(shared, ports);
      var d := new DelayTracker.Probes(shared);
      var r := new RttLimiter.Limiter(shared);
      var t := new Retransmissions(shared);
      counters, packets, delays, rtts, retransmissions := shared, p, d, r, t;
      trace := [];
    }

    method OnFrame(data: seq<Packet.Byte>, direction: int, length: nat, now: nat, reserved: bool)
      requires Valid()
      modifies this, packets, counters
      ensures Valid() && trace == old(trace) + [Frame(data, direction, length, now, reserved)]
    {
      hide Packet.Capture, Run;
      RunSnoc(trace, Frame(data, direction, length, now, reserved), packets.ignored);
      packets.EmitTcPacket(data, direction, length, now, reserved);
      trace := trace + [Frame(data, direction, length, now, reserved)];
    }

    method OnSend(sk: DelayTracker.Sock, now: int)
      requires Valid()
      modifies this, delays
      ensures Valid() && trace == old(trace) + [Delay(DelayTracker.Send(sk, now), true)]
    {
      hide Run;
      RunSnoc(trace, Delay(DelayTracker.Send(sk, now), true), packets.ignored);
      delays.TraceSend(sk, now);
      trace := trace + [Delay(DelayTracker.Send(sk, now), true)];
    }

    method OnReceive(thread: DelayTracker.Thread, sk: DelayTracker.Sock, now: int)
      requires Valid()
      modifies this, delays
      ensures Valid() && trace == old(trace) + [Delay(DelayTracker.Receive(thread, sk, now), true)]
    {
      hide Run;
      RunSnoc(trace, Delay(DelayTracker.Receive(thread, sk, now), true), packets.ignored);
      delays.TraceReceive(thread, sk, now);
      trace := trace + [Delay(DelayTracker.Receive(thread, sk, now), true)];
    }

    method OnReturn(thread: DelayTracker.Thread, result: int, now: int, reserved: bool)
      requires Valid()
      modifies this, delays, counters
      ensures Valid() && trace == old(trace) + [Delay(DelayTracker.Return(thread, result, now), reserved)]
    {
      hide Run;
      RunSnoc(trace, Delay(DelayTracker.Return(thread, result, now), reserved), packets.ignored);
      delays.TraceReturn(thread, result, now, reserved);
      trace := trace + [Delay(DelayTracker.Return(thread, result, now), reserved)];
    }

    method OnSegment(sk: nat, rttUs: nat, now: int, reserved: bool)
      requires Valid()
      modifies this, rtts, counters
      ensures Valid() && trace == old(trace) + [Rtt(RttLimiter.Segment(sk, rttUs, now), reserved)]
    {
      hide Run;
      RunSnoc(trace, Rtt(RttLimiter.Segment(sk, rttUs, now), reserved), packets.ignored);
      rtts.EmitTcpRttSample(sk, rttUs, now, reserved);
      trace := trace + [Rtt(RttLimiter.Segment(sk, rttUs, now), reserved)];
    }

    method OnRetransmit(sk: nat, reserved: bool)
      requires Valid()
      modifies this, retransmissions, counters
      ensures Valid() && trace == old(trace) + [Retransmit(sk, reserved)]
    {
      hide Run;
      RunSnoc(trace, Retransmit(sk, reserved), packets.ignored);
      retransmissions.EmitTcpRetransmission(sk, reserved);
      trace := trace + [Retransmit(sk, reserved)];
    }
  }
}
