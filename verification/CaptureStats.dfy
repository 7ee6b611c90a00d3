/**
 * The capture counters. One map is shared by every probe: the packet probe counts each frame
 * as seen and under one fate, the socket probes count only a full ring.
 */
module CaptureStats {
  import opened Prelude

  datatype Stat = Seen | Emitted | EthReadFail | EthUnsupported | Ipv4ReadFail | Ipv4Invalid | Ipv6ReadFail
                | ProtocolUnsupported | TransportReadFail | TcpReadFail | RingbufFull | PortIgnored

  type Stats = map<Stat, nat>

  function At(stats: Stats, s: Stat): nat { if s in stats then stats[s] else 0 }

  function Bump(stats: Stats, s: Stat): Stats { stats[s := At(stats, s) + 1] }

  /** What can become of a frame that was seen. */
  const FATES: seq<Stat> := [Emitted, EthReadFail, EthUnsupported, Ipv4ReadFail, Ipv4Invalid, Ipv6ReadFail,
                             ProtocolUnsupported, TransportReadFail, TcpReadFail, RingbufFull, PortIgnored]

  function SumAt(stats: Stats, rs: seq<Stat>): nat {
    if rs == [] then 0 else SumAt(stats, Init(rs)) + At(stats, Last(rs))
  }

  /** How far the fates are ahead of the frames seen. */
  function Excess(stats: Stats): int { SumAt(stats, FATES) - At(stats, Seen) }

  lemma {:induction false} SumBump(stats: Stats, s: Stat, rs: seq<Stat>)
    requires Distinct(rs)
    ensures SumAt(Bump(stats, s), rs) == SumAt(stats, rs) + if s in rs then 1 else 0
  {
    if rs != [] {
      assert rs == Init(rs) + [Last(rs)];
      SumBump(stats, s, Init(rs));
    }
  }

  lemma {:induction false} NothingCounted(rs: seq<Stat>)
    ensures SumAt(map[], rs) == 0
  {
    if rs != [] { NothingCounted(Init(rs)); }
  }

  lemma IsFate(s: Stat)
    requires s != Seen
    ensures s in FATES
  {
    var i := match s
      case Emitted => 0 case EthReadFail => 1 case EthUnsupported => 2 case Ipv4ReadFail => 3 case Ipv4Invalid => 4
      case Ipv6ReadFail => 5 case ProtocolUnsupported => 6 case TransportReadFail => 7 case TcpReadFail => 8
      case RingbufFull => 9 case _ => 10;
    assert FATES[i] == s;
  }

  /** A frame that is seen and counted under one fate leaves the excess alone. */
  lemma FrameKeepsExcess(stats: Stats, s: Stat)
    requires s != Seen
    ensures Excess(Bump(Bump(stats, Seen), s)) == Excess(stats)
  {
    IsFate(s);
    hide SumAt;
    SumBump(stats, Seen, FATES);
    SumBump(Bump(stats, Seen), s, FATES);
  }

  /** A fate counted without a frame adds one to it. */
  lemma DropAddsExcess(stats: Stats, s: Stat)
    requires s != Seen
    ensures Excess(Bump(stats, s)) == Excess(stats) + 1
  {
    IsFate(s);
    hide SumAt;
    SumBump(stats, s, FATES);
  }

  class Counters {
    var stats: Stats

    constructor ()
      ensures stats == map[] && Excess(stats) == 0
    {
      NothingCounted(FATES);
      stats := map[];
    }

    method Count(s: Stat)
      modifies this
      ensures stats == Bump(old(stats), s)
    {
      stats := stats[s := At(stats, s) + 1];
    }
  }
}
