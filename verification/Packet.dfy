/**
 * The traffic-control probe: bounds-checked parsing of Ethernet, IPv4 (section 3.1 of
 * RFC 791), IPv6 (section 3 of RFC 8200), TCP (section 3.1 of RFC 9293) and UDP, and the
 * HTTP/1.x status reader (section 4 of RFC 9112).
 */
module Packet {
  import opened Prelude
  import opened CaptureStats

  type Byte = b: int | 0 <= b < 256

  const IPPROTO_TCP: Byte := 6
  const IPPROTO_UDP: Byte := 17
  const IPPROTO_ICMP: Byte := 1
  const IPPROTO_ICMPV6: Byte := 58
  const AF_INET := 2
  const AF_INET6 := 10
  const DIR_INGRESS := 1
  const DIR_EGRESS := 2
  const L3 := 14

  datatype Parsed<T> = Ok(value: T) | Drop(stat: Stat)

  datatype Network = Network(l4: nat, src: seq<Byte>, dst: seq<Byte>, family: int, protocol: Byte)

  datatype Transport = Transport(srcPort: nat, dstPort: nat, flags: Byte)

  datatype Event = Event(timestamp: nat, bytes: nat, src: seq<Byte>, dst: seq<Byte>, connections: nat,
                         srcPort: nat, dstPort: nat, family: int, protocol: Byte, direction: int,
                         packets: nat, errors: nat, status: nat)

  // ---------------------------------------------------------------- parsing

  function Read(data: seq<Byte>, offset: nat, size: nat): Option<seq<Byte>> {
    if offset + size > |data| then None else Some(data[offset..offset + size])
  }

  function Be16(b: seq<Byte>): nat
    requires |b| == 2
  {
    var hi: int, lo: int := b[0], b[1];
    hi * 256 + lo
  }

  predicate Supported(p: Byte) { p == IPPROTO_TCP || p == IPPROTO_UDP || p == IPPROTO_ICMP || p == IPPROTO_ICMPV6 }

  const TWELVE_ZEROS: seq<Byte> := [0, 0, 0, 0, 0, 0, 0, 0, 0, 0, 0, 0]

  function ParseIpv4(data: seq<Byte>): Parsed<Network> {
    var first, proto := Read(data, L3, 1), Read(data, L3 + 9, 1);
    if first.None? || proto.None? then Drop(Ipv4ReadFail)
    else
      var versionIhl, protocol := first.value[0], proto.value[0];
      var ihl := (versionIhl % 16) * 4;
      if versionIhl / 16 != 4 || ihl < 20 then Drop(Ipv4Invalid)
      else if !Supported(protocol) then Drop(ProtocolUnsupported)
      else
        var src, dst := Read(data, L3 + 12, 4), Read(data, L3 + 16, 4);
        if src.None? || dst.None? then Drop(Ipv4ReadFail)
        else Ok(Network(L3 + ihl, src.value + TWELVE_ZEROS, dst.value + TWELVE_ZEROS, AF_INET, protocol))
  }

  function ParseIpv6(data: seq<Byte>): Parsed<Network> {
    var proto := Read(data, L3 + 6, 1);
    if proto.None? then Drop(Ipv6ReadFail)
    else
      var protocol := proto.value[0];
      if !Supported(protocol) then Drop(ProtocolUnsupported)
      else
        var src, dst := Read(data, L3 + 8, 16), Read(data, L3 + 24, 16);
        if src.None? || dst.None? then Drop(Ipv6ReadFail)
        else Ok(Network(L3 + 40, src.value, dst.value, AF_INET6, protocol))
  }

  function ParseNetwork(data: seq<Byte>): Parsed<Network> {
    var proto := Read(data, 12, 2);
    if proto.None? then Drop(EthReadFail)
    else if Be16(proto.value) == 0x0800 then ParseIpv4(data)
    else if Be16(proto.value) == 0x86DD then ParseIpv6(data)
    else Drop(EthUnsupported)
  }

  function ParseTransport(data: seq<Byte>, l4: nat, protocol: Byte): Parsed<Transport> {
    if protocol != IPPROTO_TCP && protocol != IPPROTO_UDP then Ok(Transport(0, 0, 0))
    else
      var src, dst := Read(data, l4, 2), Read(data, l4 + 2, 2);
      if src.None? || dst.None? then Drop(TransportReadFail)
      else
        var s, d := Be16(src.value), Be16(dst.value);
        if protocol == IPPROTO_UDP then Ok(Transport(s, d, 0))
        else
          var flags := Read(data, l4 + 13, 1);
          if flags.None? then Drop(TcpReadFail) else Ok(Transport(s, d, flags.value[0]))
  }

  function TcpHeaderLength(data: seq<Byte>, l4: nat): nat {
    var field := Read(data, l4 + 12, 1);
    if field.None? then 0
    else
      var length := (field.value[0] / 16) * 4;
      if length < 20 || length > 60 then 0 else length
  }

  predicate IsDigit(b: Byte) { 48 <= b <= 57 }

  /** "HTTP/1.", a digit and a space. */
  predicate IsHttpPrefix(p: seq<Byte>)
    requires |p| == 9
  {
    p[0] == 72 && p[1] == 84 && p[2] == 84 && p[3] == 80 && p[4] == 47 && p[5] == 49 && p[6] == 46
    && IsDigit(p[7]) && p[8] == 32
  }

  function ThreeDigits(d: seq<Byte>): nat
    requires |d| == 3
  {
    var a, b, c := d[0] as int - 48, d[1] as int - 48, d[2] as int - 48;
    if IsDigit(d[0]) && IsDigit(d[1]) && IsDigit(d[2]) then a * 100 + b * 10 + c else 0
  }

  function InStatusRange(n: nat): nat { if 100 <= n <= 599 then n else 0 }

  function HttpStatus(data: seq<Byte>, l4: nat, protocol: Byte): nat {
    if protocol != IPPROTO_TCP then 0
    else
      var header := TcpHeaderLength(data, l4);
      if header == 0 then 0
      else
        var prefix := Read(data, l4 + header, 9);
        if prefix.None? || !IsHttpPrefix(prefix.value) then 0
        else
          var digits := Read(data, l4 + header + 9, 3);
          if digits.None? then 0 else InStatusRange(ThreeDigits(digits.value))
  }

  /** What a frame tells: addresses, ports, flags and status, or why it is dropped. */
  datatype Packet = Packet(network: Network, transport: Transport, status: nat)

  function ParsePacket(data: seq<Byte>): Parsed<Packet> {
    match ParseNetwork(data)
    case Drop(s) => Drop(s)
    case Ok(n) =>
      match ParseTransport(data, n.l4, n.protocol)
      case Drop(s) => Drop(s)
      case Ok(t) => Ok(Packet(n, t, HttpStatus(data, n.l4, n.protocol)))
  }

  function Bit(flags: Byte, mask: nat): bool
    requires mask > 0
  {
    (flags / mask) % 2 == 1
  }

  /** The local side is the source, whichever way the packet went. */
  function EventOf(p: Packet, direction: int, length: nat, now: nat): Event {
    var n, t := p.network, p.transport;
    var tcp := n.protocol == IPPROTO_TCP;
    var swap := direction == DIR_INGRESS;
    Event(now, length, if swap then n.dst else n.src, if swap then n.src else n.dst,
          if tcp && Bit(t.flags, 2) && !Bit(t.flags, 16) then 1 else 0,
          if swap then t.dstPort else t.srcPort, if swap then t.srcPort else t.dstPort,
          n.family, n.protocol, direction, 1, if tcp && Bit(t.flags, 4) then 1 else 0, p.status)
  }

  predicate PortsIgnored(protocol: Byte, t: Transport, ignored: set<nat>) {
    (protocol == IPPROTO_TCP || protocol == IPPROTO_UDP)
    && ((t.srcPort != 0 && t.srcPort in ignored) || (t.dstPort != 0 && t.dstPort in ignored))
  }

  /** What the probe does with a frame: the counter it bumps besides `Seen`, and the event it emits. */
  function Capture(data: seq<Byte>, direction: int, length: nat, now: nat, ignored: set<nat>, reserved: bool): Parsed<Event> {
    match ParsePacket(data)
    case Drop(s) => Drop(s)
    case Ok(p) => if PortsIgnored(p.network.protocol, p.transport, ignored) then Drop(PortIgnored)
                  else if !reserved then Drop(RingbufFull)
                  else Ok(EventOf(p, direction, length, now))
  }

  /** The counter a frame ends in. */
  function FateOf(c: Parsed<Event>): Stat { if c.Ok? then Emitted else c.stat }

  // ---------------------------------------------------------------- frames

  datatype Ip =
    | V4(tos: seq<Byte>, checksum: seq<Byte>, src: seq<Byte>, dst: seq<Byte>, options: seq<Byte>)
    | V6(front: seq<Byte>, hopLimit: Byte, src: seq<Byte>, dst: seq<Byte>)

  datatype Segment =
    | TcpSegment(srcPort: nat, dstPort: nat, numbers: seq<Byte>, reserved: nat, flags: Byte, tail: seq<Byte>, options: seq<Byte>)
    | UdpSegment(srcPort: nat, dstPort: nat, tail: seq<Byte>)
    | IcmpSegment(protocol: Byte)

  /** Every field of a frame; the ones the probe does not read are free. */
  datatype Frame = Frame(macs: seq<Byte>, ip: Ip, segment: Segment, payload: seq<Byte>)

  predicate ValidIp(ip: Ip) {
    match ip
    case V4(tos, checksum, src, dst, options) =>
      |tos| == 8 && |checksum| == 2 && |src| == 4 && |dst| == 4 && |options| % 4 == 0 && |options| <= 40
    case V6(front, _, src, dst) => |front| == 6 && |src| == 16 && |dst| == 16
  }

  predicate ValidSegment(s: Segment) {
    match s
    case TcpSegment(sp, dp, numbers, reserved, _, tail, options) =>
      sp < 65536 && dp < 65536 && |numbers| == 8 && reserved < 16 && |tail| == 6 && |options| % 4 == 0 && |options| <= 40
    case UdpSegment(sp, dp, tail) => sp < 65536 && dp < 65536 && |tail| == 4
    case IcmpSegment(p) => p == IPPROTO_ICMP || p == IPPROTO_ICMPV6
  }

  predicate ValidFrame(f: Frame) { |f.macs| == 12 && ValidIp(f.ip) && ValidSegment(f.segment) }

  function ProtocolOf(s: Segment): Byte {
    match s case TcpSegment(_, _, _, _, _, _, _) => IPPROTO_TCP case UdpSegment(_, _, _) => IPPROTO_UDP case IcmpSegment(p) => p
  }

  function Port(p: nat): seq<Byte>
    requires p < 65536
  {
    [p / 256, p % 256]
  }

  /** The header's own length field counts 32-bit words: five and the options. */
  function IpBytes(ip: Ip, protocol: Byte): seq<Byte>
    requires ValidIp(ip)
  {
    match ip
    case V4(tos, checksum, src, dst, options) =>
      [(64 + 5 + |options| / 4) as Byte] + tos + [protocol] + checksum + src + dst + options
    case V6(front, hopLimit, src, dst) => front + [protocol, hopLimit] + src + dst
  }

  function EtherType(ip: Ip): seq<Byte> { if ip.V4? then [0x08, 0x00] else [0x86, 0xDD] }

  function SegmentBytes(s: Segment): seq<Byte>
    requires ValidSegment(s)
  {
    match s
    case TcpSegment(sp, dp, numbers, reserved, flags, tail, options) =>
      Port(sp) + Port(dp) + numbers + [((5 + |options| / 4) * 16 + reserved) as Byte, flags] + tail + options
    case UdpSegment(sp, dp, tail) => Port(sp) + Port(dp) + tail
    case IcmpSegment(_) => []
  }

  function Encode(f: Frame): seq<Byte>
    requires ValidFrame(f)
  {
    f.macs + EtherType(f.ip) + IpBytes(f.ip, ProtocolOf(f.segment)) + SegmentBytes(f.segment) + f.payload
  }

  // ---------------------------------------------------------------- what the frame says

  function Address(a: seq<Byte>, ip: Ip): seq<Byte> { if ip.V4? then a + TWELVE_ZEROS else a }

  /** The status line reader's reference: what the first twelve payload bytes spell. */
  predicate SpellsStatus(payload: seq<Byte>, code: nat) {
    && |payload| >= 12
    && payload[..7] == [72, 84, 84, 80, 47, 49, 46] && IsDigit(payload[7]) && payload[8] == 32
    && 100 <= code <= 599
    && payload[9] == 48 + code / 100 && payload[10] == 48 + code / 10 % 10 && payload[11] == 48 + code % 10
  }

  ghost predicate StatusMatches(payload: seq<Byte>, status: nat) {
    if status == 0 then forall code: nat :: !SpellsStatus(payload, code) else SpellsStatus(payload, status)
  }

  function ExpectedNetwork(f: Frame): Network
    requires ValidFrame(f)
  {
    Network(L3 + |IpBytes(f.ip, ProtocolOf(f.segment))|, Address(f.ip.src, f.ip), Address(f.ip.dst, f.ip),
            if f.ip.V4? then AF_INET else AF_INET6, ProtocolOf(f.segment))
  }

  function ExpectedTransport(f: Frame): Transport {
    match f.segment
    case TcpSegment(sp, dp, _, _, flags, _, _) => Transport(sp, dp, flags)
    case UdpSegment(sp, dp, _) => Transport(sp, dp, 0)
    case IcmpSegment(_) => Transport(0, 0, 0)
  }

  // ---------------------------------------------------------------- round trip

  /** Reading inside the middle part of a concatenation. */
  lemma ReadMiddle(pre: seq<Byte>, mid: seq<Byte>, post: seq<Byte>, offset: nat, size: nat)
    requires offset + size <= |mid|
    ensures Read(pre + mid + post, |pre| + offset, size) == Some(mid[offset..offset + size])
  {
    assert (pre + mid + post)[|pre| + offset..|pre| + offset + size] == mid[offset..offset + size];
  }

  lemma EtherRoundTrip(f: Frame)
    requires ValidFrame(f)
    ensures ParseNetwork(Encode(f)) == if f.ip.V4? then ParseIpv4(Encode(f)) else ParseIpv6(Encode(f))
  {
    var rest := IpBytes(f.ip, ProtocolOf(f.segment)) + SegmentBytes(f.segment) + f.payload;
    assert Encode(f) == f.macs + EtherType(f.ip) + rest;
    ReadMiddle(f.macs, EtherType(f.ip), rest, 0, 2);
  }

  lemma V4RoundTrip(pre: seq<Byte>, ip: Ip, protocol: Byte, post: seq<Byte>)
    requires |pre| == L3 && ip.V4? && ValidIp(ip) && Supported(protocol)
    ensures ParseIpv4(pre + IpBytes(ip, protocol) + post)
            == Ok(Network(L3 + |IpBytes(ip, protocol)|, ip.src + TWELVE_ZEROS, ip.dst + TWELVE_ZEROS, AF_INET, protocol))
  {
    var mid := IpBytes(ip, protocol);
    ReadMiddle(pre, mid, post, 0, 1);
    ReadMiddle(pre, mid, post, 9, 1);
    ReadMiddle(pre, mid, post, 12, 4);
    ReadMiddle(pre, mid, post, 16, 4);
    assert mid[0] == 64 + 5 + |ip.options| / 4 && |mid| == 20 + |ip.options|;
    assert mid[9] == protocol && mid[12..16] == ip.src && mid[16..20] == ip.dst;
  }

  lemma V6RoundTrip(pre: seq<Byte>, ip: Ip, protocol: Byte, post: seq<Byte>)
    requires |pre| == L3 && ip.V6? && ValidIp(ip) && Supported(protocol)
    ensures ParseIpv6(pre + IpBytes(ip, protocol) + post) == Ok(Network(L3 + 40, ip.src, ip.dst, AF_INET6, protocol))
    ensures |IpBytes(ip, protocol)| == 40
  {
    var mid := IpBytes(ip, protocol);
    ReadMiddle(pre, mid, post, 6, 1);
    ReadMiddle(pre, mid, post, 8, 16);
    ReadMiddle(pre, mid, post, 24, 16);
    assert mid[6] == protocol && mid[8..24] == ip.src && mid[24..40] == ip.dst;
  }

  lemma IpRoundTrip(f: Frame)
    requires ValidFrame(f)
    ensures ParseNetwork(Encode(f)) == Ok(ExpectedNetwork(f))
  {
    EtherRoundTrip(f);
    var pre, post := f.macs + EtherType(f.ip), SegmentBytes(f.segment) + f.payload;
    assert Encode(f) == pre + IpBytes(f.ip, ProtocolOf(f.segment)) + post;
    hide ParseNetwork, ParseIpv4, ParseIpv6, Encode;
    if f.ip.V4? {
      V4RoundTrip(pre, f.ip, ProtocolOf(f.segment), post);
    } else {
      V6RoundTrip(pre, f.ip, ProtocolOf(f.segment), post);
    }
  }

  lemma PortRoundTrip(p: nat)
    requires p < 65536
    ensures Be16(Port(p)) == p
  {
  }

  lemma TransportRoundTrip(f: Frame)
    requires ValidFrame(f)
    ensures ParseTransport(Encode(f), ExpectedNetwork(f).l4, ProtocolOf(f.segment)) == Ok(ExpectedTransport(f))
  {
    var pre := f.macs + EtherType(f.ip) + IpBytes(f.ip, ProtocolOf(f.segment));
    var mid, post := SegmentBytes(f.segment), f.payload;
    assert Encode(f) == pre + mid + post && |pre| == ExpectedNetwork(f).l4;
    match f.segment {
      case TcpSegment(sp, dp, numbers, reserved, flags, tail, options) =>
        hide IpBytes, Encode;
        ReadMiddle(pre, mid, post, 0, 2);
        ReadMiddle(pre, mid, post, 2, 2);
        ReadMiddle(pre, mid, post, 13, 1);
        assert mid[0..2] == Port(sp) && mid[2..4] == Port(dp) && mid[13] == flags;
        PortRoundTrip(sp);
        PortRoundTrip(dp);
      case UdpSegment(sp, dp, tail) =>
        hide IpBytes, Encode;
        ReadMiddle(pre, mid, post, 0, 2);
        ReadMiddle(pre, mid, post, 2, 2);
        assert mid[0..2] == Port(sp) && mid[2..4] == Port(dp);
        PortRoundTrip(sp);
        PortRoundTrip(dp);
      case IcmpSegment(_) =>
    }
  }

  lemma TcpLengthRoundTrip(f: Frame)
    requires ValidFrame(f) && f.segment.TcpSegment?
    ensures TcpHeaderLength(Encode(f), ExpectedNetwork(f).l4) == |SegmentBytes(f.segment)|
  {
    var pre := f.macs + EtherType(f.ip) + IpBytes(f.ip, IPPROTO_TCP);
    var mid, post := SegmentBytes(f.segment), f.payload;
    assert Encode(f) == pre + mid + post && |pre| == ExpectedNetwork(f).l4;
    hide IpBytes, Encode;
    ReadMiddle(pre, mid, post, 12, 1);
    var words := 5 + |f.segment.options| / 4;
    assert mid[12] == words * 16 + f.segment.reserved;
    assert |mid| == 20 + |f.segment.options|;
  }

  lemma DigitsSpell(a: int, b: int, c: int, code: int)
    requires 0 <= a < 10 && 0 <= b < 10 && 0 <= c < 10 && 0 <= code
    ensures code == a * 100 + b * 10 + c <==> code / 100 == a && code / 10 % 10 == b && code % 10 == c
  {
  }

  lemma PrefixSpells(p: seq<Byte>)
    requires |p| >= 9
    ensures IsHttpPrefix(p[..9]) <==> p[..7] == [72, 84, 84, 80, 47, 49, 46] && IsDigit(p[7]) && p[8] == 32
  {
    var version: seq<Byte> := [72, 84, 84, 80, 47, 49, 46];
    assert p[..7] == version <==> forall i :: 0 <= i < 7 ==> p[..7][i] == version[i];
    assert forall i :: 0 <= i < 9 ==> p[..9][i] == p[i];
    assert forall i :: 0 <= i < 7 ==> p[..7][i] == p[i];
  }

  /**
   * On any data and protocol, the status is what the bytes after the TCP header spell, and 0
   * when there is no such header or it ends past the data.
   */
  lemma StatusReadsPayload(data: seq<Byte>, l4: nat, protocol: Byte)
    ensures var header, status := TcpHeaderLength(data, l4), HttpStatus(data, l4, protocol);
            if protocol != IPPROTO_TCP || header == 0 || l4 + header > |data| then status == 0
            else StatusMatches(data[l4 + header..], status)
  {
    if protocol == IPPROTO_TCP && TcpHeaderLength(data, l4) > 0 && l4 + TcpHeaderLength(data, l4) <= |data| {
      PayloadSpells(data, l4);
    }
  }

  lemma PayloadSpells(data: seq<Byte>, l4: nat)
    requires TcpHeaderLength(data, l4) > 0 && l4 + TcpHeaderLength(data, l4) <= |data|
    ensures StatusMatches(data[l4 + TcpHeaderLength(data, l4)..], HttpStatus(data, l4, IPPROTO_TCP))
  {
    var start := l4 + TcpHeaderLength(data, l4);
    var payload := data[start..];
    var status := HttpStatus(data, l4, IPPROTO_TCP);
    hide TcpHeaderLength;
    if |payload| >= 12 {
      assert data[start..start + 9] == payload[..9] && data[start + 9..start + 12] == payload[9..12];
      var d := payload[9..12];
      PrefixSpells(payload);
      forall code: nat ensures SpellsStatus(payload, code) <==> code == status != 0 {
        if IsDigit(d[0]) && IsDigit(d[1]) && IsDigit(d[2]) {
          DigitsSpell(d[0] - 48, d[1] - 48, d[2] - 48, code);
        }
      }
    }
  }

  /**
   * Round trip: for every frame, whatever its free fields, options and payload, the probe
   * reads exactly the encoded addresses, protocol, ports and flags, and a status exactly
   * when the TCP payload spells one.
   */
  lemma FrameRoundTrip(f: Frame)
    requires ValidFrame(f)
    ensures ParsePacket(Encode(f)).Ok?
    ensures var p := ParsePacket(Encode(f)).value;
            && p.network == ExpectedNetwork(f) && p.transport == ExpectedTransport(f)
            && (if f.segment.TcpSegment? then StatusMatches(f.payload, p.status) else p.status == 0)
  {
    IpRoundTrip(f);
    TransportRoundTrip(f);
    hide ParseNetwork, ParseTransport;
    if f.segment.TcpSegment? {
      TcpLengthRoundTrip(f);
      var start := ExpectedNetwork(f).l4 + |SegmentBytes(f.segment)|;
      assert Encode(f)[start..] == f.payload;
      StatusReadsPayload(Encode(f), ExpectedNetwork(f).l4, IPPROTO_TCP);
    }
  }

  // ---------------------------------------------------------------- frame independence

  lemma ReadPrefix(data: seq<Byte>, tail: seq<Byte>, offset: nat, size: nat)
    requires offset + size <= |data|
    ensures Read(data + tail, offset, size) == Read(data, offset, size)
  {
    assert (data + tail)[offset..offset + size] == data[offset..offset + size];
  }

  lemma NetworkPrefix(data: seq<Byte>, tail: seq<Byte>)
    requires ParseNetwork(data).Ok?
    ensures ParseNetwork(data + tail) == ParseNetwork(data)
  {
    ReadPrefix(data, tail, 12, 2);
    if Be16(data[12..14]) == 0x0800 {
      ReadPrefix(data, tail, L3, 1);
      ReadPrefix(data, tail, L3 + 9, 1);
      ReadPrefix(data, tail, L3 + 12, 4);
      ReadPrefix(data, tail, L3 + 16, 4);
    } else {
      ReadPrefix(data, tail, L3 + 6, 1);
      ReadPrefix(data, tail, L3 + 8, 16);
      ReadPrefix(data, tail, L3 + 24, 16);
    }
  }

  lemma TransportPrefix(data: seq<Byte>, tail: seq<Byte>, l4: nat, protocol: Byte)
    requires ParseTransport(data, l4, protocol).Ok?
    ensures ParseTransport(data + tail, l4, protocol) == ParseTransport(data, l4, protocol)
    ensures protocol == IPPROTO_TCP ==> TcpHeaderLength(data + tail, l4) == TcpHeaderLength(data, l4)
  {
    if protocol == IPPROTO_TCP || protocol == IPPROTO_UDP {
      ReadPrefix(data, tail, l4, 2);
      ReadPrefix(data, tail, l4 + 2, 2);
    }
    if protocol == IPPROTO_TCP {
      ReadPrefix(data, tail, l4 + 13, 1);
      ReadPrefix(data, tail, l4 + 12, 1);
    }
  }

  /** The frame reaches past the twelfth payload byte, as far as a status line could matter. */
  predicate ReachesStatusLine(data: seq<Byte>, p: Packet) {
    p.network.protocol == IPPROTO_TCP ==> p.network.l4 + TcpHeaderLength(data, p.network.l4) + 12 <= |data|
  }

  /**
   * Bytes after the twelfth payload byte never change what is read: any frame that parses
   * and reaches that far parses the same with anything appended.
   */
  lemma TailIsIrrelevant(data: seq<Byte>, tail: seq<Byte>)
    requires ParsePacket(data).Ok? && ReachesStatusLine(data, ParsePacket(data).value)
    ensures ParsePacket(data + tail) == ParsePacket(data)
  {
    var n := ParseNetwork(data).value;
    NetworkPrefix(data, tail);
    TransportPrefix(data, tail, n.l4, n.protocol);
    hide ParseNetwork, ParseTransport;
    if n.protocol == IPPROTO_TCP {
      var start := n.l4 + TcpHeaderLength(data, n.l4);
      hide TcpHeaderLength;
      ReadPrefix(data, tail, start, 9);
      ReadPrefix(data, tail, start + 9, 3);
    }
  }

  // ---------------------------------------------------------------- any bytes at all

  function Word(data: seq<Byte>, at: nat): nat
    requires at + 2 <= |data|
  {
    data[at] as int * 256 + data[at + 1] as int
  }

  predicate CarriesPorts(protocol: Byte) { protocol == 6 || protocol == 17 }

  predicate KnownProtocol(protocol: Byte) { protocol == 6 || protocol == 17 || protocol == 1 || protocol == 58 }

  predicate IsV4(data: seq<Byte>) { |data| >= 14 && Word(data, 12) == 0x0800 }

  predicate IsV6(data: seq<Byte>) { |data| >= 14 && Word(data, 12) == 0x86DD }

  /** Why the link or network header of any bytes is refused: the first thing wrong with it. */
  function NetworkFault(data: seq<Byte>): Option<Stat> {
    if |data| < 14 then Some(EthReadFail)
    else if Word(data, 12) == 0x0800 then
      if |data| < 24 then Some(Ipv4ReadFail)
      else if !(0x45 <= data[14] <= 0x4F) then Some(Ipv4Invalid)
      else if !KnownProtocol(data[23]) then Some(ProtocolUnsupported)
      else if |data| < 34 then Some(Ipv4ReadFail) else None
    else if Word(data, 12) == 0x86DD then
      if |data| < 21 then Some(Ipv6ReadFail)
      else if !KnownProtocol(data[20]) then Some(ProtocolUnsupported)
      else if |data| < 54 then Some(Ipv6ReadFail) else None
    else Some(EthUnsupported)
  }

  /** Where the transport header of accepted bytes begins, and what it is. */
  function TransportAt(data: seq<Byte>): nat
    requires NetworkFault(data).None?
  {
    if IsV4(data) then 14 + 4 * (data[14] as int - 0x40) else 54
  }

  function ProtocolAt(data: seq<Byte>): Byte
    requires NetworkFault(data).None?
  {
    if IsV4(data) then data[23] else data[20]
  }

  function TransportFault(data: seq<Byte>): Option<Stat>
    requires NetworkFault(data).None?
  {
    if !CarriesPorts(ProtocolAt(data)) then None
    else if |data| < TransportAt(data) + 4 then Some(TransportReadFail)
    else if ProtocolAt(data) == 6 && |data| < TransportAt(data) + 14 then Some(TcpReadFail)
    else None
  }

  /** The two ports, or none. */
  function PortsAt(data: seq<Byte>): (nat, nat)
    requires NetworkFault(data).None? && TransportFault(data).None?
  {
    if CarriesPorts(ProtocolAt(data)) then (Word(data, TransportAt(data)), Word(data, TransportAt(data) + 2)) else (0, 0)
  }

  predicate SomePortIgnored(data: seq<Byte>, ignored: set<nat>)
    requires NetworkFault(data).None? && TransportFault(data).None?
  {
    var p := PortsAt(data);
    (p.0 != 0 && p.0 in ignored) || (p.1 != 0 && p.1 in ignored)
  }

  /** What becomes of any bytes: the first fault, an ignored port, a full ring, or an event. */
  function Ending(data: seq<Byte>, ignored: set<nat>, reserved: bool): Stat {
    if NetworkFault(data).Some? then NetworkFault(data).value
    else if TransportFault(data).Some? then TransportFault(data).value
    else if SomePortIgnored(data, ignored) then PortIgnored
    else if !reserved then RingbufFull
    else Emitted
  }

  lemma NibblesOf(b: Byte)
    ensures b / 16 == 4 && b % 16 >= 5 <==> 0x45 <= b <= 0x4F
    ensures 0x45 <= b <= 0x4F ==> b % 16 == b - 0x40
  {
  }

  /** The addresses as the event carries them: four bytes padded, or sixteen. */
  predicate NetworkReads(data: seq<Byte>, n: Network)
    requires NetworkFault(data).None?
  {
    && n.l4 == TransportAt(data) && n.protocol == ProtocolAt(data)
    && (IsV4(data) ==> n.family == 2 && n.src == data[26..30] + TWELVE_ZEROS && n.dst == data[30..34] + TWELVE_ZEROS)
    && (IsV6(data) ==> n.family == 10 && n.src == data[22..38] && n.dst == data[38..54])
  }

  lemma V4Reads(data: seq<Byte>)
    requires IsV4(data)
    ensures match ParseIpv4(data)
            case Drop(s) => NetworkFault(data) == Some(s)
            case Ok(n) => NetworkFault(data).None? && NetworkReads(data, n)
  {
    if |data| >= 24 { NibblesOf(data[14]); }
  }

  lemma V6Reads(data: seq<Byte>)
    requires IsV6(data)
    ensures match ParseIpv6(data)
            case Drop(s) => NetworkFault(data) == Some(s)
            case Ok(n) => NetworkFault(data).None? && NetworkReads(data, n)
  {
  }

  lemma NetworkEnds(data: seq<Byte>)
    ensures match ParseNetwork(data)
            case Drop(s) => NetworkFault(data) == Some(s)
            case Ok(n) => NetworkFault(data).None? && NetworkReads(data, n)
  {
    if IsV4(data) { V4Reads(data); }
    if IsV6(data) { V6Reads(data); }
    hide ParseIpv4, ParseIpv6, NetworkReads;
    if |data| >= 14 { assert data[12..14][0] == data[12] && data[12..14][1] == data[13]; }
  }

  lemma TransportEnds(data: seq<Byte>)
    requires NetworkFault(data).None?
    ensures match ParseTransport(data, TransportAt(data), ProtocolAt(data))
            case Drop(s) => TransportFault(data) == Some(s)
            case Ok(t) => && TransportFault(data).None? && (t.srcPort, t.dstPort) == PortsAt(data)
                          && t.flags == if ProtocolAt(data) == 6 then data[TransportAt(data) + 13] else 0
  {
    var at := TransportAt(data);
    hide NetworkFault, TransportAt, ProtocolAt;
    if at + 4 <= |data| {
      assert data[at..at + 2][0] == data[at] && data[at..at + 2][1] == data[at + 1];
      assert data[at + 2..at + 4][0] == data[at + 2] && data[at + 2..at + 4][1] == data[at + 3];
    }
  }

  /** The event reads these bytes: ends by direction, and counts by the flag byte and the payload. */
  ghost predicate EventReads(data: seq<Byte>, e: Event, direction: int, length: nat, now: nat)
    requires NetworkFault(data).None? && TransportFault(data).None?
  {
    var at, ports, inward := TransportAt(data), PortsAt(data), direction == 1;
    var src, dst := if IsV4(data) then data[26..30] + TWELVE_ZEROS else data[22..38], if IsV4(data) then data[30..34] + TWELVE_ZEROS else data[38..54];
    var flags: int := if ProtocolAt(data) == 6 then data[at + 13] else 0;
    && e.timestamp == now && e.bytes == length && e.packets == 1 && e.direction == direction
    && e.protocol == ProtocolAt(data) && e.family == (if IsV4(data) then 2 else 10)
    && e.src == (if inward then dst else src) && e.dst == (if inward then src else dst)
    && e.srcPort == (if inward then ports.1 else ports.0) && e.dstPort == (if inward then ports.0 else ports.1)
    && e.connections == (if flags / 2 % 2 == 1 && flags / 16 % 2 == 0 then 1 else 0)
    && e.errors == (if flags / 4 % 2 == 1 then 1 else 0)
  }

  /**
   * For every byte string, direction and configuration: an event is emitted if and only if no
   * header has a fault, no port is ignored and the ring has room; otherwise the counted reason
   * is the first that applies. The event is read off the bytes.
   */
  lemma CaptureEnds(data: seq<Byte>, direction: int, length: nat, now: nat, ignored: set<nat>, reserved: bool)
    ensures FateOf(Capture(data, direction, length, now, ignored, reserved)) == Ending(data, ignored, reserved)
    ensures var c := Capture(data, direction, length, now, ignored, reserved);
            c.Ok? ==> NetworkFault(data).None? && TransportFault(data).None? && EventReads(data, c.value, direction, length, now)
  {
    NetworkEnds(data);
    assert NetworkFault(data).None? ==> IsV4(data) || IsV6(data);
    hide ParseNetwork, NetworkFault, ParseTransport, HttpStatus, IsV4, IsV6, TransportAt, ProtocolAt;
    if NetworkFault(data).None? {
      TransportEnds(data);
      hide TransportFault, PortsAt, NetworkReads;
    }
  }

  // ---------------------------------------------------------------- both directions, one flow

  function Reverse(f: Frame): Frame {
    f.(ip := f.ip.(src := f.ip.dst, dst := f.ip.src),
       segment := match f.segment
                  case TcpSegment(sp, dp, numbers, reserved, flags, tail, options) =>
                    TcpSegment(dp, sp, numbers, reserved, flags, tail, options)
                  case UdpSegment(sp, dp, tail) => UdpSegment(dp, sp, tail)
                  case IcmpSegment(_) => f.segment)
  }

  /** A frame received and its mirror image sent are events of one flow: same endpoints in the same roles. */
  lemma DirectionsShareTuple(f: Frame, length: nat, now: nat)
    requires ValidFrame(f)
    ensures ValidFrame(Reverse(f)) && ParsePacket(Encode(f)).Ok? && ParsePacket(Encode(Reverse(f))).Ok?
    ensures var i := EventOf(ParsePacket(Encode(f)).value, DIR_INGRESS, length, now);
            var e := EventOf(ParsePacket(Encode(Reverse(f))).value, DIR_EGRESS, length, now);
            i.src == e.src && i.dst == e.dst && i.srcPort == e.srcPort && i.dstPort == e.dstPort
            && i.family == e.family && i.protocol == e.protocol
  {
    FrameRoundTrip(f);
    FrameRoundTrip(Reverse(f));
    hide ParsePacket, Encode, IpBytes;
  }

  // ---------------------------------------------------------------- the event of a frame

  /** The control bits of a TCP header, lowest first. */
  datatype Control = Control(fin: bool, syn: bool, rst: bool, psh: bool, ack: bool, urg: bool, ece: bool, cwr: bool)

  function Worth(bit: bool, value: nat): nat { if bit then value else 0 }

  function FlagByte(c: Control): Byte {
    Worth(c.fin, 1) + Worth(c.syn, 2) + Worth(c.rst, 4) + Worth(c.psh, 8)
    + Worth(c.ack, 16) + Worth(c.urg, 32) + Worth(c.ece, 64) + Worth(c.cwr, 128)
  }

  lemma TestsBit(flags: Byte, mask: nat, above: nat, bit: bool, below: nat)
    requires mask == 2 || mask == 4 || mask == 16
    requires below < mask && flags == above * (2 * mask) + Worth(bit, mask) + below
    ensures Bit(flags, mask) == bit
  {
    assert flags / mask == 2 * above + if bit then 1 else 0;
  }

  lemma ControlRoundTrip(c: Control)
    ensures Bit(FlagByte(c), 2) == c.syn && Bit(FlagByte(c), 4) == c.rst && Bit(FlagByte(c), 16) == c.ack
  {
    hide Bit;
    var top := Worth(c.urg, 1) + Worth(c.ece, 2) + Worth(c.cwr, 4);
    var mid := 4 * top + Worth(c.ack, 2) + Worth(c.psh, 1);
    TestsBit(FlagByte(c), 2, 2 * mid + Worth(c.rst, 1), c.syn, Worth(c.fin, 1));
    TestsBit(FlagByte(c), 4, mid, c.rst, Worth(c.syn, 2) + Worth(c.fin, 1));
    TestsBit(FlagByte(c), 16, top, c.ack, Worth(c.psh, 8) + Worth(c.rst, 4) + Worth(c.syn, 2) + Worth(c.fin, 1));
  }

  predicate HasIgnoredPort(f: Frame, ignored: set<nat>) {
    !f.segment.IcmpSegment? && ((f.segment.srcPort != 0 && f.segment.srcPort in ignored)
                                || (f.segment.dstPort != 0 && f.segment.dstPort in ignored))
  }

  /** One packet of `length` bytes between the frame's own ends, the local one first. */
  predicate Carries(e: Event, f: Frame, direction: int, length: nat, now: nat) {
    && e.timestamp == now && e.bytes == length && e.packets == 1 && e.direction == direction
    && e.protocol == ProtocolOf(f.segment) && e.family == (if f.ip.V4? then AF_INET else AF_INET6)
    && e.src == Address(if direction == DIR_INGRESS then f.ip.dst else f.ip.src, f.ip)
    && e.dst == Address(if direction == DIR_INGRESS then f.ip.src else f.ip.dst, f.ip)
    && (f.segment.IcmpSegment? ==> e.srcPort == e.dstPort == 0)
    && (!f.segment.IcmpSegment? ==>
          && e.srcPort == (if direction == DIR_INGRESS then f.segment.dstPort else f.segment.srcPort)
          && e.dstPort == (if direction == DIR_INGRESS then f.segment.srcPort else f.segment.dstPort))
  }

  /** A TCP event counts an opening SYN, a reset and the status its payload spells; others count none. */
  ghost predicate CountsSegment(e: Event, f: Frame, c: Control) {
    && (f.segment.TcpSegment? ==>
          && e.connections == (if c.syn && !c.ack then 1 else 0)
          && e.errors == (if c.rst then 1 else 0)
          && StatusMatches(f.payload, e.status))
    && (!f.segment.TcpSegment? ==> e.connections == e.errors == e.status == 0)
  }

  /**
   * The event of any frame, given room in the ring: none if a port of its is ignored, and
   * otherwise the frame's own ends in their local and remote roles with what its control
   * bits and payload say.
   */
  lemma EventTellsFrame(f: Frame, c: Control, direction: int, length: nat, now: nat, ignored: set<nat>)
    requires ValidFrame(f) && (f.segment.TcpSegment? ==> f.segment.flags == FlagByte(c))
    ensures var out := Capture(Encode(f), direction, length, now, ignored, true);
            if HasIgnoredPort(f, ignored) then out == Drop(PortIgnored)
            else out.Ok? && Carries(out.value, f, direction, length, now) && CountsSegment(out.value, f, c)
  {
    FrameRoundTrip(f);
    ControlRoundTrip(c);
    hide ParsePacket, Encode, IpBytes, Bit, FlagByte, StatusMatches, ValidFrame;
  }

  // ---------------------------------------------------------------- the probe, in place

  /** Failure never blames `Seen`: the frame is already counted there. */
  lemma DropReasons(data: seq<Byte>)
    requires ParsePacket(data).Drop?
    ensures ParsePacket(data).stat != Seen && ParsePacket(data).stat != Emitted
  {
  }

  class Probe {
    const counters: Counters
    var ring: seq<Event>
    var ignored: set<nat>

    constructor (shared: Counters, ports: set<nat>)
      ensures counters == shared && ring == [] && ignored == ports
    {
      counters, ring, ignored := shared, [], ports;
    }

    /** Fills the network metadata, or bumps the reason and reports failure. */
    method ParseNetworkMetadata(data: seq<Byte>) returns (ok: bool, metadata: Network)
      modifies counters
      ensures ok <==> ParseNetwork(data).Ok?
      ensures ok ==> metadata == ParseNetwork(data).value && counters.stats == old(counters.stats)
      ensures !ok ==> counters.stats == Bump(old(counters.stats), ParseNetwork(data).stat)
    {
      metadata := Network(0, [], [], 0, 0);
      if |data| < 14 { counters.Count(EthReadFail); return false, metadata; }
      assert Read(data, 12, 2).value == data[12..14];
      if data[12] == 0x08 && data[13] == 0x00 {
        ok, metadata := ParseIpv4Metadata(data);
      } else if data[12] == 0x86 && data[13] == 0xDD {
        ok, metadata := ParseIpv6Metadata(data);
      } else {
        counters.Count(EthUnsupported);
        ok := false;
      }
    }

    method ParseIpv4Metadata(data: seq<Byte>) returns (ok: bool, metadata: Network)
      modifies counters
      ensures ok <==> ParseIpv4(data).Ok?
      ensures ok ==> metadata == ParseIpv4(data).value && counters.stats == old(counters.stats)
      ensures !ok ==> counters.stats == Bump(old(counters.stats), ParseIpv4(data).stat)
    {
      ok, metadata := false, Network(0, [], [], 0, 0);
      if L3 + 1 > |data| || L3 + 10 > |data| { counters.Count(Ipv4ReadFail); return; }
      var versionIhl := data[L3];
      metadata := metadata.(protocol := data[L3 + 9]);
      if versionIhl / 16 != 4 { counters.Count(Ipv4Invalid); return; }
      var ihl := (versionIhl % 16) * 4;
      if ihl < 20 { counters.Count(Ipv4Invalid); return; }
      if !Supported(metadata.protocol) { counters.Count(ProtocolUnsupported); return; }
      if L3 + 16 > |data| || L3 + 20 > |data| { counters.Count(Ipv4ReadFail); return; }
      metadata := metadata.(src := data[L3 + 12..L3 + 16] + TWELVE_ZEROS, dst := data[L3 + 16..L3 + 20] + TWELVE_ZEROS);
      metadata := metadata.(family := AF_INET, l4 := L3 + ihl);
      ok := true;
    }

    method ParseIpv6Metadata(data: seq<Byte>) returns (ok: bool, metadata: Network)
      modifies counters
      ensures ok <==> ParseIpv6(data).Ok?
      ensures ok ==> metadata == ParseIpv6(data).value && counters.stats == old(counters.stats)
      ensures !ok ==> counters.stats == Bump(old(counters.stats), ParseIpv6(data).stat)
    {
      ok, metadata := false, Network(0, [], [], 0, 0);
      if L3 + 7 > |data| { counters.Count(Ipv6ReadFail); return; }
      metadata := metadata.(protocol := data[L3 + 6]);
      if !Supported(metadata.protocol) { counters.Count(ProtocolUnsupported); return; }
      if L3 + 24 > |data| || L3 + 40 > |data| { counters.Count(Ipv6ReadFail); return; }
      metadata := metadata.(src := data[L3 + 8..L3 + 24], dst := data[L3 + 24..L3 + 40]);
      metadata := metadata.(family := AF_INET6, l4 := L3 + 40);
      ok := true;
    }

    method ParseTransportMetadata(data: seq<Byte>, l4: nat, protocol: Byte) returns (ok: bool, metadata: Transport)
      modifies counters
      ensures ok <==> ParseTransport(data, l4, protocol).Ok?
      ensures ok ==> metadata == ParseTransport(data, l4, protocol).value && counters.stats == old(counters.stats)
      ensures !ok ==> counters.stats == Bump(old(counters.stats), ParseTransport(data, l4, protocol).stat)
    {
      ok, metadata := true, Transport(0, 0, 0);
      if protocol != IPPROTO_TCP && protocol != IPPROTO_UDP { return; }
      if l4 + 2 > |data| || l4 + 4 > |data| { counters.Count(TransportReadFail); return false, metadata; }
      metadata := metadata.(srcPort := Be16(data[l4..l4 + 2]), dstPort := Be16(data[l4 + 2..l4 + 4]));
      if protocol == IPPROTO_TCP {
        if l4 + 14 > |data| { counters.Count(TcpReadFail); return false, metadata; }
        metadata := metadata.(flags := data[l4 + 13]);
      }
    }

    /** The whole probe: one counter besides `Seen` per frame, and the event when it is `Emitted`. */
    method EmitTcPacket(data: seq<Byte>, direction: int, length: nat, now: nat, reserved: bool)
      modifies this, counters
      ensures ignored == old(ignored)
      ensures var c := Capture(data, direction, length, now, ignored, reserved);
              && counters.stats == Bump(Bump(old(counters.stats), Seen), FateOf(c))
              && ring == if c.Ok? then old(ring) + [c.value] else old(ring)
      ensures Excess(counters.stats) == Excess(old(counters.stats))
    {
      hide ParseNetwork, ParseTransport, HttpStatus, Excess;
      counters.Count(Seen);
      var ok, network := ParseNetworkMetadata(data);
      if ok {
        var ok', transport := ParseTransportMetadata(data, network.l4, network.protocol);
        if ok' {
          if PortsIgnored(network.protocol, transport, ignored) {
            counters.Count(PortIgnored);
          } else {
            var status := ReadHttpStatus(data, network.l4, network.protocol);
            if !reserved {
              counters.Count(RingbufFull);
            } else {
              ring := ring + [EventOf(Packet(network, transport, status), direction, length, now)];
              counters.Count(Emitted);
            }
          }
        }
      }
      CaptureReason(data, direction, length, now, ignored, reserved);
      FrameKeepsExcess(old(counters.stats), FateOf(Capture(data, direction, length, now, ignored, reserved)));
    }
  }

  lemma CaptureReason(data: seq<Byte>, direction: int, length: nat, now: nat, ignored: set<nat>, reserved: bool)
    ensures FateOf(Capture(data, direction, length, now, ignored, reserved)) != Seen
  {
    hide EventOf;
    if ParsePacket(data).Drop? { DropReasons(data); }
  }

  /** The status loop over the three digits. */
  method ReadHttpStatus(data: seq<Byte>, l4: nat, protocol: Byte) returns (status: nat)
    ensures status == HttpStatus(data, l4, protocol)
  {
    if protocol != IPPROTO_TCP { return 0; }
    var header := TcpHeaderLength(data, l4);
    if header == 0 { return 0; }
    var start := l4 + header;
    if start + 9 > |data| || !IsHttpPrefix(data[start..start + 9]) { return 0; }
    if start + 12 > |data| { return 0; }
    var digits := data[start + 9..start + 12];
    status := 0;
    for index := 0 to 3
      invariant forall i :: 0 <= i < index ==> IsDigit(digits[i])
      invariant index == 0 ==> status == 0
      invariant index == 1 ==> status == digits[0] - 48
      invariant index == 2 ==> status == (digits[0] - 48) as int * 10 + (digits[1] - 48) as int
      invariant index == 3 ==> status == ThreeDigits(digits)
    {
      if digits[index] < 48 || digits[index] > 57 { return 0; }
      status := status * 10 + (digits[index] - 48);
    }
    if status < 100 || status > 599 { return 0; }
  }
}
