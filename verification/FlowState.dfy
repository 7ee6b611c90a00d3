/**
 * The per-bucket state of the agent: one `State` accumulates every event of one key.
 * `ApplyEvent` folds one captured event in, `MergeStates` folds a whole state in.
 * `Summary` is the reference: it says, field by field, what a bucket must hold after
 * a sequence of events, without mentioning either operation.
 */
module FlowState {
  import opened Prelude

  const TWO_32: int := 0x1_0000_0000

  datatype Key = Key(agentId: string, srcIp: string, dstIp: string, dstPort: int,
                     protocol: string, direction: string, iface: string)

  datatype Metric = Metric(agentId: string, srcIp: string, dstIp: string, srcPort: int, dstPort: int,
                           protocol: string, direction: string, iface: string,
                           byteCount: int, packetCount: int, connectionCount: int, requestCount: int,
                           errorCount: int, retransCount: int, rttMs: real, appDelayMs: real,
                           httpStatus: int, firstSeen: int, lastSeen: int)

  datatype Rtt = Rtt(current: real, min: real, max: real, avg: real, samples: nat)

  datatype Delay = Delay(avg: real, samples: nat)

  datatype Connection = Connection(open: nat, errors: nat, requests: nat)

  datatype StatusCounters = StatusCounters(informational: nat, success: nat, redirect: nat,
                                           clientError: nat, serverError: nat, last: int)

  datatype Classification = Classification(network: string, transport: string, application: string)

  datatype State = State(key: Key, srcPort: int, sent: nat, received: nat, packets: nat, direction: string,
                         connection: Connection, rtt: Rtt, retrans: nat, delay: Delay,
                         http: StatusCounters, classification: Classification,
                         firstSeen: int, lastSeen: int)

  // ---------------------------------------------------------------- zero values

  const NO_CLASS := Classification("", "", "")
  const NO_RTT := Rtt(0.0, 0.0, 0.0, 0.0, 0)
  const NO_DELAY := Delay(0.0, 0)
  const NO_STATUS := StatusCounters(0, 0, 0, 0, 0, 0)

  function NewState(key: Key): State {
    State(key, 0, 0, 0, 0, "", Connection(0, 0, 0), NO_RTT, 0, NO_DELAY, NO_STATUS, NO_CLASS, 0, 0)
  }

  function KeyOf(e: Metric): Key {
    Key(e.agentId, e.srcIp, e.dstIp, e.dstPort, e.protocol, e.direction, e.iface)
  }

  // ---------------------------------------------------------------- reducers

  function NonNegative(v: int): nat { if v < 0 then 0 else v }

  /** The `uint32(nonNegative(v))` conversion: it truncates, it does not saturate. */
  function Narrow(v: int): nat { NonNegative(v) % TWO_32 }

  /** Requests one event stands for when it does not say so itself. */
  function InferRequestCount(protocol: string, direction: string, bytes: int, connections: nat, errors: nat): nat {
    if errors > 0 then 0
    else if connections > 0 then connections
    else if bytes <= 0 then 0
    else if protocol != UDP && protocol != ICMP then 0
    else if direction == INGRESS || direction == EGRESS then 1
    else 0
  }

  function EventRequests(e: Metric): nat {
    if Narrow(e.requestCount) == 0
    then InferRequestCount(e.protocol, e.direction, e.byteCount, Narrow(e.connectionCount), Narrow(e.errorCount))
    else Narrow(e.requestCount)
  }

  function ApplyConnection(m: Connection, e: Metric): Connection {
    Connection(m.open + Narrow(e.connectionCount), m.errors + Narrow(e.errorCount), m.requests + EventRequests(e))
  }

  function ApplyRtt(m: Rtt, v: real): Rtt {
    if v <= 0.0 then m
    else
      var n := m.samples + 1;
      Rtt(v,
          if m.samples == 0 || v < m.min then v else m.min,
          if v > m.max then v else m.max,
          m.avg + (v - m.avg) / n as real,
          n)
  }

  function ApplyDelay(m: Delay, v: real): Delay {
    if v <= 0.0 then m
    else Delay(m.avg + (v - m.avg) / (m.samples + 1) as real, m.samples + 1)
  }

  predicate IsStatus(code: int) { 100 <= code <= 599 }

  function ApplyStatus(c: StatusCounters, code: int): StatusCounters {
    if !IsStatus(code) then c
    else
      var c := c.(last := code);
      match code / 100
      case 1 => c.(informational := c.informational + 1)
      case 2 => c.(success := c.success + 1)
      case 3 => c.(redirect := c.redirect + 1)
      case 4 => c.(clientError := c.clientError + 1)
      case _ => c.(serverError := c.serverError + 1)
  }

  function NetworkOf(ip: string): string {
    if ':' in ip then "ipv6" else if ip != "" then "ipv4" else ""
  }

  function ApplicationOf(protocol: string, port: int): string {
    if protocol == TCP && port == 80 then "http"
    else if protocol == TCP && port == 443 then "https"
    else if protocol == TCP && port == 22 then "ssh"
    else if protocol == TCP && port == 5432 then "postgresql"
    else if port == 53 then "dns"
    else ""
  }

  function Classify(k: Key): Classification {
    Classification(NetworkOf(k.srcIp), k.protocol, ApplicationOf(k.protocol, k.dstPort))
  }

  /** 0 is the zero time: an unset first-seen gives way, an unset candidate never wins. */
  function EarlierSeen(current: int, next: int): int {
    if current == 0 || (next != 0 && next < current) then next else current
  }

  function ApplyEvent(s: State, e: Metric): State {
    State(s.key,
          if s.srcPort == 0 && e.srcPort > 0 then e.srcPort else s.srcPort,
          if e.direction == INGRESS then s.sent else s.sent + NonNegative(e.byteCount),
          if e.direction == INGRESS then s.received + NonNegative(e.byteCount) else s.received,
          s.packets + NonNegative(e.packetCount),
          e.direction,
          ApplyConnection(s.connection, e),
          ApplyRtt(s.rtt, e.rttMs),
          s.retrans + NonNegative(e.retransCount),
          ApplyDelay(s.delay, e.appDelayMs),
          ApplyStatus(s.http, e.httpStatus),
          Classify(KeyOf(e)),
          EarlierSeen(s.firstSeen, e.firstSeen),
          Max(s.lastSeen, e.lastSeen))
  }

  // ---------------------------------------------------------------- merge

  /** The mean of `m` samples of mean `a` together with `n` samples of mean `b`. */
  function PooledMean(a: real, m: nat, b: real, n: nat): real
    requires m + n > 0
  {
    (a * m as real + b * n as real) / (m + n) as real
  }

  function MergeRtt(c: Rtt, n: Rtt): Rtt {
    if n.samples == 0 then c
    else if c.samples == 0 then n
    else
      var total := c.samples + n.samples;
      Rtt(n.current,
          if c.min == 0.0 || (n.min > 0.0 && n.min < c.min) then n.min else c.min,
          if n.max > c.max then n.max else c.max,
          PooledMean(c.avg, c.samples, n.avg, n.samples),
          total)
  }

  function MergeDelay(c: Delay, n: Delay): Delay {
    if n.samples == 0 then c
    else
      Delay(PooledMean(c.avg, c.samples, n.avg, n.samples), c.samples + n.samples)
  }

  function MergeStatus(c: StatusCounters, n: StatusCounters): StatusCounters {
    StatusCounters(c.informational + n.informational, c.success + n.success, c.redirect + n.redirect,
                   c.clientError + n.clientError, c.serverError + n.serverError,
                   if n.last != 0 then n.last else c.last)
  }

  function MergeStates(s: State, n: State): State {
    State(s.key,
          if s.srcPort == 0 && n.srcPort > 0 then n.srcPort else s.srcPort,
          s.sent + n.sent, s.received + n.received, s.packets + n.packets,
          if n.direction != "" then n.direction else s.direction,
          Connection(s.connection.open + n.connection.open, s.connection.errors + n.connection.errors,
                     s.connection.requests + n.connection.requests),
          MergeRtt(s.rtt, n.rtt),
          s.retrans + n.retrans,
          MergeDelay(s.delay, n.delay),
          MergeStatus(s.http, n.http),
          if n.classification != NO_CLASS then n.classification else s.classification,
          EarlierSeen(s.firstSeen, n.firstSeen),
          Max(s.lastSeen, n.lastSeen))
  }

  /** What a bucket holds after its events arrived in this order. */
  function Fold(key: Key, xs: seq<Metric>): State {
    if xs == [] then NewState(key) else ApplyEvent(Fold(key, Init(xs)), Last(xs))
  }

  ghost predicate SameKey(key: Key, xs: seq<Metric>) {
    forall e :: e in xs ==> KeyOf(e) == key
  }

  // ---------------------------------------------------------------- reference

  /** The additive counters of a bucket. */
  datatype Counter = Sent | Received | Packets | Opens | Errors | Requests | Retrans
                   | Http1 | Http2 | Http3 | Http4 | Http5 | RttCount | DelayCount

  function B2N(b: bool): nat { if b then 1 else 0 }

  /** A count as the 32-bit field takes it: nothing below zero, and modulo 2^32 above. */
  function Reported(v: int): nat { if v > 0 then v % 4294967296 else 0 }

  function Positive(v: int): nat { if v > 0 then v else 0 }

  /**
   * The requests an event stands for: the ones it states, or else none if it reports an error,
   * or else one per connection, or else one for a datagram with bytes and a known direction.
   */
  function RequestsOf(e: Metric): nat {
    var stated, errors, connections := Reported(e.requestCount), Reported(e.errorCount), Reported(e.connectionCount);
    var datagram := (e.protocol == "udp" || e.protocol == "icmp") && e.byteCount > 0
                    && (e.direction == "ingress" || e.direction == "egress");
    if stated != 0 then stated else if errors != 0 then 0 else if connections != 0 then connections else B2N(datagram)
  }

  /** What one event adds to one counter, in terms of the event alone. */
  function EventAmount(c: Counter, e: Metric): nat {
    match c
    case Sent => if e.direction == "ingress" then 0 else Positive(e.byteCount)
    case Received => if e.direction == "ingress" then Positive(e.byteCount) else 0
    case Packets => Positive(e.packetCount)
    case Opens => Reported(e.connectionCount)
    case Errors => Reported(e.errorCount)
    case Requests => RequestsOf(e)
    case Retrans => Positive(e.retransCount)
    case Http1 => B2N(100 <= e.httpStatus < 200)
    case Http2 => B2N(200 <= e.httpStatus < 300)
    case Http3 => B2N(300 <= e.httpStatus < 400)
    case Http4 => B2N(400 <= e.httpStatus < 500)
    case Http5 => B2N(500 <= e.httpStatus < 600)
    case RttCount => B2N(e.rttMs > 0.0)
    case DelayCount => B2N(e.appDelayMs > 0.0)
  }

  /** What a bucket currently holds in one counter. */
  function StateAmount(c: Counter, s: State): nat {
    match c
    case Sent => s.sent
    case Received => s.received
    case Packets => s.packets
    case Opens => s.connection.open
    case Errors => s.connection.errors
    case Requests => s.connection.requests
    case Retrans => s.retrans
    case Http1 => s.http.informational
    case Http2 => s.http.success
    case Http3 => s.http.redirect
    case Http4 => s.http.clientError
    case Http5 => s.http.serverError
    case RttCount => s.rtt.samples
    case DelayCount => s.delay.samples
  }

  function Total(c: Counter, xs: seq<Metric>): nat {
    if xs == [] then 0 else Total(c, Init(xs)) + EventAmount(c, Last(xs))
  }

  function SumR(vs: seq<real>): real {
    if vs == [] then 0.0 else SumR(Init(vs)) + Last(vs)
  }

  function Mean(vs: seq<real>): real { if vs == [] then 0.0 else SumR(vs) / |vs| as real }

  ghost predicate IsMin(vs: seq<real>, m: real) { m in vs && forall v :: v in vs ==> m <= v }

  ghost predicate IsMax(vs: seq<real>, m: real) { m in vs && forall v :: v in vs ==> v <= m }

  ghost predicate AllPositive(vs: seq<real>) { forall v :: v in vs ==> v > 0.0 }

  /** The positive round-trip samples, in arrival order. */
  function RttSamples(xs: seq<Metric>): (vs: seq<real>)
    ensures AllPositive(vs)
  {
    if xs == [] then []
    else if Last(xs).rttMs > 0.0 then RttSamples(Init(xs)) + [Last(xs).rttMs]
    else RttSamples(Init(xs))
  }

  /** The positive application-delay samples, in arrival order. */
  function DelaySamples(xs: seq<Metric>): (vs: seq<real>)
    ensures AllPositive(vs)
  {
    if xs == [] then []
    else if Last(xs).appDelayMs > 0.0 then DelaySamples(Init(xs)) + [Last(xs).appDelayMs]
    else DelaySamples(Init(xs))
  }

  /** An RTT record describes a list of samples: latest, extremes, arithmetic mean, size. */
  ghost predicate Describes(m: Rtt, vs: seq<real>) {
    if vs == [] then m == NO_RTT
    else m.samples == |vs| && m.current == Last(vs) && IsMin(vs, m.min) && IsMax(vs, m.max)
         && m.avg == Mean(vs)
  }

  ghost predicate DelayDescribes(m: Delay, vs: seq<real>) {
    if vs == [] then m == NO_DELAY
    else m.samples == |vs| && m.avg == Mean(vs)
  }

  function FirstPort(xs: seq<Metric>): int {
    if xs == [] then 0 else if FirstPort(Init(xs)) != 0 then FirstPort(Init(xs))
    else if Last(xs).srcPort > 0 then Last(xs).srcPort else 0
  }

  function LastStatus(xs: seq<Metric>): int {
    if xs == [] then 0 else if 100 <= Last(xs).httpStatus <= 599 then Last(xs).httpStatus else LastStatus(Init(xs))
  }

  /** `t` is the earliest set first-seen time, or 0 when none is set. */
  ghost predicate IsEarliest(xs: seq<Metric>, t: int) {
    if t == 0 then forall e :: e in xs ==> e.firstSeen == 0
    else (exists e :: e in xs && e.firstSeen == t) && forall e :: e in xs && e.firstSeen != 0 ==> t <= e.firstSeen
  }

  /** `t` is the latest last-seen time at or after the zero time. */
  ghost predicate IsLatest(xs: seq<Metric>, t: int) {
    && 0 <= t
    && (forall e :: e in xs ==> e.lastSeen <= t)
    && (t == 0 || exists e :: e in xs && e.lastSeen == t)
  }

  /** The names of a bucket's three layers, read off its key. */
  ghost predicate Names(c: Classification, k: Key) {
    && (c.network == "" <==> k.srcIp == "") && (c.network == "ipv6" <==> ':' in k.srcIp)
    && (c.network == "ipv4" || c.network == "ipv6" || c.network == "")
    && c.transport == k.protocol
    && (k.dstPort == 53 ==> c.application == "dns")
    && (k.protocol == "tcp" && k.dstPort == 80 ==> c.application == "http")
    && (k.protocol == "tcp" && k.dstPort == 443 ==> c.application == "https")
    && (k.protocol == "tcp" && k.dstPort == 22 ==> c.application == "ssh")
    && (k.protocol == "tcp" && k.dstPort == 5432 ==> c.application == "postgresql")
    && (!(k.protocol == "tcp" && k.dstPort in {80, 443, 22, 5432}) && k.dstPort != 53 ==> c.application == "")
  }

  /** Two events share a bucket exactly when they agree in these seven fields. */
  lemma KeysMeet(a: Metric, b: Metric)
    ensures KeyOf(a) == KeyOf(b)
            <==> a.agentId == b.agentId && a.srcIp == b.srcIp && a.dstIp == b.dstIp && a.dstPort == b.dstPort
                 && a.protocol == b.protocol && a.direction == b.direction && a.iface == b.iface
  {
  }

  /** The bucket `s` of `key` says exactly what the events `xs` say. */
  ghost predicate Summarises(s: State, key: Key, xs: seq<Metric>) {
    && s.key == key
    && s.srcPort == FirstPort(xs)
    && (forall c: Counter :: StateAmount(c, s) == Total(c, xs))
    && s.direction == (if xs == [] then "" else key.direction)
    && Describes(s.rtt, RttSamples(xs))
    && DelayDescribes(s.delay, DelaySamples(xs))
    && s.http.last == LastStatus(xs)
    && (if xs == [] then s.classification == NO_CLASS else Names(s.classification, key))
    && IsEarliest(xs, s.firstSeen)
    && IsLatest(xs, s.lastSeen)
  }

  // ---------------------------------------------------------------- proofs: samples and means

  lemma {:induction false} SumRConcat(vs: seq<real>, ws: seq<real>)
    ensures SumR(vs + ws) == SumR(vs) + SumR(ws)
  {
    if ws == [] {
      assert vs + ws == vs;
    } else {
      InitOfConcat(vs, ws);
      SumRConcat(vs, Init(ws));
    }
  }

  /** Adding `v` to a mean of `n` samples by increment gives the mean of `n + 1`. */
  lemma RunningMean(sum: real, n: nat, avg: real, v: real)
    requires n > 0 ==> avg == sum / n as real
    requires n == 0 ==> avg == 0.0 && sum == 0.0
    ensures avg + (v - avg) / (n + 1) as real == (sum + v) / (n + 1) as real
  {
    var k := (n + 1) as real;
    assert avg * n as real == sum;
    assert (avg + (v - avg) / k) * k == avg * k + (v - avg);
    assert avg * k == avg * n as real + avg;
  }

  /** The weighted mean of two means is the mean of the joined samples. */
  lemma WeightedMean(a: real, m: nat, sa: real, b: real, n: nat, sb: real)
    requires m > 0 ==> a == sa / m as real
    requires m == 0 ==> sa == 0.0
    requires n > 0 && b == sb / n as real
    ensures PooledMean(a, m, b, n) == (sa + sb) / (m + n) as real
  {
    assert m > 0 ==> a * m as real == sa;
    assert m == 0 ==> a * m as real == 0.0;
    assert b * n as real == sb;
  }

  lemma ApplyRttDescribes(m: Rtt, vs: seq<real>, v: real)
    requires Describes(m, vs) && AllPositive(vs) && v > 0.0
    ensures Describes(ApplyRtt(m, v), vs + [v])
  {
    var r := ApplyRtt(m, v);
    var ws := vs + [v];
    assert Init(ws) == vs && Last(ws) == v;
    RunningMean(SumR(vs), |vs|, m.avg, v);
    assert v in ws && forall u :: u in ws <==> u in vs || u == v;
    assert vs != [] ==> m.max in ws && m.min in ws;
  }

  lemma ApplyDelayDescribes(m: Delay, vs: seq<real>, v: real)
    requires DelayDescribes(m, vs) && v > 0.0
    ensures DelayDescribes(ApplyDelay(m, v), vs + [v])
  {
    assert Init(vs + [v]) == vs;
    RunningMean(SumR(vs), |vs|, m.avg, v);
  }

  lemma MergeRttExtremes(c: Rtt, vs: seq<real>, n: Rtt, ws: seq<real>)
    requires vs != [] && ws != [] && c.samples > 0 && n.samples > 0
    requires IsMin(vs, c.min) && IsMax(vs, c.max) && IsMin(ws, n.min) && IsMax(ws, n.max)
    requires AllPositive(vs) && AllPositive(ws)
    ensures IsMin(vs + ws, MergeRtt(c, n).min) && IsMax(vs + ws, MergeRtt(c, n).max)
  {
    assert forall u :: u in vs + ws <==> u in vs || u in ws;
  }

  lemma MergeRttMean(c: Rtt, sc: real, n: Rtt, sn: real)
    requires c.samples > 0 && n.samples > 0
    requires c.avg == sc / c.samples as real && n.avg == sn / n.samples as real
    ensures MergeRtt(c, n).avg == (sc + sn) / (c.samples + n.samples) as real
  {
    WeightedMean(c.avg, c.samples, sc, n.avg, n.samples, sn);
  }

  lemma MergeRttDescribes(c: Rtt, vs: seq<real>, n: Rtt, ws: seq<real>)
    requires Describes(c, vs) && Describes(n, ws) && AllPositive(vs) && AllPositive(ws)
    ensures Describes(MergeRtt(c, n), vs + ws)
  {
    if ws == [] {
      assert vs + ws == vs;
    } else if vs == [] {
      assert vs + ws == ws;
    } else {
      SumRConcat(vs, ws);
      MergeRttMean(c, SumR(vs), n, SumR(ws));
      MergeRttExtremes(c, vs, n, ws);
      InitOfConcat(vs, ws);
    }
  }

  lemma MergeDelayDescribes(c: Delay, vs: seq<real>, n: Delay, ws: seq<real>)
    requires DelayDescribes(c, vs) && DelayDescribes(n, ws)
    ensures DelayDescribes(MergeDelay(c, n), vs + ws)
  {
    if ws == [] {
      assert vs + ws == vs;
    } else {
      SumRConcat(vs, ws);
      WeightedMean(c.avg, |vs|, SumR(vs), n.avg, |ws|, SumR(ws));
    }
  }

  /** A description leaves no freedom: two records of the same samples are equal. */
  lemma DescribesUnique(m: Rtt, n: Rtt, vs: seq<real>)
    requires Describes(m, vs) && Describes(n, vs)
    ensures m == n
  {
    if vs != [] {
      assert m.min <= n.min <= m.min && m.max <= n.max <= m.max;
    }
  }

  // ---------------------------------------------------------------- proofs: fold is summary

  lemma ApplyTotals(s: State, xs: seq<Metric>, e: Metric)
    requires forall c: Counter :: StateAmount(c, s) == Total(c, xs)
    ensures forall c: Counter :: StateAmount(c, ApplyEvent(s, e)) == Total(c, xs + [e])
  {
    forall c: Counter ensures StateAmount(c, ApplyEvent(s, e)) == Total(c, xs + [e]) {
      assert Init(xs + [e]) == xs;
      assert StateAmount(c, s) == Total(c, xs);
      ApplyAmount(s, e, c);
    }
  }

  lemma ApplySamples(s: State, xs: seq<Metric>, e: Metric)
    requires Describes(s.rtt, RttSamples(xs)) && DelayDescribes(s.delay, DelaySamples(xs))
    ensures Describes(ApplyRtt(s.rtt, e.rttMs), RttSamples(xs + [e]))
    ensures DelayDescribes(ApplyDelay(s.delay, e.appDelayMs), DelaySamples(xs + [e]))
  {
    assert Init(xs + [e]) == xs;
    if e.rttMs > 0.0 { ApplyRttDescribes(s.rtt, RttSamples(xs), e.rttMs); }
    if e.appDelayMs > 0.0 { ApplyDelayDescribes(s.delay, DelaySamples(xs), e.appDelayMs); }
  }

  lemma ApplyMarks(s: State, xs: seq<Metric>, e: Metric)
    requires s.srcPort == FirstPort(xs) && s.http.last == LastStatus(xs)
    ensures ApplyEvent(s, e).srcPort == FirstPort(xs + [e])
    ensures ApplyStatus(s.http, e.httpStatus).last == LastStatus(xs + [e])
  {
    assert Init(xs + [e]) == xs;
  }

  lemma ClassifyNames(k: Key)
    ensures Names(Classify(k), k)
  {
  }

  lemma NamesUnique(c: Classification, d: Classification, k: Key)
    requires Names(c, k) && Names(d, k)
    ensures c == d
  {
  }

  lemma ApplySummarises(s: State, key: Key, xs: seq<Metric>, e: Metric)
    requires Summarises(s, key, xs) && KeyOf(e) == key
    ensures Summarises(ApplyEvent(s, e), key, xs + [e])
  {
    ClassifyNames(key);
    ApplyMarks(s, xs, e);
    ApplySamples(s, xs, e);
    ApplyTotals(s, xs, e);
    ApplySeen(s, xs, e);
  }

  /** Applying an event adds exactly its amount to every counter. */
  lemma ApplyAmount(s: State, e: Metric, c: Counter)
    ensures StateAmount(c, ApplyEvent(s, e)) == StateAmount(c, s) + EventAmount(c, e)
  {
    CountsMean(e);
    StatusMeans(s.http, e.httpStatus);
    hide InferRequestCount, EventRequests, RequestsOf, Narrow, Reported, ApplyStatus;
  }

  /** The reducers' own conversions and inference give what an event is said to report. */
  lemma CountsMean(e: Metric)
    ensures Narrow(e.connectionCount) == Reported(e.connectionCount) && Narrow(e.errorCount) == Reported(e.errorCount)
    ensures EventRequests(e) == RequestsOf(e)
  {
  }

  lemma StatusMeans(c: StatusCounters, code: int)
    ensures var n := ApplyStatus(c, code);
            && n.informational == c.informational + B2N(100 <= code < 200) && n.success == c.success + B2N(200 <= code < 300)
            && n.redirect == c.redirect + B2N(300 <= code < 400) && n.clientError == c.clientError + B2N(400 <= code < 500)
            && n.serverError == c.serverError + B2N(500 <= code < 600)
  {
    var q := code / 100;
    assert IsStatus(code) ==> 1 <= q <= 5 && 100 * q <= code < 100 * q + 100;
  }

  lemma ApplySeen(s: State, xs: seq<Metric>, e: Metric)
    requires IsEarliest(xs, s.firstSeen) && IsLatest(xs, s.lastSeen)
    ensures IsEarliest(xs + [e], EarlierSeen(s.firstSeen, e.firstSeen))
    ensures IsLatest(xs + [e], Max(s.lastSeen, e.lastSeen))
  {
    var ys := xs + [e];
    assert e in ys && forall u :: u in ys <==> u in xs || u == e;
    if s.firstSeen != 0 {
      var w :| w in xs && w.firstSeen == s.firstSeen;
      assert w in ys;
    }
    if s.lastSeen != 0 {
      var w :| w in xs && w.lastSeen == s.lastSeen;
      assert w in ys;
    }
  }

  lemma NewSummarises(key: Key)
    ensures Summarises(NewState(key), key, [])
  {
    forall c: Counter ensures StateAmount(c, NewState(key)) == Total(c, []) {}
  }

  /** The fold of a bucket's events is their summary, for every event sequence. */
  lemma {:induction false} FoldSummarises(key: Key, xs: seq<Metric>)
    requires SameKey(key, xs)
    ensures Summarises(Fold(key, xs), key, xs)
  {
    if xs == [] {
      NewSummarises(key);
    } else {
      var ys, e := Init(xs), Last(xs);
      assert xs == ys + [e];
      FoldSummarises(key, ys);
      ApplySummarises(Fold(key, ys), key, ys, e);
      assert Fold(key, xs) == ApplyEvent(Fold(key, ys), e);
    }
  }

  // ---------------------------------------------------------------- proofs: merge is summary of the join

  lemma {:induction false} SamplesConcat(xs: seq<Metric>, ys: seq<Metric>)
    ensures RttSamples(xs + ys) == RttSamples(xs) + RttSamples(ys)
    ensures DelaySamples(xs + ys) == DelaySamples(xs) + DelaySamples(ys)
  {
    if ys == [] {
      assert xs + ys == xs;
    } else {
      InitOfConcat(xs, ys);
      SamplesConcat(xs, Init(ys));
    }
  }

  lemma {:induction false} TotalConcat(c: Counter, xs: seq<Metric>, ys: seq<Metric>)
    ensures Total(c, xs + ys) == Total(c, xs) + Total(c, ys)
  {
    if ys == [] {
      assert xs + ys == xs;
    } else {
      InitOfConcat(xs, ys);
      TotalConcat(c, xs, Init(ys));
    }
  }

  lemma {:induction false} FirstPortConcat(xs: seq<Metric>, ys: seq<Metric>)
    ensures FirstPort(xs + ys) == if FirstPort(xs) != 0 then FirstPort(xs) else FirstPort(ys)
    ensures FirstPort(ys) >= 0
  {
    if ys == [] {
      assert xs + ys == xs;
    } else {
      InitOfConcat(xs, ys);
      FirstPortConcat(xs, Init(ys));
    }
  }

  lemma {:induction false} LastStatusConcat(xs: seq<Metric>, ys: seq<Metric>)
    ensures LastStatus(xs + ys) == if LastStatus(ys) != 0 then LastStatus(ys) else LastStatus(xs)
  {
    if ys == [] {
      assert xs + ys == xs;
    } else {
      InitOfConcat(xs, ys);
      LastStatusConcat(xs, Init(ys));
    }
  }

  lemma SeenConcat(xs: seq<Metric>, f: int, l: int, ys: seq<Metric>, g: int, m: int)
    requires IsEarliest(xs, f) && IsLatest(xs, l) && IsEarliest(ys, g) && IsLatest(ys, m)
    ensures IsEarliest(xs + ys, EarlierSeen(f, g))
    ensures IsLatest(xs + ys, Max(l, m))
  {
    var zs := xs + ys;
    assert forall u :: u in zs <==> u in xs || u in ys;
    if f != 0 { var w :| w in xs && w.firstSeen == f; assert w in zs; }
    if g != 0 { var w :| w in ys && w.firstSeen == g; assert w in zs; }
    if l != 0 { var w :| w in xs && w.lastSeen == l; assert w in zs; }
    if m != 0 { var w :| w in ys && w.lastSeen == m; assert w in zs; }
  }

  lemma MergeSummarises(s: State, xs: seq<Metric>, n: State, ys: seq<Metric>, key: Key)
    requires Summarises(s, key, xs) && Summarises(n, key, ys)
    ensures Summarises(MergeStates(s, n), key, xs + ys)
  {
    var r, zs := MergeStates(s, n), xs + ys;
    FirstPortConcat(xs, ys);
    forall c: Counter ensures StateAmount(c, r) == Total(c, zs) {
      TotalConcat(c, xs, ys);
      assert StateAmount(c, s) == Total(c, xs) && StateAmount(c, n) == Total(c, ys);
      MergeAmount(s, n, c);
    }
    SamplesConcat(xs, ys);
    MergeRttDescribes(s.rtt, RttSamples(xs), n.rtt, RttSamples(ys));
    MergeDelayDescribes(s.delay, DelaySamples(xs), n.delay, DelaySamples(ys));
    LastStatusConcat(xs, ys);
    SeenConcat(xs, s.firstSeen, s.lastSeen, ys, n.firstSeen, n.lastSeen);
  }

  /** Merging adds every counter, including the sample counts, whatever the two states are. */
  lemma MergeAmount(s: State, n: State, c: Counter)
    ensures StateAmount(c, MergeStates(s, n)) == StateAmount(c, s) + StateAmount(c, n)
  {
  }

  /** Two summaries of the same events are the same state. */
  lemma SummaryUnique(s: State, t: State, key: Key, xs: seq<Metric>)
    requires Summarises(s, key, xs) && Summarises(t, key, xs)
    ensures s == t
  {
    DescribesUnique(s.rtt, t.rtt, RttSamples(xs));
    if xs != [] { NamesUnique(s.classification, t.classification, key); }
    forall c: Counter ensures StateAmount(c, s) == StateAmount(c, t) {
      assert StateAmount(c, s) == Total(c, xs) && StateAmount(c, t) == Total(c, xs);
    }
    assert forall c: Counter :: StateAmount(c, s) == StateAmount(c, t);
    SameAmounts(s, t);
    EarliestUnique(xs, s.firstSeen, t.firstSeen);
    LatestUnique(xs, s.lastSeen, t.lastSeen);
  }

  lemma SameAmounts(s: State, t: State)
    requires forall c: Counter :: StateAmount(c, s) == StateAmount(c, t)
    requires s.http.last == t.http.last
    ensures s.sent == t.sent && s.received == t.received && s.packets == t.packets && s.retrans == t.retrans
    ensures s.connection == t.connection && s.http == t.http
  {
    assert StateAmount(Sent, s) == s.sent && StateAmount(Received, s) == s.received;
    assert StateAmount(Packets, s) == s.packets && StateAmount(Retrans, s) == s.retrans;
    assert StateAmount(Opens, s) == s.connection.open && StateAmount(Errors, s) == s.connection.errors;
    assert StateAmount(Requests, s) == s.connection.requests;
    assert StateAmount(Http1, s) == s.http.informational && StateAmount(Http2, s) == s.http.success;
    assert StateAmount(Http3, s) == s.http.redirect && StateAmount(Http4, s) == s.http.clientError;
    assert StateAmount(Http5, s) == s.http.serverError;
  }

  lemma EarliestUnique(xs: seq<Metric>, a: int, b: int)
    requires IsEarliest(xs, a) && IsEarliest(xs, b)
    ensures a == b
  {
    if a != 0 { var w :| w in xs && w.firstSeen == a; }
    if b != 0 { var w :| w in xs && w.firstSeen == b; }
  }

  lemma LatestUnique(xs: seq<Metric>, a: int, b: int)
    requires IsLatest(xs, a) && IsLatest(xs, b)
    ensures a == b
  {
    if a != 0 { var w :| w in xs && w.lastSeen == a; }
    if b != 0 { var w :| w in xs && w.lastSeen == b; }
  }

  /** Merge is a homomorphism: merging two folds is folding the joined events, in every field. */
  lemma MergeHomomorphism(key: Key, xs: seq<Metric>, ys: seq<Metric>)
    requires SameKey(key, xs) && SameKey(key, ys)
    ensures MergeStates(Fold(key, xs), Fold(key, ys)) == Fold(key, xs + ys)
  {
    FoldSummarises(key, xs);
    FoldSummarises(key, ys);
    FoldSummarises(key, xs + ys);
    MergeSummarises(Fold(key, xs), xs, Fold(key, ys), ys, key);
    SummaryUnique(MergeStates(Fold(key, xs), Fold(key, ys)), Fold(key, xs + ys), key, xs + ys);
  }
}
