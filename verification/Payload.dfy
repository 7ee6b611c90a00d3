/**
 * From an agent bucket to an accepted backend event: the exporter's record, the backend's
 * validation with its own request inference, and the proof that the second accepts the
 * first unchanged.
 */
module Payload {
  import opened Prelude
  import opened FlowState

  const TWO_63: int := 0x8000_0000_0000_0000
  const TWO_64: int := 0x1_0000_0000_0000_0000

  datatype FlowEvent = FlowEvent(agentId: string, srcIp: string, dstIp: string, srcPort: int, dstPort: int,
                                 protocol: string, direction: string, sent: int, received: int, packets: int,
                                 connections: int, requests: int, errors: int, retrans: int,
                                 avgRttMs: real, avgDelayMs: real,
                                 http1: int, http2: int, http3: int, http4: int, http5: int, lastStatus: int,
                                 firstSeen: int, lastSeen: int, iface: string)

  datatype Rejection = AgentMissing | BadProtocol | BadDirection | BadSource | BadDestination | BadPorts
                     | NegativeCounter | NegativeLatency | NegativeStatusCount | BadStatus | BadTimes

  datatype Verdict = Accepted(event: FlowEvent) | Rejected(why: Rejection)

  // ---------------------------------------------------------------- export

  /** What `int64` of a `uint64` counter reads: the total modulo 2^64, in two's complement. */
  function AsInt64(n: nat): int {
    var m := n % TWO_64;
    if m < TWO_63 then m else m - TWO_64
  }

  function FromFlowState(s: State): FlowEvent {
    FlowEvent(s.key.agentId, s.key.srcIp, s.key.dstIp, s.srcPort, s.key.dstPort, s.key.protocol, s.key.direction,
              AsInt64(s.sent), AsInt64(s.received), AsInt64(s.packets), AsInt64(s.connection.open),
              AsInt64(s.connection.requests), AsInt64(s.connection.errors), AsInt64(s.retrans),
              s.rtt.avg, s.delay.avg,
              AsInt64(s.http.informational), AsInt64(s.http.success), AsInt64(s.http.redirect),
              AsInt64(s.http.clientError), AsInt64(s.http.serverError), s.http.last,
              s.firstSeen, s.lastSeen, s.key.iface)
  }

  // ---------------------------------------------------------------- validation

  predicate IsSpace(c: char) {
    c in {'\t', '\n', '\U{0B}', '\U{0C}', '\r', ' ', '\U{85}', '\U{A0}', '\U{1680}', '\U{2028}', '\U{2029}',
          '\U{202F}', '\U{205F}', '\U{3000}'} || '\U{2000}' <= c <= '\U{200A}'
  }

  function TrimLeft(s: string): string { if s != "" && IsSpace(s[0]) then TrimLeft(s[1..]) else s }

  function TrimRight(s: string): string { if s != "" && IsSpace(Last(s)) then TrimRight(Init(s)) else s }

  function TrimSpace(s: string): string { TrimRight(TrimLeft(s)) }

  function LowerChar(c: char): char { if 'A' <= c <= 'Z' then c - 'A' + 'a' else c }

  function ToLower(s: string): string { seq(|s|, i requires 0 <= i < |s| => LowerChar(s[i])) }

  function BackendRequests(e: FlowEvent): int {
    if e.errors > 0 then 0
    else if e.connections > 0 then e.connections
    else if (e.protocol == UDP || e.protocol == ICMP)
            && ((e.direction == EGRESS && e.sent > 0) || (e.direction == INGRESS && e.received > 0)) then 1
    else 0
  }

  /** Names trimmed and lowered, no ports on ICMP, egress when no direction was given. */
  function Canonical(e: FlowEvent): FlowEvent {
    var protocol := ToLower(TrimSpace(e.protocol));
    var direction := ToLower(TrimSpace(e.direction));
    e.(agentId := TrimSpace(e.agentId), protocol := protocol,
       direction := if direction == "" then EGRESS else direction,
       srcPort := if protocol == ICMP then 0 else e.srcPort,
       dstPort := if protocol == ICMP then 0 else e.dstPort)
  }

  /** The first check a canonical event fails. `isAddr` is the address parser. */
  function Fault(e: FlowEvent, isAddr: string -> bool): Option<Rejection> {
    if e.agentId == "" then Some(AgentMissing)
    else if !IsProtocol(e.protocol) then Some(BadProtocol)
    else if !IsDirection(e.direction) then Some(BadDirection)
    else if !isAddr(e.srcIp) then Some(BadSource)
    else if !isAddr(e.dstIp) then Some(BadDestination)
    else if !(0 <= e.srcPort <= 65535 && 0 <= e.dstPort <= 65535) then Some(BadPorts)
    else if e.sent < 0 || e.received < 0 || e.packets < 0 || e.connections < 0 || e.requests < 0
            || e.errors < 0 || e.retrans < 0 then Some(NegativeCounter)
    else if e.avgRttMs < 0.0 || e.avgDelayMs < 0.0 then Some(NegativeLatency)
    else if e.http1 < 0 || e.http2 < 0 || e.http3 < 0 || e.http4 < 0 || e.http5 < 0 then Some(NegativeStatusCount)
    else if e.lastStatus != 0 && !IsStatus(e.lastStatus) then Some(BadStatus)
    else None
  }

  /** Missing times filled in; `now` is the clock reading. */
  function Timed(e: FlowEvent, now: int): FlowEvent {
    var first := if e.firstSeen == 0 then now else e.firstSeen;
    e.(firstSeen := first, lastSeen := if e.lastSeen == 0 then first else e.lastSeen)
  }

  function Counted(e: FlowEvent): FlowEvent {
    if e.requests == 0 then e.(requests := BackendRequests(e)) else e
  }

  function Validate(e: FlowEvent, isAddr: string -> bool, now: int): Verdict {
    var c := Canonical(e);
    match Fault(c, isAddr)
    case Some(why) => Rejected(why)
    case None =>
      var t := Timed(c, now);
      if t.lastSeen < t.firstSeen then Rejected(BadTimes) else Accepted(Counted(t))
  }

  /** The event behind the pointer that validation normalises field by field. */
  class EventRef {
    var e: FlowEvent

    constructor (event: FlowEvent)
      ensures e == event
    {
      e := event;
    }

    method ValidateFlowEvent(isAddr: string -> bool, now: int) returns (failure: Option<Rejection>)
      modifies this
      ensures failure == match Validate(old(e), isAddr, now) case Accepted(_) => None case Rejected(w) => Some(w)
      ensures failure.None? ==> Validate(old(e), isAddr, now) == Accepted(e)
    {
      Normalise();
      var fault := Fault(e, isAddr);
      if fault.Some? { return fault; }
      if e.firstSeen == 0 { e := e.(firstSeen := now); }
      if e.lastSeen == 0 { e := e.(lastSeen := e.firstSeen); }
      if e.lastSeen < e.firstSeen { return Some(BadTimes); }
      if e.requests == 0 { e := e.(requests := BackendRequests(e)); }
      return None;
    }

    method Normalise()
      modifies this
      ensures e == Canonical(old(e))
    {
      e := e.(agentId := TrimSpace(e.agentId));
      e := e.(protocol := ToLower(TrimSpace(e.protocol)));
      e := e.(direction := ToLower(TrimSpace(e.direction)));
      if e.protocol == ICMP { e := e.(srcPort := 0, dstPort := 0); }
      if e.direction == "" { e := e.(direction := EGRESS); }
    }
  }

  // ---------------------------------------------------------------- what an accepted event is

  predicate Trimmed(s: string) { s == "" || (!IsSpace(s[0]) && !IsSpace(Last(s))) }

  lemma {:induction false} TrimLeftShape(s: string)
    ensures var t := TrimLeft(s);
            && (t != "" ==> !IsSpace(t[0]) && s != "" && Last(t) == Last(s))
            && (s == "" || !IsSpace(s[0]) ==> t == s)
  {
    if s != "" && IsSpace(s[0]) { TrimLeftShape(s[1..]); }
  }

  lemma {:induction false} TrimRightShape(s: string)
    ensures var t := TrimRight(s);
            && (t != "" ==> !IsSpace(Last(t)) && s != "" && t[0] == s[0])
            && (s == "" || !IsSpace(Last(s)) ==> t == s)
  {
    if s != "" && IsSpace(Last(s)) { TrimRightShape(Init(s)); }
  }

  /** Trimming leaves no space at either end, and changes nothing when there was none. */
  lemma TrimSpaceShape(s: string)
    ensures Trimmed(TrimSpace(s))
    ensures Trimmed(s) ==> TrimSpace(s) == s
  {
    TrimLeftShape(s);
    TrimRightShape(TrimLeft(s));
  }

  lemma NormalNames(p: string)
    requires IsProtocol(p) || IsDirection(p)
    ensures Trimmed(p) && ToLower(TrimSpace(p)) == p
  {
    TrimSpaceShape(p);
    assert ToLower(p) == p;
  }

  predicate CountersOk(e: FlowEvent) {
    && e.sent >= 0 && e.received >= 0 && e.packets >= 0 && e.connections >= 0 && e.requests >= 0 && e.errors >= 0
    && e.retrans >= 0 && e.http1 >= 0 && e.http2 >= 0 && e.http3 >= 0 && e.http4 >= 0 && e.http5 >= 0
  }

  /** The requests the backend infers for an event that states none. */
  predicate Infers(e: FlowEvent, n: int) {
    && (e.errors > 0 ==> n == 0)
    && (e.errors <= 0 && e.connections > 0 ==> n == e.connections)
    && (e.errors <= 0 && e.connections <= 0 ==>
          n == if e.protocol in {"udp", "icmp"} && ((e.direction == "egress" && e.sent > 0) || (e.direction == "ingress" && e.received > 0))
               then 1 else 0)
  }

  /** What the rest of the backend may rely on after validation. */
  predicate Normal(e: FlowEvent, isAddr: string -> bool) {
    && e.agentId != "" && Trimmed(e.agentId)
    && (e.protocol == "tcp" || e.protocol == "udp" || e.protocol == "icmp") && (e.direction == "ingress" || e.direction == "egress")
    && isAddr(e.srcIp) && isAddr(e.dstIp)
    && 0 <= e.srcPort <= 65535 && 0 <= e.dstPort <= 65535 && (e.protocol == "icmp" ==> e.srcPort == e.dstPort == 0)
    && CountersOk(e) && e.avgRttMs >= 0.0 && e.avgDelayMs >= 0.0
    && (e.lastStatus == 0 || 100 <= e.lastStatus <= 599)
    && e.firstSeen <= e.lastSeen
    && (e.requests == 0 ==> Infers(e, 0))
  }

  /** Acceptance establishes `Normal`. */
  lemma AcceptedIsNormal(e: FlowEvent, isAddr: string -> bool, now: int)
    requires Validate(e, isAddr, now).Accepted?
    ensures Normal(Validate(e, isAddr, now).event, isAddr)
  {
    TrimSpaceShape(e.agentId);
  }

  /**
   * A normal event with its times set is a fixed point of validation, and nothing else
   * is: validation is a projection onto these events.
   */
  lemma FixedPoint(e: FlowEvent, isAddr: string -> bool, now: int)
    requires e.firstSeen != 0 && e.lastSeen != 0
    ensures Validate(e, isAddr, now) == Accepted(e) <==> Normal(e, isAddr)
  {
    if Normal(e, isAddr) {
      TrimSpaceShape(e.agentId);
      NormalNames(e.protocol);
      NormalNames(e.direction);
    } else if Validate(e, isAddr, now) == Accepted(e) {
      AcceptedIsNormal(e, isAddr, now);
    }
  }

  // ---------------------------------------------------------------- what validation does to any event

  /** White space by code point. */
  predicate IsBlank(c: char) {
    var n := c as int;
    9 <= n <= 13 || n == 0x20 || n == 0x85 || n == 0xA0 || n == 0x1680 || 0x2000 <= n <= 0x200A
    || n == 0x2028 || n == 0x2029 || n == 0x202F || n == 0x205F || n == 0x3000
  }

  predicate AllBlank(s: string) { forall i :: 0 <= i < |s| ==> IsBlank(s[i]) }

  /** `t` is `s` without the white space around it. */
  ghost predicate TrimsTo(s: string, t: string) {
    && (t == "" || (!IsBlank(t[0]) && !IsBlank(t[|t| - 1])))
    && exists n: nat :: TrimsAt(s, t, n)
  }

  predicate TrimsAt(s: string, t: string, n: nat) {
    n + |t| <= |s| && s[n..n + |t|] == t && AllBlank(s[..n]) && AllBlank(s[n + |t|..])
  }

  predicate LowersTo(s: string, t: string) {
    |t| == |s| && forall i :: 0 <= i < |s| ==> t[i] == if 'A' <= s[i] <= 'Z' then (s[i] as int + 32) as char else s[i]
  }

  ghost predicate NamedAs(s: string, t: string) { exists m :: TrimsTo(s, m) && LowersTo(m, t) }

  lemma SpaceIsBlank(c: char)
    ensures IsSpace(c) <==> IsBlank(c)
  {
  }

  lemma {:induction false} TrimLeftAt(s: string)
    ensures var t := TrimLeft(s); |t| <= |s| && s[|s| - |t|..] == t && AllBlank(s[..|s| - |t|])
  {
    if s != "" {
      SpaceIsBlank(s[0]);
      if IsSpace(s[0]) {
        TrimLeftAt(s[1..]);
        var t := TrimLeft(s[1..]);
        assert s[|s| - |t|..] == s[1..][|s| - 1 - |t|..];
        forall i | 0 <= i < |s| - |t| ensures IsBlank(s[i]) { if i > 0 { assert s[i] == s[1..][..|s| - 1 - |t|][i - 1]; } }
      }
    }
  }

  lemma {:induction false} TrimRightAt(s: string)
    ensures var t := TrimRight(s); |t| <= |s| && s[..|t|] == t && AllBlank(s[|t|..])
  {
    if s != "" {
      SpaceIsBlank(Last(s));
      if IsSpace(Last(s)) {
        TrimRightAt(Init(s));
        var t := TrimRight(Init(s));
        assert s[..|t|] == Init(s)[..|t|];
        forall i | |t| <= i < |s| ensures IsBlank(s[i]) { if i < |s| - 1 { assert s[i] == Init(s)[|t|..][i - |t|]; } }
      }
    }
  }

  lemma TrimJoin(s: string, l: string, t: string, n: nat)
    requires n + |l| == |s| && s[n..] == l && AllBlank(s[..n]) && |t| <= |l| && l[..|t|] == t && AllBlank(l[|t|..])
    ensures TrimsAt(s, t, n)
  {
    hide AllBlank;
    assert s[n..n + |t|] == l[..|t|] && s[n + |t|..] == l[|t|..];
  }

  lemma TrimSpaceMeans(s: string)
    ensures TrimsTo(s, TrimSpace(s))
  {
    hide TrimLeft, TrimRight, IsBlank, IsSpace, AllBlank, TrimsAt;
    var l, t := TrimLeft(s), TrimSpace(s);
    TrimLeftAt(s);
    TrimRightAt(l);
    TrimSpaceShape(s);
    if t != "" {
      SpaceIsBlank(t[0]);
      SpaceIsBlank(Last(t));
    }
    TrimJoin(s, l, t, |s| - |l|);
  }

  /** There is one way to trim. */
  lemma TrimUnique(s: string, t: string, u: string)
    requires TrimsTo(s, t) && TrimsTo(s, u)
    ensures t == u
  {
    var n: nat :| TrimsAt(s, t, n);
    var m: nat :| TrimsAt(s, u, m);
    hide IsBlank, AllBlank;
    if t == "" {
      TrimEmpty(s, t, n, u, m);
    } else if u == "" {
      TrimEmpty(s, u, m, t, n);
    } else {
      TrimStarts(s, t, n, u, m);
      TrimStarts(s, u, m, t, n);
    }
  }

  lemma BlankAt(s: string, t: string, n: nat, k: nat)
    requires TrimsAt(s, t, n) && k < |s| && !(n <= k < n + |t|)
    ensures IsBlank(s[k])
  {
    if k < n { assert s[..n][k] == s[k]; } else { assert s[n + |t|..][k - n - |t|] == s[k]; }
  }

  lemma Inside(s: string, t: string, n: nat, k: nat)
    requires TrimsAt(s, t, n) && k < |s| && !IsBlank(s[k])
    ensures n <= k < n + |t|
  {
    hide TrimsAt, IsBlank;
    if !(n <= k < n + |t|) { BlankAt(s, t, n, k); }
  }

  lemma EndsOf(s: string, t: string, n: nat)
    requires TrimsAt(s, t, n) && t != ""
    ensures n + |t| <= |s| && s[n] == t[0] && s[n + |t| - 1] == t[|t| - 1]
  {
    assert s[n..n + |t|][0] == s[n] && s[n..n + |t|][|t| - 1] == s[n + |t| - 1];
  }

  lemma TrimEmpty(s: string, t: string, n: nat, u: string, m: nat)
    requires TrimsAt(s, t, n) && TrimsAt(s, u, m) && t == "" && (u == "" || !IsBlank(u[0]))
    ensures u == ""
  {
    hide IsBlank, TrimsAt;
    if u != "" {
      EndsOf(s, u, m);
      Inside(s, t, n, m);
    }
  }

  /** Two trims of one text begin and end at the same places. */
  lemma TrimStarts(s: string, t: string, n: nat, u: string, m: nat)
    requires TrimsAt(s, t, n) && TrimsAt(s, u, m) && t != "" && !IsBlank(t[0]) && !IsBlank(t[|t| - 1])
    ensures m <= n && n + |t| <= m + |u|
  {
    hide IsBlank, TrimsAt;
    EndsOf(s, t, n);
    Inside(s, u, m, n);
    Inside(s, u, m, n + |t| - 1);
  }

  lemma ToLowerMeans(s: string)
    ensures LowersTo(s, ToLower(s))
  {
  }

  lemma LowerUnique(s: string, t: string, u: string)
    requires LowersTo(s, t) && LowersTo(s, u)
    ensures t == u
  {
    forall i | 0 <= i < |t| ensures t[i] == u[i] {}
  }

  lemma NameMeans(s: string, t: string)
    ensures NamedAs(s, t) <==> t == ToLower(TrimSpace(s))
  {
    TrimSpaceMeans(s);
    ToLowerMeans(TrimSpace(s));
    hide TrimSpace, TrimsTo, LowersTo, ToLower;
    if NamedAs(s, t) {
      var m :| TrimsTo(s, m) && LowersTo(m, t);
      TrimUnique(s, m, TrimSpace(s));
      LowerUnique(m, t, ToLower(m));
    }
  }

  /** What validation makes of an event: names trimmed and lowered, gaps filled, all else as it was. */
  ghost predicate BecomesNormal(e: FlowEvent, r: FlowEvent, now: int) {
    && TrimsTo(e.agentId, r.agentId) && NamedAs(e.protocol, r.protocol)
    && (NamedAs(e.direction, r.direction) || (NamedAs(e.direction, "") && r.direction == "egress"))
    && (NamedAs(e.direction, "") ==> r.direction == "egress")
    && r.srcPort == (if r.protocol == "icmp" then 0 else e.srcPort) && r.dstPort == (if r.protocol == "icmp" then 0 else e.dstPort)
    && r.firstSeen == (if e.firstSeen == 0 then now else e.firstSeen)
    && r.lastSeen == (if e.lastSeen == 0 then r.firstSeen else e.lastSeen)
    && (e.requests != 0 ==> r.requests == e.requests) && (e.requests == 0 ==> Infers(r, r.requests))
    && r == e.(agentId := r.agentId, protocol := r.protocol, direction := r.direction, srcPort := r.srcPort, dstPort := r.dstPort,
               firstSeen := r.firstSeen, lastSeen := r.lastSeen, requests := r.requests)
  }

  lemma InferenceMeans(e: FlowEvent, n: int)
    ensures Infers(e.(requests := n), n) <==> n == BackendRequests(e)
  {
  }

  lemma CanonicalMeans(e: FlowEvent, r: FlowEvent, now: int)
    ensures BecomesNormal(e, r, now) <==> r == Counted(Timed(Canonical(e), now))
  {
    TrimSpaceMeans(e.agentId);
    NameMeans(e.protocol, r.protocol);
    NameMeans(e.direction, r.direction);
    NameMeans(e.direction, "");
    var t := Timed(Canonical(e), now);
    InferenceMeans(t, r.requests);
    hide TrimSpace, ToLower, TrimsTo, NamedAs, Infers, BackendRequests;
    if BecomesNormal(e, r, now) { TrimUnique(e.agentId, r.agentId, TrimSpace(e.agentId)); }
    if BecomesNormal(e, r, now) || r == Counted(t) {
      assert t == r.(requests := e.requests);
      assert t.(requests := r.requests) == r;
    }
  }

  /** What must hold of an event in normal form so as not to be rejected for `why`. */
  predicate Passes(r: FlowEvent, isAddr: string -> bool, why: Rejection) {
    match why
    case AgentMissing => r.agentId != ""
    case BadProtocol => r.protocol == "tcp" || r.protocol == "udp" || r.protocol == "icmp"
    case BadDirection => r.direction == "ingress" || r.direction == "egress"
    case BadSource => isAddr(r.srcIp)
    case BadDestination => isAddr(r.dstIp)
    case BadPorts => 0 <= r.srcPort <= 65535 && 0 <= r.dstPort <= 65535
    case NegativeCounter => r.sent >= 0 && r.received >= 0 && r.packets >= 0 && r.connections >= 0 && r.requests >= 0
                            && r.errors >= 0 && r.retrans >= 0
    case NegativeLatency => r.avgRttMs >= 0.0 && r.avgDelayMs >= 0.0
    case NegativeStatusCount => r.http1 >= 0 && r.http2 >= 0 && r.http3 >= 0 && r.http4 >= 0 && r.http5 >= 0
    case BadStatus => r.lastStatus == 0 || 100 <= r.lastStatus <= 599
    case BadTimes => r.firstSeen <= r.lastSeen
  }

  /** The order of the checks. */
  function Rank(why: Rejection): nat {
    match why
    case AgentMissing => 0 case BadProtocol => 1 case BadDirection => 2 case BadSource => 3 case BadDestination => 4
    case BadPorts => 5 case NegativeCounter => 6 case NegativeLatency => 7 case NegativeStatusCount => 8 case BadStatus => 9
    case BadTimes => 10
  }

  /** `why` is the first check that fails. */
  ghost predicate FailsFirst(r: FlowEvent, isAddr: string -> bool, why: Rejection) {
    !Passes(r, isAddr, why) && forall w: Rejection :: Rank(w) < Rank(why) ==> Passes(r, isAddr, w)
  }

  lemma FailsFirstUnique(r: FlowEvent, isAddr: string -> bool, v: Rejection, w: Rejection)
    requires FailsFirst(r, isAddr, v) && FailsFirst(r, isAddr, w)
    ensures v == w
  {
    hide Passes;
    assert Rank(v) == Rank(w);
  }

  /** The chain of checks answers with the first that fails. */
  lemma FaultMeans(r: FlowEvent, isAddr: string -> bool)
    ensures match Fault(r, isAddr)
            case Some(why) => FailsFirst(r, isAddr, why)
            case None => forall w: Rejection :: w != BadTimes ==> Passes(r, isAddr, w)
  {
  }

  lemma StepsOf(e: FlowEvent, isAddr: string -> bool, now: int)
    ensures var t := Timed(Canonical(e), now);
            && t == Counted(t).(requests := e.requests) && Fault(t, isAddr) == Fault(Canonical(e), isAddr)
            && (Passes(t, isAddr, BadTimes) <==> t.firstSeen <= t.lastSeen)
  {
    hide TrimSpace, ToLower, BackendRequests;
  }

  lemma TimesComeLast(t: FlowEvent, isAddr: string -> bool)
    requires (forall w: Rejection :: w != BadTimes ==> Passes(t, isAddr, w)) && !Passes(t, isAddr, BadTimes)
    ensures FailsFirst(t, isAddr, BadTimes)
  {
    hide Passes;
  }

  /**
   * An event is rejected for `why` if and only if that is the first check that its normal
   * form fails.
   */
  lemma RejectedExactlyWhen(e: FlowEvent, r: FlowEvent, isAddr: string -> bool, now: int, why: Rejection)
    requires BecomesNormal(e, r, now)
    ensures Validate(e, isAddr, now) == Rejected(why) <==> FailsFirst(r.(requests := e.requests), isAddr, why)
  {
    hide BecomesNormal, Canonical, Fault, Passes, Timed, Counted, Rank;
    CanonicalMeans(e, r, now);
    var t := Timed(Canonical(e), now);
    StepsOf(e, isAddr, now);
    FaultMeans(t, isAddr);
    var given := Fault(t, isAddr);
    if given.Some? {
      if FailsFirst(t, isAddr, why) { FailsFirstUnique(t, isAddr, why, given.value); }
    } else if t.lastSeen < t.firstSeen {
      TimesComeLast(t, isAddr);
      if FailsFirst(t, isAddr, why) { FailsFirstUnique(t, isAddr, why, BadTimes); }
    }
  }

  /**
   * Validation on any event: it is accepted as `r` if and only if `r` is what the event
   * becomes when it is put in normal form, and `r` is normal.
   */
  lemma AcceptedExactlyWhen(e: FlowEvent, r: FlowEvent, isAddr: string -> bool, now: int)
    ensures Validate(e, isAddr, now) == Accepted(r) <==> BecomesNormal(e, r, now) && Normal(r, isAddr)
  {
    CanonicalMeans(e, r, now);
    TrimSpaceShape(e.agentId);
    if Validate(e, isAddr, now) == Accepted(r) { AcceptedIsNormal(e, isAddr, now); }
    hide BecomesNormal, TrimSpace, ToLower, Trimmed, BackendRequests;
  }

  // ---------------------------------------------------------------- the agent's payload

  /**
   * What the payload of a bucket says of its events besides the counters: the key, the means
   * of the positive samples, the first port, the last status and the span of times.
   */
  lemma PayloadShows(key: Key, xs: seq<Metric>)
    requires SameKey(key, xs)
    ensures var p := FromFlowState(Fold(key, xs));
            && p.agentId == key.agentId && p.srcIp == key.srcIp && p.dstIp == key.dstIp && p.dstPort == key.dstPort
            && p.protocol == key.protocol && p.direction == key.direction && p.iface == key.iface
            && p.avgRttMs == Mean(RttSamples(xs)) && p.avgDelayMs == Mean(DelaySamples(xs))
            && p.srcPort == FirstPort(xs) && p.lastStatus == LastStatus(xs)
            && IsEarliest(xs, p.firstSeen) && IsLatest(xs, p.lastSeen)
  {
    FoldSummarises(key, xs);
    hide Fold, Total;
  }

  /** What a collector guarantees of the events it emits. */
  predicate WellFormed(e: Metric, isAddr: string -> bool) {
    && e.agentId != "" && Trimmed(e.agentId) && IsProtocol(e.protocol) && IsDirection(e.direction)
    && isAddr(e.srcIp) && isAddr(e.dstIp)
    && 0 <= e.srcPort <= 65535 && 0 <= e.dstPort <= 65535 && (e.protocol == ICMP ==> e.srcPort == e.dstPort == 0)
    && 0 < e.firstSeen <= e.lastSeen
  }

  /** No events that add up to no requests and no errors could be read as requests later. */
  lemma {:induction false} SilentEvents(key: Key, xs: seq<Metric>)
    requires SameKey(key, xs) && Total(Requests, xs) == 0 && Total(Errors, xs) == 0
    ensures Total(Opens, xs) == 0
    ensures (key.protocol == UDP || key.protocol == ICMP) && IsDirection(key.direction)
            ==> Total(Sent, xs) == 0 && Total(Received, xs) == 0
  {
    if xs != [] {
      SilentEvents(key, Init(xs));
      assert KeyOf(Last(xs)) == key;
    }
  }

  lemma {:induction false} SumNonNegative(vs: seq<real>)
    requires AllPositive(vs)
    ensures SumR(vs) >= 0.0
  {
    if vs != [] {
      forall v | v in Init(vs) ensures v > 0.0 { assert v in vs; }
      SumNonNegative(Init(vs));
      assert Last(vs) in vs;
    }
  }

  lemma MeanNonNegative(vs: seq<real>)
    requires AllPositive(vs)
    ensures Mean(vs) >= 0.0
  {
    SumNonNegative(vs);
  }

  lemma MeansNonNegative(s: State, key: Key, xs: seq<Metric>)
    requires Summarises(s, key, xs)
    ensures s.rtt.avg >= 0.0 && s.delay.avg >= 0.0
  {
    MeanNonNegative(RttSamples(xs));
    MeanNonNegative(DelaySamples(xs));
  }

  lemma {:induction false} PortAndStatusInRange(xs: seq<Metric>)
    requires forall e :: e in xs ==> 0 <= e.srcPort <= 65535
    ensures 0 <= FirstPort(xs) <= 65535 && (LastStatus(xs) == 0 || IsStatus(LastStatus(xs)))
    ensures (forall e :: e in xs ==> e.srcPort == 0) ==> FirstPort(xs) == 0
  {
    if xs != [] { PortAndStatusInRange(Init(xs)); }
  }

  lemma TimesInOrder(s: State, key: Key, xs: seq<Metric>)
    requires Summarises(s, key, xs) && xs != []
    requires forall e :: e in xs ==> 0 < e.firstSeen <= e.lastSeen
    ensures 0 < s.firstSeen <= s.lastSeen
  {
    assert xs[0] in xs;
  }

  /** The counters that leave the agent. */
  ghost predicate BelowLimit(s: State, limit: int) {
    forall c: Counter :: c != RttCount && c != DelayCount ==> StateAmount(c, s) < limit
  }

  lemma CastSign(n: nat)
    requires n < TWO_64
    ensures AsInt64(n) >= 0 <==> n < TWO_63
    ensures n < TWO_63 ==> AsInt64(n) == n
  {
  }

  lemma CastCounters(s: State)
    requires BelowLimit(s, TWO_64)
    ensures CountersOk(FromFlowState(s)) <==> BelowLimit(s, TWO_63)
  {
    forall c: Counter | c != RttCount && c != DelayCount
      ensures AsInt64(StateAmount(c, s)) >= 0 <==> StateAmount(c, s) < TWO_63
    {
      CastSign(StateAmount(c, s));
    }
    assert StateAmount(Sent, s) == s.sent && StateAmount(Received, s) == s.received;
    assert StateAmount(Packets, s) == s.packets && StateAmount(Retrans, s) == s.retrans;
    assert StateAmount(Opens, s) == s.connection.open && StateAmount(Errors, s) == s.connection.errors;
    assert StateAmount(Requests, s) == s.connection.requests;
    assert StateAmount(Http1, s) == s.http.informational && StateAmount(Http2, s) == s.http.success;
    assert StateAmount(Http3, s) == s.http.redirect && StateAmount(Http4, s) == s.http.clientError;
    assert StateAmount(Http5, s) == s.http.serverError;
  }

  lemma InferenceOnTotals(p: FlowEvent, key: Key, xs: seq<Metric>)
    requires SameKey(key, xs) && IsDirection(key.direction)
    requires p.protocol == key.protocol && p.direction == key.direction
    requires p.requests == Total(Requests, xs) && p.errors == Total(Errors, xs) && p.connections == Total(Opens, xs)
    requires p.sent == Total(Sent, xs) && p.received == Total(Received, xs)
    ensures p.requests == 0 ==> BackendRequests(p) == 0
  {
    if p.requests == 0 && p.errors == 0 { SilentEvents(key, xs); }
  }

  /** In range, the backend's own inference finds nothing the agent did not already count. */
  lemma InferenceAddsNothing(s: State, key: Key, xs: seq<Metric>)
    requires Summarises(s, key, xs) && SameKey(key, xs) && IsDirection(key.direction) && BelowLimit(s, TWO_63)
    ensures FromFlowState(s).requests == 0 ==> BackendRequests(FromFlowState(s)) == 0
  {
    ExportedTotal(s, key, xs, Requests);
    ExportedTotal(s, key, xs, Errors);
    ExportedTotal(s, key, xs, Opens);
    ExportedTotal(s, key, xs, Sent);
    ExportedTotal(s, key, xs, Received);
    hide AsInt64, Total, BackendRequests, Describes, DelayDescribes, IsEarliest, IsLatest, Names, BelowLimit;
    InferenceOnTotals(FromFlowState(s), key, xs);
  }

  lemma ExportedTotal(s: State, key: Key, xs: seq<Metric>, c: Counter)
    requires Summarises(s, key, xs) && BelowLimit(s, TWO_63) && c != RttCount && c != DelayCount
    ensures AsInt64(StateAmount(c, s)) == Total(c, xs)
  {
    CastSign(StateAmount(c, s));
  }

  /**
   * For every non-empty sequence of well-formed events of one bucket, whose 64-bit counters
   * did not wrap, the exported payload passes validation unchanged exactly when every
   * counter also fits the signed type it is sent in.
   */
  lemma PayloadAcceptedUnchanged(key: Key, xs: seq<Metric>, isAddr: string -> bool, now: int)
    requires xs != [] && SameKey(key, xs) && forall e :: e in xs ==> WellFormed(e, isAddr)
    requires BelowLimit(Fold(key, xs), TWO_64)
    ensures var p := FromFlowState(Fold(key, xs));
            Validate(p, isAddr, now) == Accepted(p) <==> BelowLimit(Fold(key, xs), TWO_63)
  {
    var s := Fold(key, xs);
    var p := FromFlowState(s);
    FoldSummarises(key, xs);
    hide Fold, Validate, Normal, Summarises, WellFormed, BelowLimit, CountersOk, Infers, FromFlowState, BackendRequests;
    PayloadShape(s, key, xs, isAddr);
    CastCounters(s);
    FixedPoint(p, isAddr, now);
    if BelowLimit(s, TWO_63) {
      KeyIsSound(key, xs, isAddr);
      InferenceAddsNothing(s, key, xs);
      InferenceMeans(p, 0);
      assert p.requests == 0 ==> p.(requests := 0) == p;
    }
  }

  lemma KeyIsSound(key: Key, xs: seq<Metric>, isAddr: string -> bool)
    requires xs != [] && SameKey(key, xs) && forall e :: e in xs ==> WellFormed(e, isAddr)
    ensures key.agentId != "" && Trimmed(key.agentId) && IsProtocol(key.protocol) && IsDirection(key.direction)
    ensures isAddr(key.srcIp) && isAddr(key.dstIp) && 0 <= key.dstPort <= 65535 && (key.protocol == ICMP ==> key.dstPort == 0)
  {
    assert xs[0] in xs && KeyOf(xs[0]) == key;
    hide Trimmed;
  }

  /** Of a well-formed bucket's payload only the counters and their inference can be wrong. */
  lemma PayloadShape(s: State, key: Key, xs: seq<Metric>, isAddr: string -> bool)
    requires Summarises(s, key, xs) && xs != [] && SameKey(key, xs) && forall e :: e in xs ==> WellFormed(e, isAddr)
    ensures var p := FromFlowState(s);
            && p.firstSeen != 0 && p.lastSeen != 0
            && (Normal(p, isAddr) <==> CountersOk(p) && (p.requests == 0 ==> Infers(p, 0)))
  {
    KeyIsSound(key, xs, isAddr);
    MeansNonNegative(s, key, xs);
    PortsAreSound(key, xs, isAddr);
    TimesInOrder(s, key, xs);
    hide Describes, DelayDescribes, IsEarliest, IsLatest, Names, Total, CountersOk, Infers, WellFormed, AsInt64, SameKey, Trimmed;
  }

  lemma PortsAreSound(key: Key, xs: seq<Metric>, isAddr: string -> bool)
    requires SameKey(key, xs) && forall e :: e in xs ==> WellFormed(e, isAddr)
    ensures 0 <= FirstPort(xs) <= 65535 && (LastStatus(xs) == 0 || IsStatus(LastStatus(xs)))
    ensures key.protocol == ICMP ==> FirstPort(xs) == 0
  {
    PortAndStatusInRange(xs);
    forall e | e in xs && key.protocol == ICMP ensures e.srcPort == 0 { assert KeyOf(e) == key; }
    hide Trimmed;
  }
}
