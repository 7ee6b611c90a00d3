/**
 * What a reachability edge shows of its probes: how many failed, when they were last seen and
 * last failed, the latest round trip, and when it counts as reachable.
 */
module GraphProbes {
  import opened Prelude
  import opened GraphModel
  import opened GraphTraffic
  import opened GraphShape
  import GraphOrder

  // ---------------------------------------------------------------- the fold is over the kept probes

  /** A stored probe that belongs on the graph: two different VMs and addresses, none noise, listed or filtered out. */
  predicate ProbeEligible(env: Env, nodes: map<string, Node>, p: ProbeRow) {
    && p.src.vm != "" && p.dst.vm != "" && p.src.vm != p.dst.vm && p.src.ip != p.dst.ip
    && !env.isNoise(p.src.ip) && !env.isNoise(p.dst.ip)
    && (p.src.ip in env.visibility.excludedIps ==> p.src.ip == "") && (p.dst.ip in env.visibility.excludedIps ==> p.dst.ip == "")
    && (p.src.vm in env.registered ==> p.src.vm in nodes) && (p.dst.vm in env.registered ==> p.dst.vm in nodes)
  }

  lemma ProbeKeptExactlyWhen(env: Env, nodes: map<string, Node>, p: ProbeRow)
    ensures ProbeKept(env, nodes, p) <==> ProbeEligible(env, nodes, p)
  {
  }

  function KeptProbes(env: Env, nodes: map<string, Node>, probes: seq<ProbeRow>): seq<ProbeRow> {
    if probes == [] then []
    else
      var rest := KeptProbes(env, nodes, Init(probes));
      if ProbeEligible(env, nodes, Last(probes)) then rest + [Last(probes)] else rest
  }

  function AddProbes(env: Env, g: Graph, ps: seq<ProbeRow>): Graph {
    if ps == [] then g else AddProbe(env, AddProbes(env, g, Init(ps)), Last(ps))
  }

  lemma ProbeKeptIsStatic(env: Env, a: map<string, Node>, b: map<string, Node>, p: ProbeRow)
    requires SameVisible(env, a, b)
    ensures ProbeKept(env, a, p) == ProbeKept(env, b, p)
  {
    hide HiddenByIps;
  }

  lemma AddProbesSnoc(env: Env, g: Graph, ps: seq<ProbeRow>, p: ProbeRow)
    ensures AddProbes(env, g, ps + [p]) == AddProbe(env, AddProbes(env, g, ps), p)
  {
    hide AddProbe;
    assert Init(ps + [p]) == ps;
  }

  /** Which probes are kept is fixed before the fold, although the code tests the growing node map. */
  lemma {:induction false} ProbeFoldAddsKept(env: Env, g: Graph, probes: seq<ProbeRow>)
    ensures ProbeFold(env, g, probes) == AddProbes(env, g, KeptProbes(env, g.nodes, probes))
    ensures SameVisible(env, ProbeFold(env, g, probes).nodes, g.nodes)
  {
    hide ProbeKept, ProbeEligible, AddProbe;
    if probes != [] {
      var h, p := ProbeFold(env, g, Init(probes)), Last(probes);
      ProbeKeptExactlyWhen(env, g.nodes, p);
      ProbeFoldAddsKept(env, g, Init(probes));
      ProbeKeptIsStatic(env, h.nodes, g.nodes, p);
      if ProbeKept(env, h.nodes, p) {
        AddProbeKeepsVisible(env, h, p);
        AddProbesSnoc(env, g, KeptProbes(env, g.nodes, Init(probes)), p);
      }
    }
  }

  // ---------------------------------------------------------------- reference

  /** The kept probes of one edge, in query order. */
  function ProbesOn(id: string, ps: seq<ProbeRow>): seq<ProbeRow> {
    if ps == [] then [] else if ProbeId(Last(ps)) == id then ProbesOn(id, Init(ps)) + [Last(ps)] else ProbesOn(id, Init(ps))
  }

  function Failures(ps: seq<ProbeRow>): nat {
    if ps == [] then 0 else Failures(Init(ps)) + if Last(ps).success then 0 else 1
  }

  /** First and last seen are the extremes. */
  ghost predicate SpansProbes(t: Times, ps: seq<ProbeRow>) {
    && (exists p :: p in ps && p.firstSeen == t.firstSeen) && (forall p :: p in ps ==> t.firstSeen <= p.firstSeen)
    && (exists p :: p in ps && p.lastSeen == t.lastSeen) && (forall p :: p in ps ==> p.lastSeen <= t.lastSeen)
  }

  /** Probe `i` is the first of those observed last. */
  ghost predicate IsNewest(ps: seq<ProbeRow>, i: int) {
    && 0 <= i < |ps|
    && (forall j :: 0 <= j < i ==> ps[j].observedAt < ps[i].observedAt)
    && (forall j :: i <= j < |ps| ==> ps[j].observedAt <= ps[i].observedAt)
  }

  /** Time and round trip are those of the newest probe. */
  ghost predicate ShowsNewest(e: Edge, ps: seq<ProbeRow>) {
    exists i :: IsNewest(ps, i) && e.times.lastObserved == ps[i].observedAt && e.avgRtt == ps[i].rtt
  }

  /** `t` is the time of the latest failure, and null when there was none. */
  ghost predicate IsLatestFailure(t: Option<int>, ps: seq<ProbeRow>) {
    && (t.Some? ==> exists p :: p in ps && !p.success && p.observedAt == t.value)
    && (forall p :: p in ps && !p.success ==> t.Some? && p.observedAt <= t.value)
  }

  /** A failure takes an edge down only if it is newer than everything before it in query order. */
  ghost predicate TakesDown(ps: seq<ProbeRow>, j: nat)
    requires j < |ps|
  {
    !ps[j].success && forall i :: 0 <= i < j ==> ps[i].observedAt < ps[j].observedAt
  }

  ghost predicate Up(ps: seq<ProbeRow>) {
    exists i :: 0 <= i < |ps| && ps[i].success && forall j :: i < j < |ps| ==> !TakesDown(ps, j)
  }

  function LastFailedPort(ps: seq<ProbeRow>): int
    requires Failures(ps) > 0
  {
    if !Last(ps).success then Last(ps).dstPort else LastFailedPort(Init(ps))
  }

  function ProbePorts(ps: seq<ProbeRow>): seq<int> {
    if ps == [] then [] else ProbePorts(Init(ps)) + [Last(ps).dstPort]
  }

  /** The port of the last failure in query order, or of the first service port when none failed. */
  ghost predicate ShowsPort(e: Edge, ps: seq<ProbeRow>) {
    e.dstPort == if Failures(ps) > 0 then LastFailedPort(ps) else GraphOrder.ShownPort(ProbePorts(ps))
  }

  /** Until the window after the latest failure ends, and never before the zero time. */
  predicate FailsUntil(env: Env, e: Edge) {
    e.failedUntil == if e.times.lastErrorAt.Some? then Max(0, e.times.lastErrorAt.value + env.window) else 0
  }

  /** What the first probe fixes. */
  predicate ShowsFirst(e: Edge, ps: seq<ProbeRow>)
    requires ps != []
  {
    e.scope == ps[0].scope && e.weight == 1 && e.kind == Reachability && e.avgDelay == 0.0 && e.lastStatus == 0
  }

  ghost predicate ShowsProbes(env: Env, e: Edge, ps: seq<ProbeRow>) {
    && ps != [] && ShowsFirst(e, ps) && (env.now >= 0 ==> ShowsPort(e, ps)) 
    && FailsUntil(env, e)
    && SpansProbes(e.times, ps)
    && ShowsNewest(e, ps)
    && IsLatestFailure(e.times.lastErrorAt, ps)
    && e.totals.errors == Failures(ps)
    && (e.failed <==> Failures(ps) > 0)
    && (e.reachable <==> Up(ps))
  }

  // ---------------------------------------------------------------- one more probe

  lemma SpanStep(t: Times, ps: seq<ProbeRow>, p: ProbeRow, u: Times)
    requires ps == [] ==> u.firstSeen == p.firstSeen && u.lastSeen == p.lastSeen
    requires ps != [] ==> SpansProbes(t, ps) && u.firstSeen == Min(t.firstSeen, p.firstSeen) && u.lastSeen == Max(t.lastSeen, p.lastSeen)
    ensures SpansProbes(u, ps + [p])
  {
    var qs := ps + [p];
    assert p in qs && forall x :: x in qs <==> x in ps || x == p;
    if ps != [] {
      var f :| f in ps && f.firstSeen == t.firstSeen;
      var l :| l in ps && l.lastSeen == t.lastSeen;
      assert f in qs && l in qs;
    }
  }

  lemma FailureStep(t: Option<int>, ps: seq<ProbeRow>, p: ProbeRow)
    requires IsLatestFailure(t, ps)
    ensures IsLatestFailure(if p.success then t else LaterOf(t, Some(p.observedAt)), ps + [p])
  {
    var qs := ps + [p];
    assert p in qs && forall x :: x in qs <==> x in ps || x == p;
    if t.Some? {
      var f :| f in ps && !f.success && f.observedAt == t.value;
      assert f in qs;
    }
  }

  /** A probe is newer than what was shown exactly when it is newer than every earlier one. */
  lemma NewerThanAll(e: Edge, ps: seq<ProbeRow>, p: ProbeRow)
    requires ShowsNewest(e, ps)
    ensures p.observedAt > e.times.lastObserved <==> forall i :: 0 <= i < |ps| ==> ps[i].observedAt < p.observedAt
  {
    var i :| IsNewest(ps, i) && e.times.lastObserved == ps[i].observedAt;
  }

  lemma NewestStep(e: Edge, ps: seq<ProbeRow>, p: ProbeRow, f: Edge)
    requires ps == [] ==> f.times.lastObserved == p.observedAt && f.avgRtt == p.rtt
    requires ps != [] ==>
               && ShowsNewest(e, ps) && f.times.lastObserved == Max(e.times.lastObserved, p.observedAt)
               && f.avgRtt == if p.observedAt > e.times.lastObserved then p.rtt else e.avgRtt
    ensures ShowsNewest(f, ps + [p])
  {
    var qs := ps + [p];
    if ps == [] || p.observedAt > e.times.lastObserved {
      if ps != [] { NewerThanAll(e, ps, p); }
      assert IsNewest(qs, |ps|) && qs[|ps|] == p;
    } else {
      var i :| IsNewest(ps, i) && e.times.lastObserved == ps[i].observedAt && e.avgRtt == ps[i].rtt;
      assert IsNewest(qs, i) && qs[i] == ps[i];
    }
  }

  lemma TakesDownPrefix(ps: seq<ProbeRow>, p: ProbeRow, j: nat)
    requires j < |ps|
    ensures TakesDown(ps + [p], j) == TakesDown(ps, j)
  {
    var qs := ps + [p];
    forall i | 0 <= i < |ps| ensures qs[i] == ps[i] {}
    if TakesDown(qs, j) {
      forall i | 0 <= i < j ensures ps[i].observedAt < ps[j].observedAt { assert qs[i].observedAt < qs[j].observedAt; }
    }
  }

  lemma TakesDownLast(ps: seq<ProbeRow>, p: ProbeRow)
    ensures TakesDown(ps + [p], |ps|) <==> !p.success && forall i :: 0 <= i < |ps| ==> ps[i].observedAt < p.observedAt
  {
    var qs := ps + [p];
    if TakesDown(qs, |ps|) {
      forall i | 0 <= i < |ps| ensures ps[i].observedAt < p.observedAt { assert qs[i].observedAt < qs[|ps|].observedAt; }
    }
  }

  lemma UpStep(ps: seq<ProbeRow>, p: ProbeRow)
    ensures Up(ps + [p]) <==> p.success || (Up(ps) && !TakesDown(ps + [p], |ps|))
  {
    var qs := ps + [p];
    assert qs[|ps|] == p;
    forall j | 0 <= j < |ps| ensures TakesDown(qs, j) == TakesDown(ps, j) { TakesDownPrefix(ps, p, j); }
    hide TakesDown;
    if Up(qs) && !p.success {
      var i :| 0 <= i < |qs| && qs[i].success && forall j :: i < j < |qs| ==> !TakesDown(qs, j);
      assert i < |ps| && ps[i].success;
    }
    if Up(ps) && !TakesDown(qs, |ps|) {
      var i :| 0 <= i < |ps| && ps[i].success && forall j :: i < j < |ps| ==> !TakesDown(ps, j);
      assert qs[i].success;
    }
  }

  lemma NothingUp()
    ensures !Up([])
  {
  }

  lemma ReachableStep(e: Edge, ps: seq<ProbeRow>, p: ProbeRow, reachable: bool)
    requires ps == [] ==> reachable == p.success
    requires ps != [] ==>
               && ShowsNewest(e, ps) && (e.reachable <==> Up(ps))
               && reachable == (p.success || (e.reachable && p.observedAt <= e.times.lastObserved))
    ensures reachable <==> Up(ps + [p])
  {
    UpStep(ps, p);
    TakesDownLast(ps, p);
    hide Up, TakesDown;
    assert ps == [] ==> !Up(ps) by { NothingUp(); }
    if ps != [] { NewerThanAll(e, ps, p); }
  }

  lemma CountStep(ps: seq<ProbeRow>, p: ProbeRow)
    ensures Failures(ps + [p]) == Failures(ps) + if p.success then 0 else 1
  {
    assert Init(ps + [p]) == ps;
  }

  lemma {:induction false} ProbePortsLength(ps: seq<ProbeRow>)
    ensures |ProbePorts(ps)| == |ps|
  {
    if ps != [] { ProbePortsLength(Init(ps)); }
  }

  /** A failure sets the port; a success does only as long as nothing failed. */
  lemma PortStep(port: int, ps: seq<ProbeRow>, p: ProbeRow, next: int)
    requires ps == [] ==> next == p.dstPort
    requires ps != [] ==>
               && port == (if Failures(ps) > 0 then LastFailedPort(ps) else GraphOrder.ShownPort(ProbePorts(ps)))
               && next == if !p.success then p.dstPort else if Failures(ps) == 0 then PreferredPort(port, p.dstPort) else port
    ensures Failures(ps + [p]) > 0 ==> next == LastFailedPort(ps + [p])
    ensures Failures(ps + [p]) == 0 ==> next == GraphOrder.ShownPort(ProbePorts(ps + [p]))
  {
    hide PreferredPort, Failures, LastFailedPort, ProbePorts, GraphOrder.ShownPort;
    CountStep(ps, p);
    FailedPortStep(ps, p);
    PortsStep(ps, p);
    assert ps == [] ==> Failures(ps) == 0 by { NoFailures([]); }
  }

  lemma FailedPortStep(ps: seq<ProbeRow>, p: ProbeRow)
    ensures Failures(ps + [p]) > 0 ==>
              (p.success ==> Failures(ps) > 0) && LastFailedPort(ps + [p]) == if p.success then LastFailedPort(ps) else p.dstPort
  {
    assert Init(ps + [p]) == ps;
    CountStep(ps, p);
  }

  lemma PortsStep(ps: seq<ProbeRow>, p: ProbeRow)
    ensures GraphOrder.ShownPort(ProbePorts(ps + [p]))
            == if ps == [] then p.dstPort else PreferredPort(GraphOrder.ShownPort(ProbePorts(ps)), p.dstPort)
  {
    hide PreferredPort;
    var qs := ps + [p];
    assert Init(qs) == ps && Last(qs) == p;
    ProbePortsLength(ps);
    ProbePortsLength(qs);
    assert Init(ProbePorts(qs)) == ProbePorts(ps);
  }

  lemma {:induction false} NoFailedProbe(ps: seq<ProbeRow>, t: Option<int>)
    requires IsLatestFailure(t, ps)
    ensures Failures(ps) == 0 <==> t.None?
  {
    if t.Some? {
      var p :| p in ps && !p.success && p.observedAt == t.value;
      FailureCounts(ps, p);
    } else {
      NoFailures(ps);
    }
  }

  lemma {:induction false} FailureCounts(ps: seq<ProbeRow>, p: ProbeRow)
    requires p in ps && !p.success
    ensures Failures(ps) > 0
  {
    assert ps == Init(ps) + [Last(ps)];
    if p in Init(ps) { FailureCounts(Init(ps), p); }
  }

  lemma EdgeFails(env: Env, before: Option<Edge>, p: ProbeRow)
    requires before.Some? ==> FailsUntil(env, before.value)
    ensures FailsUntil(env, ProbeEdgeWith(env, before, p))
  {
    hide PreferredPort;
  }

  lemma EdgePort(env: Env, before: Option<Edge>, ps: seq<ProbeRow>, p: ProbeRow)
    requires before.Some? ==> ps != [] && ShowsProbes(env, before.value, ps)
    requires before.None? ==> ps == []
    ensures env.now >= 0 ==> ShowsPort(ProbeEdgeWith(env, before, p), ps + [p])
  {
    var f := ProbeEdgeWith(env, before, p);
    var e := if before.Some? then before.value else NewProbeEdge(p);
    if before.Some? { NoFailedProbe(ps, e.times.lastErrorAt); }
    hide SpansProbes, ShowsNewest, IsLatestFailure, Failures, Up, PreferredPort, LaterOf, LastFailedPort, ProbePorts, GraphOrder.ShownPort;
    if env.now >= 0 { PortStep(e.dstPort, ps, p, f.dstPort); }
  }

  lemma EdgeOutcome(env: Env, before: Option<Edge>, ps: seq<ProbeRow>, p: ProbeRow)
    requires before.Some? ==> ps != [] && ShowsProbes(env, before.value, ps)
    requires before.None? ==> ps == []
    ensures var f := ProbeEdgeWith(env, before, p);
            SpansProbes(f.times, ps + [p]) && ShowsNewest(f, ps + [p]) && (f.reachable <==> Up(ps + [p]))
  {
    var f := ProbeEdgeWith(env, before, p);
    var e := if before.Some? then before.value else NewProbeEdge(p);
    hide SpansProbes, ShowsNewest, IsLatestFailure, Failures, Up, PreferredPort, LaterOf, ShowsPort;
    SpanStep(e.times, ps, p, f.times);
    NewestStep(e, ps, p, f);
    ReachableStep(e, ps, p, f.reachable);
  }

  lemma EdgeShowsOneMore(env: Env, before: Option<Edge>, ps: seq<ProbeRow>, p: ProbeRow)
    requires before.Some? ==> ps != [] && ShowsProbes(env, before.value, ps)
    requires before.None? ==> ps == []
    ensures ShowsProbes(env, ProbeEdgeWith(env, before, p), ps + [p])
  {
    CountStep(ps, p);
    assert before.None? ==> IsLatestFailure(None, ps) && Failures(ps) == 0;
    FailureStep(if before.Some? then before.value.times.lastErrorAt else None, ps, p);
    EdgePort(env, before, ps, p);
    EdgeOutcome(env, before, ps, p);
    EdgeFails(env, before, p);
    assert (ps + [p])[0] == if ps == [] then p else ps[0];
    hide SpansProbes, ShowsNewest, IsLatestFailure, Failures, Up, PreferredPort, LaterOf, ShowsPort, FailsUntil;
  }

  // ---------------------------------------------------------------- main results

  lemma {:induction false} AddedProbesShow(env: Env, g: Graph, ps: seq<ProbeRow>, id: string)
    requires id !in g.edges
    ensures var edges := AddProbes(env, g, ps).edges;
            (id in edges <==> ProbesOn(id, ps) != []) && (id in edges ==> ShowsProbes(env, edges[id], ProbesOn(id, ps)))
  {
    hide ShowsProbes, ProbeEdgeWith, ProbeId, EnsureNode;
    if ps != [] {
      var rest, p := Init(ps), Last(ps);
      AddedProbesShow(env, g, rest, id);
      var h := AddProbes(env, g, rest);
      if ProbeId(p) == id { EdgeShowsOneMore(env, Lookup(h.edges, id), ProbesOn(id, rest), p); }
    }
  }

  /**
   * For every list of probes, a reachability edge exists exactly when it has a kept probe. It
   * then counts the failed ones as errors, spans their times, shows the newest one's time and
   * round trip, the latest failure's time and the port of the last failure listed, or the
   * first service port when none failed, and is reachable exactly when some probe
   * succeeded and no later one in query order failed and was newer than all before it.
   */
  lemma ReachabilityEdgeShows(env: Env, g: Graph, probes: seq<ProbeRow>, id: string)
    requires id !in g.edges
    ensures var ps, edges := ProbesOn(id, KeptProbes(env, g.nodes, probes)), ProbeFold(env, g, probes).edges;
            (id in edges <==> ps != []) && (id in edges ==> ShowsProbes(env, edges[id], ps))
  {
    hide ProbeFold, AddProbes, KeptProbes, ProbesOn, ShowsProbes, SameVisible;
    ProbeFoldAddsKept(env, g, probes);
    AddedProbesShow(env, g, KeptProbes(env, g.nodes, probes), id);
  }

  // ---------------------------------------------------------------- in the query's own order

  ghost predicate NewestFirst(ps: seq<ProbeRow>) {
    forall i, j :: 0 <= i < j < |ps| ==> ps[j].observedAt <= ps[i].observedAt
  }

  /** What is kept of an edge comes from the list, and later than nothing that was later. */
  lemma {:induction false} KeptOnMember(env: Env, nodes: map<string, Node>, probes: seq<ProbeRow>, id: string, p: ProbeRow)
    requires p in ProbesOn(id, KeptProbes(env, nodes, probes))
    ensures p in probes
  {
    hide ProbeEligible, ProbeId;
    if probes != [] {
      assert probes == Init(probes) + [Last(probes)];
      var ks := KeptProbes(env, nodes, Init(probes));
      assert Init(ks + [Last(probes)]) == ks;
      if p in ProbesOn(id, ks) { KeptOnMember(env, nodes, Init(probes), id, p); }
    }
  }

  lemma {:induction false} KeptInOrder(env: Env, nodes: map<string, Node>, probes: seq<ProbeRow>, id: string)
    requires NewestFirst(probes)
    ensures NewestFirst(ProbesOn(id, KeptProbes(env, nodes, probes)))
  {
    hide ProbeEligible, ProbeId;
    if probes != [] {
      var rest, p := Init(probes), Last(probes);
      KeptInOrder(env, nodes, rest, id);
      var ks := KeptProbes(env, nodes, rest);
      assert Init(ks + [p]) == ks;
      forall x | x in ProbesOn(id, ks) ensures p.observedAt <= x.observedAt {
        KeptOnMember(env, nodes, rest, id, x);
        var i :| 0 <= i < |rest| && rest[i] == x;
        assert probes[i] == x && probes[|probes| - 1] == p;
      }
      hide KeptProbes, ProbesOn;
      SnocInOrder(ProbesOn(id, ks), p);
    }
  }

  lemma SnocInOrder(ps: seq<ProbeRow>, p: ProbeRow)
    requires NewestFirst(ps) && forall x :: x in ps ==> p.observedAt <= x.observedAt
    ensures NewestFirst(ps + [p])
  {
  }

  /**
   * The query lists probes newest first. In that order one success anywhere makes the edge
   * reachable, even when its newest probe failed, and a failure alone never takes it down.
   */
  lemma AnySuccessIsReachable(env: Env, g: Graph, probes: seq<ProbeRow>, id: string)
    requires NewestFirst(probes) && id !in g.edges && id in ProbeFold(env, g, probes).edges
    ensures ProbeFold(env, g, probes).edges[id].reachable
            <==> exists p :: p in ProbesOn(id, KeptProbes(env, g.nodes, probes)) && p.success
  {
    ReachabilityEdgeShows(env, g, probes, id);
    KeptInOrder(env, g.nodes, probes, id);
    var ps := ProbesOn(id, KeptProbes(env, g.nodes, probes));
    hide ProbeFold, KeptProbes, ProbesOn, SpansProbes, ShowsNewest, IsLatestFailure, Failures;
    UpNewestFirst(ps);
  }

  lemma UpNewestFirst(ps: seq<ProbeRow>)
    requires NewestFirst(ps)
    ensures Up(ps) <==> exists p :: p in ps && p.success
  {
    if p :| p in ps && p.success {
      var i :| 0 <= i < |ps| && ps[i] == p;
      forall j | i < j < |ps| ensures !TakesDown(ps, j) { assert ps[j].observedAt <= ps[i].observedAt; }
    }
  }

  /**
   * What is returned: once a probe failed, the edge shows as failed exactly until the window
   * after the latest failure ends. 0 is the zero time, which counts as no failure.
   */
  lemma FailedForAWindow(env: Env, e: Edge, ps: seq<ProbeRow>)
    requires ShowsProbes(env, e, ps) && e.times.lastErrorAt != Some(0)
    ensures SetActivity(env, e).failed
            <==> exists p :: p in ps && !p.success && env.now < p.observedAt + env.window
  {
    hide SpansProbes, ShowsNewest, Up;
    if e.times.lastErrorAt.Some? {
      var f :| f in ps && !f.success && f.observedAt == e.times.lastErrorAt.value;
    } else {
      NoFailures(ps);
    }
  }

  lemma {:induction false} NoFailures(ps: seq<ProbeRow>)
    requires forall p :: p in ps ==> p.success
    ensures Failures(ps) == 0
  {
    if ps != [] {
      assert ps == Init(ps) + [Last(ps)];
      NoFailures(Init(ps));
    }
  }
}
