/** The graph query in its own form: two maps, mutated in loops. */
module GraphService {
  import opened Prelude
  import opened GraphIds
  import opened GraphModel
  import opened GraphShape
  import opened Smoothing

  class Builder {
    var nodes: map<string, Node>
    var edges: map<string, Edge>

    ghost function View(): Graph
      reads this
    {
      Graph(nodes, edges)
    }

    constructor ()
      ensures View() == Graph(map[], map[])
    {
      nodes, edges := map[], map[];
    }

    method SeedVms(f: Filter, vms: seq<Vm>) returns (registered: set<string>)
      requires nodes == map[]
      modifies `nodes
      ensures nodes == Seed(f, vms) && registered == Registered(vms)
    {
      registered := {};
      for i := 0 to |vms|
        invariant nodes == Seed(f, vms[..i]) && registered == Registered(vms[..i])
      {
        assert Init(vms[..i + 1]) == vms[..i];
        registered := registered + {vms[i].id};
        if Passes(f, vms[i]) { nodes := nodes[vms[i].id := SeedNode(vms[i])]; }
      }
      assert vms[..|vms|] == vms;
    }

    /** The field-by-field update of one edge by one row. */
    method MergeInto(edge: Edge, r: FlowRow) returns (e: Edge)
      ensures e == UpdateEdge(edge, r)
    {
      e := edge.(totals := AddTotals(edge.totals, r.totals));
      e := e.(avgRtt := MergeAverageMetric(e.avgRtt, r.avgRtt));
      e := e.(avgDelay := MergeAverageMetric(e.avgDelay, r.avgDelay));
      if r.lastStatus != 0 { e := e.(lastStatus := r.lastStatus); }
      var t := e.times;
      if r.lastErrorAt.Some? && (t.lastErrorAt.None? || r.lastErrorAt.value > t.lastErrorAt.value) {
        t := t.(lastErrorAt := r.lastErrorAt);
      }
      if r.firstSeen < t.firstSeen { t := t.(firstSeen := r.firstSeen); }
      if r.lastSeen > t.lastSeen { t := t.(lastSeen := r.lastSeen); }
      if r.observedAt > t.lastObserved { t := t.(lastObserved := r.observedAt); }
      e := e.(times := t, weight := EdgeWeight(e.totals.sent + e.totals.received));
    }

    /** A kept row goes into its two nodes and its edge. */
    method CountRow(r: FlowRow)
      modifies this
      ensures View() == AddRow(old(View()), r)
    {
      hide SourceId, TargetId, SourceNode, TargetNode, RowId, PreferredPort, UpdateEdge, NewEdge;
      var source, target, id := SourceId(r), TargetId(r), RowId(r);
      if source !in nodes { nodes := nodes[source := SourceNode(r)]; }
      if target !in nodes { nodes := nodes[target := TargetNode(r)]; }
      var edge := if id in edges then edges[id].(dstPort := PreferredPort(edges[id].dstPort, r.dst.port))
                  else NewEdge(source, target, r);
      edge := MergeInto(edge, r);
      edges := edges[id := edge];
      nodes := AddTraffic(nodes, source, r.totals.received, r.totals.sent);
      nodes := AddTraffic(nodes, target, r.totals.sent, r.totals.received);
    }

    /** One flow row: turned round where needed, then skipped or counted. */
    method AddFlowRow(env: Env, row: FlowRow)
      modifies this
      ensures View() == FlowStep(env, old(View()), row)
    {
      hide Hidden, AddRow, Normalize;
      var r := Normalize(row);
      if Hidden(env, r) { return; }
      if r.src.ip == r.dst.ip || (r.src.vm != "" && r.src.vm == r.dst.vm) { return; }
      if r.src.vm in env.registered && r.src.vm !in nodes { return; }
      if r.dst.vm in env.registered && r.dst.vm !in nodes { return; }
      CountRow(r);
    }

    /** One probe row: skipped, or recorded on the reachability edge of its two VMs. */
    method AddProbeRow(env: Env, p: ProbeRow)
      modifies this
      ensures View() == ProbeStep(env, old(View()), p)
    {
      hide HiddenByIps, EdgeId, PeerNode;
      if HiddenByIps(env, p.src.ip, p.dst.ip) { return; }
      if p.src.vm == "" || p.dst.vm == "" || p.src.vm == p.dst.vm || p.src.ip == p.dst.ip { return; }
      if p.src.vm in env.registered && p.src.vm !in nodes { return; }
      if p.dst.vm in env.registered && p.dst.vm !in nodes { return; }
      if p.src.vm !in nodes { nodes := nodes[p.src.vm := PeerNode(p.src)]; }
      if p.dst.vm !in nodes { nodes := nodes[p.dst.vm := PeerNode(p.dst)]; }
      var id := ProbeId(p);
      hide ProbeId, NewProbeEdge;
      var edge := NewProbeEdge(p);
      if id in edges { edge := Reprobe(env, edges[id], p); }
      edge := MarkOutcome(env, edge, p);
      edges := edges[id := edge];
    }

    method Reprobe(env: Env, before: Edge, p: ProbeRow) returns (e: Edge)
      ensures e == MergeProbe(env, before, p)
    {
      e := before;
      if p.success {
        if !e.failed && !(e.failedUntil > env.now) { e := e.(dstPort := PreferredPort(e.dstPort, p.dstPort)); }
      } else {
        e := e.(dstPort := p.dstPort);
      }
      var t := e.times;
      if p.firstSeen < t.firstSeen { t := t.(firstSeen := p.firstSeen); }
      if p.lastSeen > t.lastSeen { t := t.(lastSeen := p.lastSeen); }
      if p.observedAt > t.lastObserved {
        t := t.(lastObserved := p.observedAt);
        e := e.(avgRtt := p.rtt, reachable := p.success);
      }
      e := e.(times := t, kind := Reachability);
    }

    method MarkOutcome(env: Env, before: Edge, p: ProbeRow) returns (e: Edge)
      ensures e == MarkProbe(env, before, p)
    {
      e := before;
      if p.success {
        e := e.(reachable := true);
        return;
      }
      e := e.(failed := true, totals := e.totals.(errors := e.totals.errors + 1));
      var failedUntil := p.observedAt + env.window;
      if failedUntil > e.failedUntil { e := e.(failedUntil := failedUntil); }
      if e.times.lastErrorAt.None? || p.observedAt > e.times.lastErrorAt.value {
        e := e.(times := e.times.(lastErrorAt := Some(p.observedAt)));
      }
    }
  }

  /** The whole query, up to the order of the two lists. `env.registered` is overwritten by the VM list. */
  method Get(env: Env, f: Filter, vms: seq<Vm>, rows: seq<FlowRow>, probes: seq<ProbeRow>)
    returns (shownNodes: map<string, Node>, shownEdges: map<string, Edge>)
    ensures Graph(shownNodes, shownEdges)
            == Returned(env.(registered := Registered(vms)), Build(env.(registered := Registered(vms)), f, vms, rows, probes))
  {
    hide FlowStep, ProbeStep, Seed, ShownEdges, ShownNodes;
    var b := new Builder();
    var registered := b.SeedVms(f, vms);
    var e := env.(registered := registered);
    ghost var seed := b.View();
    for i := 0 to |rows|
      invariant b.View() == FlowFold(e, seed, rows[..i])
    {
      assert Init(rows[..i + 1]) == rows[..i];
      b.AddFlowRow(e, rows[i]);
    }
    assert rows[..|rows|] == rows;
    ghost var base := b.View();
    for i := 0 to |probes|
      invariant b.View() == ProbeFold(e, base, probes[..i])
    {
      assert Init(probes[..i + 1]) == probes[..i];
      b.AddProbeRow(e, probes[i]);
    }
    assert probes[..|probes|] == probes;
    shownEdges := ShownEdges(e, b.edges);
    shownNodes := ShownNodes(b.nodes, shownEdges);
  }
}
