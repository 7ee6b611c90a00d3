/**
 * The graph that is returned: seeded with the VMs the filter lets through, folded over flow
 * rows and then probe rows, and cut to what is active and connected.
 */
module GraphShape {
  import opened Prelude
  import opened GraphIds
  import opened GraphModel
  import opened GraphTraffic

  datatype Vm = Vm(id: string, name: string, privateIp: string, status: string, tenant: string, role: string,
                   agentId: string, project: string)

  datatype Filter = Filter(agentId: string, tenant: string, project: string, vm: string, status: string)

  predicate Passes(f: Filter, v: Vm) {
    && (f.agentId == "" || v.agentId == f.agentId)
    && (f.tenant == "" || v.tenant == f.tenant)
    && (f.project == "" || v.project == f.project)
    && (f.vm == "" || v.id == f.vm)
    && (if f.status != "" then v.status == f.status else v.status != "deleted")
  }

  function SeedNode(v: Vm): Node { Node(VmNode, v.name, v.privateIp, v.status, v.tenant, v.role, 0, 0) }

  function Seed(f: Filter, vms: seq<Vm>): map<string, Node> {
    if vms == [] then map[]
    else
      var rest, v := Seed(f, Init(vms)), Last(vms);
      if Passes(f, v) then rest[v.id := SeedNode(v)] else rest
  }

  function Registered(vms: seq<Vm>): set<string> { if vms == [] then {} else Registered(Init(vms)) + {Last(vms).id} }

  function SetActivity(env: Env, e: Edge): Edge {
    var until := e.times.lastObserved + env.window;
    var f := e.(activeUntil := until, active := env.now < until);
    if e.times.lastErrorAt.Some? && e.times.lastErrorAt.value != 0 then
      f.(failedUntil := e.times.lastErrorAt.value + env.window, failed := env.now < e.times.lastErrorAt.value + env.window)
    else f
  }

  /** The edges that are returned: all of them, or the active ones. */
  function ShownEdges(env: Env, edges: map<string, Edge>): map<string, Edge> {
    map id | id in edges && (env.visibility.includeIdle || SetActivity(env, edges[id]).active) :: SetActivity(env, edges[id])
  }

  function Connected(edges: map<string, Edge>): set<string> {
    (set id | id in edges :: edges[id].source) + (set id | id in edges :: edges[id].target)
  }

  /** VM nodes always show; the others only at the end of a shown edge. */
  function ShownNodes(nodes: map<string, Node>, shown: map<string, Edge>): map<string, Node> {
    map n | n in nodes && (nodes[n].kind == VmNode || n in Connected(shown)) :: nodes[n]
  }

  function Returned(env: Env, g: Graph): Graph {
    var shown := ShownEdges(env, g.edges);
    Graph(ShownNodes(g.nodes, shown), shown)
  }

  // ---------------------------------------------------------------- the seed

  lemma {:induction false} SeedIsFresh(f: Filter, vms: seq<Vm>)
    ensures Fresh(Graph(Seed(f, vms), map[]))
  {
    if vms != [] { SeedIsFresh(f, Init(vms)); }
  }

  /** The VM meets every condition the filter sets; without a status, all but deleted ones do. */
  predicate Chosen(f: Filter, v: Vm) {
    && (f.agentId != "" ==> v.agentId == f.agentId) && (f.tenant != "" ==> v.tenant == f.tenant)
    && (f.project != "" ==> v.project == f.project) && (f.vm != "" ==> v.id == f.vm)
    && (f.status != "" ==> v.status == f.status) && (f.status == "" ==> v.status != "deleted")
  }

  lemma PassesMeans(f: Filter, v: Vm)
    ensures Passes(f, v) <==> Chosen(f, v)
  {
  }

  /** The node of a VM as the inventory has it, without traffic. */
  predicate ShowsVm(n: Node, v: Vm) {
    n.kind == VmNode && n.name == v.name && n.ip == v.privateIp && n.status == v.status && n.tenant == v.tenant
    && n.role == v.role && n.trafficIn == 0 && n.trafficOut == 0
  }

  /** `v` is the last VM of the list with this id that the filter lets through. */
  ghost predicate IsLastChosen(f: Filter, vms: seq<Vm>, id: string, i: int) {
    && 0 <= i < |vms| && vms[i].id == id && Chosen(f, vms[i])
    && forall j :: i < j < |vms| && Chosen(f, vms[j]) ==> vms[j].id != id
  }

  lemma LastChosenStays(f: Filter, vms: seq<Vm>, id: string, i: int)
    requires vms != [] && IsLastChosen(f, Init(vms), id, i) && !(Chosen(f, Last(vms)) && Last(vms).id == id)
    ensures IsLastChosen(f, vms, id, i) && vms[i] == Init(vms)[i]
  {
    hide Chosen;
    forall j | i < j < |vms| && Chosen(f, vms[j]) ensures vms[j].id != id {
      if j < |vms| - 1 { assert Init(vms)[j] == vms[j]; }
    }
  }

  lemma {:induction false} SeedShowsLast(f: Filter, vms: seq<Vm>, id: string)
    requires id in Seed(f, vms)
    ensures exists i :: IsLastChosen(f, vms, id, i) && ShowsVm(Seed(f, vms)[id], vms[i])
  {
    hide Passes, Chosen, ShowsVm;
    var rest, v := Init(vms), Last(vms);
    PassesMeans(f, v);
    if Chosen(f, v) && v.id == id {
      LastIsChosen(f, vms);
    } else {
      SeedShowsLast(f, rest, id);
      var i :| IsLastChosen(f, rest, id, i) && ShowsVm(Seed(f, rest)[id], rest[i]);
      LastChosenStays(f, vms, id, i);
    }
  }

  lemma LastIsChosen(f: Filter, vms: seq<Vm>)
    requires vms != [] && Chosen(f, Last(vms))
    ensures IsLastChosen(f, vms, Last(vms).id, |vms| - 1) && ShowsVm(SeedNode(Last(vms)), vms[|vms| - 1])
  {
  }

  lemma {:induction false} SeedHas(f: Filter, vms: seq<Vm>, i: nat)
    requires i < |vms| && Chosen(f, vms[i])
    ensures vms[i].id in Seed(f, vms)
  {
    hide Passes, Chosen;
    PassesMeans(f, Last(vms));
    if i < |vms| - 1 { SeedHas(f, Init(vms), i); }
  }

  /** The seeded nodes are exactly the VMs the filter lets through, each shown as it is. */
  lemma SeedExactlyWhen(f: Filter, vms: seq<Vm>, id: string)
    ensures id in Seed(f, vms) <==> exists i :: 0 <= i < |vms| && vms[i].id == id && Chosen(f, vms[i])
    ensures id in Seed(f, vms) ==> exists i :: IsLastChosen(f, vms, id, i) && ShowsVm(Seed(f, vms)[id], vms[i])
  {
    hide Seed, Chosen, ShowsVm;
    if id in Seed(f, vms) {
      SeedShowsLast(f, vms, id);
      var i :| IsLastChosen(f, vms, id, i) && ShowsVm(Seed(f, vms)[id], vms[i]);
      assert vms[i].id == id && Chosen(f, vms[i]);
    }
    if i :| 0 <= i < |vms| && vms[i].id == id && Chosen(f, vms[i]) { SeedHas(f, vms, i); }
  }

  // ---------------------------------------------------------------- shape of the fold

  ghost predicate Touches(edges: map<string, Edge>, n: string) {
    exists id :: id in edges && (edges[id].source == n || edges[id].target == n)
  }

  /** Edges join two different nodes of the graph, and a node that is no VM has an edge. */
  ghost predicate WellShaped(g: Graph) {
    && (forall id :: id in g.edges ==>
          g.edges[id].source in g.nodes && g.edges[id].target in g.nodes && g.edges[id].source != g.edges[id].target)
    && (forall n :: n in g.nodes && g.nodes[n].kind != VmNode ==> Touches(g.edges, n))
  }

  /** Replacing one edge by one with the same ends, or adding one, keeps every node touched. */
  lemma TouchesKept(edges: map<string, Edge>, id: string, e: Edge, n: string)
    requires id in edges ==> edges[id].source == e.source && edges[id].target == e.target
    ensures Touches(edges, n) ==> Touches(edges[id := e], n)
    ensures n == e.source || n == e.target ==> Touches(edges[id := e], n)
  {
    var out := edges[id := e];
    if Touches(edges, n) {
      var j :| j in edges && (edges[j].source == n || edges[j].target == n);
      assert j in out && (out[j].source == n || out[j].target == n);
    }
    assert id in out;
  }

  /** More nodes, of which only the new edge's ends may be no VMs, and one edge set or added. */
  ghost predicate GrowsTo(nodes: map<string, Node>, nodes': map<string, Node>, e: Edge) {
    && (forall n :: n in nodes ==> n in nodes' && nodes'[n].kind == nodes[n].kind)
    && (forall n :: n in nodes' && n !in nodes && nodes'[n].kind != VmNode ==> n == e.source || n == e.target)
    && e.source in nodes' && e.target in nodes' && e.source != e.target
  }

  lemma GrowthKeepsShape(g: Graph, nodes': map<string, Node>, id: string, e: Edge)
    requires WellShaped(g) && GrowsTo(g.nodes, nodes', e)
    requires id in g.edges ==> g.edges[id].source == e.source && g.edges[id].target == e.target
    ensures WellShaped(Graph(nodes', g.edges[id := e]))
  {
    forall n | n in nodes' && nodes'[n].kind != VmNode ensures Touches(g.edges[id := e], n) {
      TouchesKept(g.edges, id, e, n);
    }
    hide Touches;
  }

  lemma RowGrows(g: Graph, r: FlowRow, e: Edge)
    requires e.source == SourceId(r) && e.target == TargetId(r) && SourceId(r) != TargetId(r)
    ensures GrowsTo(g.nodes, AddRow(g, r).nodes, e)
  {
    hide EdgeWith, SourceId, TargetId, RowId, ValueOr;
  }

  lemma AddRowKeepsShape(g: Graph, r: FlowRow)
    requires WellShaped(g) && EdgesKeyed(g.edges) && RowOk(r) && !(r.src.vm != "" && r.src.vm == r.dst.vm)
    ensures WellShaped(AddRow(g, r))
  {
    var id := RowId(r);
    var e := EdgeWith(Lookup(g.edges, id), SourceId(r), TargetId(r), r);
    NoSelfLoop(r);
    RowEdge(g.edges, r);
    if id in g.edges { RowFindsItsEdge(g.edges, r); }
    RowGrows(g, r, e);
    hide EdgeWith, SourceId, TargetId, RowId, EdgeKeyed, RowOk, GrowsTo, WellShaped, EdgesKeyed, NodesWith, AddTraffic;
    GrowthKeepsShape(g, AddRow(g, r).nodes, id, e);
  }

  lemma {:induction false} FlowFoldKeepsShape(env: Env, g: Graph, rows: seq<FlowRow>)
    requires EnvOk(env) && RowsOk(rows) && Fresh(g)
    ensures WellShaped(FlowFold(env, g, rows))
  {
    if rows != [] {
      var h, r := FlowFold(env, g, Init(rows)), Normalize(Last(rows));
      assert RowOk(rows[|rows| - 1]);
      NormalizeOk(Last(rows));
      FlowFoldKeepsShape(env, g, Init(rows));
      NodeTrafficIsEdgeTraffic(env, g, Init(rows));
      hide AddRow, WellShaped, RowOk, Normalize, EdgesKeyed, Conserved, Hidden;
      if Kept(env, h.nodes, r) { AddRowKeepsShape(h, r); }
    }
  }

  // ---------------------------------------------------------------- probes

  /** Nothing of the first graph changes, and what is new carries no traffic. */
  ghost predicate Isolated(base: Graph, g: Graph) {
    EdgesIsolated(base.edges, g.edges) && NodesIsolated(base.nodes, g.nodes)
  }

  /** A reachability edge: zero in every counter but errors, and keyed as one. */
  predicate SilentEdge(id: string, e: Edge) {
    && e.kind == Reachability && e.totals == NO_TOTALS.(errors := e.totals.errors)
    && id == EdgeId(e.source, e.target, e.protocol, REACHABILITY) && !HasArrow(e.source) && IsProtocol(e.protocol)
  }

  ghost predicate ProbesOk(probes: seq<ProbeRow>) { forall i :: 0 <= i < |probes| ==> ProbeOk(probes[i]) }

  lemma ProbeMissesTraffic(edges: map<string, Edge>, p: ProbeRow)
    requires EdgesKeyed(edges) && ProbeOk(p)
    ensures ProbeId(p) !in edges
  {
    if ProbeId(p) in edges {
      var e := edges[ProbeId(p)];
      assert EdgeKeyed(ProbeId(p), e);
      FamiliesDisjoint(p.src.vm, p.dst.vm, p.protocol, e.source, e.target, e.protocol, e.scope);
    }
  }

  /** Probes of one id join the same two VMs. */
  lemma ProbeFindsItsEdge(id: string, e: Edge, p: ProbeRow)
    requires SilentEdge(id, e) && ProbeOk(p) && IsVmId(p.src.vm) && id == ProbeId(p)
    ensures e.source == p.src.vm && e.target == p.dst.vm && e.protocol == p.protocol
  {
    VmIdHasNoArrow(p.src.vm);
    NamesArePlain(p.protocol);
    NamesArePlain(e.protocol);
    NamesArePlain(REACHABILITY);
    EdgeIdInjective(p.src.vm, p.dst.vm, p.protocol, REACHABILITY, e.source, e.target, e.protocol, REACHABILITY);
  }

  lemma ProbeEdgeIsSilent(env: Env, before: Option<Edge>, p: ProbeRow)
    requires ProbeOk(p) && IsVmId(p.src.vm)
    requires before.Some? ==> SilentEdge(ProbeId(p), before.value)
    ensures var e := ProbeEdgeWith(env, before, p);
            SilentEdge(ProbeId(p), e) && e.source == p.src.vm && e.target == p.dst.vm
  {
    VmIdHasNoArrow(p.src.vm);
    if before.Some? { ProbeFindsItsEdge(ProbeId(p), before.value, p); }
    hide EdgeId, PreferredPort, LaterOf, IsVmId;
  }

  ghost predicate EdgesIsolated(base: map<string, Edge>, edges: map<string, Edge>) {
    && (forall id :: id in base ==> id in edges && edges[id] == base[id])
    && (forall id :: id in edges && id !in base ==> SilentEdge(id, edges[id]))
  }

  ghost predicate NodesIsolated(base: map<string, Node>, nodes: map<string, Node>) {
    && (forall n :: n in base ==> n in nodes && nodes[n] == base[n])
    && (forall n :: n in nodes && n !in base ==>
          nodes[n].trafficIn == 0 && nodes[n].trafficOut == 0 && nodes[n].kind == VmNode)
  }

  lemma EnsureIsolated(base: map<string, Node>, nodes: map<string, Node>, id: string, p: Peer)
    requires NodesIsolated(base, nodes)
    ensures NodesIsolated(base, EnsureNode(nodes, id, PeerNode(p)))
  {
    hide ValueOr;
  }

  /** What a kept probe does to the edges: one silent edge between its two VMs. */
  lemma ProbeEdge(env: Env, base: map<string, Edge>, edges: map<string, Edge>, p: ProbeRow)
    requires EdgesKeyed(base) && EdgesIsolated(base, edges) && ProbeOk(p) && p.src.vm != ""
    ensures var e := ProbeEdgeWith(env, Lookup(edges, ProbeId(p)), p);
            && ProbeId(p) !in base && SilentEdge(ProbeId(p), e) && e.source == p.src.vm && e.target == p.dst.vm
            && (ProbeId(p) in edges ==> SilentEdge(ProbeId(p), edges[ProbeId(p)])
                                        && edges[ProbeId(p)].source == e.source && edges[ProbeId(p)].target == e.target)
  {
    ProbeMissesTraffic(base, p);
    assert ProbeId(p) in edges ==> SilentEdge(ProbeId(p), edges[ProbeId(p)]);
    ProbeEdgeIsSilent(env, Lookup(edges, ProbeId(p)), p);
    if ProbeId(p) in edges { ProbeFindsItsEdge(ProbeId(p), edges[ProbeId(p)], p); }
  }

  lemma AddProbeIsolated(env: Env, base: Graph, g: Graph, p: ProbeRow)
    requires EdgesKeyed(base.edges) && Isolated(base, g) && ProbeOk(p) && ProbeKept(env, g.nodes, p)
    ensures Isolated(base, AddProbe(env, g, p))
  {
    ProbeEdge(env, base.edges, g.edges, p);
    EnsureIsolated(base.nodes, g.nodes, p.src.vm, p.src);
    EnsureIsolated(base.nodes, EnsureNode(g.nodes, p.src.vm, PeerNode(p.src)), p.dst.vm, p.dst);
    hide SilentEdge, ProbeEdgeWith, ProbeId, ProbeOk, EdgesKeyed, HiddenByIps, NodesIsolated, EnsureNode;
  }

  lemma AddProbeKeepsShape(env: Env, base: Graph, g: Graph, p: ProbeRow)
    requires EdgesKeyed(base.edges) && Isolated(base, g) && WellShaped(g) && ProbeOk(p) && ProbeKept(env, g.nodes, p)
    ensures WellShaped(AddProbe(env, g, p))
  {
    var id := ProbeId(p);
    var e := ProbeEdgeWith(env, Lookup(g.edges, id), p);
    ProbeEdge(env, base.edges, g.edges, p);
    hide SilentEdge, ProbeEdgeWith, ProbeId, ProbeOk, EdgesKeyed, HiddenByIps, Isolated, Visible, ValueOr, WellShaped;
    assert GrowsTo(g.nodes, AddProbe(env, g, p).nodes, e);
    GrowthKeepsShape(g, AddProbe(env, g, p).nodes, id, e);
  }

  lemma AddProbeKeepsVisible(env: Env, g: Graph, p: ProbeRow)
    requires ProbeKept(env, g.nodes, p)
    ensures SameVisible(env, AddProbe(env, g, p).nodes, g.nodes)
  {
    hide HiddenByIps, ProbeEdgeWith, ValueOr, ProbeId;
  }

  /** Silent edges weigh nothing in any sum. */
  lemma SilentSum(edges: map<string, Edge>, id: string, e: Edge, me: Measure)
    requires SilentEdge(id, e) && (id in edges ==> SilentEdge(id, edges[id]))
    ensures SumEdges(edges[id := e], me) == SumEdges(edges, me)
  {
    SumUpdate(edges, me, id, e);
    hide SumEdges, EdgeId;
  }

  lemma EnsureKeepsBytes(nodes: map<string, Node>, id: string, p: Peer, n: string)
    ensures OutBytes(EnsureNode(nodes, id, PeerNode(p)), n) == OutBytes(nodes, n)
    ensures InBytes(EnsureNode(nodes, id, PeerNode(p)), n) == InBytes(nodes, n)
  {
  }

  lemma AddProbeConserves(env: Env, base: Graph, g: Graph, p: ProbeRow)
    requires EdgesKeyed(base.edges) && Isolated(base, g) && ProbeOk(p) && ProbeKept(env, g.nodes, p) && Conserved(g)
    ensures Conserved(AddProbe(env, g, p))
  {
    var h, id := AddProbe(env, g, p), ProbeId(p);
    var e := ProbeEdgeWith(env, Lookup(g.edges, id), p);
    ProbeEdge(env, base.edges, g.edges, p);
    hide SilentEdge, ProbeEdgeWith, ProbeId, ProbeOk, EdgesKeyed, ProbeKept, Isolated, SumEdges, EnsureNode, OutBytes, InBytes;
    forall n ensures OutBytes(h.nodes, n) == SumEdges(h.edges, Out(n)) && InBytes(h.nodes, n) == SumEdges(h.edges, In(n)) {
      SilentSum(g.edges, id, e, Out(n));
      SilentSum(g.edges, id, e, In(n));
      EnsureKeepsBytes(g.nodes, p.src.vm, p.src, n);
      EnsureKeepsBytes(EnsureNode(g.nodes, p.src.vm, PeerNode(p.src)), p.dst.vm, p.dst, n);
    }
  }

  lemma {:induction false} ProbeFoldKeeps(env: Env, base: Graph, probes: seq<ProbeRow>)
    requires EdgesKeyed(base.edges) && WellShaped(base) && Conserved(base) && ProbesOk(probes)
    ensures var g := ProbeFold(env, base, probes);
            Isolated(base, g) && WellShaped(g) && SameVisible(env, g.nodes, base.nodes) && Conserved(g)
  {
    if probes != [] {
      var g, p := ProbeFold(env, base, Init(probes)), Last(probes);
      assert ProbeOk(probes[|probes| - 1]);
      ProbeFoldKeeps(env, base, Init(probes));
      hide Isolated, WellShaped, AddProbe, ProbeKept, ProbeOk, EdgesKeyed, Conserved;
      if ProbeKept(env, g.nodes, p) {
        AddProbeIsolated(env, base, g, p);
        AddProbeKeepsShape(env, base, g, p);
        AddProbeKeepsVisible(env, g, p);
        AddProbeConserves(env, base, g, p);
      }
    }
  }

  // ---------------------------------------------------------------- main results

  /** The whole construction, before the cut. */
  function Build(env: Env, f: Filter, vms: seq<Vm>, rows: seq<FlowRow>, probes: seq<ProbeRow>): Graph {
    ProbeFold(env, FlowFold(env, Graph(Seed(f, vms), map[]), rows), probes)
  }

  ghost predicate InputsOk(env: Env, vms: seq<Vm>, rows: seq<FlowRow>, probes: seq<ProbeRow>) {
    EnvOk(env) && env.registered == Registered(vms) && RowsOk(rows) && ProbesOk(probes)
  }

  /**
   * Adding any probe rows leaves every traffic edge and every node as it was, and what they
   * add carries no bytes and no requests.
   */
  lemma ProbesLeaveTrafficAlone(env: Env, f: Filter, vms: seq<Vm>, rows: seq<FlowRow>, probes: seq<ProbeRow>)
    requires InputsOk(env, vms, rows, probes)
    ensures Isolated(Build(env, f, vms, rows, []), Build(env, f, vms, rows, probes))
  {
    var seed := Graph(Seed(f, vms), map[]);
    SeedIsFresh(f, vms);
    FlowFoldKeepsShape(env, seed, rows);
    NodeTrafficIsEdgeTraffic(env, seed, rows);
    hide FlowFold, Isolated, Seed, Conserved;
    ProbeFoldKeeps(env, FlowFold(env, seed, rows), probes);
  }

  /** The finished graph still conserves traffic, probes included. */
  lemma BuildIsWellShaped(env: Env, f: Filter, vms: seq<Vm>, rows: seq<FlowRow>, probes: seq<ProbeRow>)
    requires InputsOk(env, vms, rows, probes)
    ensures Conserved(Build(env, f, vms, rows, probes))
    ensures WellShaped(Build(env, f, vms, rows, probes))
    ensures SameVisible(env, Build(env, f, vms, rows, probes).nodes, Seed(f, vms))
  {
    var seed := Graph(Seed(f, vms), map[]);
    SeedIsFresh(f, vms);
    FlowFoldKeepsShape(env, seed, rows);
    NodeTrafficIsEdgeTraffic(env, seed, rows);
    FoldKeepsVisible(env, seed, rows);
    hide FlowFold, WellShaped, Isolated, Seed, Conserved;
    ProbeFoldKeeps(env, FlowFold(env, seed, rows), probes);
  }

  /** An edge as it is returned: its activity filled in, and its failure from its last error if it had one. */
  predicate ActivityOf(env: Env, before: Edge, after: Edge) {
    var error := before.times.lastErrorAt.Some? && before.times.lastErrorAt.value != 0;
    && after == before.(active := after.active, activeUntil := after.activeUntil, failed := after.failed, failedUntil := after.failedUntil)
    && after.activeUntil == before.times.lastObserved + env.window && (after.active <==> env.now < after.activeUntil)
    && (error ==> after.failedUntil == before.times.lastErrorAt.value + env.window && (after.failed <==> env.now < after.failedUntil))
    && (!error ==> after.failedUntil == before.failedUntil && after.failed == before.failed)
  }

  /**
   * The cut, exactly: an edge is returned if and only if idle edges are wanted or it was
   * observed within the window, a node if and only if it is a VM or the end of such an edge.
   */
  lemma ReturnedExactly(env: Env, g: Graph)
    ensures var r := Returned(env, g);
            && (forall id :: id in r.edges <==> id in g.edges && (env.visibility.includeIdle || env.now < g.edges[id].times.lastObserved + env.window))
            && (forall id :: id in r.edges ==> ActivityOf(env, g.edges[id], r.edges[id]))
            && (forall n :: n in r.nodes <==> n in g.nodes && (g.nodes[n].kind == VmNode || Touches(r.edges, n)))
            && (forall n :: n in r.nodes ==> r.nodes[n] == g.nodes[n])
  {
    var shown := ShownEdges(env, g.edges);
    forall n ensures n in Connected(shown) <==> Touches(shown, n) {}
  }

  /** The cut keeps both ends of every edge it keeps, and leaves no lonely node that is no VM. */
  lemma CutIsClosed(env: Env, g: Graph)
    requires WellShaped(g)
    ensures WellShaped(Returned(env, g))
  {
    ReturnedExactly(env, g);
    var r := Returned(env, g);
    hide Returned;
    forall id | id in r.edges
      ensures r.edges[id].source in r.nodes && r.edges[id].target in r.nodes && r.edges[id].source != r.edges[id].target
    {
      assert ActivityOf(env, g.edges[id], r.edges[id]);
      assert Touches(r.edges, r.edges[id].source) && Touches(r.edges, r.edges[id].target);
    }
  }

  lemma RowKeepsVm(env: Env, g: Graph, r: FlowRow, n: string)
    requires n in g.nodes
    ensures n in AddRow(g, r).nodes && AddRow(g, r).nodes[n].kind == g.nodes[n].kind
  {
    hide EdgeWith, SourceId, TargetId, SourceNode, TargetNode, RowId;
  }

  lemma {:induction false} FoldKeepsVm(env: Env, g: Graph, rows: seq<FlowRow>, n: string)
    requires n in g.nodes
    ensures n in FlowFold(env, g, rows).nodes && FlowFold(env, g, rows).nodes[n].kind == g.nodes[n].kind
  {
    hide AddRow, Kept, Normalize;
    if rows != [] {
      FoldKeepsVm(env, g, Init(rows), n);
      RowKeepsVm(env, FlowFold(env, g, Init(rows)), Normalize(Last(rows)), n);
    }
  }

  lemma {:induction false} ProbesKeepVm(env: Env, g: Graph, probes: seq<ProbeRow>, n: string)
    requires n in g.nodes
    ensures n in ProbeFold(env, g, probes).nodes && ProbeFold(env, g, probes).nodes[n] == g.nodes[n]
  {
    hide ProbeKept, PeerNode, ProbeEdgeWith, ProbeId;
    if probes != [] { ProbesKeepVm(env, g, Init(probes), n); }
  }

  /** Every VM the filter lets through is returned, with or without traffic. */
  lemma ChosenVmIsReturned(env: Env, f: Filter, vms: seq<Vm>, rows: seq<FlowRow>, probes: seq<ProbeRow>, i: nat)
    requires i < |vms| && Chosen(f, vms[i])
    ensures vms[i].id in Returned(env, Build(env, f, vms, rows, probes)).nodes
  {
    var seed, id := Graph(Seed(f, vms), map[]), vms[i].id;
    SeedExactlyWhen(f, vms, id);
    hide Seed, FlowFold, ProbeFold, Chosen, Returned;
    FoldKeepsVm(env, seed, rows, id);
    ProbesKeepVm(env, FlowFold(env, seed, rows), probes, id);
    ReturnedExactly(env, Build(env, f, vms, rows, probes));
  }

  /**
   * For every list of VMs, rows and probes, with idle edges kept or dropped: each returned
   * edge joins two different returned nodes, no returned node that is no VM is alone, and a
   * registered VM is returned only if the filter lets it through.
   */
  lemma ReturnedGraphIsClosed(env: Env, f: Filter, vms: seq<Vm>, rows: seq<FlowRow>, probes: seq<ProbeRow>)
    requires InputsOk(env, vms, rows, probes)
    ensures var g := Returned(env, Build(env, f, vms, rows, probes));
            && WellShaped(g)
            && forall v :: v in Registered(vms) && v in g.nodes
                           ==> exists i :: 0 <= i < |vms| && vms[i].id == v && Chosen(f, vms[i])
  {
    var g := Build(env, f, vms, rows, probes);
    BuildIsWellShaped(env, f, vms, rows, probes);
    CutIsClosed(env, g);
    hide Build, Chosen, WellShaped, ShownEdges, Connected, Seed, EnvOk, RowsOk, IsLastChosen;
    forall v | v in Registered(vms) && v in Returned(env, g).nodes
      ensures exists i :: 0 <= i < |vms| && vms[i].id == v && Chosen(f, vms[i])
    {
      assert v in g.nodes && v in Seed(f, vms);
      SeedExactlyWhen(f, vms, v);
    }
  }
}
