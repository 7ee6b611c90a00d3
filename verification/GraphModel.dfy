/**
 * Graph construction: flow rows and probe rows are folded into maps of nodes and edges.
 * Nodes and edges are keyed by their ids.
 */
module GraphModel {
  import opened Prelude
  import opened GraphIds
  import opened Smoothing

  /** One end of a row, with the columns joined from its VM. */
  datatype Peer = Peer(vm: string, ip: string, port: int, name: string, tenant: string, privateIp: string,
                       status: string, role: string, agentId: string)

  datatype Totals = Totals(sent: int, received: int, packets: int, connections: int, requests: int, errors: int,
                           retrans: int, http2: int, http4: int, http5: int)

  datatype Times = Times(firstSeen: int, lastSeen: int, lastObserved: int, lastErrorAt: Option<int>)

  datatype FlowRow = FlowRow(src: Peer, dst: Peer, protocol: string, direction: string, scope: string, totals: Totals,
                             avgRtt: real, avgDelay: real, lastStatus: int, firstSeen: int, lastSeen: int,
                             observedAt: int, lastErrorAt: Option<int>)

  datatype ProbeRow = ProbeRow(src: Peer, dst: Peer, protocol: string, dstPort: int, scope: string, success: bool,
                               rtt: real, firstSeen: int, lastSeen: int, observedAt: int)

  datatype NodeKind = VmNode | UnknownNode | UnknownInternalNode | ExternalNode

  datatype Node = Node(kind: NodeKind, name: string, ip: string, status: string, tenant: string, role: string,
                       trafficIn: int, trafficOut: int)

  datatype EdgeKind = Traffic | Reachability

  datatype Edge = Edge(source: string, target: string, protocol: string, scope: string, kind: EdgeKind,
                       totals: Totals, times: Times, dstPort: int, avgRtt: real, avgDelay: real, lastStatus: int,
                       weight: int, reachable: bool, failed: bool, failedUntil: int, active: bool, activeUntil: int)

  datatype Graph = Graph(nodes: map<string, Node>, edges: map<string, Edge>)

  datatype Visibility = Visibility(excludedPorts: seq<int>, allowedPorts: seq<int>, excludedIps: seq<string>,
                                   includeIdle: bool)

  /** What a request fixes: the registered VMs, the settings, the address classifier and the clock. */
  datatype Env = Env(registered: set<string>, visibility: Visibility, isNoise: string -> bool, now: int, window: int)

  // ---------------------------------------------------------------- ports and visibility

  predicate IsEphemeral(port: int) { port >= 32768 }

  function PreferredPort(current: int, next: int): int {
    if current == 0 then next
    else if IsEphemeral(current) && !IsEphemeral(next) then next
    else current
  }

  predicate ShouldFlip(srcPort: int, dstPort: int) {
    srcPort > 0 && dstPort > 0 && !IsEphemeral(srcPort) && IsEphemeral(dstPort)
  }

  predicate PortMatchesAny(ports: seq<int>, a: int, b: int) { a in ports || b in ports }

  predicate HiddenByIps(env: Env, a: string, b: string) {
    env.isNoise(a) || env.isNoise(b)
    || exists i :: 0 <= i < |env.visibility.excludedIps| && env.visibility.excludedIps[i] != ""
                   && (env.visibility.excludedIps[i] == a || env.visibility.excludedIps[i] == b)
  }

  predicate Hidden(env: Env, r: FlowRow) {
    || (env.visibility.allowedPorts != [] && !PortMatchesAny(env.visibility.allowedPorts, r.src.port, r.dst.port))
    || PortMatchesAny(env.visibility.excludedPorts, r.src.port, r.dst.port)
    || HiddenByIps(env, r.src.ip, r.dst.ip)
  }

  /** A service's response is turned round, so that the client is the source. */
  function Normalize(r: FlowRow): FlowRow {
    if !ShouldFlip(r.src.port, r.dst.port) then r
    else
      var t := if r.direction == "egress" then r.totals.(connections := 0, requests := 0) else r.totals;
      r.(src := r.dst, dst := r.src, totals := t.(sent := t.received, received := t.sent))
  }

  // ---------------------------------------------------------------- nodes

  function SourceId(r: FlowRow): string {
    if r.src.vm == "" then AddressId(SOURCE_PREFIX, r.src.ip) else r.src.vm
  }

  function TargetPrefix(scope: string): string {
    if scope == EXTERNAL_PUBLIC || scope == EXTERNAL_PRIVATE then EXTERNAL_PREFIX
    else if scope == UNKNOWN_INTERNAL then INTERNAL_PREFIX
    else UNKNOWN_PREFIX
  }

  function TargetId(r: FlowRow): string {
    if r.dst.vm == "" then AddressId(TargetPrefix(r.scope), r.dst.ip) else r.dst.vm
  }

  function PeerNode(p: Peer): Node {
    Node(VmNode, ValueOr(p.name, p.ip), ValueOr(p.privateIp, p.ip), ValueOr(p.status, "unknown"), p.tenant, p.role, 0, 0)
  }

  function SourceNode(r: FlowRow): Node {
    if r.src.vm != "" then PeerNode(r.src)
    else Node(if r.scope == UNKNOWN_INTERNAL || "internal_" <= r.scope then UnknownInternalNode else UnknownNode,
              r.src.ip, r.src.ip, "unknown", "", "", 0, 0)
  }

  function TargetNode(r: FlowRow): Node {
    if r.dst.vm != "" then PeerNode(r.dst)
    else if r.scope == EXTERNAL_PUBLIC || r.scope == EXTERNAL_PRIVATE then
      Node(ExternalNode, r.dst.ip, r.dst.ip, "external", "", "", 0, 0)
    else
      Node(if r.scope == UNKNOWN_INTERNAL then UnknownInternalNode else UnknownNode,
           r.dst.ip, r.dst.ip, "unknown", "", "", 0, 0)
  }

  function EnsureNode(nodes: map<string, Node>, id: string, node: Node): map<string, Node> {
    if id in nodes then nodes else nodes[id := node]
  }

  function AddTraffic(nodes: map<string, Node>, id: string, inBytes: int, outBytes: int): map<string, Node>
    requires id in nodes
  {
    var n := nodes[id];
    nodes[id := n.(trafficIn := n.trafficIn + inBytes, trafficOut := n.trafficOut + outBytes)]
  }

  // ---------------------------------------------------------------- edges

  const NO_TOTALS := Totals(0, 0, 0, 0, 0, 0, 0, 0, 0, 0)

  function AddTotals(a: Totals, b: Totals): Totals {
    Totals(a.sent + b.sent, a.received + b.received, a.packets + b.packets, a.connections + b.connections,
           a.requests + b.requests, a.errors + b.errors, a.retrans + b.retrans, a.http2 + b.http2,
           a.http4 + b.http4, a.http5 + b.http5)
  }

  function LaterOf(a: Option<int>, b: Option<int>): Option<int> {
    if b.None? then a else if a.None? || b.value > a.value then b else a
  }

  function UpdateTimes(t: Times, r: FlowRow): Times {
    Times(Min(t.firstSeen, r.firstSeen), Max(t.lastSeen, r.lastSeen), Max(t.lastObserved, r.observedAt),
          LaterOf(t.lastErrorAt, r.lastErrorAt))
  }

  function EdgeWeight(bytes: int): int {
    if bytes >= 100 * 1024 * 1024 then 5
    else if bytes >= 10 * 1024 * 1024 then 4
    else if bytes >= 1024 * 1024 then 3
    else if bytes >= 100 * 1024 then 2
    else 1
  }

  function NewEdge(source: string, target: string, r: FlowRow): Edge {
    Edge(source, target, r.protocol, r.scope, Traffic, NO_TOTALS, Times(r.firstSeen, r.lastSeen, 0, None),
         r.dst.port, 0.0, 0.0, 0, 0, false, false, 0, false, 0)
  }

  function UpdateEdge(e: Edge, r: FlowRow): Edge {
    var totals := AddTotals(e.totals, r.totals);
    e.(totals := totals, times := UpdateTimes(e.times, r),
       avgRtt := MergeAverageMetric(e.avgRtt, r.avgRtt), avgDelay := MergeAverageMetric(e.avgDelay, r.avgDelay),
       lastStatus := if r.lastStatus != 0 then r.lastStatus else e.lastStatus,
       weight := EdgeWeight(totals.sent + totals.received))
  }

  /** The edge of a row, once the row is in it; `before` is what was there. */
  function EdgeWith(before: Option<Edge>, source: string, target: string, r: FlowRow): Edge {
    match before
    case None => UpdateEdge(NewEdge(source, target, r), r)
    case Some(e) => UpdateEdge(e.(dstPort := PreferredPort(e.dstPort, r.dst.port)), r)
  }

  function Lookup<V>(m: map<string, V>, k: string): Option<V> { if k in m then Some(m[k]) else None }

  // ---------------------------------------------------------------- the fold over flow rows

  /** A registered VM that the filter left out must not come back. */
  predicate Visible(env: Env, nodes: map<string, Node>, vm: string) { vm in env.registered ==> vm in nodes }

  predicate Kept(env: Env, nodes: map<string, Node>, r: FlowRow) {
    && !Hidden(env, r)
    && r.src.ip != r.dst.ip && !(r.src.vm != "" && r.src.vm == r.dst.vm)
    && Visible(env, nodes, r.src.vm) && Visible(env, nodes, r.dst.vm)
  }

  function RowId(r: FlowRow): string { EdgeId(SourceId(r), TargetId(r), r.protocol, r.scope) }

  function NodesWith(nodes: map<string, Node>, r: FlowRow): map<string, Node> {
    EnsureNode(EnsureNode(nodes, SourceId(r), SourceNode(r)), TargetId(r), TargetNode(r))
  }

  function AddRow(g: Graph, r: FlowRow): Graph {
    var s, t, id := SourceId(r), TargetId(r), RowId(r);
    var nodes := NodesWith(g.nodes, r);
    Graph(AddTraffic(AddTraffic(nodes, s, r.totals.received, r.totals.sent), t, r.totals.sent, r.totals.received),
          g.edges[id := EdgeWith(Lookup(g.edges, id), s, t, r)])
  }

  function FlowStep(env: Env, g: Graph, row: FlowRow): Graph {
    var r := Normalize(row);
    if Kept(env, g.nodes, r) then AddRow(g, r) else g
  }

  function FlowFold(env: Env, g: Graph, rows: seq<FlowRow>): Graph {
    if rows == [] then g else FlowStep(env, FlowFold(env, g, Init(rows)), Last(rows))
  }

  // ---------------------------------------------------------------- the fold over probe rows

  predicate ProbeKept(env: Env, nodes: map<string, Node>, p: ProbeRow) {
    && !HiddenByIps(env, p.src.ip, p.dst.ip)
    && p.src.vm != "" && p.dst.vm != "" && p.src.vm != p.dst.vm && p.src.ip != p.dst.ip
    && Visible(env, nodes, p.src.vm) && Visible(env, nodes, p.dst.vm)
  }

  function ProbeId(p: ProbeRow): string { EdgeId(p.src.vm, p.dst.vm, p.protocol, REACHABILITY) }

  function NewProbeEdge(p: ProbeRow): Edge {
    Edge(p.src.vm, p.dst.vm, p.protocol, p.scope, Reachability, NO_TOTALS,
         Times(p.firstSeen, p.lastSeen, p.observedAt, None), p.dstPort, p.rtt, 0.0, 0, 1, p.success, false, 0, false, 0)
  }

  function MergeProbe(env: Env, e: Edge, p: ProbeRow): Edge {
    var port := if !p.success then p.dstPort
                else if !e.failed && !(e.failedUntil > env.now) then PreferredPort(e.dstPort, p.dstPort)
                else e.dstPort;
    var newer := p.observedAt > e.times.lastObserved;
    e.(dstPort := port, kind := Reachability,
       times := e.times.(firstSeen := Min(e.times.firstSeen, p.firstSeen), lastSeen := Max(e.times.lastSeen, p.lastSeen),
                         lastObserved := Max(e.times.lastObserved, p.observedAt)),
       avgRtt := if newer then p.rtt else e.avgRtt, reachable := if newer then p.success else e.reachable)
  }

  function MarkProbe(env: Env, e: Edge, p: ProbeRow): Edge {
    if p.success then e.(reachable := true)
    else
      e.(failed := true, totals := e.totals.(errors := e.totals.errors + 1),
         failedUntil := Max(e.failedUntil, p.observedAt + env.window),
         times := e.times.(lastErrorAt := LaterOf(e.times.lastErrorAt, Some(p.observedAt))))
  }

  function ProbeEdgeWith(env: Env, before: Option<Edge>, p: ProbeRow): Edge {
    MarkProbe(env, match before case None => NewProbeEdge(p) case Some(e) => MergeProbe(env, e, p), p)
  }

  function AddProbe(env: Env, g: Graph, p: ProbeRow): Graph {
    Graph(EnsureNode(EnsureNode(g.nodes, p.src.vm, PeerNode(p.src)), p.dst.vm, PeerNode(p.dst)),
          g.edges[ProbeId(p) := ProbeEdgeWith(env, Lookup(g.edges, ProbeId(p)), p)])
  }

  function ProbeStep(env: Env, g: Graph, p: ProbeRow): Graph {
    if ProbeKept(env, g.nodes, p) then AddProbe(env, g, p) else g
  }

  function ProbeFold(env: Env, g: Graph, probes: seq<ProbeRow>): Graph {
    if probes == [] then g else ProbeStep(env, ProbeFold(env, g, Init(probes)), Last(probes))
  }

  // ---------------------------------------------------------------- what the database guarantees of rows

  predicate PeerOk(p: Peer) { (p.vm == "" || IsVmId(p.vm)) && IsIpText(p.ip) && p.port >= 0 }

  predicate RowOk(r: FlowRow) { PeerOk(r.src) && PeerOk(r.dst) && IsProtocol(r.protocol) && IsScope(r.scope) }

  predicate ProbeOk(p: ProbeRow) { PeerOk(p.src) && PeerOk(p.dst) && IsProtocol(p.protocol) }

  predicate EnvOk(env: Env) { forall v :: v in env.registered ==> IsVmId(v) }

  lemma NormalizeOk(r: FlowRow)
    requires RowOk(r)
    ensures RowOk(Normalize(r))
  {
  }

  lemma RowIdsOk(r: FlowRow)
    requires RowOk(r)
    ensures !HasArrow(SourceId(r)) && !HasArrow(TargetId(r))
    ensures r.src.vm == "" ==> !IsVmId(SourceId(r))
    ensures r.dst.vm == "" ==> !IsVmId(TargetId(r))
  {
    if r.src.vm == "" { AddressIdHasNoArrow(SOURCE_PREFIX, r.src.ip); } else { VmIdHasNoArrow(r.src.vm); }
    if r.dst.vm == "" { AddressIdHasNoArrow(TargetPrefix(r.scope), r.dst.ip); } else { VmIdHasNoArrow(r.dst.vm); }
  }

  /** A row the fold keeps never joins a node to itself. */
  lemma NoSelfLoop(r: FlowRow)
    requires RowOk(r) && !(r.src.vm != "" && r.src.vm == r.dst.vm)
    ensures SourceId(r) != TargetId(r)
  {
    RowIdsOk(r);
    if r.src.vm == "" && r.dst.vm == "" { SourceIsNotTarget(TargetPrefix(r.scope), r.src.ip, r.dst.ip); }
  }

  /**
   * What a node stands for: two rows have one source node exactly when they come from one VM
   * or one unregistered address, one target node exactly when they go to one VM or one
   * unregistered address of one class, and a source is another row's target exactly when
   * both are one VM.
   */
  lemma NodeIdsMeet(r: FlowRow, s: FlowRow)
    requires RowOk(r) && RowOk(s)
    ensures SourceId(r) == SourceId(s) <==> r.src.vm == s.src.vm && (r.src.vm == "" ==> r.src.ip == s.src.ip)
    ensures TargetId(r) == TargetId(s)
            <==> r.dst.vm == s.dst.vm
                 && (r.dst.vm == "" ==> TargetPrefix(r.scope) == TargetPrefix(s.scope) && r.dst.ip == s.dst.ip)
    ensures SourceId(r) == TargetId(s) <==> r.src.vm != "" && r.src.vm == s.dst.vm
  {
    RowIdsOk(r);
    RowIdsOk(s);
    SourceAddressesMeet(r.src.ip, s.src.ip);
    TargetAddressesMeet(TargetPrefix(r.scope), r.dst.ip, TargetPrefix(s.scope), s.dst.ip);
    SourceIsNotTarget(TargetPrefix(s.scope), r.src.ip, s.dst.ip);
    hide AddressId, TargetPrefix, IsVmId, IsIpText;
  }
}
