/**
 * What the nodes of the graph show. A node is seeded from the inventory or made by the first
 * kept row that needs it, and keeps what it was made with.
 */
module GraphNodes {
  import opened Prelude
  import opened GraphIds
  import opened GraphModel
  import opened GraphTraffic

  // ---------------------------------------------------------------- ids and contents, read off a row

  predicate IsSafe(s: string, t: string) {
    |t| == |s| && forall i :: 0 <= i < |s| ==> t[i] == if s[i] in {':', '/', '%'} then '_' else s[i]
  }

  /** The id of the node a row comes from. */
  predicate IsSourceOf(id: string, r: FlowRow) {
    && (r.src.vm != "" ==> id == r.src.vm)
    && (r.src.vm == "" ==> "unknown-source-" <= id && IsSafe(r.src.ip, id[15..]))
  }

  /** The id of the node a row goes to. */
  predicate IsTargetOf(id: string, r: FlowRow) {
    && (r.dst.vm != "" ==> id == r.dst.vm)
    && (r.dst.vm == "" && r.scope in {"external_public", "external_private"} ==> "external-" <= id && IsSafe(r.dst.ip, id[9..]))
    && (r.dst.vm == "" && r.scope == "unknown_internal" ==> "unknown-internal-" <= id && IsSafe(r.dst.ip, id[17..]))
    && (r.dst.vm == "" && r.scope !in {"external_public", "external_private", "unknown_internal"}
        ==> "unknown-" <= id && IsSafe(r.dst.ip, id[8..]))
  }

  /** A VM node made by a row: what was joined, and the address and "unknown" where nothing was. */
  predicate ShowsPeer(n: Node, p: Peer) {
    && n.kind == VmNode && n.tenant == p.tenant && n.role == p.role
    && (p.name != "" ==> n.name == p.name) && (p.name == "" ==> n.name == p.ip)
    && (p.privateIp != "" ==> n.ip == p.privateIp) && (p.privateIp == "" ==> n.ip == p.ip)
    && (p.status != "" ==> n.status == p.status) && (p.status == "" ==> n.status == "unknown")
  }

  predicate ShowsAddress(n: Node, ip: string, status: string) {
    n.name == ip && n.ip == ip && n.status == status && n.tenant == "" && n.role == ""
  }

  predicate ShowsSource(n: Node, r: FlowRow) {
    && (r.src.vm != "" ==> ShowsPeer(n, r.src))
    && (r.src.vm == "" ==>
          && ShowsAddress(n, r.src.ip, "unknown") && (n.kind == UnknownNode || n.kind == UnknownInternalNode)
          && (n.kind == UnknownInternalNode
              <==> r.scope in {"unknown_internal", "internal_same_tenant", "internal_cross_tenant"}))
  }

  predicate ShowsTarget(n: Node, r: FlowRow) {
    var external := r.scope in {"external_public", "external_private"};
    && (r.dst.vm != "" ==> ShowsPeer(n, r.dst))
    && (r.dst.vm == "" ==>
          && ShowsAddress(n, r.dst.ip, if external then "external" else "unknown")
          && n.kind == if external then ExternalNode else if r.scope == "unknown_internal" then UnknownInternalNode else UnknownNode)
  }

  lemma SafeMeans(s: string)
    ensures IsSafe(s, NodeSafe(s))
  {
  }

  lemma Prefixed(prefix: string, ip: string)
    ensures prefix <= AddressId(prefix, ip) && AddressId(prefix, ip)[|prefix|..] == NodeSafe(ip)
  {
  }

  /** The ids the fold builds are the ones described. */
  lemma NodeIdsRead(r: FlowRow)
    requires RowOk(r)
    ensures IsSourceOf(SourceId(r), r) && IsTargetOf(TargetId(r), r)
  {
    SafeMeans(r.src.ip);
    SafeMeans(r.dst.ip);
    Prefixed(SOURCE_PREFIX, r.src.ip);
    Prefixed(TargetPrefix(r.scope), r.dst.ip);
    hide AddressId, IsSafe, NodeSafe, IsVmId;
  }

  lemma InternalScopes(scope: string)
    requires IsScope(scope)
    ensures "internal_" <= scope <==> scope == "internal_same_tenant" || scope == "internal_cross_tenant"
  {
    if scope == EXTERNAL_PUBLIC || scope == EXTERNAL_PRIVATE { assert scope[0] == 'e'; }
    if scope == UNKNOWN_INTERNAL || scope == UNKNOWN { assert scope[0] == 'u'; }
    assert "internal_"[0] == 'i';
  }

  lemma MadeBySource(r: FlowRow)
    requires RowOk(r)
    ensures ShowsSource(SourceNode(r), r)
  {
    InternalScopes(r.scope);
  }

  lemma MadeByTarget(r: FlowRow)
    requires RowOk(r)
    ensures ShowsTarget(TargetNode(r), r)
  {
  }

  // ---------------------------------------------------------------- nodes keep what they were made with

  /** Everything of a node but its traffic. */
  predicate SameLooks(m: Node, n: Node) { n == m.(trafficIn := n.trafficIn, trafficOut := n.trafficOut) }

  /** The node is a seeded one, or was made by a kept row before which none needed it. */
  ghost predicate Explained(seed: map<string, Node>, rs: seq<FlowRow>, id: string, n: Node) {
    if id in seed then SameLooks(seed[id], n) else exists i :: MadeBy(rs, id, n, i)
  }

  predicate Needs(r: FlowRow, id: string) { SourceId(r) == id || TargetId(r) == id }

  ghost predicate MadeBy(rs: seq<FlowRow>, id: string, n: Node, i: int) {
    && 0 <= i < |rs| && (forall j :: 0 <= j < i ==> !Needs(rs[j], id))
    && ((SourceId(rs[i]) == id && IsSourceOf(id, rs[i]) && ShowsSource(n, rs[i]))
        || (TargetId(rs[i]) == id && IsTargetOf(id, rs[i]) && ShowsTarget(n, rs[i])))
  }

  lemma MadeStays(rs: seq<FlowRow>, r: FlowRow, id: string, m: Node, n: Node, i: int)
    requires MadeBy(rs, id, m, i) && SameLooks(m, n)
    ensures MadeBy(rs + [r], id, n, i)
  {
    hide IsSourceOf, IsTargetOf, SourceId, TargetId;
    assert (rs + [r])[i] == rs[i];
    forall j | 0 <= j < i ensures !Needs((rs + [r])[j], id) { assert (rs + [r])[j] == rs[j]; }
  }

  lemma MadeNow(rs: seq<FlowRow>, r: FlowRow, id: string, n: Node)
    requires RowOk(r) && (forall j :: 0 <= j < |rs| ==> !Needs(rs[j], id))
    requires (SourceId(r) == id && SameLooks(SourceNode(r), n)) || (TargetId(r) == id && SameLooks(TargetNode(r), n))
    ensures MadeBy(rs + [r], id, n, |rs|)
  {
    MadeBySource(r);
    MadeByTarget(r);
    NodeIdsRead(r);
    hide IsSourceOf, IsTargetOf, SourceId, TargetId, SourceNode, TargetNode;
    assert (rs + [r])[|rs|] == r;
    forall j | 0 <= j < |rs| ensures !Needs((rs + [r])[j], id) { assert (rs + [r])[j] == rs[j]; }
  }

  /** What adding a row does to a node. */
  lemma RowNodes(g: Graph, r: FlowRow, id: string)
    requires SourceId(r) != TargetId(r)
    ensures var out := AddRow(g, r).nodes;
            && (id in out <==> id in g.nodes || Needs(r, id))
            && (id in g.nodes ==> SameLooks(g.nodes[id], out[id]))
            && (id !in g.nodes && SourceId(r) == id ==> SameLooks(SourceNode(r), out[id]))
            && (id !in g.nodes && TargetId(r) == id ==> SameLooks(TargetNode(r), out[id]))
  {
    hide EdgeWith, SourceId, TargetId, SourceNode, TargetNode, RowId;
  }

  ghost predicate NodesExplained(seed: map<string, Node>, rs: seq<FlowRow>, nodes: map<string, Node>, id: string) {
    && (id in nodes <==> id in seed || exists i :: 0 <= i < |rs| && Needs(rs[i], id))
    && (id in nodes ==> Explained(seed, rs, id, nodes[id]))
  }

  lemma ExplainedStep(seed: map<string, Node>, rs: seq<FlowRow>, h: Graph, r: FlowRow, id: string)
    requires NodesExplained(seed, rs, h.nodes, id) && RowOk(r) && SourceId(r) != TargetId(r)
    ensures NodesExplained(seed, rs + [r], AddRow(h, r).nodes, id)
  {
    RowNodes(h, r, id);
    var out, ts := AddRow(h, r).nodes, rs + [r];
    assert ts[|rs|] == r && forall i :: 0 <= i < |rs| ==> ts[i] == rs[i];
    hide AddRow, Needs, SourceId, TargetId, SourceNode, TargetNode, MadeBy, RowOk;
    if i :| 0 <= i < |rs| && Needs(rs[i], id) { assert Needs(ts[i], id); }
    if Needs(r, id) { assert Needs(ts[|rs|], id); }
    if id in out && id !in seed {
      if id in h.nodes {
        var i :| MadeBy(rs, id, h.nodes[id], i);
        MadeStays(rs, r, id, h.nodes[id], out[id], i);
      } else {
        NeedsMeans(r, id);
        MadeNow(rs, r, id, out[id]);
      }
    }
  }

  lemma NeedsMeans(r: FlowRow, id: string)
    ensures Needs(r, id) <==> SourceId(r) == id || TargetId(r) == id
  {
  }

  ghost predicate EndsDiffer(rs: seq<FlowRow>) { forall i :: 0 <= i < |rs| ==> SourceId(rs[i]) != TargetId(rs[i]) }

  lemma {:induction false} AddedNodesExplained(g: Graph, rs: seq<FlowRow>, id: string)
    requires RowsOk(rs) && EndsDiffer(rs)
    ensures NodesExplained(g.nodes, rs, AddRows(g, rs).nodes, id)
  {
    hide NodesExplained, AddRow, SourceId, TargetId, RowOk;
    if rs == [] {
      NothingAdded(g, id);
    } else {
      var rest, r := Init(rs), Last(rs);
      assert r == rs[|rs| - 1];
      AddedNodesExplained(g, rest, id);
      ExplainedStep(g.nodes, rest, AddRows(g, rest), r, id);
      assert rest + [r] == rs;
    }
  }

  lemma NothingAdded(g: Graph, id: string)
    ensures NodesExplained(g.nodes, [], AddRows(g, []).nodes, id)
  {
  }

  lemma {:induction false} KeptEndsDiffer(env: Env, nodes: map<string, Node>, rows: seq<FlowRow>)
    requires RowsOk(rows)
    ensures EndsDiffer(KeptRows(env, nodes, rows))
  {
    hide RowOk, SourceId, TargetId, Eligible, Normalize;
    if rows != [] {
      KeptEndsDiffer(env, nodes, Init(rows));
      assert RowOk(rows[|rows| - 1]);
      if Eligible(env, nodes, Last(rows)) { EligibleEndsDiffer(env, nodes, Last(rows)); }
    }
  }

  lemma EligibleEndsDiffer(env: Env, nodes: map<string, Node>, row: FlowRow)
    requires RowOk(row) && Eligible(env, nodes, row)
    ensures SourceId(Normalize(row)) != TargetId(Normalize(row))
  {
    NormalizeOk(row);
    NoSelfLoop(Normalize(row));
  }

  // ---------------------------------------------------------------- main result

  /**
   * For every list of rows, a node exists exactly when it was seeded or a kept row has it as
   * an end. A seeded one keeps its looks; any other has the id, kind, name, address and status
   * that the first kept row with that end gives it.
   */
  lemma NodesShowRows(env: Env, g: Graph, rows: seq<FlowRow>, id: string)
    requires EnvOk(env) && RowsOk(rows)
    ensures NodesExplained(g.nodes, KeptRows(env, g.nodes, rows), FlowFold(env, g, rows).nodes, id)
  {
    FoldAddsKeptRows(env, g, rows);
    KeptRowsOk(env, g.nodes, rows);
    KeptEndsDiffer(env, g.nodes, rows);
    AddedNodesExplained(g, KeptRows(env, g.nodes, rows), id);
  }
}
