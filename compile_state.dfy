/**
 * The invariant of a compilation of `objectify`, stated over values: what the graph
 * holds relative to the trace of what the walk has created and to the memos of
 * nodes and subgraphs, and what each step of the walk keeps of it.
 */
module CompileState {
  import opened GraphModel
  import opened SparqlAst
  import opened WalkSpec
  import TermNames

  /** The handles 0, 1, ..., n - 1: a registration list that holds every entity once, in creation order. */
  function Iota(n: nat): (r: seq<nat>)
    ensures |r| == n && forall i :: 0 <= i < n ==> r[i] == i
  {
    if n == 0 then [] else Iota(n - 1) + [n - 1]
  }

  /** `m'` keeps every entry of `m`: a memo only ever grows. */
  ghost predicate KeysGrow(m: map<string, nat>, m': map<string, nat>) {
    forall k :: k in m ==> k in m' && m'[k] == m[k]
  }

  // ---------------------------------------------------------------------------
  // The invariant of a compilation, piece by piece over the values each piece reads

  /**
   * The node memo: node `i` is the one created for the `i`-th term the trace mentions
   * (`terms`), registered once, in order; the memo maps each mentioned term to its
   * position and holds nothing else, and each node is named by its term's display name.
   */
  ghost predicate NodeMemo(pre: seq<PrefixDecl>, nk: map<string, nat>, nodes: seq<NodeRec>, list: seq<nat>, terms: seq<string>) {
    && list == Iota(|nodes|) && |terms| == |nodes|
    && (forall i :: 0 <= i < |terms| ==> terms[i] in nk && nk[terms[i]] == i)
    && (forall k :: k in nk ==> nk[k] < |terms| && terms[nk[k]] == k && nodes[nk[k]].name == TermNames.KillPrefixes(pre, k))
  }

  ghost predicate AllRegular(nodes: seq<NodeRec>) {
    forall n :: 0 <= n < |nodes| ==> nodes[n].nodeType == RegularNode
  }

  /**
   * The graph memo: subgraph `i` is the one created for the `i`-th graph name the
   * trace mentions (`graphs`), registered once, in order, and named by it; the memo
   * holds exactly the mentioned names.
   */
  ghost predicate GraphMemo(gk: map<string, nat>, subGraphs: seq<ContainerRec>, list: seq<nat>, graphs: seq<string>) {
    && list == Iota(|subGraphs|) && |graphs| == |subGraphs|
    && (forall i :: 0 <= i < |graphs| ==> graphs[i] in gk && gk[graphs[i]] == i)
    && (forall k :: k in gk ==> gk[k] < |graphs| && graphs[gk[k]] == k && subGraphs[gk[k]].name == k)
  }

  /** An edge record is the one the shape describes, its end terms and graph resolved through the memos. */
  ghost predicate EdgeFits(pre: seq<PrefixDecl>, r: EdgeRec, s: Shape, nk: map<string, nat>, gk: map<string, nat>) {
    && r.name == TermNames.KillPrefixes(pre, s.pred) && r.edgeType == s.edgeType
    && s.subject in nk && r.startNode == nk[s.subject]
    && s.obj in nk && r.endNode == nk[s.obj]
    && (s.graph.None? ==> r.subGraph.None?)
    && (s.graph.Some? ==> s.graph.value in gk && r.subGraph == Some(gk[s.graph.value]))
    && r.service == s.service
    && r.unionList == (if s.union.Some? then [s.union.value] else [])
  }

  /** The edges are the traced ones, in order, each registered once. */
  ghost predicate EdgesTraced(pre: seq<PrefixDecl>, shapes: seq<Shape>, edges: seq<EdgeRec>, list: seq<nat>, nk: map<string, nat>, gk: map<string, nat>) {
    && list == Iota(|edges|) && |edges| == |shapes|
    && forall k :: 0 <= k < |edges| ==> EdgeFits(pre, edges[k], shapes[k], nk, gk)
  }

  ghost predicate ServicesTraced(services: seq<ContainerRec>, list: seq<nat>, names: seq<string>, order: seq<nat>) {
    && |services| == |names| && list == order
    && forall v :: 0 <= v < |services| ==> services[v].name == names[v]
  }

  /** `"U" + (k + 1)`: the name of the union created when `k` unions are registered. */
  function UnionName(k: nat): string {
    "U" + NatText(k + 1)
  }

  ghost predicate UnionsTraced(unions: seq<UnionRec>, list: seq<nat>, count: nat) {
    && |unions| == count && list == Iota(count)
    && forall u :: 0 <= u < |unions| ==> unions[u].name == UnionName(u)
  }

  ghost predicate TextsTraced(texts: seq<TextRec>, list: seq<nat>, strs: seq<string>) {
    && |texts| == |strs| && list == Iota(|strs|)
    && forall i :: 0 <= i < |texts| ==> texts[i].text == strs[i]
  }

  ghost predicate QueryUnset(q: QueryRec) {
    q.order == None && q.limit == Unbounded
  }

  // ---------------------------------------------------------------------------
  // Decimal text of a number, as JavaScript's string concatenation writes it

  function Digit(d: nat): char
    requires d < 10
  {
    "0123456789"[d]
  }

  function NatText(n: nat): string
    decreases n
  {
    if n < 10 then [Digit(n)] else NatText(n / 10) + [Digit(n % 10)]
  }

  function DigitValue(c: char): int {
    if '0' <= c <= '9' then (c as int) - ('0' as int) else -1
  }

  /** The number a string of digits denotes. */
  function DecimalValue(s: string): int {
    if s == [] then 0 else 10 * DecimalValue(s[..|s| - 1]) + DigitValue(s[|s| - 1])
  }

  /** Reading the decimal text back gives the number. */
  lemma {:induction false} DecimalValueNatText(n: nat)
    ensures DecimalValue(NatText(n)) == n
    decreases n
  {
    if n < 10 {
      assert NatText(n)[..0] == [];
    } else {
      DecimalValueNatText(n / 10);
      var s := NatText(n);
      assert s[..|s| - 1] == NatText(n / 10);
    }
  }

  /** Different union counts give different union names. */
  lemma UnionNamesDistinct(j: nat, k: nat)
    requires j != k
    ensures UnionName(j) != UnionName(k)
  {
    DecimalValueNatText(j + 1);
    DecimalValueNatText(k + 1);
    assert NatText(j + 1) == UnionName(j)[1..];
    assert NatText(k + 1) == UnionName(k)[1..];
  }

  // ---------------------------------------------------------------------------
  // What the graph operations keep of the pieces

  /** The memo reads only the nodes' names. */
  lemma NodeMemoSameNames(pre: seq<PrefixDecl>, nk: map<string, nat>, nodes: seq<NodeRec>, nodes': seq<NodeRec>, list: seq<nat>, terms: seq<string>)
    requires NodeMemo(pre, nk, nodes, list, terms)
    requires |nodes'| == |nodes| && forall n :: 0 <= n < |nodes| ==> nodes'[n].name == nodes[n].name
    ensures NodeMemo(pre, nk, nodes', list, terms)
  {
  }

  /** The memo has a term exactly when the trace mentions it. */
  lemma NodeMemoKeys(pre: seq<PrefixDecl>, nk: map<string, nat>, nodes: seq<NodeRec>, list: seq<nat>, terms: seq<string>, k: string)
    requires NodeMemo(pre, nk, nodes, list, terms)
    ensures k in nk <==> k in terms
  {
    if k in terms {
      var i :| 0 <= i < |terms| && terms[i] == k;
    }
  }

  /** A lookup miss with `force` creates the node for `k`, registers it and mentions `k` last. */
  lemma NodeMemoAdd(pre: seq<PrefixDecl>, nk: map<string, nat>, nodes: seq<NodeRec>, list: seq<nat>, terms: seq<string>, k: string)
    requires NodeMemo(pre, nk, nodes, list, terms) && k !in nk
    ensures NodeMemo(pre, nk[k := |nodes|], nodes + [NewNodeRec(TermNames.KillPrefixes(pre, k), RegularNode)], list + [|nodes|], terms + [k])
    ensures AllRegular(nodes) ==> AllRegular(nodes + [NewNodeRec(TermNames.KillPrefixes(pre, k), RegularNode)])
  {
    assert Iota(|nodes| + 1) == Iota(|nodes|) + [|nodes|];
    var nk', nodes', terms' := nk[k := |nodes|], nodes + [NewNodeRec(TermNames.KillPrefixes(pre, k), RegularNode)], terms + [k];
    forall i | 0 <= i < |terms'| ensures terms'[i] in nk' && nk'[terms'[i]] == i {
      if i < |terms| {
        assert terms'[i] == terms[i];
      }
    }
    forall k' | k' in nk'
      ensures nk'[k'] < |terms'| && terms'[nk'[k']] == k' && nodes'[nk'[k']].name == TermNames.KillPrefixes(pre, k')
    {
      if k' != k {
        assert terms'[nk[k']] == terms[nk[k']] && nodes'[nk[k']] == nodes[nk[k']];
      }
    }
  }

  /** The memo has a graph name exactly when the trace mentions it. */
  lemma GraphMemoKeys(gk: map<string, nat>, cs: seq<ContainerRec>, list: seq<nat>, graphs: seq<string>, k: string)
    requires GraphMemo(gk, cs, list, graphs)
    ensures k in gk <==> k in graphs
  {
    if k in graphs {
      var i :| 0 <= i < |graphs| && graphs[i] == k;
    }
  }

  /** A miss creates the subgraph named `k`, registers it and mentions `k` last. */
  lemma GraphMemoAdd(gk: map<string, nat>, cs: seq<ContainerRec>, list: seq<nat>, graphs: seq<string>, k: string)
    requires GraphMemo(gk, cs, list, graphs) && k !in gk
    ensures GraphMemo(gk[k := |cs|], cs + [ContainerRec(k, [], [])], list + [|cs|], graphs + [k])
  {
    assert Iota(|cs| + 1) == Iota(|cs|) + [|cs|];
    var gk', cs', graphs' := gk[k := |cs|], cs + [ContainerRec(k, [], [])], graphs + [k];
    forall i | 0 <= i < |graphs'| ensures graphs'[i] in gk' && gk'[graphs'[i]] == i {
      if i < |graphs| {
        assert graphs'[i] == graphs[i];
      }
    }
    forall k' | k' in gk' ensures gk'[k'] < |graphs'| && graphs'[gk'[k']] == k' && cs'[gk'[k']].name == k' {
      if k' != k {
        assert graphs'[gk[k']] == graphs[gk[k']] && cs'[gk[k']] == cs[gk[k']];
      }
    }
  }

  /**
   * What the memos pin down: node `i` is named by the display name of the `i`-th
   * mentioned term and subgraph `i` by the `i`-th mentioned graph name; no term and
   * no graph name is mentioned twice, so no two subgraphs share a name, and
   * different raw terms have different nodes.
   */
  lemma MemosDistinct(pre: seq<PrefixDecl>, nk: map<string, nat>, nodes: seq<NodeRec>, nlist: seq<nat>, terms: seq<string>,
    gk: map<string, nat>, cs: seq<ContainerRec>, glist: seq<nat>, graphs: seq<string>)
    requires NodeMemo(pre, nk, nodes, nlist, terms) && GraphMemo(gk, cs, glist, graphs)
    ensures forall i :: 0 <= i < |nodes| ==> nodes[i].name == TermNames.KillPrefixes(pre, terms[i])
    ensures forall i :: 0 <= i < |cs| ==> cs[i].name == graphs[i]
    ensures forall i, j :: 0 <= i < j < |terms| ==> terms[i] != terms[j]
    ensures forall i, j :: 0 <= i < j < |cs| ==> cs[i].name != cs[j].name
    ensures forall k, k' :: k in nk && k' in nk && k != k' ==> nk[k] != nk[k']
  {
    forall i | 0 <= i < |nodes| ensures nodes[i].name == TermNames.KillPrefixes(pre, terms[i]) {
      assert terms[i] in nk;
    }
    forall i | 0 <= i < |cs| ensures cs[i].name == graphs[i] {
      assert graphs[i] in gk;
    }
    forall i, j | 0 <= i < j < |cs| ensures cs[i].name != cs[j].name {
      assert gk[graphs[i]] == i && gk[graphs[j]] == j;
    }
    forall i, j | 0 <= i < j < |terms| ensures terms[i] != terms[j] {
      assert nk[terms[i]] == i && nk[terms[j]] == j;
    }
  }

  lemma EdgesTracedGrowKeys(pre: seq<PrefixDecl>, shapes: seq<Shape>, edges: seq<EdgeRec>, list: seq<nat>,
    nk: map<string, nat>, gk: map<string, nat>, nk': map<string, nat>, gk': map<string, nat>)
    requires EdgesTraced(pre, shapes, edges, list, nk, gk) && KeysGrow(nk, nk') && KeysGrow(gk, gk')
    ensures EdgesTraced(pre, shapes, edges, list, nk', gk')
  {
    forall k | 0 <= k < |edges| ensures EdgeFits(pre, edges[k], shapes[k], nk', gk') {
      assert EdgeFits(pre, edges[k], shapes[k], nk, gk);
    }
  }

  lemma EdgesTracedSame(pre: seq<PrefixDecl>, shapes: seq<Shape>, edges: seq<EdgeRec>, edges': seq<EdgeRec>, list: seq<nat>, nk: map<string, nat>, gk: map<string, nat>)
    requires EdgesTraced(pre, shapes, edges, list, nk, gk) && SameEdgeShapes(edges, edges')
    ensures EdgesTraced(pre, shapes, edges', list, nk, gk)
  {
    forall k | 0 <= k < |edges| ensures EdgeFits(pre, edges'[k], shapes[k], nk, gk) {
      assert EdgeFits(pre, edges[k], shapes[k], nk, gk);
    }
  }

  lemma EdgesTracedSnoc(pre: seq<PrefixDecl>, shapes: seq<Shape>, edges: seq<EdgeRec>, list: seq<nat>, nk: map<string, nat>, gk: map<string, nat>, r: EdgeRec, s: Shape)
    requires EdgesTraced(pre, shapes, edges, list, nk, gk) && EdgeFits(pre, r, s, nk, gk)
    ensures EdgesTraced(pre, shapes + [s], edges + [r], list + [|edges|], nk, gk)
  {
    assert Iota(|edges| + 1) == Iota(|edges|) + [|edges|];
  }

  /** `new Edge` keeps every node's name and type, and every container's name. */
  lemma NewEdgeKeepsNames(nodes: seq<NodeRec>, s: nat, t: nat, e: nat, sg: Option<nat>, sv: Option<nat>,
    cs: seq<ContainerRec>, o: Option<nat>)
    requires OptBelow(o, |cs|)
    ensures SameNodeNames(nodes, NodesTakeEdge(nodes, s, t, e, sg, sv))
    ensures SameContainerNames(cs, TakeEdgeAt(cs, o, s, t, e))
  {
    forall n | 0 <= n < |nodes| ensures NodesTakeEdge(nodes, s, t, e, sg, sv)[n].name == nodes[n].name {
      NewEdgeEndpointLists(nodes, s, t, e, sg, sv, n);
    }
  }

  /** The handles of the edges on `list` whose display name is `name`, in list order. */
  function NamedEdges(edges: seq<EdgeRec>, list: seq<nat>, name: string): (r: seq<nat>)
    requires Below(list, |edges|)
    ensures Below(r, |edges|)
  {
    if list == [] then []
    else NamedEdges(edges, list[..|list| - 1], name)
         + (if edges[list[|list| - 1]].name == name then [list[|list| - 1]] else [])
  }

  /**
   * Over a list of every edge in creation order, the lookup finds exactly the edges
   * whose display name is `name`, in increasing handle order.
   */
  lemma {:induction false} NamedEdgesIota(edges: seq<EdgeRec>, n: nat, name: string)
    requires n <= |edges|
    ensures var r := NamedEdges(edges, Iota(n), name);
      && (forall x: nat :: x in r <==> x < n && edges[x].name == name)
      && (forall i, j :: 0 <= i < j < |r| ==> r[i] < r[j])
  {
    if n > 0 {
      NamedEdgesIota(edges, n - 1, name);
      NamedEdgesIotaStep(edges, n, name);
      var r0 := NamedEdges(edges, Iota(n - 1), name);
      var r := NamedEdges(edges, Iota(n), name);
      forall x: nat ensures x in r <==> x < n && edges[x].name == name {
        assert x in r <==> x in r0 || (x == n - 1 && edges[n - 1].name == name);
      }
      forall i, j | 0 <= i < j < |r| ensures r[i] < r[j] {
        if j == |r0| {
          assert r0[i] in r0;
        }
      }
    }
  }

  /** The lookup over the first `n` handles is the lookup over the first `n - 1`, then edge `n - 1`. */
  lemma NamedEdgesIotaStep(edges: seq<EdgeRec>, n: nat, name: string)
    requires 0 < n <= |edges|
    ensures NamedEdges(edges, Iota(n), name)
      == NamedEdges(edges, Iota(n - 1), name) + (if edges[n - 1].name == name then [n - 1] else [])
  {
    assert Iota(n)[..n - 1] == Iota(n - 1);
  }

  /** The context names a service and a union the trace has created. */
  ghost predicate CtxFits(c: Ctx, a: Trace) {
    OptBelow(c.service, |a.serviceNames|) && OptBelow(c.union, a.unions)
  }

  lemma ServicesTracedSameNames(services: seq<ContainerRec>, services': seq<ContainerRec>, list: seq<nat>, names: seq<string>, order: seq<nat>)
    requires ServicesTraced(services, list, names, order) && SameContainerNames(services, services')
    ensures ServicesTraced(services', list, names, order)
  {
  }

  lemma UnionsTracedSameNames(unions: seq<UnionRec>, unions': seq<UnionRec>, list: seq<nat>, count: nat)
    requires UnionsTraced(unions, list, count) && SameUnionNames(unions, unions')
    ensures UnionsTraced(unions', list, count)
  {
  }

  lemma TextsTracedSame(texts: seq<TextRec>, texts': seq<TextRec>, list: seq<nat>, strs: seq<string>)
    requires TextsTraced(texts, list, strs) && SameTexts(texts, texts')
    ensures TextsTraced(texts', list, strs)
  {
  }

  /** A union's new edge: its record, the union handle in its union list, is what the shape says. */
  lemma NewEdgeFits(pre: seq<PrefixDecl>, pred: string, sn: nat, on: nat, c: Ctx, sg: Option<nat>, graph: Option<string>,
    subject: string, obj: string, nk: map<string, nat>, gk: map<string, nat>)
    requires subject in nk && nk[subject] == sn && obj in nk && nk[obj] == on
    requires graph.None? ==> sg.None?
    requires graph.Some? ==> graph.value in gk && sg == Some(gk[graph.value])
    ensures var r := NewEdgeRec(TermNames.KillPrefixes(pre, pred), sn, on, c.edgeType, sg, c.service);
      EdgeFits(pre, r.(unionList := if c.union.Some? then [c.union.value] else []),
               Shape(pred, subject, obj, c.edgeType, graph, c.service, c.union), nk, gk)
  {
  }

  /** The graph's nine fields, as one value. */
  datatype Arena = Arena(
    query: QueryRec, nodes: seq<NodeRec>, edges: seq<EdgeRec>,
    subGraphs: seq<ContainerRec>, services: seq<ContainerRec>, unions: seq<UnionRec>,
    filters: seq<TextRec>, binds: seq<TextRec>, orders: seq<OrderRec>)

  /** The arena is what the trace `a` says, registered in the query, and reachable through the memos. */
  ghost predicate Built(pre: seq<PrefixDecl>, nk: map<string, nat>, gk: map<string, nat>, s: Arena, a: Trace) {
    && NodeMemo(pre, nk, s.nodes, s.query.nodeList, a.terms)
    && GraphMemo(gk, s.subGraphs, s.query.subGraphList, a.graphs)
    && EdgesTraced(pre, a.shapes, s.edges, s.query.edgeList, nk, gk)
    && ServicesTraced(s.services, s.query.serviceList, a.serviceNames, a.serviceOrder)
    && UnionsTraced(s.unions, s.query.unionList, a.unions)
    && TextsTraced(s.filters, s.query.filterList, a.filters)
    && TextsTraced(s.binds, s.query.bindList, a.binds)
  }

  /** Before the walk: the empty trace describes the empty arena and empty memos, and nothing else. */
  lemma BuiltEmpty(pre: seq<PrefixDecl>, nk: map<string, nat>, gk: map<string, nat>, s: Arena)
    requires Built(pre, nk, gk, s, EmptyTrace())
    ensures nk == map[] && gk == map[]
    ensures s.nodes == [] && s.subGraphs == [] && s.edges == [] && s.services == []
    ensures s.unions == [] && s.filters == [] && s.binds == []
  {
    assert forall k :: k !in nk;
    assert forall k :: k !in gk;
  }

  /** Every traced edge joins two mentioned terms and lies in a mentioned graph, if any. */
  lemma BuiltEndsMentioned(pre: seq<PrefixDecl>, nk: map<string, nat>, gk: map<string, nat>, s: Arena, a: Trace)
    requires Built(pre, nk, gk, s, a)
    ensures forall k :: 0 <= k < |a.shapes| ==> a.shapes[k].subject in a.terms && a.shapes[k].obj in a.terms
    ensures forall k :: 0 <= k < |a.shapes| && a.shapes[k].graph.Some? ==> a.shapes[k].graph.value in a.graphs
  {
    forall k | 0 <= k < |a.shapes|
      ensures a.shapes[k].subject in a.terms && a.shapes[k].obj in a.terms
      ensures a.shapes[k].graph.Some? ==> a.shapes[k].graph.value in a.graphs
    {
      assert EdgeFits(pre, s.edges[k], a.shapes[k], nk, gk);
    }
  }

  /** During the walk, moreover: no node is marked yet, and neither limit nor order is set. */
  ghost predicate InvAt(pre: seq<PrefixDecl>, nk: map<string, nat>, gk: map<string, nat>, s: Arena, a: Trace) {
    Built(pre, nk, gk, s, a) && AllRegular(s.nodes) && QueryUnset(s.query) && |s.orders| == 0
  }

  /** `s'` is `s` with the edge `r` appended and registered; the other records keep their names. */
  ghost predicate EdgeAppended(s: Arena, s': Arena, r: EdgeRec) {
    && s'.edges == s.edges + [r] && s'.query == s.query.(edgeList := s.query.edgeList + [|s.edges|])
    && SameNodeNames(s.nodes, s'.nodes) && SameContainerNames(s.subGraphs, s'.subGraphs)
    && SameContainerNames(s.services, s'.services) && SameUnionNames(s.unions, s'.unions)
    && s'.filters == s.filters && s'.binds == s.binds && s'.orders == s.orders
  }

  /**
   * A new edge of shape `shape`: the edge is appended and registered, the other
   * records keep their names and the memos are unchanged.
   */
  lemma InvAddEdge(pre: seq<PrefixDecl>, nk: map<string, nat>, gk: map<string, nat>, s: Arena, s': Arena, a: Trace, shape: Shape, r: EdgeRec)
    requires InvAt(pre, nk, gk, s, a) && EdgeFits(pre, r, shape, nk, gk) && EdgeAppended(s, s', r)
    ensures InvAt(pre, nk, gk, s', AddShapes(a, [shape]))
  {
    EdgesTracedSnoc(pre, a.shapes, s.edges, s.query.edgeList, nk, gk, r, shape);
  }

  /** Attaching a filter or a bind to nodes and edges keeps every name, type and owner the invariant reads. */
  lemma InvSame(pre: seq<PrefixDecl>, nk: map<string, nat>, gk: map<string, nat>, s: Arena, s': Arena, a: Trace)
    requires InvAt(pre, nk, gk, s, a)
    requires s'.query == s.query && |s'.orders| == |s.orders|
    requires SameNodeNames(s.nodes, s'.nodes) && SameEdgeShapes(s.edges, s'.edges)
    requires SameContainerNames(s.subGraphs, s'.subGraphs) && SameContainerNames(s.services, s'.services)
    requires SameUnionNames(s.unions, s'.unions) && SameTexts(s.filters, s'.filters) && SameTexts(s.binds, s'.binds)
    ensures InvAt(pre, nk, gk, s', a)
  {
    NodeMemoSameNames(pre, nk, s.nodes, s'.nodes, s.query.nodeList, a.terms);
    EdgesTracedSame(pre, a.shapes, s.edges, s'.edges, s.query.edgeList, nk, gk);
  }

  /** `new Service(name)`: the service exists, and is not yet registered. */
  lemma InvNewService(pre: seq<PrefixDecl>, nk: map<string, nat>, gk: map<string, nat>, s: Arena, a: Trace, name: string)
    requires InvAt(pre, nk, gk, s, a)
    ensures InvAt(pre, nk, gk, s.(services := s.services + [ContainerRec(name, [], [])]), a.(serviceNames := a.serviceNames + [name]))
  {
  }

  /** object.addService: the service joins the query's list. */
  lemma InvRegisterService(pre: seq<PrefixDecl>, nk: map<string, nat>, gk: map<string, nat>, s: Arena, a: Trace, v: nat)
    requires InvAt(pre, nk, gk, s, a)
    ensures InvAt(pre, nk, gk, s.(query := s.query.(serviceList := s.query.serviceList + [v])), a.(serviceOrder := a.serviceOrder + [v]))
  {
  }

  /** `new Union("U" + (k + 1))` registered at once, where `k` unions are registered. */
  lemma InvNewUnion(pre: seq<PrefixDecl>, nk: map<string, nat>, gk: map<string, nat>, s: Arena, a: Trace)
    requires InvAt(pre, nk, gk, s, a)
    ensures InvAt(pre, nk, gk,
      s.(unions := s.unions + [UnionRec(UnionName(|s.query.unionList|), [])],
         query := s.query.(unionList := s.query.unionList + [|s.unions|])),
      a.(unions := a.unions + 1))
  {
    assert Iota(a.unions + 1) == Iota(a.unions) + [a.unions];
  }

  lemma InvNewFilter(pre: seq<PrefixDecl>, nk: map<string, nat>, gk: map<string, nat>, s: Arena, a: Trace, text: string)
    requires InvAt(pre, nk, gk, s, a)
    ensures InvAt(pre, nk, gk,
      s.(filters := s.filters + [TextRec(text, [], [])],
         query := s.query.(filterList := s.query.filterList + [|s.filters|])),
      a.(filters := a.filters + [text]))
  {
    assert Iota(|a.filters| + 1) == Iota(|a.filters|) + [|a.filters|];
  }

  lemma InvNewBind(pre: seq<PrefixDecl>, nk: map<string, nat>, gk: map<string, nat>, s: Arena, a: Trace, text: string)
    requires InvAt(pre, nk, gk, s, a)
    ensures InvAt(pre, nk, gk,
      s.(binds := s.binds + [TextRec(text, [], [])],
         query := s.query.(bindList := s.query.bindList + [|s.binds|])),
      a.(binds := a.binds + [text]))
  {
    assert Iota(|a.binds| + 1) == Iota(|a.binds|) + [|a.binds|];
  }

  /**
   * The edge lookup by a raw IRI finds nothing exactly when no traced edge has that
   * display name; a path predicate (an object) is never looked up successfully.
   */
  lemma RawLookup(pre: seq<PrefixDecl>, shapes: seq<Shape>, edges: seq<EdgeRec>, list: seq<nat>, nk: map<string, nat>, gk: map<string, nat>, name: string)
    requires EdgesTraced(pre, shapes, edges, list, nk, gk)
    ensures NamedEdges(edges, list, name) == [] <==> RawUnnamed(pre, shapes, Iri(name))
  {
    NamedEdgesIota(edges, |edges|, name);
    var r := NamedEdges(edges, list, name);
    if r != [] {
      assert r[0] in r;
      assert EdgeFits(pre, edges[r[0]], shapes[r[0]], nk, gk);
    } else {
      forall k | 0 <= k < |shapes| ensures TermNames.KillPrefixes(pre, shapes[k].pred) != name {
        assert EdgeFits(pre, edges[k], shapes[k], nk, gk);
        assert k !in r;
      }
    }
  }

  /**
   * After the walk: marking nodes, setting the limit and setting the order keep
   * every node's name, every other record and every registration list.
   */
  lemma BuiltKeep(pre: seq<PrefixDecl>, nk: map<string, nat>, gk: map<string, nat>, s: Arena, s': Arena, a: Trace)
    requires Built(pre, nk, gk, s, a)
    requires |s'.nodes| == |s.nodes| && forall n :: 0 <= n < |s.nodes| ==> s'.nodes[n].name == s.nodes[n].name
    requires s'.edges == s.edges && s'.subGraphs == s.subGraphs && s'.services == s.services
    requires s'.unions == s.unions && s'.filters == s.filters && s'.binds == s.binds
    requires s'.query.nodeList == s.query.nodeList && s'.query.edgeList == s.query.edgeList
    requires s'.query.subGraphList == s.query.subGraphList && s'.query.serviceList == s.query.serviceList
    requires s'.query.unionList == s.query.unionList && s'.query.filterList == s.query.filterList
    requires s'.query.bindList == s.query.bindList
    ensures Built(pre, nk, gk, s', a)
  {
    NodeMemoSameNames(pre, nk, s.nodes, s'.nodes, s.query.nodeList, a.terms);
  }

  /** The walk never removes a service or a union. */
  ghost predicate TraceGrows(a: Trace, a': Trace) {
    |a.serviceNames| <= |a'.serviceNames| && a.unions <= a'.unions
  }

  /** The node a raw term names, if the memo has it: `getNode(x, false)`. */
  function NodeRef(nk: map<string, nat>, x: string): seq<nat> {
    if x in nk then [nk[x]] else []
  }

  /** The nodes of the plain terms among `xs`, in order; objects name none. */
  function TermNodes(nk: map<string, nat>, xs: seq<Expr>): seq<nat> {
    if xs == [] then []
    else TermNodes(nk, xs[..|xs| - 1]) + (if xs[|xs| - 1].Term? then NodeRef(nk, xs[|xs| - 1].value) else [])
  }

  /** The edges named by the plain terms among `xs`, in order; objects name none. */
  function TermEdges(edges: seq<EdgeRec>, list: seq<nat>, xs: seq<Expr>): (r: seq<nat>)
    requires Below(list, |edges|)
    ensures Below(r, |edges|)
  {
    if xs == [] then []
    else TermEdges(edges, list, xs[..|xs| - 1]) + (if xs[|xs| - 1].Term? then NamedEdges(edges, list, xs[|xs| - 1].value) else [])
  }

  /** Attaching changes no edge's name, so the lookups give the same edges. */
  lemma {:induction false} NamedEdgesSame(edges: seq<EdgeRec>, edges': seq<EdgeRec>, list: seq<nat>, name: string)
    requires Below(list, |edges|) && SameEdgeShapes(edges, edges')
    ensures NamedEdges(edges', list, name) == NamedEdges(edges, list, name)
  {
    if list != [] {
      NamedEdgesSame(edges, edges', list[..|list| - 1], name);
    }
  }

  lemma {:induction false} TermEdgesSame(edges: seq<EdgeRec>, edges': seq<EdgeRec>, list: seq<nat>, xs: seq<Expr>)
    requires Below(list, |edges|) && SameEdgeShapes(edges, edges')
    ensures TermEdges(edges', list, xs) == TermEdges(edges, list, xs)
  {
    if xs != [] {
      TermEdgesSame(edges, edges', list, xs[..|xs| - 1]);
      if xs[|xs| - 1].Term? {
        NamedEdgesSame(edges, edges', list, xs[|xs| - 1].value);
      }
    }
  }

  /** The nodes the SELECT variables name, in variable order. */
  function PickedNodes(nk: map<string, nat>, vars: seq<string>): seq<nat> {
    if vars == [] then [] else PickedNodes(nk, vars[..|vars| - 1]) + NodeRef(nk, vars[|vars| - 1])
  }

  /** A node is picked exactly when some variable's memo entry is that node. */
  lemma {:induction false} PickedNodesMeaning(nk: map<string, nat>, vars: seq<string>, n: nat)
    ensures n in PickedNodes(nk, vars) <==> exists j :: 0 <= j < |vars| && vars[j] in nk && nk[vars[j]] == n
  {
    if vars != [] {
      var init := vars[..|vars| - 1];
      PickedNodesMeaning(nk, init, n);
      if n in PickedNodes(nk, init) {
        var j :| 0 <= j < |init| && init[j] in nk && nk[init[j]] == n;
        assert vars[j] == init[j];
      }
      if exists j :: 0 <= j < |vars| && vars[j] in nk && nk[vars[j]] == n {
        var j :| 0 <= j < |vars| && vars[j] in nk && nk[vars[j]] == n;
        if j < |init| {
          assert init[j] == vars[j];
        }
      }
    }
  }

  /** The SELECT projection: the node is marked by `*` or named by a variable. */
  ghost predicate Chosen(body: Body, nk: map<string, nat>, n: nat) {
    && body.QueryBody? && body.queryType == SelectQuery
    && ((|body.variables| == 1 && body.variables[0] == "*")
        || exists j :: 0 <= j < |body.variables| && body.variables[j] in nk && nk[body.variables[j]] == n)
  }

  /** Filter or bind `f` with the nodes `ns` and the edges `es` appended to its lists. */
  function Attached(ts: seq<TextRec>, f: nat, ns: seq<nat>, es: seq<nat>): (r: seq<TextRec>)
    requires f < |ts|
    ensures SameTexts(ts, r)
  {
    ts[f := ts[f].(nodeList := ts[f].nodeList + ns, edgeList := ts[f].edgeList + es)]
  }

  /** Attaching twice is attaching the concatenations once. */
  lemma AttachedTwice(ts: seq<TextRec>, f: nat, ns1: seq<nat>, es1: seq<nat>, ns2: seq<nat>, es2: seq<nat>)
    requires f < |ts|
    ensures Attached(Attached(ts, f, ns1, es1), f, ns2, es2) == Attached(ts, f, ns1 + ns2, es1 + es2)
  {
    assert ts[f].nodeList + ns1 + ns2 == ts[f].nodeList + (ns1 + ns2);
    assert ts[f].edgeList + es1 + es2 == ts[f].edgeList + (es1 + es2);
  }

  /** Attaching nothing changes nothing. */
  lemma AttachedNothing(ts: seq<TextRec>, f: nat)
    requires f < |ts|
    ensures Attached(ts, f, [], []) == ts
  {
    assert ts[f].nodeList + [] == ts[f].nodeList && ts[f].edgeList + [] == ts[f].edgeList;
  }

  lemma SameTextsTrans(ts: seq<TextRec>, ts': seq<TextRec>, ts'': seq<TextRec>)
    requires SameTexts(ts, ts') && SameTexts(ts', ts'')
    ensures SameTexts(ts, ts'')
  {
  }

  lemma SameEdgeShapesTrans(es: seq<EdgeRec>, es': seq<EdgeRec>, es'': seq<EdgeRec>)
    requires SameEdgeShapes(es, es') && SameEdgeShapes(es', es'')
    ensures SameEdgeShapes(es, es'')
  {
  }

  /** One more argument of a loop over terms: an object argument adds nothing, a plain term its node and edges. */
  lemma TermsStep(ts: seq<TextRec>, f: nat, nk: map<string, nat>, edges: seq<EdgeRec>, list: seq<nat>, xs: seq<Expr>, i: nat)
    requires f < |ts| && i < |xs| && Below(list, |edges|)
    ensures !xs[i].Term? ==>
      Attached(ts, f, TermNodes(nk, xs[..i + 1]), TermEdges(edges, list, xs[..i + 1]))
        == Attached(ts, f, TermNodes(nk, xs[..i]), TermEdges(edges, list, xs[..i]))
    ensures xs[i].Term? ==>
      Attached(Attached(ts, f, TermNodes(nk, xs[..i]), TermEdges(edges, list, xs[..i])),
        f, NodeRef(nk, xs[i].value), NamedEdges(edges, list, xs[i].value))
        == Attached(ts, f, TermNodes(nk, xs[..i + 1]), TermEdges(edges, list, xs[..i + 1]))
  {
    assert xs[..i + 1][..i] == xs[..i];
    AttachedTwice(ts, f, TermNodes(nk, xs[..i]), TermEdges(edges, list, xs[..i]),
      if xs[i].Term? then NodeRef(nk, xs[i].value) else [], if xs[i].Term? then NamedEdges(edges, list, xs[i].value) else []);
    assert TermNodes(nk, xs[..i]) + [] == TermNodes(nk, xs[..i]);
    assert TermEdges(edges, list, xs[..i]) + [] == TermEdges(edges, list, xs[..i]);
  }

  /** The terms a bind attaches: its variable, then its expression if a plain term, else the operation's arguments. */
  function BoundTerms(v: string, e: Expr): seq<Expr>
    requires e.Term? || e.Operation?
  {
    [Term(v)] + (if e.Term? then [e] else e.args)
  }
}
