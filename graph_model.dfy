/**
 * The graph model of a SPARQL query: nodes (terms), edges (triple patterns) and the
 * annotation entities (named graphs, services, unions, filters, binds, ordering) with
 * their bidirectional membership lists.
 *
 * The cyclic object graph is an arena: every entity is a record in one of the arena
 * sequences of a `Graph` object and is addressed by its index (its handle); every
 * membership list holds handles. `Graph` also holds the `Query` aggregate root, whose
 * lists say which entities the query has registered.
 */
module GraphModel {

  datatype Option<T> = None | Some(value: T)

  /** The semantic role of a triple pattern. */
  datatype EdgeType = Insert | Delete | Minus | Optional | Construct | Regular

  /** A node is either projected by SELECT or not. */
  datatype NodeType = SelectNode | RegularNode

  /** The curve drawn for an edge: straight, or bent to one side or the other. */
  datatype CurveClass = Linear | BezierPositive | BezierNegative

  /** The query's result limit; a fresh query has none. */
  datatype Limit = Unbounded | Limited(n: int)

  datatype NodeRec = NodeRec(
    name: string,
    nodeType: NodeType,
    subGraphList: seq<nat>,
    edgeList: seq<nat>,
    filterList: seq<nat>,
    bindList: seq<nat>,
    unionList: seq<nat>,
    orderList: seq<nat>,
    serviceList: seq<nat>)
  {
    predicate IsSelect() { nodeType == SelectNode }
  }

  /** `source` and `target` are the node indices the layout uses; None while unassigned. */
  datatype EdgeRec = EdgeRec(
    name: string,
    startNode: nat,
    endNode: nat,
    edgeType: EdgeType,
    subGraph: Option<nat>,
    service: Option<nat>,
    filterList: seq<nat>,
    bindList: seq<nat>,
    unionList: seq<nat>,
    orderList: seq<nat>,
    curve: CurveClass,
    source: Option<nat>,
    target: Option<nat>)
  {
    predicate IsInsert() { edgeType == Insert }
    predicate IsDelete() { edgeType == Delete }
    predicate IsMinus() { edgeType == Minus }
    predicate IsOptional() { edgeType == Optional }
    predicate IsConstruct() { edgeType == Construct }
  }

  /** A named graph (SubGraph) or a federated service: the two have the same shape. */
  datatype ContainerRec = ContainerRec(name: string, nodeList: seq<nat>, edgeList: seq<nat>)

  datatype UnionRec = UnionRec(name: string, edgeList: seq<nat>)

  /** A FILTER or a BIND: the serialised expression and what it refers to. */
  datatype TextRec = TextRec(text: string, edgeList: seq<nat>, nodeList: seq<nat>)

  datatype OrderRec = OrderRec(edgeList: seq<nat>, nodeList: seq<nat>)

  datatype QueryRec = QueryRec(
    edgeList: seq<nat>,
    nodeList: seq<nat>,
    subGraphList: seq<nat>,
    serviceList: seq<nat>,
    unionList: seq<nat>,
    filterList: seq<nat>,
    bindList: seq<nat>,
    order: Option<nat>,
    limit: Limit)

  function EmptyQuery(): QueryRec {
    QueryRec([], [], [], [], [], [], [], None, Unbounded)
  }

  function NewNodeRec(name: string, ty: NodeType): NodeRec {
    NodeRec(name, ty, [], [], [], [], [], [], [])
  }

  function NewEdgeRec(name: string, s: nat, t: nat, ty: EdgeType, sg: Option<nat>, sv: Option<nat>): EdgeRec {
    EdgeRec(name, s, t, ty, sg, sv, [], [], [], [], Linear, None, None)
  }

  // ---------------------------------------------------------------------------
  // Sequence helpers

  predicate Below(s: seq<nat>, n: nat) {
    forall i :: 0 <= i < |s| ==> s[i] < n
  }

  predicate OptBelow(o: Option<nat>, n: nat) {
    o.Some? ==> o.value < n
  }

  predicate NoDup<T(==)>(s: seq<T>) {
    forall i, j :: 0 <= i < j < |s| ==> s[i] != s[j]
  }

  /** `k` copies of `x`. */
  function Repeat<T>(x: T, k: nat): (r: seq<T>)
    ensures |r| == k
    ensures forall y :: y in r ==> y == x
    ensures k > 0 ==> x in r
  {
    if k == 0 then [] else Repeat(x, k - 1) + [x]
  }

  function OptRepeat(o: Option<nat>, k: nat): seq<nat> {
    if o.Some? then Repeat(o.value, k) else []
  }

  /** How many of the two endpoints `s`, `t` are the node `n`: 0, 1 or 2 (a self-loop). */
  function Hits(n: nat, s: nat, t: nat): nat {
    (if n == s then 1 else 0) + (if n == t then 1 else 0)
  }

  /** The number of occurrences of `x` in `s`. */
  function Count<T(==)>(s: seq<T>, x: T): nat {
    if s == [] then 0 else Count(s[..|s| - 1], x) + (if s[|s| - 1] == x then 1 else 0)
  }

  /** Append `x` unless it is already present: the insertion of SubGraph and Service. */
  function Adjoin(s: seq<nat>, x: nat): seq<nat> {
    if x in s then s else s + [x]
  }

  /** `Adjoin` holds exactly the old elements and `x`, and keeps a list free of duplicates. */
  lemma AdjoinMembers(s: seq<nat>, x: nat)
    ensures x in Adjoin(s, x)
    ensures forall y :: y in Adjoin(s, x) <==> y in s || y == x
    ensures NoDup(s) ==> NoDup(Adjoin(s, x))
  {
  }

  /**
   * The identity search that SubGraph and Service run before inserting a node or an
   * edge: it stops at the first element equal to `x`.
   */
  method Contains(list: seq<nat>, x: nat) returns (found: bool)
    ensures found <==> x in list
  {
    var i := 0;
    while i < |list|
      invariant 0 <= i <= |list|
      invariant x !in list[..i]
    {
      if list[i] == x {
        return true;
      }
      i := i + 1;
    }
    return false;
  }

  /** Growing a prefix of `s` by its next element, and appending that element to a list. */
  lemma PrefixStep(l: seq<nat>, s: seq<nat>, i: nat)
    requires i < |s|
    ensures s[..i + 1] == s[..i] + [s[i]]
    ensures l + s[..i + 1] == (l + s[..i]) + [s[i]]
  {
    assert s[..i + 1] == s[..i] + [s[i]];
  }

  /** The empty and the full prefix of `s`. */
  lemma PrefixEnds(l: seq<nat>, s: seq<nat>)
    ensures s[..0] == [] && l + s[..0] == l && s[..|s|] == s
  {
  }

  /** Comma-joined text, as JavaScript's `Array.prototype.join`. */
  function Join(parts: seq<string>, sep: string): string {
    if |parts| == 0 then ""
    else if |parts| == 1 then parts[0]
    else parts[0] + sep + Join(parts[1..], sep)
  }

  // ---------------------------------------------------------------------------
  // What attaching keeps: the names, types and owners by which records are found

  /** Every node keeps its name and its type. */
  predicate SameNodeNames(ns: seq<NodeRec>, ns': seq<NodeRec>) {
    |ns'| == |ns| && forall n :: 0 <= n < |ns| ==> ns'[n].name == ns[n].name && ns'[n].nodeType == ns[n].nodeType
  }

  /** Every subgraph or service keeps its name. */
  predicate SameContainerNames(cs: seq<ContainerRec>, cs': seq<ContainerRec>) {
    |cs'| == |cs| && forall g :: 0 <= g < |cs| ==> cs'[g].name == cs[g].name
  }

  /** Every union keeps its name. */
  predicate SameUnionNames(us: seq<UnionRec>, us': seq<UnionRec>) {
    |us'| == |us| && forall u :: 0 <= u < |us| ==> us'[u].name == us[u].name
  }

  /** Every filter or bind keeps its text. */
  predicate SameTexts(ts: seq<TextRec>, ts': seq<TextRec>) {
    |ts'| == |ts| && forall i :: 0 <= i < |ts| ==> ts'[i].text == ts[i].text
  }

  /** Every field an edge's shape constrains is unchanged. */
  predicate SameEdgeShapes(es: seq<EdgeRec>, es': seq<EdgeRec>) {
    |es'| == |es| && forall e :: 0 <= e < |es| ==>
      && es'[e].name == es[e].name && es'[e].edgeType == es[e].edgeType
      && es'[e].startNode == es[e].startNode && es'[e].endNode == es[e].endNode
      && es'[e].subGraph == es[e].subGraph && es'[e].service == es[e].service
      && es'[e].unionList == es[e].unionList
  }

  // ---------------------------------------------------------------------------
  // The invariant of the arena, piece by piece. Each piece is a predicate of exactly
  // the arena sequences it reads, so a piece whose sequences an operation leaves alone
  // is kept without further proof.

  datatype Sizes = Sizes(nodes: nat, edges: nat, subGraphs: nat, services: nat,
                         unions: nat, filters: nat, binds: nat, orders: nat)

  /** The query's lists and its order name entities of the arena. */
  ghost predicate QueryWF(q: QueryRec, z: Sizes) {
    && Below(q.edgeList, z.edges) && Below(q.nodeList, z.nodes)
    && Below(q.subGraphList, z.subGraphs) && Below(q.serviceList, z.services)
    && Below(q.unionList, z.unions) && Below(q.filterList, z.filters)
    && Below(q.bindList, z.binds) && OptBelow(q.order, z.orders)
  }

  /** Every edge's endpoints are nodes, and the edge is on both their edge lists. */
  ghost predicate EdgesOnEndpoints(nodes: seq<NodeRec>, edges: seq<EdgeRec>) {
    forall e :: 0 <= e < |edges| ==>
      && edges[e].startNode < |nodes| && edges[e].endNode < |nodes|
      && e in nodes[edges[e].startNode].edgeList && e in nodes[edges[e].endNode].edgeList
  }

  /**
   * An edge owned by a SubGraph is on that subgraph's edge list, its endpoints are on
   * the subgraph's node list, and both endpoints list the subgraph.
   */
  ghost predicate SubGraphsRegistered(nodes: seq<NodeRec>, edges: seq<EdgeRec>, subGraphs: seq<ContainerRec>) {
    forall e :: 0 <= e < |edges| && edges[e].subGraph.Some? ==>
      var r := edges[e];
      var g := r.subGraph.value;
      && g < |subGraphs| && r.startNode < |nodes| && r.endNode < |nodes|
      && e in subGraphs[g].edgeList && r.startNode in subGraphs[g].nodeList && r.endNode in subGraphs[g].nodeList
      && g in nodes[r.startNode].subGraphList && g in nodes[r.endNode].subGraphList
  }

  /** The same for an edge owned by a Service. */
  ghost predicate ServicesRegistered(nodes: seq<NodeRec>, edges: seq<EdgeRec>, services: seq<ContainerRec>) {
    forall e :: 0 <= e < |edges| && edges[e].service.Some? ==>
      var r := edges[e];
      var v := r.service.value;
      && v < |services| && r.startNode < |nodes| && r.endNode < |nodes|
      && e in services[v].edgeList && r.startNode in services[v].nodeList && r.endNode in services[v].nodeList
      && v in nodes[r.startNode].serviceList && v in nodes[r.endNode].serviceList
  }

  /** SubGraph and Service membership lists never hold an entity twice. */
  ghost predicate ContainersDistinct(cs: seq<ContainerRec>) {
    forall g :: 0 <= g < |cs| ==> NoDup(cs[g].nodeList) && NoDup(cs[g].edgeList)
  }

  /** A union's edges are edges, and they list the union. */
  ghost predicate UnionEdgesRegistered(unions: seq<UnionRec>, edges: seq<EdgeRec>) {
    forall u, e {:trigger e in unions[u].edgeList} ::
      0 <= u < |unions| && e in unions[u].edgeList ==> e < |edges| && u in edges[e].unionList
  }

  /** Both endpoints of an edge list every union the edge lists. */
  ghost predicate UnionNodesRegistered(nodes: seq<NodeRec>, edges: seq<EdgeRec>) {
    forall e, u {:trigger u in edges[e].unionList} ::
      0 <= e < |edges| && u in edges[e].unionList ==>
        && edges[e].startNode < |nodes| && edges[e].endNode < |nodes|
        && u in nodes[edges[e].startNode].unionList && u in nodes[edges[e].endNode].unionList
  }

  /** A filter's edges and nodes exist and list the filter. */
  ghost predicate FiltersRegistered(filters: seq<TextRec>, nodes: seq<NodeRec>, edges: seq<EdgeRec>) {
    && (forall f, e {:trigger e in filters[f].edgeList} ::
          0 <= f < |filters| && e in filters[f].edgeList ==> e < |edges| && f in edges[e].filterList)
    && (forall f, n {:trigger n in filters[f].nodeList} ::
          0 <= f < |filters| && n in filters[f].nodeList ==> n < |nodes| && f in nodes[n].filterList)
  }

  /** A bind's edges and nodes exist and list the bind. */
  ghost predicate BindsRegistered(binds: seq<TextRec>, nodes: seq<NodeRec>, edges: seq<EdgeRec>) {
    && (forall b, e {:trigger e in binds[b].edgeList} ::
          0 <= b < |binds| && e in binds[b].edgeList ==> e < |edges| && b in edges[e].bindList)
    && (forall b, n {:trigger n in binds[b].nodeList} ::
          0 <= b < |binds| && n in binds[b].nodeList ==> n < |nodes| && b in nodes[n].bindList)
  }

  /** An order's edges and nodes exist and list the order. */
  ghost predicate OrdersRegistered(orders: seq<OrderRec>, nodes: seq<NodeRec>, edges: seq<EdgeRec>) {
    && (forall o, e {:trigger e in orders[o].edgeList} ::
          0 <= o < |orders| && e in orders[o].edgeList ==> e < |edges| && o in edges[e].orderList)
    && (forall o, n {:trigger n in orders[o].nodeList} ::
          0 <= o < |orders| && n in orders[o].nodeList ==> n < |nodes| && o in nodes[n].orderList)
  }

  // ---------------------------------------------------------------------------
  // Growth: adding to membership lists keeps the registrations that already hold

  predicate Sub(s: seq<nat>, t: seq<nat>) {
    forall x :: x in s ==> x in t
  }

  /** Every membership list of the node keeps what it had. */
  predicate NodeGrows(r: NodeRec, r': NodeRec) {
    && Sub(r.subGraphList, r'.subGraphList) && Sub(r.edgeList, r'.edgeList)
    && Sub(r.filterList, r'.filterList) && Sub(r.bindList, r'.bindList)
    && Sub(r.unionList, r'.unionList) && Sub(r.orderList, r'.orderList)
    && Sub(r.serviceList, r'.serviceList)
  }

  predicate NodesGrow(ns: seq<NodeRec>, ns': seq<NodeRec>) {
    |ns'| == |ns| && forall n :: 0 <= n < |ns| ==> NodeGrows(ns[n], ns'[n])
  }

  /** The edge keeps its endpoints and owners, and its membership lists keep what they had. */
  predicate EdgeGrows(r: EdgeRec, r': EdgeRec) {
    && r'.startNode == r.startNode && r'.endNode == r.endNode
    && r'.subGraph == r.subGraph && r'.service == r.service
    && Sub(r.filterList, r'.filterList) && Sub(r.bindList, r'.bindList)
    && Sub(r.unionList, r'.unionList) && Sub(r.orderList, r'.orderList)
  }

  predicate EdgesGrow(es: seq<EdgeRec>, es': seq<EdgeRec>) {
    |es'| == |es| && forall e :: 0 <= e < |es| ==> EdgeGrows(es[e], es'[e])
  }

  predicate ContainersGrow(cs: seq<ContainerRec>, cs': seq<ContainerRec>) {
    |cs'| == |cs| && forall g :: 0 <= g < |cs| ==> Sub(cs[g].nodeList, cs'[g].nodeList) && Sub(cs[g].edgeList, cs'[g].edgeList)
  }

  /** Node-side lists are never constrained from the node side, so growing them keeps every piece. */
  lemma NodesGrowKeepsRegistration(
    nodes: seq<NodeRec>, ns: seq<NodeRec>, edges: seq<EdgeRec>,
    subGraphs: seq<ContainerRec>, services: seq<ContainerRec>,
    filters: seq<TextRec>, binds: seq<TextRec>, orders: seq<OrderRec>)
    requires NodesGrow(nodes, ns)
    requires EdgesOnEndpoints(nodes, edges)
    requires SubGraphsRegistered(nodes, edges, subGraphs) && ServicesRegistered(nodes, edges, services)
    requires UnionNodesRegistered(nodes, edges)
    requires FiltersRegistered(filters, nodes, edges) && BindsRegistered(binds, nodes, edges)
    requires OrdersRegistered(orders, nodes, edges)
    ensures EdgesOnEndpoints(ns, edges)
    ensures SubGraphsRegistered(ns, edges, subGraphs) && ServicesRegistered(ns, edges, services)
    ensures UnionNodesRegistered(ns, edges)
    ensures FiltersRegistered(filters, ns, edges) && BindsRegistered(binds, ns, edges)
    ensures OrdersRegistered(orders, ns, edges)
  {
  }

  /**
   * Growing the edges' membership lists keeps every piece, except that a union newly on
   * an edge must also be on its endpoints (which the caller establishes).
   */
  lemma EdgesGrowKeepsRegistration(
    nodes: seq<NodeRec>, edges: seq<EdgeRec>, es: seq<EdgeRec>,
    subGraphs: seq<ContainerRec>, services: seq<ContainerRec>, unions: seq<UnionRec>,
    filters: seq<TextRec>, binds: seq<TextRec>, orders: seq<OrderRec>)
    requires EdgesGrow(edges, es)
    requires EdgesOnEndpoints(nodes, edges)
    requires SubGraphsRegistered(nodes, edges, subGraphs) && ServicesRegistered(nodes, edges, services)
    requires UnionEdgesRegistered(unions, edges)
    requires FiltersRegistered(filters, nodes, edges) && BindsRegistered(binds, nodes, edges)
    requires OrdersRegistered(orders, nodes, edges)
    ensures EdgesOnEndpoints(nodes, es)
    ensures SubGraphsRegistered(nodes, es, subGraphs) && ServicesRegistered(nodes, es, services)
    ensures UnionEdgesRegistered(unions, es)
    ensures FiltersRegistered(filters, nodes, es) && BindsRegistered(binds, nodes, es)
    ensures OrdersRegistered(orders, nodes, es)
  {
  }

  /** An edge newly listing a union whose endpoints already list it. */
  lemma EdgeTakesUnion(nodes: seq<NodeRec>, edges: seq<EdgeRec>, e: nat, u: nat)
    requires UnionNodesRegistered(nodes, edges) && e < |edges|
    requires edges[e].startNode < |nodes| && edges[e].endNode < |nodes|
    requires u in nodes[edges[e].startNode].unionList && u in nodes[edges[e].endNode].unionList
    ensures UnionNodesRegistered(nodes, edges[e := edges[e].(unionList := edges[e].unionList + [u])])
    ensures EdgesGrow(edges, edges[e := edges[e].(unionList := edges[e].unionList + [u])])
  {
  }

  /** A union newly taking an edge that already lists it. */
  lemma UnionTakesEdge(unions: seq<UnionRec>, edges: seq<EdgeRec>, u: nat, e: nat)
    requires UnionEdgesRegistered(unions, edges) && u < |unions| && e < |edges|
    requires u in edges[e].unionList
    ensures UnionEdgesRegistered(unions[u := unions[u].(edgeList := unions[u].edgeList + [e])], edges)
  {
  }

  /** Edges whose endpoints and union lists are unchanged keep the union registration. */
  lemma EdgesKeepUnions(nodes: seq<NodeRec>, edges: seq<EdgeRec>, es: seq<EdgeRec>)
    requires UnionNodesRegistered(nodes, edges) && |es| == |edges|
    requires forall e :: 0 <= e < |es| ==>
      es[e].startNode == edges[e].startNode && es[e].endNode == edges[e].endNode && es[e].unionList == edges[e].unionList
    ensures UnionNodesRegistered(nodes, es)
  {
  }

  /** A filter newly taking an edge that already lists it. */
  lemma FilterTakesEdge(filters: seq<TextRec>, nodes: seq<NodeRec>, edges: seq<EdgeRec>, f: nat, e: nat)
    requires FiltersRegistered(filters, nodes, edges) && f < |filters| && e < |edges|
    requires f in edges[e].filterList
    ensures FiltersRegistered(filters[f := filters[f].(edgeList := filters[f].edgeList + [e])], nodes, edges)
  {
  }

  /** A filter newly taking a node that already lists it. */
  lemma FilterTakesNode(filters: seq<TextRec>, nodes: seq<NodeRec>, edges: seq<EdgeRec>, f: nat, n: nat)
    requires FiltersRegistered(filters, nodes, edges) && f < |filters| && n < |nodes|
    requires f in nodes[n].filterList
    ensures FiltersRegistered(filters[f := filters[f].(nodeList := filters[f].nodeList + [n])], nodes, edges)
  {
  }

  /** A bind newly taking an edge that already lists it. */
  lemma BindTakesEdge(binds: seq<TextRec>, nodes: seq<NodeRec>, edges: seq<EdgeRec>, b: nat, e: nat)
    requires BindsRegistered(binds, nodes, edges) && b < |binds| && e < |edges|
    requires b in edges[e].bindList
    ensures BindsRegistered(binds[b := binds[b].(edgeList := binds[b].edgeList + [e])], nodes, edges)
  {
  }

  /** A bind newly taking a node that already lists it. */
  lemma BindTakesNode(binds: seq<TextRec>, nodes: seq<NodeRec>, edges: seq<EdgeRec>, b: nat, n: nat)
    requires BindsRegistered(binds, nodes, edges) && b < |binds| && n < |nodes|
    requires b in nodes[n].bindList
    ensures BindsRegistered(binds[b := binds[b].(nodeList := binds[b].nodeList + [n])], nodes, edges)
  {
  }

  /** A order newly taking an edge that already lists it. */
  lemma OrderTakesEdge(orders: seq<OrderRec>, nodes: seq<NodeRec>, edges: seq<EdgeRec>, o: nat, e: nat)
    requires OrdersRegistered(orders, nodes, edges) && o < |orders| && e < |edges|
    requires o in edges[e].orderList
    ensures OrdersRegistered(orders[o := orders[o].(edgeList := orders[o].edgeList + [e])], nodes, edges)
  {
  }

  /** A order newly taking a node that already lists it. */
  lemma OrderTakesNode(orders: seq<OrderRec>, nodes: seq<NodeRec>, edges: seq<EdgeRec>, o: nat, n: nat)
    requires OrdersRegistered(orders, nodes, edges) && o < |orders| && n < |nodes|
    requires o in nodes[n].orderList
    ensures OrdersRegistered(orders[o := orders[o].(nodeList := orders[o].nodeList + [n])], nodes, edges)
  {
  }

  /** The whole invariant, over the arena's sequences. */
  ghost predicate ValidArena(query: QueryRec, nodes: seq<NodeRec>, edges: seq<EdgeRec>,
    subGraphs: seq<ContainerRec>, services: seq<ContainerRec>, unions: seq<UnionRec>,
    filters: seq<TextRec>, binds: seq<TextRec>, orders: seq<OrderRec>)
  {
    && QueryWF(query, Sizes(|nodes|, |edges|, |subGraphs|, |services|, |unions|, |filters|, |binds|, |orders|))
    && EdgesOnEndpoints(nodes, edges)
    && SubGraphsRegistered(nodes, edges, subGraphs) && ServicesRegistered(nodes, edges, services)
    && ContainersDistinct(subGraphs) && ContainersDistinct(services)
    && UnionEdgesRegistered(unions, edges) && UnionNodesRegistered(nodes, edges)
    && FiltersRegistered(filters, nodes, edges) && BindsRegistered(binds, nodes, edges)
    && OrdersRegistered(orders, nodes, edges)
  }

  // ---------------------------------------------------------------------------
  // Each operation that changes membership lists keeps the invariant

  /** A node whose membership lists only grow (its name and type may change). */
  lemma NodeGrowsKeeps(query: QueryRec, nodes: seq<NodeRec>, edges: seq<EdgeRec>,
    subGraphs: seq<ContainerRec>, services: seq<ContainerRec>, unions: seq<UnionRec>,
    filters: seq<TextRec>, binds: seq<TextRec>, orders: seq<OrderRec>, n: nat, r: NodeRec)
    requires ValidArena(query, nodes, edges, subGraphs, services, unions, filters, binds, orders)
    requires n < |nodes| && NodeGrows(nodes[n], r)
    ensures ValidArena(query, nodes[n := r], edges, subGraphs, services, unions, filters, binds, orders)
  {
    NodesGrowKeepsRegistration(nodes, nodes[n := r], edges, subGraphs, services, filters, binds, orders);
  }

  /** An edge whose endpoints, owners and unions stay and whose other lists only grow. */
  lemma EdgeGrowsKeeps(query: QueryRec, nodes: seq<NodeRec>, edges: seq<EdgeRec>,
    subGraphs: seq<ContainerRec>, services: seq<ContainerRec>, unions: seq<UnionRec>,
    filters: seq<TextRec>, binds: seq<TextRec>, orders: seq<OrderRec>, e: nat, r: EdgeRec)
    requires ValidArena(query, nodes, edges, subGraphs, services, unions, filters, binds, orders)
    requires e < |edges| && EdgeGrows(edges[e], r) && r.unionList == edges[e].unionList
    ensures ValidArena(query, nodes, edges[e := r], subGraphs, services, unions, filters, binds, orders)
  {
    EdgesGrowKeepsRegistration(nodes, edges, edges[e := r], subGraphs, services, unions, filters, binds, orders);
    EdgesKeepUnions(nodes, edges, edges[e := r]);
  }

  /** Redrawing edges (new end positions and curve classes, nothing else) keeps the arena well formed. */
  lemma RedrawnKeeps(query: QueryRec, nodes: seq<NodeRec>, edges: seq<EdgeRec>, edges': seq<EdgeRec>,
    subGraphs: seq<ContainerRec>, services: seq<ContainerRec>, unions: seq<UnionRec>,
    filters: seq<TextRec>, binds: seq<TextRec>, orders: seq<OrderRec>)
    requires ValidArena(query, nodes, edges, subGraphs, services, unions, filters, binds, orders)
    requires |edges'| == |edges|
    requires forall e :: 0 <= e < |edges| ==>
      edges'[e] == edges[e].(source := edges'[e].source, target := edges'[e].target, curve := edges'[e].curve)
    ensures ValidArena(query, nodes, edges', subGraphs, services, unions, filters, binds, orders)
  {
    assert EdgesGrow(edges, edges');
    EdgesGrowKeepsRegistration(nodes, edges, edges', subGraphs, services, unions, filters, binds, orders);
    EdgesKeepUnions(nodes, edges, edges');
  }

  /** Union.addEdge: the union, the edge and both its endpoints take one another. */
  lemma UnionAddEdgeKeeps(query: QueryRec, nodes: seq<NodeRec>, edges: seq<EdgeRec>,
    subGraphs: seq<ContainerRec>, services: seq<ContainerRec>, unions: seq<UnionRec>,
    filters: seq<TextRec>, binds: seq<TextRec>, orders: seq<OrderRec>, u: nat, e: nat, ns: seq<NodeRec>)
    requires ValidArena(query, nodes, edges, subGraphs, services, unions, filters, binds, orders)
    requires u < |unions| && e < |edges|
    requires |ns| == |nodes|
    requires forall n :: 0 <= n < |nodes| ==>
      ns[n] == nodes[n].(unionList := nodes[n].unionList + Repeat(u, Hits(n, edges[e].startNode, edges[e].endNode)))
    ensures ValidArena(query, ns, edges[e := edges[e].(unionList := edges[e].unionList + [u])], subGraphs, services, unions[u := unions[u].(edgeList := unions[u].edgeList + [e])], filters, binds, orders)
  {
    NodesGrowKeepsRegistration(nodes, ns, edges, subGraphs, services, filters, binds, orders);
    assert Hits(edges[e].startNode, edges[e].startNode, edges[e].endNode) > 0;
    assert Hits(edges[e].endNode, edges[e].startNode, edges[e].endNode) > 0;
    EdgeTakesUnion(ns, edges, e, u);
    var es := edges[e := edges[e].(unionList := edges[e].unionList + [u])];
    EdgesGrowKeepsRegistration(ns, edges, es, subGraphs, services, unions, filters, binds, orders);
    UnionTakesEdge(unions, es, u, e);
  }

  /** Filter.addEdge, for one edge: the filter and the edge take one another. */
  lemma FilterAddEdgeKeeps(query: QueryRec, nodes: seq<NodeRec>, edges: seq<EdgeRec>,
    subGraphs: seq<ContainerRec>, services: seq<ContainerRec>, unions: seq<UnionRec>,
    filters: seq<TextRec>, binds: seq<TextRec>, orders: seq<OrderRec>, f: nat, e: nat)
    requires ValidArena(query, nodes, edges, subGraphs, services, unions, filters, binds, orders)
    requires f < |filters| && e < |edges|
    ensures ValidArena(query, nodes, edges[e := edges[e].(filterList := edges[e].filterList + [f])], subGraphs, services, unions, filters[f := filters[f].(edgeList := filters[f].edgeList + [e])], binds, orders)
  {
    var es := edges[e := edges[e].(filterList := edges[e].filterList + [f])];
    EdgesGrowKeepsRegistration(nodes, edges, es, subGraphs, services, unions, filters, binds, orders);
    EdgesKeepUnions(nodes, edges, es);
    FilterTakesEdge(filters, nodes, es, f, e);
  }

  /** Filter.addNode: the filter and the node take one another. */
  lemma FilterAddNodeKeeps(query: QueryRec, nodes: seq<NodeRec>, edges: seq<EdgeRec>,
    subGraphs: seq<ContainerRec>, services: seq<ContainerRec>, unions: seq<UnionRec>,
    filters: seq<TextRec>, binds: seq<TextRec>, orders: seq<OrderRec>, f: nat, n: nat)
    requires ValidArena(query, nodes, edges, subGraphs, services, unions, filters, binds, orders)
    requires f < |filters| && n < |nodes|
    ensures ValidArena(query, nodes[n := nodes[n].(filterList := nodes[n].filterList + [f])], edges, subGraphs, services, unions, filters[f := filters[f].(nodeList := filters[f].nodeList + [n])], binds, orders)
  {
    var ns := nodes[n := nodes[n].(filterList := nodes[n].filterList + [f])];
    NodesGrowKeepsRegistration(nodes, ns, edges, subGraphs, services, filters, binds, orders);
    FilterTakesNode(filters, ns, edges, f, n);
  }

  /** Bind.addEdge, for one edge: the bind and the edge take one another. */
  lemma BindAddEdgeKeeps(query: QueryRec, nodes: seq<NodeRec>, edges: seq<EdgeRec>,
    subGraphs: seq<ContainerRec>, services: seq<ContainerRec>, unions: seq<UnionRec>,
    filters: seq<TextRec>, binds: seq<TextRec>, orders: seq<OrderRec>, b: nat, e: nat)
    requires ValidArena(query, nodes, edges, subGraphs, services, unions, filters, binds, orders)
    requires b < |binds| && e < |edges|
    ensures ValidArena(query, nodes, edges[e := edges[e].(bindList := edges[e].bindList + [b])], subGraphs, services, unions, filters, binds[b := binds[b].(edgeList := binds[b].edgeList + [e])], orders)
  {
    var es := edges[e := edges[e].(bindList := edges[e].bindList + [b])];
    EdgesGrowKeepsRegistration(nodes, edges, es, subGraphs, services, unions, filters, binds, orders);
    EdgesKeepUnions(nodes, edges, es);
    BindTakesEdge(binds, nodes, es, b, e);
  }

  /** Bind.addNode: the bind and the node take one another. */
  lemma BindAddNodeKeeps(query: QueryRec, nodes: seq<NodeRec>, edges: seq<EdgeRec>,
    subGraphs: seq<ContainerRec>, services: seq<ContainerRec>, unions: seq<UnionRec>,
    filters: seq<TextRec>, binds: seq<TextRec>, orders: seq<OrderRec>, b: nat, n: nat)
    requires ValidArena(query, nodes, edges, subGraphs, services, unions, filters, binds, orders)
    requires b < |binds| && n < |nodes|
    ensures ValidArena(query, nodes[n := nodes[n].(bindList := nodes[n].bindList + [b])], edges, subGraphs, services, unions, filters, binds[b := binds[b].(nodeList := binds[b].nodeList + [n])], orders)
  {
    var ns := nodes[n := nodes[n].(bindList := nodes[n].bindList + [b])];
    NodesGrowKeepsRegistration(nodes, ns, edges, subGraphs, services, filters, binds, orders);
    BindTakesNode(binds, ns, edges, b, n);
  }

  /** Order.addEdge, for one edge: the order and the edge take one another. */
  lemma OrderAddEdgeKeeps(query: QueryRec, nodes: seq<NodeRec>, edges: seq<EdgeRec>,
    subGraphs: seq<ContainerRec>, services: seq<ContainerRec>, unions: seq<UnionRec>,
    filters: seq<TextRec>, binds: seq<TextRec>, orders: seq<OrderRec>, o: nat, e: nat)
    requires ValidArena(query, nodes, edges, subGraphs, services, unions, filters, binds, orders)
    requires o < |orders| && e < |edges|
    ensures ValidArena(query, nodes, edges[e := edges[e].(orderList := edges[e].orderList + [o])], subGraphs, services, unions, filters, binds, orders[o := orders[o].(edgeList := orders[o].edgeList + [e])])
  {
    var es := edges[e := edges[e].(orderList := edges[e].orderList + [o])];
    EdgesGrowKeepsRegistration(nodes, edges, es, subGraphs, services, unions, filters, binds, orders);
    EdgesKeepUnions(nodes, edges, es);
    OrderTakesEdge(orders, nodes, es, o, e);
  }

  /** Order.addNode: the order and the node take one another. */
  lemma OrderAddNodeKeeps(query: QueryRec, nodes: seq<NodeRec>, edges: seq<EdgeRec>,
    subGraphs: seq<ContainerRec>, services: seq<ContainerRec>, unions: seq<UnionRec>,
    filters: seq<TextRec>, binds: seq<TextRec>, orders: seq<OrderRec>, o: nat, n: nat)
    requires ValidArena(query, nodes, edges, subGraphs, services, unions, filters, binds, orders)
    requires o < |orders| && n < |nodes|
    ensures ValidArena(query, nodes[n := nodes[n].(orderList := nodes[n].orderList + [o])], edges, subGraphs, services, unions, filters, binds, orders[o := orders[o].(nodeList := orders[o].nodeList + [n])])
  {
    var ns := nodes[n := nodes[n].(orderList := nodes[n].orderList + [o])];
    NodesGrowKeepsRegistration(nodes, ns, edges, subGraphs, services, filters, binds, orders);
    OrderTakesNode(orders, ns, edges, o, n);
  }

  /**
   * A subgraph or service taking a new edge from `s` to `t`: both endpoints and the
   * edge are inserted unless already present.
   */
  function TakeEdge(c: ContainerRec, s: nat, t: nat, e: nat): ContainerRec {
    ContainerRec(c.name, Adjoin(Adjoin(c.nodeList, s), t), Adjoin(c.edgeList, e))
  }

  /** The container at `o` (if any) takes the new edge; the others are unchanged. */
  function TakeEdgeAt(cs: seq<ContainerRec>, o: Option<nat>, s: nat, t: nat, e: nat): (r: seq<ContainerRec>)
    requires OptBelow(o, |cs|)
    ensures |r| == |cs|
  {
    if o.Some? then cs[o.value := TakeEdge(cs[o.value], s, t, e)] else cs
  }

  /** The three insertions `new Edge` makes into a subgraph or service are `TakeEdge`. */
  lemma TakeEdgeSteps(cs: seq<ContainerRec>, g: nat, s: nat, t: nat, e: nat)
    requires g < |cs|
    ensures var c1 := cs[g := cs[g].(edgeList := Adjoin(cs[g].edgeList, e))];
      var c2 := c1[g := c1[g].(nodeList := Adjoin(c1[g].nodeList, s))];
      c2[g := c2[g].(nodeList := Adjoin(c2[g].nodeList, t))] == TakeEdgeAt(cs, Some(g), s, t, e)
  {
  }

  /**
   * Taking an edge only inserts: the container keeps its name and members, gains the
   * edge and both endpoints and nothing else, and stays free of duplicates.
   */
  lemma TakeEdgeAtGrows(cs: seq<ContainerRec>, o: Option<nat>, s: nat, t: nat, e: nat)
    requires OptBelow(o, |cs|)
    ensures var r := TakeEdgeAt(cs, o, s, t, e);
      && ContainersGrow(cs, r)
      && (ContainersDistinct(cs) ==> ContainersDistinct(r))
      && (o.Some? ==> s in r[o.value].nodeList && t in r[o.value].nodeList && e in r[o.value].edgeList)
      && (forall g, x {:trigger x in r[g].nodeList} :: 0 <= g < |r| && x in r[g].nodeList ==>
            x in cs[g].nodeList || (o == Some(g) && (x == s || x == t)))
      && (forall g, x {:trigger x in r[g].edgeList} :: 0 <= g < |r| && x in r[g].edgeList ==>
            x in cs[g].edgeList || (o == Some(g) && x == e))
  {
    if o.Some? {
      var g, c := o.value, cs[o.value];
      var r := TakeEdgeAt(cs, o, s, t, e);
      AdjoinMembers(c.nodeList, s);
      AdjoinMembers(Adjoin(c.nodeList, s), t);
      AdjoinMembers(c.edgeList, e);
      assert r[g] == TakeEdge(c, s, t, e);
      assert forall h :: 0 <= h < |cs| && h != g ==> r[h] == cs[h];
    }
  }

  /** The node lists after `new Edge`: each endpoint takes the edge and its owners once per end. */
  function NodesTakeEdge(nodes: seq<NodeRec>, s: nat, t: nat, e: nat, sg: Option<nat>, sv: Option<nat>): (r: seq<NodeRec>)
    ensures |r| == |nodes|
  {
    seq(|nodes|, n requires 0 <= n < |nodes| =>
      nodes[n].(
        edgeList := nodes[n].edgeList + Repeat(e, Hits(n, s, t)),
        subGraphList := nodes[n].subGraphList + OptRepeat(sg, Hits(n, s, t)),
        serviceList := nodes[n].serviceList + OptRepeat(sv, Hits(n, s, t))))
  }

  /** `new Edge` only appends to node lists, and both endpoints list the edge and its owners. */
  lemma NodesTakeEdgeGrows(nodes: seq<NodeRec>, s: nat, t: nat, e: nat, sg: Option<nat>, sv: Option<nat>)
    requires s < |nodes| && t < |nodes|
    ensures var r := NodesTakeEdge(nodes, s, t, e, sg, sv);
      && NodesGrow(nodes, r)
      && e in r[s].edgeList && (sg.Some? ==> sg.value in r[s].subGraphList) && (sv.Some? ==> sv.value in r[s].serviceList)
      && e in r[t].edgeList && (sg.Some? ==> sg.value in r[t].subGraphList) && (sv.Some? ==> sv.value in r[t].serviceList)
  {
    var r := NodesTakeEdge(nodes, s, t, e, sg, sv);
    assert Hits(s, s, t) > 0 && Hits(t, s, t) > 0;
  }

  /**
   * What `new Edge` appends to a node's lists: one copy of the edge and of its owners
   * for each end of the edge at that node, so a self-loop's node takes two; every node
   * that is not an endpoint, and the owner lists when there is no owner, are unchanged.
   */
  lemma NewEdgeEndpointLists(nodes: seq<NodeRec>, s: nat, t: nat, e: nat, sg: Option<nat>, sv: Option<nat>, n: nat)
    requires n < |nodes|
    ensures var r := NodesTakeEdge(nodes, s, t, e, sg, sv)[n];
      && r.edgeList == nodes[n].edgeList + (if n == s && n == t then [e, e] else if n == s || n == t then [e] else [])
      && r.subGraphList == nodes[n].subGraphList + OwnerCopies(sg, n == s, n == t)
      && r.serviceList == nodes[n].serviceList + OwnerCopies(sv, n == s, n == t)
      && r.name == nodes[n].name && r.nodeType == nodes[n].nodeType
      && r.filterList == nodes[n].filterList && r.bindList == nodes[n].bindList
      && r.unionList == nodes[n].unionList && r.orderList == nodes[n].orderList
  {
    assert Repeat(e, 1) == [e];
    assert Repeat(e, 2) == [e, e];
    if sg.Some? {
      assert Repeat(sg.value, 1) == [sg.value];
      assert Repeat(sg.value, 2) == [sg.value, sg.value];
    }
    if sv.Some? {
      assert Repeat(sv.value, 1) == [sv.value];
      assert Repeat(sv.value, 2) == [sv.value, sv.value];
    }
  }

  /** The copies of an owner (if any) a node's list takes from a new edge: one per end at the node. */
  function OwnerCopies(o: Option<nat>, atStart: bool, atEnd: bool): seq<nat> {
    if o.None? then [] else if atStart && atEnd then [o.value, o.value] else if atStart || atEnd then [o.value] else []
  }

  lemma AllocEdgeOnEndpoints(nodes: seq<NodeRec>, edges: seq<EdgeRec>, r: EdgeRec)
    requires EdgesOnEndpoints(nodes, edges)
    requires r.startNode < |nodes| && r.endNode < |nodes|
    requires |edges| in nodes[r.startNode].edgeList && |edges| in nodes[r.endNode].edgeList
    ensures EdgesOnEndpoints(nodes, edges + [r])
  {
  }

  lemma AllocEdgeSubGraphs(nodes: seq<NodeRec>, edges: seq<EdgeRec>, r: EdgeRec, cs: seq<ContainerRec>, cs': seq<ContainerRec>)
    requires SubGraphsRegistered(nodes, edges, cs) && ContainersGrow(cs, cs')
    requires r.startNode < |nodes| && r.endNode < |nodes|
    requires r.subGraph.Some? ==>
      var g := r.subGraph.value;
      && g < |cs'| && |edges| in cs'[g].edgeList && r.startNode in cs'[g].nodeList && r.endNode in cs'[g].nodeList
      && g in nodes[r.startNode].subGraphList && g in nodes[r.endNode].subGraphList
    ensures SubGraphsRegistered(nodes, edges + [r], cs')
  {
  }

  lemma AllocEdgeServices(nodes: seq<NodeRec>, edges: seq<EdgeRec>, r: EdgeRec, cs: seq<ContainerRec>, cs': seq<ContainerRec>)
    requires ServicesRegistered(nodes, edges, cs) && ContainersGrow(cs, cs')
    requires r.startNode < |nodes| && r.endNode < |nodes|
    requires r.service.Some? ==>
      var v := r.service.value;
      && v < |cs'| && |edges| in cs'[v].edgeList && r.startNode in cs'[v].nodeList && r.endNode in cs'[v].nodeList
      && v in nodes[r.startNode].serviceList && v in nodes[r.endNode].serviceList
    ensures ServicesRegistered(nodes, edges + [r], cs')
  {
  }

  /** A new edge with empty annotation lists keeps the annotation registrations. */
  lemma AllocEdgeAnnotations(nodes: seq<NodeRec>, edges: seq<EdgeRec>, r: EdgeRec,
    unions: seq<UnionRec>, filters: seq<TextRec>, binds: seq<TextRec>, orders: seq<OrderRec>)
    requires r.unionList == [] && r.filterList == [] && r.bindList == [] && r.orderList == []
    requires UnionEdgesRegistered(unions, edges) && UnionNodesRegistered(nodes, edges)
    requires FiltersRegistered(filters, nodes, edges) && BindsRegistered(binds, nodes, edges)
    requires OrdersRegistered(orders, nodes, edges)
    ensures UnionEdgesRegistered(unions, edges + [r]) && UnionNodesRegistered(nodes, edges + [r])
    ensures FiltersRegistered(filters, nodes, edges + [r]) && BindsRegistered(binds, nodes, edges + [r])
    ensures OrdersRegistered(orders, nodes, edges + [r])
  {
  }

  /** `new Edge(...)` keeps the invariant. */
  lemma NewEdgeKeeps(query: QueryRec, nodes: seq<NodeRec>, edges: seq<EdgeRec>,
    subGraphs: seq<ContainerRec>, services: seq<ContainerRec>, unions: seq<UnionRec>,
    filters: seq<TextRec>, binds: seq<TextRec>, orders: seq<OrderRec>, name: string, s: nat, t: nat, ty: EdgeType, sg: Option<nat>, sv: Option<nat>)
    requires ValidArena(query, nodes, edges, subGraphs, services, unions, filters, binds, orders)
    requires s < |nodes| && t < |nodes| && OptBelow(sg, |subGraphs|) && OptBelow(sv, |services|)
    ensures ValidArena(query, NodesTakeEdge(nodes, s, t, |edges|, sg, sv), edges + [NewEdgeRec(name, s, t, ty, sg, sv)],
      TakeEdgeAt(subGraphs, sg, s, t, |edges|), TakeEdgeAt(services, sv, s, t, |edges|), unions, filters, binds, orders)
  {
    var e := |edges|;
    var r := NewEdgeRec(name, s, t, ty, sg, sv);
    var ns := NodesTakeEdge(nodes, s, t, e, sg, sv);
    NodesTakeEdgeGrows(nodes, s, t, e, sg, sv);
    TakeEdgeAtGrows(subGraphs, sg, s, t, e);
    TakeEdgeAtGrows(services, sv, s, t, e);
    NodesGrowKeepsRegistration(nodes, ns, edges, subGraphs, services, filters, binds, orders);
    AllocEdgeOnEndpoints(ns, edges, r);
    AllocEdgeSubGraphs(ns, edges, r, subGraphs, TakeEdgeAt(subGraphs, sg, s, t, e));
    AllocEdgeServices(ns, edges, r, services, TakeEdgeAt(services, sv, s, t, e));
    AllocEdgeAnnotations(ns, edges, r, unions, filters, binds, orders);
  }

  /** The two edge-list appends of `new Edge` are the first part of `NodesTakeEdge`. */
  lemma NodesTakeEdgeFirst(nodes: seq<NodeRec>, s: nat, t: nat, e: nat)
    requires s < |nodes| && t < |nodes|
    ensures var m := nodes[s := nodes[s].(edgeList := nodes[s].edgeList + [e])];
      m[t := m[t].(edgeList := m[t].edgeList + [e])] == NodesTakeEdge(nodes, s, t, e, None, None)
  {
    var m := nodes[s := nodes[s].(edgeList := nodes[s].edgeList + [e])];
    var m' := m[t := m[t].(edgeList := m[t].edgeList + [e])];
    var r := NodesTakeEdge(nodes, s, t, e, None, None);
    forall n | 0 <= n < |nodes| ensures m'[n] == r[n] {
      assert r[n] == nodes[n].(edgeList := nodes[n].edgeList + Repeat(e, Hits(n, s, t)));
      EndsAppend(nodes[n].edgeList, e, n == s, n == t);
    }
  }

  /** The two subgraph-list appends of `new Edge` take `NodesTakeEdge` to its owned form. */
  lemma NodesTakeSubGraph(nodes: seq<NodeRec>, s: nat, t: nat, e: nat, g: nat)
    requires s < |nodes| && t < |nodes|
    ensures var m0 := NodesTakeEdge(nodes, s, t, e, None, None);
      var m := m0[s := m0[s].(subGraphList := m0[s].subGraphList + [g])];
      m[t := m[t].(subGraphList := m[t].subGraphList + [g])] == NodesTakeEdge(nodes, s, t, e, Some(g), None)
  {
    var m0 := NodesTakeEdge(nodes, s, t, e, None, None);
    var m := m0[s := m0[s].(subGraphList := m0[s].subGraphList + [g])];
    var m' := m[t := m[t].(subGraphList := m[t].subGraphList + [g])];
    var r := NodesTakeEdge(nodes, s, t, e, Some(g), None);
    forall n | 0 <= n < |nodes| ensures m'[n] == r[n] {
      assert m0[n].subGraphList == nodes[n].subGraphList + [];
      assert r[n] == m0[n].(subGraphList := m0[n].subGraphList + Repeat(g, Hits(n, s, t)));
      EndsAppend(m0[n].subGraphList, g, n == s, n == t);
    }
  }

  /** The two service-list appends of `new Edge` do the same for the service. */
  lemma NodesTakeService(nodes: seq<NodeRec>, s: nat, t: nat, e: nat, sg: Option<nat>, v: nat)
    requires s < |nodes| && t < |nodes|
    ensures var m0 := NodesTakeEdge(nodes, s, t, e, sg, None);
      var m := m0[s := m0[s].(serviceList := m0[s].serviceList + [v])];
      m[t := m[t].(serviceList := m[t].serviceList + [v])] == NodesTakeEdge(nodes, s, t, e, sg, Some(v))
  {
    var m0 := NodesTakeEdge(nodes, s, t, e, sg, None);
    var m := m0[s := m0[s].(serviceList := m0[s].serviceList + [v])];
    var m' := m[t := m[t].(serviceList := m[t].serviceList + [v])];
    var r := NodesTakeEdge(nodes, s, t, e, sg, Some(v));
    forall n | 0 <= n < |nodes| ensures m'[n] == r[n] {
      assert m0[n].serviceList == nodes[n].serviceList + [];
      assert r[n] == m0[n].(serviceList := m0[n].serviceList + Repeat(v, Hits(n, s, t)));
      EndsAppend(m0[n].serviceList, v, n == s, n == t);
    }
  }

  /** Appending `v` once for each end of an edge at a node appends `Repeat(v, Hits(..))`. */
  lemma EndsAppend(l: seq<nat>, v: nat, atS: bool, atT: bool)
    ensures (if atS then l + [v] else l) + (if atT then [v] else []) == l + Repeat(v, (if atS then 1 else 0) + (if atT then 1 else 0))
  {
    assert Repeat(v, 1) == [v];
    if atS && atT {
      assert Repeat(v, 2) == [v, v];
    }
  }

  /** The edges after each edge of `es` has listed the filter `x`, once per occurrence in `es`. */
  function EdgesTakeFilter(edges: seq<EdgeRec>, es: seq<nat>, x: nat): (r: seq<EdgeRec>)
    ensures |r| == |edges|
    ensures forall e :: 0 <= e < |edges| ==> r[e] == edges[e].(filterList := edges[e].filterList + Repeat(x, Count(es, e)))
  {
    seq(|edges|, e requires 0 <= e < |edges| => edges[e].(filterList := edges[e].filterList + Repeat(x, Count(es, e))))
  }

  lemma EdgesTakeFilterNone(edges: seq<EdgeRec>, x: nat)
    ensures EdgesTakeFilter(edges, [], x) == edges
  {
    var r := EdgesTakeFilter(edges, [], x);
    forall e | 0 <= e < |edges| ensures r[e] == edges[e] {
      assert edges[e].filterList + Repeat(x, 0) == edges[e].filterList;
    }
  }

  /** One more edge of `es`: only that edge's filterList changes, by one copy of `x`. */
  lemma EdgesTakeFilterSnoc(edges: seq<EdgeRec>, es: seq<nat>, e: nat, x: nat)
    requires e < |edges|
    ensures var r := EdgesTakeFilter(edges, es, x);
      EdgesTakeFilter(edges, es + [e], x) == r[e := r[e].(filterList := r[e].filterList + [x])]
  {
    var r := EdgesTakeFilter(edges, es, x);
    var r' := EdgesTakeFilter(edges, es + [e], x);
    assert (es + [e])[..|es|] == es;
    forall d | 0 <= d < |edges| ensures r'[d] == r[e := r[e].(filterList := r[e].filterList + [x])][d] {
      if d == e {
        var k := Count(es, d);
        assert Count(es + [e], d) == k + 1;
        assert edges[d].filterList + Repeat(x, k + 1) == (edges[d].filterList + Repeat(x, k)) + [x];
      }
    }
  }

  /** Filter.addEdge with a whole list of edges keeps the invariant. */
  lemma {:induction false} FilterAddEdgesKeeps(query: QueryRec, nodes: seq<NodeRec>, edges: seq<EdgeRec>,
    subGraphs: seq<ContainerRec>, services: seq<ContainerRec>, unions: seq<UnionRec>,
    filters: seq<TextRec>, binds: seq<TextRec>, orders: seq<OrderRec>, f: nat, es: seq<nat>)
    requires ValidArena(query, nodes, edges, subGraphs, services, unions, filters, binds, orders)
    requires f < |filters| && Below(es, |edges|)
    ensures ValidArena(query, nodes, EdgesTakeFilter(edges, es, f), subGraphs, services, unions, filters[f := filters[f].(edgeList := filters[f].edgeList + es)], binds, orders)
    decreases |es|
  {
    if es == [] {
      EdgesTakeFilterNone(edges, f);
      assert filters[f].edgeList + es == filters[f].edgeList;
      assert filters[f := filters[f].(edgeList := filters[f].edgeList + es)] == filters;
    } else {
      var p, e := es[..|es| - 1], es[|es| - 1];
      assert es == p + [e];
      FilterAddEdgesKeeps(query, nodes, edges, subGraphs, services, unions, filters, binds, orders, f, p);
      var es' := EdgesTakeFilter(edges, p, f);
      var filters' := filters[f := filters[f].(edgeList := filters[f].edgeList + p)];
      FilterAddEdgeKeeps(query, nodes, es', subGraphs, services, unions, filters', binds, orders, f, e);
      EdgesTakeFilterSnoc(edges, p, e, f);
      assert filters[f].edgeList + es == (filters[f].edgeList + p) + [e];
      assert filters[f := filters[f].(edgeList := filters[f].edgeList + es)]
          == filters'[f := filters'[f].(edgeList := filters'[f].edgeList + [e])];
    }
  }

  /** The edges after each edge of `es` has listed the bind `x`, once per occurrence in `es`. */
  function EdgesTakeBind(edges: seq<EdgeRec>, es: seq<nat>, x: nat): (r: seq<EdgeRec>)
    ensures |r| == |edges|
    ensures forall e :: 0 <= e < |edges| ==> r[e] == edges[e].(bindList := edges[e].bindList + Repeat(x, Count(es, e)))
  {
    seq(|edges|, e requires 0 <= e < |edges| => edges[e].(bindList := edges[e].bindList + Repeat(x, Count(es, e))))
  }

  lemma EdgesTakeBindNone(edges: seq<EdgeRec>, x: nat)
    ensures EdgesTakeBind(edges, [], x) == edges
  {
    var r := EdgesTakeBind(edges, [], x);
    forall e | 0 <= e < |edges| ensures r[e] == edges[e] {
      assert edges[e].bindList + Repeat(x, 0) == edges[e].bindList;
    }
  }

  /** One more edge of `es`: only that edge's bindList changes, by one copy of `x`. */
  lemma EdgesTakeBindSnoc(edges: seq<EdgeRec>, es: seq<nat>, e: nat, x: nat)
    requires e < |edges|
    ensures var r := EdgesTakeBind(edges, es, x);
      EdgesTakeBind(edges, es + [e], x) == r[e := r[e].(bindList := r[e].bindList + [x])]
  {
    var r := EdgesTakeBind(edges, es, x);
    var r' := EdgesTakeBind(edges, es + [e], x);
    assert (es + [e])[..|es|] == es;
    forall d | 0 <= d < |edges| ensures r'[d] == r[e := r[e].(bindList := r[e].bindList + [x])][d] {
      if d == e {
        var k := Count(es, d);
        assert Count(es + [e], d) == k + 1;
        assert edges[d].bindList + Repeat(x, k + 1) == (edges[d].bindList + Repeat(x, k)) + [x];
      }
    }
  }

  /** Bind.addEdge with a whole list of edges keeps the invariant. */
  lemma {:induction false} BindAddEdgesKeeps(query: QueryRec, nodes: seq<NodeRec>, edges: seq<EdgeRec>,
    subGraphs: seq<ContainerRec>, services: seq<ContainerRec>, unions: seq<UnionRec>,
    filters: seq<TextRec>, binds: seq<TextRec>, orders: seq<OrderRec>, b: nat, es: seq<nat>)
    requires ValidArena(query, nodes, edges, subGraphs, services, unions, filters, binds, orders)
    requires b < |binds| && Below(es, |edges|)
    ensures ValidArena(query, nodes, EdgesTakeBind(edges, es, b), subGraphs, services, unions, filters, binds[b := binds[b].(edgeList := binds[b].edgeList + es)], orders)
    decreases |es|
  {
    if es == [] {
      EdgesTakeBindNone(edges, b);
      assert binds[b].edgeList + es == binds[b].edgeList;
      assert binds[b := binds[b].(edgeList := binds[b].edgeList + es)] == binds;
    } else {
      var p, e := es[..|es| - 1], es[|es| - 1];
      assert es == p + [e];
      BindAddEdgesKeeps(query, nodes, edges, subGraphs, services, unions, filters, binds, orders, b, p);
      var es' := EdgesTakeBind(edges, p, b);
      var binds' := binds[b := binds[b].(edgeList := binds[b].edgeList + p)];
      BindAddEdgeKeeps(query, nodes, es', subGraphs, services, unions, filters, binds', orders, b, e);
      EdgesTakeBindSnoc(edges, p, e, b);
      assert binds[b].edgeList + es == (binds[b].edgeList + p) + [e];
      assert binds[b := binds[b].(edgeList := binds[b].edgeList + es)]
          == binds'[b := binds'[b].(edgeList := binds'[b].edgeList + [e])];
    }
  }

  // ---------------------------------------------------------------------------
  // The arena and the query

  class Graph {
    var nodes: seq<NodeRec>
    var edges: seq<EdgeRec>
    var subGraphs: seq<ContainerRec>
    var services: seq<ContainerRec>
    var unions: seq<UnionRec>
    var filters: seq<TextRec>
    var binds: seq<TextRec>
    var orders: seq<OrderRec>
    var query: QueryRec

    /**
     * The arena is consistent: every handle names an entity, every membership is
     * recorded on both sides, and SubGraph and Service lists have no duplicates.
     */
    ghost predicate Valid()
      reads this
    {
      ValidArena(query, nodes, edges, subGraphs, services, unions, filters, binds, orders)
    }

    /** `new Query()`: empty lists, no order, no limit (and an empty arena). */
    constructor ()
      ensures Valid()
      ensures nodes == [] && edges == [] && subGraphs == [] && services == []
      ensures unions == [] && filters == [] && binds == [] && orders == []
      ensures query == EmptyQuery()
    {
      nodes, edges, subGraphs, services := [], [], [], [];
      unions, filters, binds, orders := [], [], [], [];
      query := EmptyQuery();
    }

    // -------------------------------------------------------------------------
    // Query: each add appends exactly one handle to exactly one list

    method QueryAddEdge(e: nat)
      requires e < |edges|
      modifies this`query
      ensures old(Valid()) ==> Valid()
      ensures query == old(query).(edgeList := old(query.edgeList) + [e])
    {
      query := query.(edgeList := query.edgeList + [e]);
    }

    method QueryAddNode(n: nat)
      requires n < |nodes|
      modifies this`query
      ensures old(Valid()) ==> Valid()
      ensures query == old(query).(nodeList := old(query.nodeList) + [n])
    {
      query := query.(nodeList := query.nodeList + [n]);
    }

    method QueryAddSubGraph(g: nat)
      requires g < |subGraphs|
      modifies this`query
      ensures old(Valid()) ==> Valid()
      ensures query == old(query).(subGraphList := old(query.subGraphList) + [g])
    {
      query := query.(subGraphList := query.subGraphList + [g]);
    }

    method QueryAddService(v: nat)
      requires v < |services|
      modifies this`query
      ensures old(Valid()) ==> Valid()
      ensures query == old(query).(serviceList := old(query.serviceList) + [v])
    {
      query := query.(serviceList := query.serviceList + [v]);
    }

    method QueryAddUnion(u: nat)
      requires u < |unions|
      modifies this`query
      ensures old(Valid()) ==> Valid()
      ensures query == old(query).(unionList := old(query.unionList) + [u])
    {
      query := query.(unionList := query.unionList + [u]);
    }

    method QueryAddFilter(f: nat)
      requires f < |filters|
      modifies this`query
      ensures old(Valid()) ==> Valid()
      ensures query == old(query).(filterList := old(query.filterList) + [f])
    {
      query := query.(filterList := query.filterList + [f]);
    }

    method QueryAddBind(b: nat)
      requires b < |binds|
      modifies this`query
      ensures old(Valid()) ==> Valid()
      ensures query == old(query).(bindList := old(query.bindList) + [b])
    {
      query := query.(bindList := query.bindList + [b]);
    }

    method QuerySetOrder(o: Option<nat>)
      requires OptBelow(o, |orders|)
      modifies this`query
      ensures old(Valid()) ==> Valid()
      ensures query == old(query).(order := o)
    {
      query := query.(order := o);
    }

    method QuerySetLimit(limit: Limit)
      modifies this`query
      ensures old(Valid()) ==> Valid()
      ensures query == old(query).(limit := limit)
    {
      query := query.(limit := limit);
    }

    // -------------------------------------------------------------------------
    // Constructors of the entities: each allocates one fresh record

    method NewNode(name: string, ty: NodeType) returns (n: nat)
      modifies this`nodes
      ensures old(Valid()) ==> Valid()
      ensures n == old(|nodes|) && nodes == old(nodes) + [NewNodeRec(name, ty)]
    {
      n := |nodes|;
      nodes := nodes + [NewNodeRec(name, ty)];
    }

    method NewSubGraph(name: string) returns (g: nat)
      modifies this`subGraphs
      ensures old(Valid()) ==> Valid()
      ensures g == old(|subGraphs|) && subGraphs == old(subGraphs) + [ContainerRec(name, [], [])]
    {
      g := |subGraphs|;
      subGraphs := subGraphs + [ContainerRec(name, [], [])];
    }

    method NewService(name: string) returns (v: nat)
      modifies this`services
      ensures old(Valid()) ==> Valid()
      ensures v == old(|services|) && services == old(services) + [ContainerRec(name, [], [])]
    {
      v := |services|;
      services := services + [ContainerRec(name, [], [])];
    }

    method NewUnion(name: string) returns (u: nat)
      modifies this`unions
      ensures old(Valid()) ==> Valid()
      ensures u == old(|unions|) && unions == old(unions) + [UnionRec(name, [])]
    {
      u := |unions|;
      unions := unions + [UnionRec(name, [])];
    }

    method NewFilter(text: string) returns (f: nat)
      modifies this`filters
      ensures old(Valid()) ==> Valid()
      ensures f == old(|filters|) && filters == old(filters) + [TextRec(text, [], [])]
    {
      f := |filters|;
      filters := filters + [TextRec(text, [], [])];
    }

    method NewBind(text: string) returns (b: nat)
      modifies this`binds
      ensures old(Valid()) ==> Valid()
      ensures b == old(|binds|) && binds == old(binds) + [TextRec(text, [], [])]
    {
      b := |binds|;
      binds := binds + [TextRec(text, [], [])];
    }

    method NewOrder() returns (o: nat)
      modifies this`orders
      ensures old(Valid()) ==> Valid()
      ensures o == old(|orders|) && orders == old(orders) + [OrderRec([], [])]
    {
      o := |orders|;
      orders := orders + [OrderRec([], [])];
    }

    // -------------------------------------------------------------------------
    // Node: its own lists are appended to unconditionally

    method NodeSetType(n: nat, ty: NodeType)
      requires n < |nodes|
      modifies this`nodes
      ensures old(Valid()) ==> Valid()
      ensures nodes == old(nodes)[n := old(nodes[n]).(nodeType := ty)]
    {
      if Valid() {
        NodeGrowsKeeps(query, nodes, edges, subGraphs, services, unions, filters, binds, orders, n, nodes[n].(nodeType := ty));
      }
      nodes := nodes[n := nodes[n].(nodeType := ty)];
    }

    method NodeAddEdge(n: nat, e: nat)
      requires n < |nodes| && e < |edges|
      modifies this`nodes
      ensures nodes == old(nodes)[n := old(nodes[n]).(edgeList := old(nodes[n].edgeList) + [e])]
    {
      nodes := nodes[n := nodes[n].(edgeList := nodes[n].edgeList + [e])];
    }

    method NodeAddFilter(n: nat, f: nat)
      requires n < |nodes| && f < |filters|
      modifies this`nodes
      ensures nodes == old(nodes)[n := old(nodes[n]).(filterList := old(nodes[n].filterList) + [f])]
    {
      nodes := nodes[n := nodes[n].(filterList := nodes[n].filterList + [f])];
    }

    method NodeAddBind(n: nat, b: nat)
      requires n < |nodes| && b < |binds|
      modifies this`nodes
      ensures nodes == old(nodes)[n := old(nodes[n]).(bindList := old(nodes[n].bindList) + [b])]
    {
      nodes := nodes[n := nodes[n].(bindList := nodes[n].bindList + [b])];
    }

    method NodeAddOrder(n: nat, o: nat)
      requires n < |nodes| && o < |orders|
      modifies this`nodes
      ensures nodes == old(nodes)[n := old(nodes[n]).(orderList := old(nodes[n].orderList) + [o])]
    {
      nodes := nodes[n := nodes[n].(orderList := nodes[n].orderList + [o])];
    }

    /**
     * Node.addUnion searches its list with a for-in loop, which yields the indices
     * "0", "1", ... and compares them with the union's string form; a union's string
     * form is never an index, so the search never succeeds and every call appends.
     */
    method NodeAddUnion(n: nat, u: nat)
      requires n < |nodes| && u < |unions|
      modifies this`nodes
      ensures nodes == old(nodes)[n := old(nodes[n]).(unionList := old(nodes[n].unionList) + [u])]
    {
      nodes := nodes[n := nodes[n].(unionList := nodes[n].unionList + [u])];
    }

    /** Append the subgraph to the node's list, then insert the node into the subgraph. */
    method NodeAddSubGraph(n: nat, g: nat)
      requires n < |nodes| && g < |subGraphs|
      modifies this`nodes, this`subGraphs
      ensures nodes == old(nodes)[n := old(nodes[n]).(subGraphList := old(nodes[n].subGraphList) + [g])]
      ensures subGraphs == old(subGraphs)[g := old(subGraphs[g]).(nodeList := Adjoin(old(subGraphs[g].nodeList), n))]
    {
      nodes := nodes[n := nodes[n].(subGraphList := nodes[n].subGraphList + [g])];
      SubGraphAddNode(g, n);
    }

    /** Append the service to the node's list, then insert the node into the service. */
    method NodeAddService(n: nat, v: nat)
      requires n < |nodes| && v < |services|
      modifies this`nodes, this`services
      ensures nodes == old(nodes)[n := old(nodes[n]).(serviceList := old(nodes[n].serviceList) + [v])]
      ensures services == old(services)[v := old(services[v]).(nodeList := Adjoin(old(services[v].nodeList), n))]
    {
      nodes := nodes[n := nodes[n].(serviceList := nodes[n].serviceList + [v])];
      ServiceAddNode(v, n);
    }

    // -------------------------------------------------------------------------
    // SubGraph and Service: insertion is a no-op when the entity is already present

    method SubGraphAddNode(g: nat, n: nat)
      requires g < |subGraphs| && n < |nodes|
      modifies this`subGraphs
      ensures subGraphs == old(subGraphs)[g := old(subGraphs[g]).(nodeList := Adjoin(old(subGraphs[g].nodeList), n))]
    {
      var found := Contains(subGraphs[g].nodeList, n);
      if !found {
        subGraphs := subGraphs[g := subGraphs[g].(nodeList := subGraphs[g].nodeList + [n])];
      }
    }

    method SubGraphAddEdge(g: nat, e: nat)
      requires g < |subGraphs| && e < |edges|
      modifies this`subGraphs
      ensures subGraphs == old(subGraphs)[g := old(subGraphs[g]).(edgeList := Adjoin(old(subGraphs[g].edgeList), e))]
    {
      var found := Contains(subGraphs[g].edgeList, e);
      if !found {
        subGraphs := subGraphs[g := subGraphs[g].(edgeList := subGraphs[g].edgeList + [e])];
      }
    }

    method ServiceAddNode(v: nat, n: nat)
      requires v < |services| && n < |nodes|
      modifies this`services
      ensures services == old(services)[v := old(services[v]).(nodeList := Adjoin(old(services[v].nodeList), n))]
    {
      var found := Contains(services[v].nodeList, n);
      if !found {
        services := services[v := services[v].(nodeList := services[v].nodeList + [n])];
      }
    }

    method ServiceAddEdge(v: nat, e: nat)
      requires v < |services| && e < |edges|
      modifies this`services
      ensures services == old(services)[v := old(services[v]).(edgeList := Adjoin(old(services[v].edgeList), e))]
    {
      var found := Contains(services[v].edgeList, e);
      if !found {
        services := services[v := services[v].(edgeList := services[v].edgeList + [e])];
      }
    }

    // -------------------------------------------------------------------------
    // Edge

    /**
     * `new Edge(...)`: the edge goes onto the start node's and then the end node's edge
     * list (twice onto the same list for a self-loop); a given subgraph or service takes
     * the edge and both endpoints, and both endpoints list it.
     */
    method NewEdge(name: string, s: nat, t: nat, ty: EdgeType, sg: Option<nat>, sv: Option<nat>) returns (e: nat)
      requires s < |nodes| && t < |nodes|
      requires OptBelow(sg, |subGraphs|) && OptBelow(sv, |services|)
      modifies this`edges, this`nodes, this`subGraphs, this`services
      ensures old(Valid()) ==> Valid()
      ensures e == old(|edges|) && edges == old(edges) + [NewEdgeRec(name, s, t, ty, sg, sv)]
      ensures nodes == NodesTakeEdge(old(nodes), s, t, e, sg, sv)
      ensures subGraphs == TakeEdgeAt(old(subGraphs), sg, s, t, e)
      ensures services == TakeEdgeAt(old(services), sv, s, t, e)
    {
      ghost var query0, nodes0, edges0, subGraphs0, services0 := query, nodes, edges, subGraphs, services;
      ghost var unions0, filters0, binds0, orders0 := unions, filters, binds, orders;
      ghost var valid0 := ValidArena(query0, nodes0, edges0, subGraphs0, services0, unions0, filters0, binds0, orders0);
      e := |edges|;
      edges := edges + [NewEdgeRec(name, s, t, ty, sg, sv)];
      LinkEdge(s, t, e, sg, sv);
      assert query == query0 && unions == unions0 && filters == filters0 && binds == binds0 && orders == orders0;
      if valid0 {
        NewEdgeKeeps(query0, nodes0, edges0, subGraphs0, services0, unions0, filters0, binds0, orders0, name, s, t, ty, sg, sv);
      }
    }

    /** The rest of `new Edge`: both endpoints list the edge, then its owners, if any, take it. */
    method LinkEdge(s: nat, t: nat, e: nat, sg: Option<nat>, sv: Option<nat>)
      requires s < |nodes| && t < |nodes| && e < |edges|
      requires OptBelow(sg, |subGraphs|) && OptBelow(sv, |services|)
      modifies this`nodes, this`subGraphs, this`services
      ensures nodes == NodesTakeEdge(old(nodes), s, t, e, sg, sv)
      ensures subGraphs == TakeEdgeAt(old(subGraphs), sg, s, t, e)
      ensures services == TakeEdgeAt(old(services), sv, s, t, e)
    {
      ghost var nodes0 := nodes;
      NodeAddEdge(s, e);
      NodeAddEdge(t, e);
      NodesTakeEdgeFirst(nodes0, s, t, e);
      if sg.Some? {
        SubGraphTakeEdge(sg.value, s, t, e);
        NodesTakeSubGraph(nodes0, s, t, e, sg.value);
      }
      if sv.Some? {
        ServiceTakeEdge(sv.value, s, t, e);
        NodesTakeService(nodes0, s, t, e, sg, sv.value);
      }
    }

    /** An owning subgraph takes a new edge: it inserts the edge, then each endpoint lists it. */
    method SubGraphTakeEdge(g: nat, s: nat, t: nat, e: nat)
      requires g < |subGraphs| && e < |edges| && s < |nodes| && t < |nodes|
      modifies this`subGraphs, this`nodes
      ensures subGraphs == TakeEdgeAt(old(subGraphs), Some(g), s, t, e)
      ensures var m := old(nodes)[s := old(nodes[s]).(subGraphList := old(nodes[s].subGraphList) + [g])];
        nodes == m[t := m[t].(subGraphList := m[t].subGraphList + [g])]
    {
      SubGraphAddEdge(g, e);
      NodeAddSubGraph(s, g);
      NodeAddSubGraph(t, g);
      TakeEdgeSteps(old(subGraphs), g, s, t, e);
    }

    /** An owning service takes a new edge: it inserts the edge, then each endpoint lists it. */
    method ServiceTakeEdge(v: nat, s: nat, t: nat, e: nat)
      requires v < |services| && e < |edges| && s < |nodes| && t < |nodes|
      modifies this`services, this`nodes
      ensures services == TakeEdgeAt(old(services), Some(v), s, t, e)
      ensures var m := old(nodes)[s := old(nodes[s]).(serviceList := old(nodes[s].serviceList) + [v])];
        nodes == m[t := m[t].(serviceList := m[t].serviceList + [v])]
    {
      ServiceAddEdge(v, e);
      NodeAddService(s, v);
      NodeAddService(t, v);
      TakeEdgeSteps(old(services), v, s, t, e);
    }

    method EdgeAddFilter(e: nat, f: nat)
      requires e < |edges| && f < |filters|
      modifies this`edges
      ensures edges == old(edges)[e := old(edges[e]).(filterList := old(edges[e].filterList) + [f])]
    {
      edges := edges[e := edges[e].(filterList := edges[e].filterList + [f])];
    }

    method EdgeAddBind(e: nat, b: nat)
      requires e < |edges| && b < |binds|
      modifies this`edges
      ensures edges == old(edges)[e := old(edges[e]).(bindList := old(edges[e].bindList) + [b])]
    {
      edges := edges[e := edges[e].(bindList := edges[e].bindList + [b])];
    }

    method EdgeAddOrder(e: nat, o: nat)
      requires e < |edges| && o < |orders|
      modifies this`edges
      ensures edges == old(edges)[e := old(edges[e]).(orderList := old(edges[e].orderList) + [o])]
    {
      edges := edges[e := edges[e].(orderList := edges[e].orderList + [o])];
    }

    /** Edge.addUnion: list the union on the edge, then on both endpoints. */
    method EdgeAddUnion(e: nat, u: nat)
      requires e < |edges| && u < |unions|
      requires edges[e].startNode < |nodes| && edges[e].endNode < |nodes|
      modifies this`edges, this`nodes
      ensures edges == old(edges)[e := old(edges[e]).(unionList := old(edges[e].unionList) + [u])]
      ensures |nodes| == old(|nodes|)
      ensures forall n :: 0 <= n < |nodes| ==>
        nodes[n] == old(nodes[n]).(unionList := old(nodes[n].unionList)
                                     + Repeat(u, Hits(n, old(edges[e].startNode), old(edges[e].endNode))))
    {
      edges := edges[e := edges[e].(unionList := edges[e].unionList + [u])];
      NodeAddUnion(edges[e].startNode, u);
      NodeAddUnion(edges[e].endNode, u);
    }

    /** Edge.setType: only the curve class changes, never the semantic edge type. */
    method EdgeSetCurve(e: nat, c: CurveClass)
      requires e < |edges|
      modifies this`edges
      ensures old(Valid()) ==> Valid()
      ensures edges == old(edges)[e := old(edges[e]).(curve := c)]
    {
      if Valid() {
        EdgeGrowsKeeps(query, nodes, edges, subGraphs, services, unions, filters, binds, orders, e, edges[e].(curve := c));
      }
      edges := edges[e := edges[e].(curve := c)];
    }

    /** The layout's `edge.source = …; edge.target = …`: only the two node positions change. */
    method EdgeSetEnds(e: nat, source: Option<nat>, target: Option<nat>)
      requires e < |edges|
      modifies this`edges
      ensures old(Valid()) ==> Valid()
      ensures edges == old(edges)[e := old(edges[e]).(source := source, target := target)]
    {
      if Valid() {
        EdgeGrowsKeeps(query, nodes, edges, subGraphs, services, unions, filters, binds, orders, e, edges[e].(source := source, target := target));
      }
      edges := edges[e := edges[e].(source := source, target := target)];
    }

    // -------------------------------------------------------------------------
    // Union, Filter, Bind, Order: their lists are appended to unconditionally

    /** Union.addEdge: the union takes the edge, and the edge and its endpoints list the union. */
    method UnionAddEdge(u: nat, e: nat)
      requires u < |unions| && e < |edges|
      requires edges[e].startNode < |nodes| && edges[e].endNode < |nodes|
      modifies this`unions, this`edges, this`nodes
      ensures old(Valid()) ==> Valid()
      ensures unions == old(unions)[u := old(unions[u]).(edgeList := old(unions[u].edgeList) + [e])]
      ensures edges == old(edges)[e := old(edges[e]).(unionList := old(edges[e].unionList) + [u])]
      ensures |nodes| == old(|nodes|)
      ensures forall n :: 0 <= n < |nodes| ==>
        nodes[n] == old(nodes[n]).(unionList := old(nodes[n].unionList)
                                     + Repeat(u, Hits(n, old(edges[e].startNode), old(edges[e].endNode))))
    {
      ghost var valid0 := Valid();
      ghost var nodes0, edges0, unions0 := nodes, edges, unions;
      unions := unions[u := unions[u].(edgeList := unions[u].edgeList + [e])];
      EdgeAddUnion(e, u);
      if valid0 {
        UnionAddEdgeKeeps(query, nodes0, edges0, subGraphs, services, unions0, filters, binds, orders, u, e, nodes);
      }
    }

    /** Filter.addNode: a missing node (null) is ignored. */
    method FilterAddNode(f: nat, n: Option<nat>)
      requires f < |filters| && OptBelow(n, |nodes|)
      modifies this`filters, this`nodes
      ensures old(Valid()) ==> Valid()
      ensures n.None? ==> filters == old(filters) && nodes == old(nodes)
      ensures n.Some? ==>
        && filters == old(filters)[f := old(filters[f]).(nodeList := old(filters[f].nodeList) + [n.value])]
        && nodes == old(nodes)[n.value := old(nodes[n.value]).(filterList := old(nodes[n.value].filterList) + [f])]
      ensures SameNodeNames(old(nodes), nodes) && SameTexts(old(filters), filters)
    {
      if n.Some? {
        ghost var valid0 := Valid();
        ghost var nodes0, filters0 := nodes, filters;
        filters := filters[f := filters[f].(nodeList := filters[f].nodeList + [n.value])];
        NodeAddFilter(n.value, f);
        if valid0 {
          FilterAddNodeKeeps(query, nodes0, edges, subGraphs, services, unions, filters0, binds, orders, f, n.value);
        }
      }
    }

    /** Filter.addEdge: every edge of `es`, in order, is appended and lists the filter. */
    method FilterAddEdges(f: nat, es: seq<nat>)
      requires f < |filters| && Below(es, |edges|)
      modifies this`filters, this`edges
      ensures old(Valid()) ==> Valid()
      ensures filters == old(filters)[f := old(filters[f]).(edgeList := old(filters[f].edgeList) + es)]
      ensures edges == EdgesTakeFilter(old(edges), es, f)
      ensures SameEdgeShapes(old(edges), edges) && SameTexts(old(filters), filters)
    {
      ghost var query0, nodes0, edges0, subGraphs0, services0 := query, nodes, edges, subGraphs, services;
      ghost var unions0, filters0, binds0, orders0 := unions, filters, binds, orders;
      ghost var valid0 := Valid();
      FilterTakeEdges(f, es);
      assert query == query0 && nodes == nodes0 && subGraphs == subGraphs0 && services == services0;
      assert unions == unions0 && binds == binds0 && orders == orders0;
      if valid0 {
        FilterAddEdgesKeeps(query0, nodes0, edges0, subGraphs0, services0, unions0, filters0, binds0, orders0, f, es);
      }
    }

    /** The loop of Filter.addEdge, on the filter and edge records alone. */
    method FilterTakeEdges(f: nat, es: seq<nat>)
      requires f < |filters| && Below(es, |edges|)
      modifies this`filters, this`edges
      ensures filters == old(filters)[f := old(filters[f]).(edgeList := old(filters[f].edgeList) + es)]
      ensures edges == EdgesTakeFilter(old(edges), es, f)
    {
      ghost var filters0, edges0 := filters, edges;
      var i := 0;
      PrefixEnds(filters0[f].edgeList, es);
      EdgesTakeFilterNone(edges0, f);
      while i < |es|
        invariant 0 <= i <= |es| && f < |filters| && |edges| == |edges0|
        invariant filters == filters0[f := filters0[f].(edgeList := filters0[f].edgeList + es[..i])]
        invariant edges == EdgesTakeFilter(edges0, es[..i], f)
      {
        PrefixStep(filters0[f].edgeList, es, i);
        EdgesTakeFilterSnoc(edges0, es[..i], es[i], f);
        filters := filters[f := filters[f].(edgeList := filters[f].edgeList + [es[i]])];
        EdgeAddFilter(es[i], f);
        i := i + 1;
      }
      PrefixEnds(filters0[f].edgeList, es);
    }

    /** Bind.addNode: a missing node (null) is ignored. */
    method BindAddNode(b: nat, n: Option<nat>)
      requires b < |binds| && OptBelow(n, |nodes|)
      modifies this`binds, this`nodes
      ensures old(Valid()) ==> Valid()
      ensures n.None? ==> binds == old(binds) && nodes == old(nodes)
      ensures n.Some? ==>
        && binds == old(binds)[b := old(binds[b]).(nodeList := old(binds[b].nodeList) + [n.value])]
        && nodes == old(nodes)[n.value := old(nodes[n.value]).(bindList := old(nodes[n.value].bindList) + [b])]
      ensures SameNodeNames(old(nodes), nodes) && SameTexts(old(binds), binds)
    {
      if n.Some? {
        ghost var valid0 := Valid();
        ghost var nodes0, binds0 := nodes, binds;
        binds := binds[b := binds[b].(nodeList := binds[b].nodeList + [n.value])];
        NodeAddBind(n.value, b);
        if valid0 {
          BindAddNodeKeeps(query, nodes0, edges, subGraphs, services, unions, filters, binds0, orders, b, n.value);
        }
      }
    }

    /** Bind.addEdge: every edge of `es`, in order, is appended and lists the bind. */
    method BindAddEdges(b: nat, es: seq<nat>)
      requires b < |binds| && Below(es, |edges|)
      modifies this`binds, this`edges
      ensures old(Valid()) ==> Valid()
      ensures binds == old(binds)[b := old(binds[b]).(edgeList := old(binds[b].edgeList) + es)]
      ensures edges == EdgesTakeBind(old(edges), es, b)
      ensures SameEdgeShapes(old(edges), edges) && SameTexts(old(binds), binds)
    {
      ghost var query0, nodes0, edges0, subGraphs0, services0 := query, nodes, edges, subGraphs, services;
      ghost var unions0, filters0, binds0, orders0 := unions, filters, binds, orders;
      ghost var valid0 := Valid();
      BindTakeEdges(b, es);
      assert query == query0 && nodes == nodes0 && subGraphs == subGraphs0 && services == services0;
      assert unions == unions0 && filters == filters0 && orders == orders0;
      if valid0 {
        BindAddEdgesKeeps(query0, nodes0, edges0, subGraphs0, services0, unions0, filters0, binds0, orders0, b, es);
      }
    }

    /** The loop of Bind.addEdge, on the bind and edge records alone. */
    method BindTakeEdges(b: nat, es: seq<nat>)
      requires b < |binds| && Below(es, |edges|)
      modifies this`binds, this`edges
      ensures binds == old(binds)[b := old(binds[b]).(edgeList := old(binds[b].edgeList) + es)]
      ensures edges == EdgesTakeBind(old(edges), es, b)
    {
      ghost var binds0, edges0 := binds, edges;
      var i := 0;
      PrefixEnds(binds0[b].edgeList, es);
      EdgesTakeBindNone(edges0, b);
      while i < |es|
        invariant 0 <= i <= |es| && b < |binds| && |edges| == |edges0|
        invariant binds == binds0[b := binds0[b].(edgeList := binds0[b].edgeList + es[..i])]
        invariant edges == EdgesTakeBind(edges0, es[..i], b)
      {
        PrefixStep(binds0[b].edgeList, es, i);
        EdgesTakeBindSnoc(edges0, es[..i], es[i], b);
        binds := binds[b := binds[b].(edgeList := binds[b].edgeList + [es[i]])];
        EdgeAddBind(es[i], b);
        i := i + 1;
      }
      PrefixEnds(binds0[b].edgeList, es);
    }

    /** Order.addNode (no null check in the source). */
    method OrderAddNode(o: nat, n: nat)
      requires o < |orders| && n < |nodes|
      modifies this`orders, this`nodes
      ensures old(Valid()) ==> Valid()
      ensures orders == old(orders)[o := old(orders[o]).(nodeList := old(orders[o].nodeList) + [n])]
      ensures nodes == old(nodes)[n := old(nodes[n]).(orderList := old(nodes[n].orderList) + [o])]
    {
      ghost var valid0 := Valid();
      ghost var nodes0, orders0 := nodes, orders;
      orders := orders[o := orders[o].(nodeList := orders[o].nodeList + [n])];
      NodeAddOrder(n, o);
      if valid0 {
        OrderAddNodeKeeps(query, nodes0, edges, subGraphs, services, unions, filters, binds, orders0, o, n);
      }
    }

    method OrderAddEdge(o: nat, e: nat)
      requires o < |orders| && e < |edges|
      modifies this`orders, this`edges
      ensures old(Valid()) ==> Valid()
      ensures orders == old(orders)[o := old(orders[o]).(edgeList := old(orders[o].edgeList) + [e])]
      ensures edges == old(edges)[e := old(edges[e]).(orderList := old(edges[e].orderList) + [o])]
    {
      ghost var valid0 := Valid();
      ghost var edges0, orders0 := edges, orders;
      orders := orders[o := orders[o].(edgeList := orders[o].edgeList + [e])];
      EdgeAddOrder(e, o);
      if valid0 {
        OrderAddEdgeKeeps(query, nodes, edges0, subGraphs, services, unions, filters, binds, orders0, o, e);
      }
    }

    /** In a consistent arena an order names only existing edges and nodes, so its text is defined. */
    lemma OrderListsBelow(o: nat)
      requires Valid() && o < |orders|
      ensures Below(orders[o].edgeList, |edges|) && Below(orders[o].nodeList, |nodes|)
    {
      forall i | 0 <= i < |orders[o].edgeList| ensures orders[o].edgeList[i] < |edges| {
        assert orders[o].edgeList[i] in orders[o].edgeList;
      }
      forall i | 0 <= i < |orders[o].nodeList| ensures orders[o].nodeList[i] < |nodes| {
        assert orders[o].nodeList[i] in orders[o].nodeList;
      }
    }

    /** The names of the given edges, in order. */
    ghost function EdgeNames(es: seq<nat>): (r: seq<string>)
      reads this
      requires Below(es, |edges|)
      ensures |r| == |es| && forall i :: 0 <= i < |es| ==> r[i] == edges[es[i]].name
    {
      if es == [] then [] else EdgeNames(es[..|es| - 1]) + [edges[es[|es| - 1]].name]
    }

    /** The names of the given nodes, in order. */
    ghost function NodeNames(ns: seq<nat>): (r: seq<string>)
      reads this
      requires Below(ns, |nodes|)
      ensures |r| == |ns| && forall i :: 0 <= i < |ns| ==> r[i] == nodes[ns[i]].name
    {
      if ns == [] then [] else NodeNames(ns[..|ns| - 1]) + [nodes[ns[|ns| - 1]].name]
    }

    /** The names of an order's edges followed by the names of its nodes. */
    ghost function OrderNames(o: nat): seq<string>
      reads this
      requires o < |orders| && Below(orders[o].edgeList, |edges|) && Below(orders[o].nodeList, |nodes|)
    {
      EdgeNames(orders[o].edgeList) + NodeNames(orders[o].nodeList)
    }

    /** Order.getText: the edge names, then the node names, joined by ", ". */
    method OrderText(o: nat) returns (text: string)
      requires o < |orders| && Below(orders[o].edgeList, |edges|) && Below(orders[o].nodeList, |nodes|)
      ensures text == Join(OrderNames(o), ", ")
    {
      var parts: seq<string> := [];
      var es := orders[o].edgeList;
      var i := 0;
      while i < |es|
        invariant 0 <= i <= |es|
        invariant parts == EdgeNames(es[..i])
      {
        assert es[..i + 1][..i] == es[..i];
        parts := parts + [edges[es[i]].name];
        i := i + 1;
      }
      assert es[..i] == es;
      var ns := orders[o].nodeList;
      var j := 0;
      while j < |ns|
        invariant 0 <= j <= |ns|
        invariant parts == EdgeNames(es) + NodeNames(ns[..j])
      {
        assert ns[..j + 1][..j] == ns[..j];
        parts := parts + [nodes[ns[j]].name];
        j := j + 1;
      }
      assert ns[..j] == ns;
      text := Join(parts, ", ");
    }
  }
}
