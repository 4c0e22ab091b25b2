/**
 * `objectify`: the compiler from a parse to the graph model. A `Compilation` is the
 * state its closures share: the graph under construction, the memo from raw terms
 * to nodes and the memo from graph names to subgraphs, together with the parse's
 * prefixes and the serialiser of patterns, which it receives as a function.
 */
module Compiler {
  import opened GraphModel
  import opened SparqlAst
  import opened WalkSpec
  import TermNames
  import opened CompileState

  class Compilation {
    const g: Graph
    const prefixes: seq<PrefixDecl>
    const toPattern: Pattern -> string
    var nodeKeys: map<string, nat>
    var graphKeys: map<string, nat>

    ghost function Fields(): Arena
      reads g
    {
      Arena(g.query, g.nodes, g.edges, g.subGraphs, g.services, g.unions, g.filters, g.binds, g.orders)
    }

    /** The graph is what the trace `a` says, registered in the query, and reachable through the memos. */
    ghost predicate Inv(a: Trace)
      reads this, g
    {
      InvAt(prefixes, nodeKeys, graphKeys, Fields(), a)
    }

    /** An empty query, an empty arena and empty memos. */
    constructor (prefixes: seq<PrefixDecl>, toPattern: Pattern -> string)
      ensures this.prefixes == prefixes && this.toPattern == toPattern
      ensures fresh(g) && g.Valid() && Inv(EmptyTrace())
      ensures nodeKeys == map[] && graphKeys == map[]
    {
      this.prefixes := prefixes;
      this.toPattern := toPattern;
      g := new Graph();
      nodeKeys := map[];
      graphKeys := map[];
    }

    /** getGraph: the subgraph named `name`, created and registered on the first request only. */
    method GetGraph(name: string, ghost a: Trace) returns (sg: nat, ghost a': Trace)
      requires Inv(a)
      modifies this`graphKeys, g`subGraphs, g`query
      ensures a' == GraphStep(a, name) && Inv(a')
      ensures old(g.Valid()) ==> g.Valid()
      ensures name in graphKeys && sg == graphKeys[name] && KeysGrow(old(graphKeys), graphKeys)
      ensures name in old(graphKeys) ==>
        graphKeys == old(graphKeys) && g.subGraphs == old(g.subGraphs) && g.query == old(g.query)
      ensures name !in old(graphKeys) ==>
        && sg == old(|g.subGraphs|) && graphKeys == old(graphKeys)[name := sg]
        && g.subGraphs == old(g.subGraphs) + [ContainerRec(name, [], [])]
        && g.query == old(g.query).(subGraphList := old(g.query.subGraphList) + [sg])
    {
      GraphMemoKeys(graphKeys, g.subGraphs, g.query.subGraphList, a.graphs, name);
      a' := GraphStep(a, name);
      if name !in graphKeys {
        CreateGraph(name, a);
      }
      sg := graphKeys[name];
    }

    /** The miss of getGraph: `new SubGraph(name)`, memoised and registered. */
    method CreateGraph(name: string, ghost a: Trace)
      requires Inv(a) && name !in graphKeys
      modifies this`graphKeys, g`subGraphs, g`query
      ensures graphKeys == old(graphKeys)[name := old(|g.subGraphs|)]
      ensures g.subGraphs == old(g.subGraphs) + [ContainerRec(name, [], [])]
      ensures g.query == old(g.query).(subGraphList := old(g.query.subGraphList) + [old(|g.subGraphs|)])
      ensures Inv(a.(graphs := a.graphs + [name]))
      ensures old(g.Valid()) ==> g.Valid()
    {
      ghost var gk0, cs0, list0 := graphKeys, g.subGraphs, g.query.subGraphList;
      var v := g.NewSubGraph(name);
      graphKeys := graphKeys[name := v];
      g.QueryAddSubGraph(v);
      GraphMemoAdd(gk0, cs0, list0, a.graphs, name);
      EdgesTracedGrowKeys(prefixes, a.shapes, g.edges, g.query.edgeList, nodeKeys, gk0, nodeKeys, graphKeys);
    }

    /**
     * getNode: the node of the raw term `name`. A hit returns the memoised node; a
     * miss with `force` creates the node, named by the term's display name, and
     * registers it; a miss without `force` gives null and changes nothing.
     */
    method GetNode(name: string, force: bool, ghost a: Trace) returns (r: Option<nat>, ghost a': Trace)
      requires Inv(a)
      modifies this`nodeKeys, g`nodes, g`query
      ensures a' == (if force then NodeStep(a, name) else a) && Inv(a')
      ensures old(g.Valid()) ==> g.Valid()
      ensures KeysGrow(old(nodeKeys), nodeKeys)
      ensures force ==> r.Some? && name in nodeKeys && r.value == nodeKeys[name]
      ensures name in old(nodeKeys) ==>
        r == Some(old(nodeKeys)[name]) && nodeKeys == old(nodeKeys) && g.nodes == old(g.nodes) && g.query == old(g.query)
      ensures name !in old(nodeKeys) && !force ==>
        r == None && nodeKeys == old(nodeKeys) && g.nodes == old(g.nodes) && g.query == old(g.query)
      ensures name !in old(nodeKeys) && force ==>
        && r == Some(old(|g.nodes|)) && nodeKeys == old(nodeKeys)[name := r.value]
        && g.nodes == old(g.nodes) + [NewNodeRec(TermNames.KillPrefixes(prefixes, name), RegularNode)]
        && g.query == old(g.query).(nodeList := old(g.query.nodeList) + [r.value])
    {
      NodeMemoKeys(prefixes, nodeKeys, g.nodes, g.query.nodeList, a.terms, name);
      a' := if force then NodeStep(a, name) else a;
      if name !in nodeKeys && force {
        CreateNode(name, a);
      }
      if name in nodeKeys {
        r := Some(nodeKeys[name]);
      } else {
        r := None;
      }
    }

    /** The miss of getNode with `force`: `new Node(killPrefixes(name))`, memoised and registered. */
    method CreateNode(name: string, ghost a: Trace)
      requires Inv(a) && name !in nodeKeys
      modifies this`nodeKeys, g`nodes, g`query
      ensures nodeKeys == old(nodeKeys)[name := old(|g.nodes|)]
      ensures g.nodes == old(g.nodes) + [NewNodeRec(TermNames.KillPrefixes(prefixes, name), RegularNode)]
      ensures g.query == old(g.query).(nodeList := old(g.query.nodeList) + [old(|g.nodes|)])
      ensures Inv(a.(terms := a.terms + [name]))
      ensures old(g.Valid()) ==> g.Valid()
    {
      ghost var nk0, nodes0, list0 := nodeKeys, g.nodes, g.query.nodeList;
      var n := g.NewNode(TermNames.KillPrefixes(prefixes, name), RegularNode);
      nodeKeys := nodeKeys[name := n];
      g.QueryAddNode(n);
      NodeMemoAdd(prefixes, nk0, nodes0, list0, a.terms, name);
      EdgesTracedGrowKeys(prefixes, a.shapes, g.edges, g.query.edgeList, nk0, graphKeys, nodeKeys, graphKeys);
    }

    /** getNode(name) with the default `force`: the node of the term, created on its first mention. */
    method ForcedNode(name: string, ghost a: Trace) returns (n: nat, ghost a': Trace)
      requires Inv(a)
      modifies this`nodeKeys, g`nodes, g`query
      ensures a' == NodeStep(a, name) && Inv(a')
      ensures old(g.Valid()) ==> g.Valid()
      ensures KeysGrow(old(nodeKeys), nodeKeys) && name in nodeKeys && n == nodeKeys[name]
      ensures g.query.edgeList == old(g.query.edgeList)
    {
      var r;
      r, a' := GetNode(name, true, a);
      n := r.value;
    }

    /** getEdges: the query's edges whose display name is `name`, in query order. */
    method GetEdges(name: string) returns (es: seq<nat>)
      requires Below(g.query.edgeList, |g.edges|)
      ensures es == NamedEdges(g.edges, g.query.edgeList, name)
    {
      var list := g.query.edgeList;
      es := [];
      var i := 0;
      while i < |list|
        invariant 0 <= i <= |list|
        invariant es == NamedEdges(g.edges, list[..i], name)
      {
        assert list[..i + 1][..i] == list[..i];
        if g.edges[list[i]].name == name {
          es := es + [list[i]];
        }
        i := i + 1;
      }
      assert list[..i] == list;
    }

    /** `graph` names the subgraph `sg` through the memo, or both are absent. */
    ghost predicate GraphFits(sg: Option<nat>, graph: Option<string>)
      reads this`graphKeys
    {
      && (graph.None? ==> sg.None?)
      && (graph.Some? ==> graph.value in graphKeys && sg == Some(graphKeys[graph.value]))
    }

    /**
     * One triple of addTriple: the display name of its predicate, the nodes of its
     * subject and object (created on first mention), then the edge, which joins the
     * enclosing union (if any) and is registered in the query.
     */
    method NewTripleEdge(t: Triple, c: Ctx, sg: Option<nat>, ghost graph: Option<string>, ghost a: Trace) returns (ghost a': Trace)
      requires Inv(a) && CtxFits(c, a) && GraphFits(sg, graph)
      modifies this`nodeKeys, g`nodes, g`query, g`edges, g`subGraphs, g`services, g`unions
      ensures a' == TripleStep(t, c, graph, a)
      ensures Inv(a')
      ensures old(g.Valid()) ==> g.Valid()
      ensures KeysGrow(old(nodeKeys), nodeKeys)
    {
      var sn, a1 := ForcedNode(t.subject, a);
      var on, a2 := ForcedNode(t.obj, a1);
      a' := TripleEdge(PredicateText(t.pred), sn, on, c, sg, graph, t.subject, t.obj, a2);
    }

    /** `new Edge` between the nodes of `subject` and `obj`, joined to the context's union and registered. */
    method TripleEdge(pred: string, sn: nat, on: nat, c: Ctx, sg: Option<nat>, ghost graph: Option<string>,
      ghost subject: string, ghost obj: string, ghost a: Trace) returns (ghost a': Trace)
      requires Inv(a) && CtxFits(c, a) && GraphFits(sg, graph)
      requires subject in nodeKeys && nodeKeys[subject] == sn && obj in nodeKeys && nodeKeys[obj] == on
      modifies g`nodes, g`query, g`edges, g`subGraphs, g`services, g`unions
      ensures a' == AddShapes(a, [Shape(pred, subject, obj, c.edgeType, graph, c.service, c.union)])
      ensures Inv(a')
      ensures old(g.Valid()) ==> g.Valid()
    {
      ghost var s0 := Fields();
      var name := TermNames.KillPrefixes(prefixes, pred);
      AppendEdge(name, sn, on, c, sg);
      a' := AddShapes(a, [Shape(pred, subject, obj, c.edgeType, graph, c.service, c.union)]);
      NewEdgeFits(prefixes, pred, sn, on, c, sg, graph, subject, obj, nodeKeys, graphKeys);
      InvAddEdge(prefixes, nodeKeys, graphKeys, s0, Fields(), a, Shape(pred, subject, obj, c.edgeType, graph, c.service, c.union),
        NewEdgeRec(name, sn, on, c.edgeType, sg, c.service).(unionList := if c.union.Some? then [c.union.value] else []));
    }

    /** The new edge, in the context's union if any, registered in the query. */
    method AppendEdge(name: string, sn: nat, on: nat, c: Ctx, sg: Option<nat>)
      requires sn < |g.nodes| && on < |g.nodes| && OptBelow(sg, |g.subGraphs|)
      requires OptBelow(c.service, |g.services|) && OptBelow(c.union, |g.unions|)
      modifies g`nodes, g`query, g`edges, g`subGraphs, g`services, g`unions
      ensures EdgeAppended(old(Fields()), Fields(),
        NewEdgeRec(name, sn, on, c.edgeType, sg, c.service).(unionList := if c.union.Some? then [c.union.value] else []))
      ensures old(g.Valid()) ==> g.Valid()
    {
      var e := CreateEdge(name, sn, on, c.edgeType, sg, c.service);
      if c.union.Some? {
        JoinUnion(c.union.value, e);
      }
      g.QueryAddEdge(e);
    }

    /** `new Edge`, seen from the compiler: a new last edge; nodes, subgraphs and services keep their names. */
    method CreateEdge(name: string, sn: nat, on: nat, ty: EdgeType, sg: Option<nat>, sv: Option<nat>) returns (e: nat)
      requires sn < |g.nodes| && on < |g.nodes|
      requires OptBelow(sg, |g.subGraphs|) && OptBelow(sv, |g.services|)
      modifies g`edges, g`nodes, g`subGraphs, g`services
      ensures old(g.Valid()) ==> g.Valid()
      ensures e == old(|g.edges|) && g.edges == old(g.edges) + [NewEdgeRec(name, sn, on, ty, sg, sv)]
      ensures SameNodeNames(old(g.nodes), g.nodes)
      ensures SameContainerNames(old(g.subGraphs), g.subGraphs) && SameContainerNames(old(g.services), g.services)
    {
      ghost var nodes0, subGraphs0, services0 := g.nodes, g.subGraphs, g.services;
      e := g.NewEdge(name, sn, on, ty, sg, sv);
      NewEdgeKeepsNames(nodes0, sn, on, e, sg, sv, subGraphs0, sg);
      NewEdgeKeepsNames(nodes0, sn, on, e, sg, sv, services0, sv);
    }

    /** union.addEdge on the edge just created: the edge is the last one, and only its union list changes. */
    method JoinUnion(u: nat, e: nat)
      requires u < |g.unions| && e + 1 == |g.edges| && g.edges[e].unionList == []
      requires g.edges[e].startNode < |g.nodes| && g.edges[e].endNode < |g.nodes|
      modifies g`unions, g`edges, g`nodes
      ensures old(g.Valid()) ==> g.Valid()
      ensures g.edges == old(g.edges[..e]) + [old(g.edges[e]).(unionList := [u])]
      ensures SameNodeNames(old(g.nodes), g.nodes) && SameUnionNames(old(g.unions), g.unions)
    {
      ghost var edges0 := g.edges;
      g.UnionAddEdge(u, e);
      assert edges0[e].unionList + [u] == [u];
      assert g.edges[e] == edges0[e].(unionList := [u]);
      assert g.edges[..e] == edges0[..e];
      assert g.edges == g.edges[..e] + [g.edges[e]];
    }

    /** addTriple: one edge per triple, in order, all under the same context and subgraph. */
    method AddTriple(ts: seq<Triple>, c: Ctx, sg: Option<nat>, ghost graph: Option<string>, ghost a: Trace) returns (ghost a': Trace)
      requires Inv(a) && CtxFits(c, a) && GraphFits(sg, graph)
      modifies this`nodeKeys, g`nodes, g`query, g`edges, g`subGraphs, g`services, g`unions
      ensures a' == TriplesTrace(ts, c, graph, a)
      ensures Inv(a')
      ensures old(g.Valid()) ==> g.Valid()
      ensures KeysGrow(old(nodeKeys), nodeKeys)
    {
      a' := a;
      var i := 0;
      while i < |ts|
        invariant 0 <= i <= |ts|
        invariant TriplesTrace(ts, c, graph, a) == TriplesTrace(ts[i..], c, graph, a')
        invariant Inv(a') && CtxFits(c, a') && GraphFits(sg, graph)
        invariant old(g.Valid()) ==> g.Valid()
        invariant KeysGrow(old(nodeKeys), nodeKeys)
      {
        assert ts[i..][1..] == ts[i + 1..];
        a' := NewTripleEdge(ts[i], c, sg, graph, a');
        i := i + 1;
      }
    }

    /** addEdge: the triples of a basic graph pattern, or of a named graph's pattern under that graph. */
    method AddEdge(graph: Option<string>, ts: seq<Triple>, c: Ctx, ghost a: Trace) returns (ghost a': Trace)
      requires Inv(a) && CtxFits(c, a)
      modifies this`nodeKeys, this`graphKeys, g`nodes, g`query, g`edges, g`subGraphs, g`services, g`unions
      ensures a' == TriplesTrace(ts, c, graph, if graph.Some? then GraphStep(a, graph.value) else a)
      ensures Inv(a')
      ensures old(g.Valid()) ==> g.Valid()
      ensures KeysGrow(old(nodeKeys), nodeKeys) && KeysGrow(old(graphKeys), graphKeys)
      ensures graph.Some? ==> graph.value in graphKeys
    {
      var sg: Option<nat> := None;
      a' := a;
      if graph.Some? {
        var v;
        v, a' := GetGraph(graph.value, a);
        sg := Some(v);
      }
      a' := AddTriple(ts, c, sg, graph, a');
    }

    /** addEdges: each quad pattern of an INSERT or DELETE template, in order, under the given edge type. */
    method AddEdges(qs: seq<QuadPattern>, ty: EdgeType, ghost a: Trace) returns (ghost a': Trace)
      requires Inv(a)
      modifies this`nodeKeys, this`graphKeys, g`nodes, g`query, g`edges, g`subGraphs, g`services, g`unions
      ensures a' == QuadsTrace(qs, ty, a)
      ensures Inv(a')
      ensures old(g.Valid()) ==> g.Valid()
      ensures KeysGrow(old(nodeKeys), nodeKeys) && KeysGrow(old(graphKeys), graphKeys)
    {
      a' := a;
      var i := 0;
      while i < |qs|
        invariant 0 <= i <= |qs|
        invariant QuadsTrace(qs, ty, a) == QuadsTrace(qs[i..], ty, a')
        invariant Inv(a')
        invariant old(g.Valid()) ==> g.Valid()
        invariant KeysGrow(old(nodeKeys), nodeKeys) && KeysGrow(old(graphKeys), graphKeys)
      {
        assert qs[i..][1..] == qs[i + 1..];
        a' := AddQuad(qs[i], ty, a');
        i := i + 1;
      }
    }

    /** addEdge on one quad of a template, under the template's edge type. */
    method AddQuad(q: QuadPattern, ty: EdgeType, ghost a: Trace) returns (ghost a': Trace)
      requires Inv(a)
      modifies this`nodeKeys, this`graphKeys, g`nodes, g`query, g`edges, g`subGraphs, g`services, g`unions
      ensures a' == QuadTrace(q, ty, a)
      ensures Inv(a')
      ensures old(g.Valid()) ==> g.Valid()
      ensures KeysGrow(old(nodeKeys), nodeKeys) && KeysGrow(old(graphKeys), graphKeys)
    {
      var graph := if q.QuadGraph? then Some(q.name) else None;
      a' := AddEdge(graph, q.triples, TopCtx(ty), a);
    }

    /** getNode(x, false): the memoised node of a raw term, or null; it creates nothing. */
    function Lookup(x: string): Option<nat>
      reads this
    {
      if x in nodeKeys then Some(nodeKeys[x]) else None
    }

    /**
     * The lookup finds a node exactly for a term the trace mentions: the node created
     * at its first mention, named by its display name.
     */
    lemma LookupMentioned(x: string, a: Trace)
      requires Inv(a)
      ensures Lookup(x).Some? <==> x in a.terms
      ensures forall i :: 0 <= i < |a.terms| && a.terms[i] == x ==> Lookup(x) == Some(i)
      ensures Lookup(x).Some? ==> Lookup(x).value < |g.nodes| && g.nodes[Lookup(x).value].name == TermNames.KillPrefixes(prefixes, x)
    {
      NodeMemoKeys(prefixes, nodeKeys, g.nodes, g.query.nodeList, a.terms, x);
    }

    /** filter.addNode(getNode(x, false)). */
    method FilterNode(f: nat, x: string, ghost a: Trace)
      requires Inv(a) && f < |g.filters|
      modifies g`nodes, g`filters
      ensures Inv(a)
      ensures old(g.Valid()) ==> g.Valid()
      ensures g.filters == Attached(old(g.filters), f, NodeRef(nodeKeys, x), [])
    {
      ghost var s0 := Fields();
      AddFilterNode(f, Lookup(x));
      InvSame(prefixes, nodeKeys, graphKeys, s0, Fields(), a);
    }

    /** filter.addNode, seen from the compiler: the node, if any, joins the filter's node list; no node changes its name. */
    method AddFilterNode(f: nat, n: Option<nat>)
      requires f < |g.filters| && OptBelow(n, |g.nodes|)
      modifies g`nodes, g`filters
      ensures old(g.Valid()) ==> g.Valid()
      ensures SameNodeNames(old(g.nodes), g.nodes)
      ensures g.filters == Attached(old(g.filters), f, if n.Some? then [n.value] else [], [])
    {
      g.FilterAddNode(f, n);
      if n.None? {
        AttachedNothing(old(g.filters), f);
      } else {
        assert old(g.filters[f].edgeList) + [] == old(g.filters[f].edgeList);
      }
    }

    /** filter.addEdge(getEdges(x)). */
    method FilterEdges(f: nat, x: string, ghost a: Trace)
      requires Inv(a) && f < |g.filters|
      modifies g`edges, g`filters
      ensures Inv(a)
      ensures old(g.Valid()) ==> g.Valid()
      ensures SameEdgeShapes(old(g.edges), g.edges)
      ensures g.filters == Attached(old(g.filters), f, [], NamedEdges(old(g.edges), g.query.edgeList, x))
    {
      var es := GetEdges(x);
      ghost var s0 := Fields();
      AddFilterEdges(f, es);
      InvSame(prefixes, nodeKeys, graphKeys, s0, Fields(), a);
    }

    /** filter.addEdge, seen from the compiler: the filter's edge list grows, and no edge changes its shape. */
    method AddFilterEdges(f: nat, es: seq<nat>)
      requires f < |g.filters| && Below(es, |g.edges|)
      modifies g`edges, g`filters
      ensures old(g.Valid()) ==> g.Valid()
      ensures SameEdgeShapes(old(g.edges), g.edges)
      ensures g.filters == Attached(old(g.filters), f, [], es)
    {
      g.FilterAddEdges(f, es);
      assert old(g.filters[f].nodeList) + [] == old(g.filters[f].nodeList);
    }

    /** A plain term of a filter: the node it names, if any, then the edges it names. */
    method FilterAttach(f: nat, x: string, ghost a: Trace)
      requires Inv(a) && f < |g.filters|
      modifies g`nodes, g`filters, g`edges
      ensures Inv(a)
      ensures old(g.Valid()) ==> g.Valid()
      ensures SameEdgeShapes(old(g.edges), g.edges)
      ensures g.filters == Attached(old(g.filters), f, NodeRef(nodeKeys, x), NamedEdges(old(g.edges), g.query.edgeList, x))
    {
      ghost var filters0, es := g.filters, NamedEdges(g.edges, g.query.edgeList, x);
      FilterNode(f, x, a);
      FilterEdges(f, x, a);
      AttachedTwice(filters0, f, NodeRef(nodeKeys, x), [], [], es);
      assert NodeRef(nodeKeys, x) + [] == NodeRef(nodeKeys, x) && [] + es == es;
    }

    /** The next sub-argument of a filter's operation: a plain term is attached, anything else is passed over. */
    method FilterTerm(f: nat, xs: seq<Expr>, i: nat, ghost filters0: seq<TextRec>, ghost edges0: seq<EdgeRec>, ghost a: Trace)
      requires i < |xs| && Inv(a) && f < |filters0| && SameEdgeShapes(edges0, g.edges)
      requires g.filters == Attached(filters0, f, TermNodes(nodeKeys, xs[..i]), TermEdges(edges0, g.query.edgeList, xs[..i]))
      modifies g`nodes, g`filters, g`edges
      ensures Inv(a) && SameEdgeShapes(edges0, g.edges)
      ensures old(g.Valid()) ==> g.Valid()
      ensures g.filters == Attached(filters0, f, TermNodes(nodeKeys, xs[..i + 1]), TermEdges(edges0, g.query.edgeList, xs[..i + 1]))
    {
      TermsStep(filters0, f, nodeKeys, edges0, g.query.edgeList, xs, i);
      if xs[i].Term? {
        ghost var edges1 := g.edges;
        FilterAttach(f, xs[i].value, a);
        NamedEdgesSame(edges0, edges1, g.query.edgeList, xs[i].value);
        SameEdgeShapesTrans(edges0, edges1, g.edges);
      }
    }

    /** The sub-arguments of an operation argument of a filter: each plain term is attached, in order. */
    method FilterTerms(f: nat, xs: seq<Expr>, ghost a: Trace)
      requires Inv(a) && f < |g.filters|
      modifies g`nodes, g`filters, g`edges
      ensures Inv(a)
      ensures old(g.Valid()) ==> g.Valid()
      ensures SameEdgeShapes(old(g.edges), g.edges)
      ensures g.filters == Attached(old(g.filters), f, TermNodes(nodeKeys, xs), TermEdges(old(g.edges), g.query.edgeList, xs))
    {
      ghost var filters0, edges0 := g.filters, g.edges;
      var i := 0;
      AttachedNothing(filters0, f);
      while i < |xs|
        invariant 0 <= i <= |xs|
        invariant Inv(a) && f < |g.filters|
        invariant old(g.Valid()) ==> g.Valid()
        invariant SameEdgeShapes(edges0, g.edges)
        invariant g.filters == Attached(filters0, f, TermNodes(nodeKeys, xs[..i]), TermEdges(edges0, g.query.edgeList, xs[..i]))
      {
        FilterTerm(f, xs, i, filters0, edges0, a);
        i := i + 1;
      }
      assert xs[..i] == xs;
    }

    /** bind.addNode(getNode(x, false)). */
    method BindNode(b: nat, x: string, ghost a: Trace)
      requires Inv(a) && b < |g.binds|
      modifies g`nodes, g`binds
      ensures Inv(a)
      ensures old(g.Valid()) ==> g.Valid()
      ensures g.binds == Attached(old(g.binds), b, NodeRef(nodeKeys, x), [])
    {
      ghost var s0 := Fields();
      AddBindNode(b, Lookup(x));
      InvSame(prefixes, nodeKeys, graphKeys, s0, Fields(), a);
    }

    /** bind.addNode, seen from the compiler: the node, if any, joins the bind's node list; no node changes its name. */
    method AddBindNode(b: nat, n: Option<nat>)
      requires b < |g.binds| && OptBelow(n, |g.nodes|)
      modifies g`nodes, g`binds
      ensures old(g.Valid()) ==> g.Valid()
      ensures SameNodeNames(old(g.nodes), g.nodes)
      ensures g.binds == Attached(old(g.binds), b, if n.Some? then [n.value] else [], [])
    {
      g.BindAddNode(b, n);
      if n.None? {
        AttachedNothing(old(g.binds), b);
      } else {
        assert old(g.binds[b].edgeList) + [] == old(g.binds[b].edgeList);
      }
    }

    /** bind.addEdge(getEdges(x)). */
    method BindEdges(b: nat, x: string, ghost a: Trace)
      requires Inv(a) && b < |g.binds|
      modifies g`edges, g`binds
      ensures Inv(a)
      ensures old(g.Valid()) ==> g.Valid()
      ensures SameEdgeShapes(old(g.edges), g.edges)
      ensures g.binds == Attached(old(g.binds), b, [], NamedEdges(old(g.edges), g.query.edgeList, x))
    {
      var es := GetEdges(x);
      ghost var s0 := Fields();
      AddBindEdges(b, es);
      InvSame(prefixes, nodeKeys, graphKeys, s0, Fields(), a);
    }

    /** bind.addEdge, seen from the compiler: the bind's edge list grows, and no edge changes its shape. */
    method AddBindEdges(b: nat, es: seq<nat>)
      requires b < |g.binds| && Below(es, |g.edges|)
      modifies g`edges, g`binds
      ensures old(g.Valid()) ==> g.Valid()
      ensures SameEdgeShapes(old(g.edges), g.edges)
      ensures g.binds == Attached(old(g.binds), b, [], es)
    {
      g.BindAddEdges(b, es);
      assert old(g.binds[b].nodeList) + [] == old(g.binds[b].nodeList);
    }

    /** A plain term of a bind: the node it names, if any, then the edges it names. */
    method BindAttach(b: nat, x: string, ghost a: Trace)
      requires Inv(a) && b < |g.binds|
      modifies g`nodes, g`binds, g`edges
      ensures Inv(a)
      ensures old(g.Valid()) ==> g.Valid()
      ensures SameEdgeShapes(old(g.edges), g.edges)
      ensures g.binds == Attached(old(g.binds), b, NodeRef(nodeKeys, x), NamedEdges(old(g.edges), g.query.edgeList, x))
    {
      ghost var binds0, es := g.binds, NamedEdges(g.edges, g.query.edgeList, x);
      BindNode(b, x, a);
      BindEdges(b, x, a);
      AttachedTwice(binds0, b, NodeRef(nodeKeys, x), [], [], es);
      assert NodeRef(nodeKeys, x) + [] == NodeRef(nodeKeys, x) && [] + es == es;
    }

    /** The next sub-argument of a bind's operation: a plain term is attached, anything else is passed over. */
    method BindTerm(b: nat, xs: seq<Expr>, i: nat, ghost binds0: seq<TextRec>, ghost edges0: seq<EdgeRec>, ghost a: Trace)
      requires i < |xs| && Inv(a) && b < |binds0| && SameEdgeShapes(edges0, g.edges)
      requires g.binds == Attached(binds0, b, TermNodes(nodeKeys, xs[..i]), TermEdges(edges0, g.query.edgeList, xs[..i]))
      modifies g`nodes, g`binds, g`edges
      ensures Inv(a) && SameEdgeShapes(edges0, g.edges)
      ensures old(g.Valid()) ==> g.Valid()
      ensures g.binds == Attached(binds0, b, TermNodes(nodeKeys, xs[..i + 1]), TermEdges(edges0, g.query.edgeList, xs[..i + 1]))
    {
      TermsStep(binds0, b, nodeKeys, edges0, g.query.edgeList, xs, i);
      if xs[i].Term? {
        ghost var edges1 := g.edges;
        BindAttach(b, xs[i].value, a);
        NamedEdgesSame(edges0, edges1, g.query.edgeList, xs[i].value);
        SameEdgeShapesTrans(edges0, edges1, g.edges);
      }
    }

    /** The sub-arguments of a bind's operation: each plain term is attached, in order. */
    method BindTerms(b: nat, xs: seq<Expr>, ghost a: Trace)
      requires Inv(a) && b < |g.binds|
      modifies g`nodes, g`binds, g`edges
      ensures Inv(a)
      ensures old(g.Valid()) ==> g.Valid()
      ensures SameEdgeShapes(old(g.edges), g.edges)
      ensures g.binds == Attached(old(g.binds), b, TermNodes(nodeKeys, xs), TermEdges(old(g.edges), g.query.edgeList, xs))
    {
      ghost var binds0, edges0 := g.binds, g.edges;
      var i := 0;
      AttachedNothing(binds0, b);
      while i < |xs|
        invariant 0 <= i <= |xs|
        invariant Inv(a) && b < |g.binds|
        invariant old(g.Valid()) ==> g.Valid()
        invariant SameEdgeShapes(edges0, g.edges)
        invariant g.binds == Attached(binds0, b, TermNodes(nodeKeys, xs[..i]), TermEdges(edges0, g.query.edgeList, xs[..i]))
      {
        BindTerm(b, xs, i, binds0, edges0, a);
        i := i + 1;
      }
      assert xs[..i] == xs;
    }

    /**
     * The edge lookup of a filter triple by its raw predicate (a path, being an object,
     * finds nothing); only when it finds nothing is the triple added, in no subgraph.
     */
    method FilterTripleEdge(t: Triple, c: Ctx, ghost a: Trace) returns (ghost a': Trace)
      requires Inv(a) && CtxFits(c, a)
      modifies this`nodeKeys, g`nodes, g`query, g`edges, g`subGraphs, g`services, g`unions
      ensures a' == if RawUnnamed(prefixes, a.shapes, t.pred) then TripleStep(t, c, None, a) else a
      ensures Inv(a')
      ensures old(g.Valid()) ==> g.Valid()
      ensures KeysGrow(old(nodeKeys), nodeKeys)
    {
      var raw: seq<nat> := [];
      if t.pred.Iri? {
        raw := GetEdges(t.pred.value);
        RawLookup(prefixes, a.shapes, g.edges, g.query.edgeList, nodeKeys, graphKeys, t.pred.value);
      }
      if |raw| == 0 {
        a' := AddTriple([t], c, None, None, a);
        assert [t][1..] == [] && [t][0] == t;
      } else {
        a' := a;
      }
    }

    /** filter.addNode(getNode(x)): the node of the term, created on first mention, joins the filter. */
    method FilterForcedNode(f: nat, x: string, ghost a: Trace) returns (ghost a': Trace)
      requires Inv(a) && f < |g.filters|
      modifies this`nodeKeys, g`nodes, g`query, g`filters
      ensures a' == NodeStep(a, x) && Inv(a')
      ensures old(g.Valid()) ==> g.Valid()
      ensures KeysGrow(old(nodeKeys), nodeKeys) && x in nodeKeys
      ensures g.query.edgeList == old(g.query.edgeList)
      ensures g.filters == Attached(old(g.filters), f, [nodeKeys[x]], [])
    {
      var n;
      n, a' := ForcedNode(x, a);
      ghost var s0 := Fields();
      AddFilterNode(f, Some(n));
      InvSame(prefixes, nodeKeys, graphKeys, s0, Fields(), a');
    }

    /** The filter takes the nodes of the triple's subject and object and the edges its predicate's text names. */
    method FilterTripleAttach(f: nat, t: Triple, ghost a: Trace) returns (ghost a': Trace)
      requires Inv(a) && f < |g.filters|
      modifies this`nodeKeys, g`nodes, g`query, g`filters, g`edges
      ensures a' == NodeStep(NodeStep(a, t.subject), t.obj) && Inv(a')
      ensures old(g.Valid()) ==> g.Valid()
      ensures KeysGrow(old(nodeKeys), nodeKeys) && t.subject in nodeKeys && t.obj in nodeKeys
      ensures SameEdgeShapes(old(g.edges), g.edges)
      ensures g.filters == Attached(old(g.filters), f, [nodeKeys[t.subject], nodeKeys[t.obj]],
        NamedEdges(old(g.edges), g.query.edgeList, PredicateText(t.pred)))
    {
      ghost var filters0 := g.filters;
      a' := FilterEnds(f, t, a);
      ghost var es := NamedEdges(g.edges, g.query.edgeList, PredicateText(t.pred));
      FilterEdges(f, PredicateText(t.pred), a');
      AttachedTwice(filters0, f, [nodeKeys[t.subject], nodeKeys[t.obj]], [], [], es);
      assert [nodeKeys[t.subject], nodeKeys[t.obj]] + [] == [nodeKeys[t.subject], nodeKeys[t.obj]] && [] + es == es;
    }

    /** The nodes of the triple's subject and object, created on first mention, join the filter. */
    method FilterEnds(f: nat, t: Triple, ghost a: Trace) returns (ghost a': Trace)
      requires Inv(a) && f < |g.filters|
      modifies this`nodeKeys, g`nodes, g`query, g`filters
      ensures a' == NodeStep(NodeStep(a, t.subject), t.obj) && Inv(a')
      ensures old(g.Valid()) ==> g.Valid()
      ensures KeysGrow(old(nodeKeys), nodeKeys) && t.subject in nodeKeys && t.obj in nodeKeys
      ensures g.query.edgeList == old(g.query.edgeList)
      ensures g.filters == Attached(old(g.filters), f, [nodeKeys[t.subject], nodeKeys[t.obj]], [])
    {
      ghost var filters0 := g.filters;
      var a1 := FilterForcedNode(f, t.subject, a);
      ghost var sn := nodeKeys[t.subject];
      a' := FilterForcedNode(f, t.obj, a1);
      ghost var on := nodeKeys[t.obj];
      assert nodeKeys[t.subject] == sn;
      assert g.filters == Attached(Attached(filters0, f, [sn], []), f, [on], []);
      AttachedTwice(filters0, f, [sn], [], [on], []);
      ghost var none: seq<nat> := [];
      assert [sn] + [on] == [sn, on] && none + none == none;
    }

    /** One triple of a filter argument: the edge if the lookup found none, then what the filter takes. */
    method FilterTriple(f: nat, t: Triple, c: Ctx, ghost a: Trace) returns (ghost a': Trace)
      requires Inv(a) && CtxFits(c, a) && f < |g.filters|
      modifies this`nodeKeys, g`nodes, g`query, g`edges, g`subGraphs, g`services, g`unions, g`filters
      ensures a' == FilterTripleStep(prefixes, t, c, a)
      ensures Inv(a')
      ensures old(g.Valid()) ==> g.Valid()
      ensures KeysGrow(old(nodeKeys), nodeKeys)
      ensures SameTexts(old(g.filters), g.filters)
    {
      var a1 := FilterTripleEdge(t, c, a);
      a' := FilterTripleAttach(f, t, a1);
    }

    /** The triples of a filter argument, in order. */
    method FilterTriples(f: nat, ts: seq<Triple>, c: Ctx, ghost a: Trace) returns (ghost a': Trace)
      requires Inv(a) && CtxFits(c, a) && f < |g.filters|
      modifies this`nodeKeys, g`nodes, g`query, g`edges, g`subGraphs, g`services, g`unions, g`filters
      ensures a' == FilterTriplesTrace(prefixes, ts, c, a)
      ensures Inv(a')
      ensures old(g.Valid()) ==> g.Valid()
      ensures KeysGrow(old(nodeKeys), nodeKeys)
      ensures SameTexts(old(g.filters), g.filters)
    {
      a' := a;
      var i := 0;
      while i < |ts|
        invariant 0 <= i <= |ts|
        invariant FilterTriplesTrace(prefixes, ts, c, a) == FilterTriplesTrace(prefixes, ts[i..], c, a')
        invariant Inv(a') && CtxFits(c, a')
        invariant old(g.Valid()) ==> g.Valid()
        invariant KeysGrow(old(nodeKeys), nodeKeys)
        invariant SameTexts(old(g.filters), g.filters)
      {
        assert ts[i..][1..] == ts[i + 1..];
        a' := FilterTriple(f, ts[i], c, a');
        i := i + 1;
      }
    }

    /**
     * One argument of a filter's operation: a plain term is attached, an operation's
     * sub-arguments are, an object's triples are walked, and any other object is skipped.
     */
    method FilterArg(f: nat, e: Expr, c: Ctx, ghost a: Trace) returns (ghost a': Trace)
      requires Inv(a) && CtxFits(c, a) && f < |g.filters|
      modifies this`nodeKeys, g`nodes, g`query, g`edges, g`subGraphs, g`services, g`unions, g`filters
      ensures a' == if e.TriplesExpr? then FilterTriplesTrace(prefixes, e.triples, c, a) else a
      ensures Inv(a')
      ensures old(g.Valid()) ==> g.Valid()
      ensures KeysGrow(old(nodeKeys), nodeKeys)
      ensures SameTexts(old(g.filters), g.filters)
      ensures e.Term? ==> g.filters == Attached(old(g.filters), f, NodeRef(nodeKeys, e.value), NamedEdges(old(g.edges), g.query.edgeList, e.value))
      ensures e.Operation? ==> g.filters == Attached(old(g.filters), f, TermNodes(nodeKeys, e.args), TermEdges(old(g.edges), g.query.edgeList, e.args))
      ensures e.OtherExpr? ==> g.filters == old(g.filters)
    {
      a' := a;
      if e.Term? {
        FilterAttach(f, e.value, a);
      } else if e.Operation? {
        FilterTerms(f, e.args, a);
      } else if e.TriplesExpr? {
        a' := FilterTriples(f, e.triples, c, a);
      }
    }

    /** The arguments of a filter's operation, in order. */
    method FilterArgs(f: nat, args: seq<Expr>, c: Ctx, ghost a: Trace) returns (ghost a': Trace)
      requires Inv(a) && CtxFits(c, a) && f < |g.filters|
      modifies this`nodeKeys, g`nodes, g`query, g`edges, g`subGraphs, g`services, g`unions, g`filters
      ensures a' == FilterArgsTrace(prefixes, args, c, a)
      ensures Inv(a')
      ensures old(g.Valid()) ==> g.Valid()
      ensures KeysGrow(old(nodeKeys), nodeKeys)
      ensures SameTexts(old(g.filters), g.filters)
    {
      a' := a;
      var i := 0;
      while i < |args|
        invariant 0 <= i <= |args|
        invariant FilterArgsTrace(prefixes, args, c, a) == FilterArgsTrace(prefixes, args[i..], c, a')
        invariant Inv(a') && CtxFits(c, a')
        invariant old(g.Valid()) ==> g.Valid()
        invariant KeysGrow(old(nodeKeys), nodeKeys)
        invariant SameTexts(old(g.filters), g.filters)
      {
        assert args[i..][1..] == args[i + 1..];
        ghost var filters1 := g.filters;
        a' := FilterArg(f, args[i], c, a');
        SameTextsTrans(old(g.filters), filters1, g.filters);
        i := i + 1;
      }
    }

    // -------------------------------------------------------------------------
    // The walk of the where clause

    /** `new Service(name)`: a service that no edge uses yet. */
    method StartService(name: string, ghost a: Trace) returns (v: nat, ghost a': Trace)
      requires Inv(a)
      modifies g`services
      ensures v == |a.serviceNames| && a' == a.(serviceNames := a.serviceNames + [name])
      ensures Inv(a')
      ensures old(g.Valid()) ==> g.Valid()
    {
      ghost var s0 := Fields();
      v := g.NewService(name);
      InvNewService(prefixes, nodeKeys, graphKeys, s0, a, name);
      a' := a.(serviceNames := a.serviceNames + [name]);
    }

    /** object.addService, once the service's patterns are walked. */
    method EndService(v: nat, ghost a: Trace) returns (ghost a': Trace)
      requires Inv(a) && v < |a.serviceNames|
      modifies g`query
      ensures a' == a.(serviceOrder := a.serviceOrder + [v])
      ensures Inv(a')
      ensures old(g.Valid()) ==> g.Valid()
    {
      ghost var s0 := Fields();
      g.QueryAddService(v);
      InvRegisterService(prefixes, nodeKeys, graphKeys, s0, a, v);
      a' := a.(serviceOrder := a.serviceOrder + [v]);
    }

    /** `new Union("U" + (k + 1))` with `k` unions registered, registered at once. */
    method StartUnion(ghost a: Trace) returns (u: nat, ghost a': Trace)
      requires Inv(a)
      modifies g`unions, g`query
      ensures u == a.unions && a' == a.(unions := a.unions + 1)
      ensures Inv(a')
      ensures u < |g.unions| && g.unions[u].name == UnionName(u)
      ensures old(g.Valid()) ==> g.Valid()
    {
      ghost var s0 := Fields();
      u := g.NewUnion(UnionName(|g.query.unionList|));
      g.QueryAddUnion(u);
      InvNewUnion(prefixes, nodeKeys, graphKeys, s0, a);
      a' := a.(unions := a.unions + 1);
    }

    /** `new Filter(text)`, registered at once (the source registers it after its arguments). */
    method StartFilter(text: string, ghost a: Trace) returns (f: nat, ghost a': Trace)
      requires Inv(a)
      modifies g`filters, g`query
      ensures f == |a.filters| && a' == a.(filters := a.filters + [text])
      ensures g.filters == old(g.filters) + [TextRec(text, [], [])] && g.query.edgeList == old(g.query.edgeList)
      ensures Inv(a')
      ensures old(g.Valid()) ==> g.Valid()
    {
      ghost var s0 := Fields();
      f := g.NewFilter(text);
      g.QueryAddFilter(f);
      InvNewFilter(prefixes, nodeKeys, graphKeys, s0, a, text);
      a' := a.(filters := a.filters + [text]);
    }

    /** `new Bind(text)`, registered at once (the source registers it after its terms). */
    method StartBind(text: string, ghost a: Trace) returns (b: nat, ghost a': Trace)
      requires Inv(a)
      modifies g`binds, g`query
      ensures b == |a.binds| && a' == a.(binds := a.binds + [text])
      ensures g.binds == old(g.binds) + [TextRec(text, [], [])] && g.query.edgeList == old(g.query.edgeList)
      ensures Inv(a')
      ensures old(g.Valid()) ==> g.Valid()
    {
      ghost var s0 := Fields();
      b := g.NewBind(text);
      g.QueryAddBind(b);
      InvNewBind(prefixes, nodeKeys, graphKeys, s0, a, text);
      a' := a.(binds := a.binds + [text]);
    }

    /**
     * A bind pattern: a new bind holding the pattern's text takes the node and edges of
     * its variable, then of its expression (a plain term) or of each of the operation's
     * arguments. Any other expression has no arguments to walk, and the source throws.
     */
    method WalkBind(p: Pattern, c: Ctx, ghost a: Trace) returns (ok: bool, ghost a': Trace)
      requires p.BindPattern? && Inv(a) && CtxFits(c, a)
      modifies g`nodes, g`query, g`edges, g`binds
      ensures ok <==> PatternTrace(prefixes, toPattern, p, c, a).Some?
      ensures ok ==> Some(a') == PatternTrace(prefixes, toPattern, p, c, a) && Inv(a')
      ensures ok ==> g.binds == old(g.binds) + [TextRec(toPattern(p),
        TermEdges(old(g.edges), g.query.edgeList, BoundTerms(p.variable, p.expression)),
        TermNodes(nodeKeys, BoundTerms(p.variable, p.expression)))]
      ensures old(g.Valid()) ==> g.Valid()
    {
      a' := a;
      if !(p.expression.Term? || p.expression.Operation?) {
        return false, a';
      }
      a' := MakeBind(toPattern(p), BoundTerms(p.variable, p.expression), a);
      ok := true;
    }

    /** `new Bind(text)`, registered, then the nodes and edges of the plain terms among `xs`. */
    method MakeBind(text: string, xs: seq<Expr>, ghost a: Trace) returns (ghost a': Trace)
      requires Inv(a)
      modifies g`nodes, g`query, g`edges, g`binds
      ensures a' == a.(binds := a.binds + [text]) && Inv(a')
      ensures g.binds == old(g.binds) + [TextRec(text, TermEdges(old(g.edges), g.query.edgeList, xs), TermNodes(nodeKeys, xs))]
      ensures old(g.Valid()) ==> g.Valid()
    {
      var b;
      b, a' := StartBind(text, a);
      BindTerms(b, xs, a');
      assert [] + TermNodes(nodeKeys, xs) == TermNodes(nodeKeys, xs);
      assert [] + TermEdges(old(g.edges), g.query.edgeList, xs) == TermEdges(old(g.edges), g.query.edgeList, xs);
    }

    /**
     * A filter pattern: a new filter holding the pattern's text, then its operation's
     * arguments. An expression that is not an operation has no arguments, and the source throws.
     */
    method WalkFilter(p: Pattern, c: Ctx, ghost a: Trace) returns (ok: bool, ghost a': Trace)
      requires p.FilterPattern? && Inv(a) && CtxFits(c, a)
      modifies this`nodeKeys, g`nodes, g`query, g`edges, g`subGraphs, g`services, g`unions, g`filters
      ensures ok <==> PatternTrace(prefixes, toPattern, p, c, a).Some?
      ensures ok ==> Some(a') == PatternTrace(prefixes, toPattern, p, c, a) && Inv(a')
      ensures ok ==> |g.filters| == old(|g.filters|) + 1 && g.filters[old(|g.filters|)].text == toPattern(p)
      ensures old(g.Valid()) ==> g.Valid()
      ensures KeysGrow(old(nodeKeys), nodeKeys)
    {
      a' := a;
      if !p.expression.Operation? {
        return false, a';
      }
      var f;
      f, a' := StartFilter(toPattern(p), a);
      a' := FilterArgs(f, p.expression.args, c, a');
      ok := true;
    }

    /** addWhereClause: the patterns in order, each under the same context; a pattern on which the source throws stops the walk. */
    method Walk(ps: seq<Pattern>, c: Ctx, ghost a: Trace) returns (ok: bool, ghost a': Trace)
      requires Inv(a) && CtxFits(c, a)
      modifies this`nodeKeys, this`graphKeys, g`nodes, g`query, g`edges, g`subGraphs, g`services, g`unions, g`filters, g`binds
      ensures ok <==> WalkTrace(prefixes, toPattern, ps, c, a).Some?
      ensures ok ==> Some(a') == WalkTrace(prefixes, toPattern, ps, c, a) && Inv(a') && TraceGrows(a, a')
      ensures old(g.Valid()) ==> g.Valid()
      ensures KeysGrow(old(nodeKeys), nodeKeys) && KeysGrow(old(graphKeys), graphKeys)
      decreases ps, 0
    {
      a' := a;
      var i := 0;
      while i < |ps|
        invariant 0 <= i <= |ps|
        invariant WalkTrace(prefixes, toPattern, ps, c, a) == WalkTrace(prefixes, toPattern, ps[i..], c, a')
        invariant Inv(a') && CtxFits(c, a') && TraceGrows(a, a')
        invariant old(g.Valid()) ==> g.Valid()
        invariant KeysGrow(old(nodeKeys), nodeKeys) && KeysGrow(old(graphKeys), graphKeys)
      {
        assert ps[i..][0] == ps[i] && ps[i..][1..] == ps[i + 1..];
        var ok1, a1 := WalkPattern(ps[i], c, a');
        if !ok1 {
          return false, a1;
        }
        a' := a1;
        i := i + 1;
      }
      ok := true;
    }

    /** One pattern of the where clause, by its type. */
    method WalkPattern(p: Pattern, c: Ctx, ghost a: Trace) returns (ok: bool, ghost a': Trace)
      requires Inv(a) && CtxFits(c, a)
      modifies this`nodeKeys, this`graphKeys, g`nodes, g`query, g`edges, g`subGraphs, g`services, g`unions, g`filters, g`binds
      ensures ok <==> PatternTrace(prefixes, toPattern, p, c, a).Some?
      ensures ok ==> Some(a') == PatternTrace(prefixes, toPattern, p, c, a) && Inv(a') && TraceGrows(a, a')
      ensures old(g.Valid()) ==> g.Valid()
      ensures KeysGrow(old(nodeKeys), nodeKeys) && KeysGrow(old(graphKeys), graphKeys)
      decreases p
    {
      match p
      case Group(ps) =>
        ok, a' := Walk(ps, c, a);
      case GraphPattern(name, ps) =>
        ok, a' := WalkGraph(name, ps, c, a);
      case Bgp(ts) =>
        a' := WalkBgp(ts, c, a);
        ok := true;
      case MinusPattern(ps) =>
        ok, a' := Walk(ps, c.(edgeType := Minus), a);
      case OptionalPattern(ps) =>
        ok, a' := Walk(ps, c.(edgeType := Optional), a);
      case ServicePattern(name, ps) =>
        ok, a' := WalkService(name, ps, c, a);
      case UnionPattern(ps) =>
        ok, a' := WalkUnion(ps, c, a);
      case BindPattern(_, _) =>
        ok, a' := WalkBind(p, c, a);
      case FilterPattern(_) =>
        ok, a' := WalkFilter(p, c, a);
      case OtherPattern(_) =>
        ok, a' := true, a;
    }

    /** A basic graph pattern: its triples, in no subgraph. */
    method WalkBgp(ts: seq<Triple>, c: Ctx, ghost a: Trace) returns (ghost a': Trace)
      requires Inv(a) && CtxFits(c, a)
      modifies this`nodeKeys, this`graphKeys, g`nodes, g`query, g`edges, g`subGraphs, g`services, g`unions
      ensures Some(a') == PatternTrace(prefixes, toPattern, Bgp(ts), c, a) && Inv(a') && TraceGrows(a, a')
      ensures old(g.Valid()) ==> g.Valid()
      ensures KeysGrow(old(nodeKeys), nodeKeys) && KeysGrow(old(graphKeys), graphKeys)
    {
      a' := AddEdge(None, ts, c, a);
      TriplesTraceShapes(ts, c, None, a);
    }

    /**
     * A graph pattern: the triples of its first nested pattern, in the named subgraph;
     * the rest are not walked. When the first nested pattern carries no triples, the source throws.
     */
    method WalkGraph(name: string, ps: seq<Pattern>, c: Ctx, ghost a: Trace) returns (ok: bool, ghost a': Trace)
      requires Inv(a) && CtxFits(c, a)
      modifies this`nodeKeys, this`graphKeys, g`nodes, g`query, g`edges, g`subGraphs, g`services, g`unions, g`filters, g`binds
      ensures ok <==> PatternTrace(prefixes, toPattern, GraphPattern(name, ps), c, a).Some?
      ensures ok ==> Some(a') == PatternTrace(prefixes, toPattern, GraphPattern(name, ps), c, a) && Inv(a') && TraceGrows(a, a')
      ensures old(g.Valid()) ==> g.Valid()
      ensures KeysGrow(old(nodeKeys), nodeKeys) && KeysGrow(old(graphKeys), graphKeys)
    {
      if |ps| > 0 && ps[0].Bgp? {
        a' := AddEdge(Some(name), ps[0].triples, c, a);
        TriplesTraceShapes(ps[0].triples, c, Some(name), GraphStep(a, name));
        ok := true;
      } else {
        ok, a' := false, a;
      }
    }

    /** A service pattern: a new service owns the edges of its patterns, and is registered after them. */
    method WalkService(name: string, ps: seq<Pattern>, c: Ctx, ghost a: Trace) returns (ok: bool, ghost a': Trace)
      requires Inv(a) && CtxFits(c, a)
      modifies this`nodeKeys, this`graphKeys, g`nodes, g`query, g`edges, g`subGraphs, g`services, g`unions, g`filters, g`binds
      ensures ok <==> PatternTrace(prefixes, toPattern, ServicePattern(name, ps), c, a).Some?
      ensures ok ==> Some(a') == PatternTrace(prefixes, toPattern, ServicePattern(name, ps), c, a) && Inv(a') && TraceGrows(a, a')
      ensures old(g.Valid()) ==> g.Valid()
      ensures KeysGrow(old(nodeKeys), nodeKeys) && KeysGrow(old(graphKeys), graphKeys)
      decreases ps, 1
    {
      var v, a1 := StartService(name, a);
      var ok1, a2 := Walk(ps, c.(service := Some(v)), a1);
      if !ok1 {
        return false, a2;
      }
      a' := EndService(v, a2);
      ok := true;
    }

    /** A union pattern: a new union, registered at once, takes the edges of its patterns. */
    method WalkUnion(ps: seq<Pattern>, c: Ctx, ghost a: Trace) returns (ok: bool, ghost a': Trace)
      requires Inv(a) && CtxFits(c, a)
      modifies this`nodeKeys, this`graphKeys, g`nodes, g`query, g`edges, g`subGraphs, g`services, g`unions, g`filters, g`binds
      ensures ok <==> PatternTrace(prefixes, toPattern, UnionPattern(ps), c, a).Some?
      ensures ok ==> Some(a') == PatternTrace(prefixes, toPattern, UnionPattern(ps), c, a) && Inv(a') && TraceGrows(a, a')
      ensures old(g.Valid()) ==> g.Valid()
      ensures KeysGrow(old(nodeKeys), nodeKeys) && KeysGrow(old(graphKeys), graphKeys)
      decreases ps, 1
    {
      var u, a1 := StartUnion(a);
      ok, a' := Walk(ps, c.(union := Some(u)), a1);
    }

    // -------------------------------------------------------------------------
    // Before and after the walk

    /** The INSERT quads, then the DELETE quads if present, then the where clause (none is an empty one). */
    method StartUpdate(u: Update, ghost a: Trace) returns (ok: bool, ghost a': Trace)
      requires u.insert.Present? && Inv(a)
      modifies this`nodeKeys, this`graphKeys, g`nodes, g`query, g`edges, g`subGraphs, g`services, g`unions, g`filters, g`binds
      ensures var a1 := QuadsTrace(u.insert.value, Insert, a);
        var a2 := if u.delete.Present? then QuadsTrace(u.delete.value, Delete, a1) else a1;
        var r := WalkTrace(prefixes, toPattern, if u.where.Present? then u.where.value else [], TopCtx(Regular), a2);
        (ok <==> r.Some?) && (ok ==> Some(a') == r && Inv(a'))
      ensures old(g.Valid()) ==> g.Valid()
    {
      a' := AddEdges(u.insert.value, Insert, a);
      if u.delete.Present? {
        a' := AddEdges(u.delete.value, Delete, a');
      }
      var where := if u.where.Present? then u.where.value else [];
      ok, a' := Walk(where, TopCtx(Regular), a');
    }

    /** A CONSTRUCT template's triples, then the where clause; a query without one makes the source throw. */
    method StartQuery(body: Body, ghost a: Trace) returns (ok: bool, ghost a': Trace)
      requires body.QueryBody? && Inv(a)
      modifies this`nodeKeys, this`graphKeys, g`nodes, g`query, g`edges, g`subGraphs, g`services, g`unions, g`filters, g`binds
      ensures var a1 := if body.queryType == ConstructQuery then TriplesTrace(body.template, TopCtx(Construct), None, a) else a;
        var r := if body.where.Absent? then None else WalkTrace(prefixes, toPattern, body.where.value, TopCtx(Regular), a1);
        (ok <==> r.Some?) && (ok ==> Some(a') == r && Inv(a'))
      ensures old(g.Valid()) ==> g.Valid()
    {
      a' := a;
      if body.queryType == ConstructQuery {
        a' := AddTriple(body.template, TopCtx(Construct), None, None, a);
      }
      if body.where.Absent? {
        return false, a';
      }
      ok, a' := Walk(body.where.value, TopCtx(Regular), a');
    }

    /** The walking half of objectify: everything before the selection, the limit and the order. */
    method Start(ast: Ast) returns (ok: bool, ghost a': Trace)
      requires prefixes == ast.prefixes && Inv(EmptyTrace())
      modifies this`nodeKeys, this`graphKeys, g`nodes, g`query, g`edges, g`subGraphs, g`services, g`unions, g`filters, g`binds
      ensures ok <==> ObjectifyTrace(ast, toPattern).Some?
      ensures ok ==> Some(a') == ObjectifyTrace(ast, toPattern) && Inv(a')
      ensures old(g.Valid()) ==> g.Valid()
    {
      match ast.body
      case UpdateBody(us) =>
        if |us| == 0 || us[0].insert.Absent? {
          return false, EmptyTrace();
        }
        ok, a' := StartUpdate(us[0], EmptyTrace());
      case QueryBody(_, _, _, _) =>
        ok, a' := StartQuery(ast.body, EmptyTrace());
    }

    /** node.setType(SELECT) on each node of `list`, in order; nothing else changes. */
    method MarkNodes(list: seq<nat>)
      requires Below(list, |g.nodes|)
      modifies g`nodes
      ensures old(g.Valid()) ==> g.Valid()
      ensures |g.nodes| == old(|g.nodes|)
      ensures forall n :: 0 <= n < |g.nodes| ==>
        g.nodes[n] == if n in list then old(g.nodes[n]).(nodeType := SelectNode) else old(g.nodes[n])
    {
      ghost var nodes0 := g.nodes;
      var i := 0;
      while i < |list|
        invariant 0 <= i <= |list| && |g.nodes| == |nodes0|
        invariant old(g.Valid()) ==> g.Valid()
        invariant forall n :: 0 <= n < |g.nodes| ==>
          g.nodes[n] == if n in list[..i] then nodes0[n].(nodeType := SelectNode) else nodes0[n]
      {
        assert forall n :: n in list[..i + 1] <==> n in list[..i] || n == list[i] by {
          assert list[..i + 1] == list[..i] + [list[i]];
        }
        g.NodeSetType(list[i], SelectNode);
        i := i + 1;
      }
      assert list[..i] == list;
    }

    /** The SELECT variables that name a node mark that node, in order. */
    method MarkVariables(vars: seq<string>)
      requires forall k :: k in nodeKeys ==> nodeKeys[k] < |g.nodes|
      modifies g`nodes
      ensures old(g.Valid()) ==> g.Valid()
      ensures |g.nodes| == old(|g.nodes|)
      ensures forall n :: 0 <= n < |g.nodes| ==>
        g.nodes[n] == if n in PickedNodes(nodeKeys, vars) then old(g.nodes[n]).(nodeType := SelectNode) else old(g.nodes[n])
    {
      ghost var nodes0 := g.nodes;
      var i := 0;
      while i < |vars|
        invariant 0 <= i <= |vars| && |g.nodes| == |nodes0|
        invariant old(g.Valid()) ==> g.Valid()
        invariant forall n :: 0 <= n < |g.nodes| ==>
          g.nodes[n] == if n in PickedNodes(nodeKeys, vars[..i]) then nodes0[n].(nodeType := SelectNode) else nodes0[n]
      {
        assert vars[..i + 1][..i] == vars[..i];
        assert PickedNodes(nodeKeys, vars[..i + 1]) == PickedNodes(nodeKeys, vars[..i]) + NodeRef(nodeKeys, vars[i]);
        MarkVariable(vars[i]);
        i := i + 1;
      }
      assert vars[..i] == vars;
    }

    /** One SELECT variable: getNode(x, false).setType(SELECT) when the memo has it. */
    method MarkVariable(x: string)
      requires forall k :: k in nodeKeys ==> nodeKeys[k] < |g.nodes|
      modifies g`nodes
      ensures old(g.Valid()) ==> g.Valid()
      ensures |g.nodes| == old(|g.nodes|)
      ensures forall n :: 0 <= n < |g.nodes| ==>
        g.nodes[n] == if n in NodeRef(nodeKeys, x) then old(g.nodes[n]).(nodeType := SelectNode) else old(g.nodes[n])
    {
      if x in nodeKeys {
        g.NodeSetType(nodeKeys[x], SelectNode);
      }
    }

    /** A SELECT marks every node for `*`, and then the node of each variable that names one. */
    method MarkSelect(body: Body)
      requires g.query.nodeList == Iota(|g.nodes|) && AllRegular(g.nodes)
      requires forall k :: k in nodeKeys ==> nodeKeys[k] < |g.nodes|
      modifies g`nodes
      ensures old(g.Valid()) ==> g.Valid()
      ensures |g.nodes| == old(|g.nodes|) && forall n :: 0 <= n < |g.nodes| ==> g.nodes[n].name == old(g.nodes[n].name)
      ensures forall n :: 0 <= n < |g.nodes| ==> (g.nodes[n].IsSelect() <==> Chosen(body, nodeKeys, n))
    {
      if body.QueryBody? && body.queryType == SelectQuery {
        ghost var nodes0 := g.nodes;
        var star := |body.variables| == 1 && body.variables[0] == "*";
        if star {
          MarkNodes(g.query.nodeList);
        }
        ghost var nodes1 := g.nodes;
        MarkVariables(body.variables);
        forall n | 0 <= n < |g.nodes|
          ensures g.nodes[n].name == nodes0[n].name
          ensures g.nodes[n].IsSelect() <==> Chosen(body, nodeKeys, n)
        {
          PickedNodesMeaning(nodeKeys, body.variables, n);
          assert g.query.nodeList[n] == n;
        }
      }
    }

    /** order.addNode for each ORDER BY term that names a node, in order; objects name none. */
    method OrderTerms(o: nat, es: seq<Expr>)
      requires o < |g.orders| && forall k :: k in nodeKeys ==> nodeKeys[k] < |g.nodes|
      modifies g`orders, g`nodes
      ensures old(g.Valid()) ==> g.Valid()
      ensures g.orders == old(g.orders)[o := old(g.orders[o]).(nodeList := old(g.orders[o].nodeList) + TermNodes(nodeKeys, es))]
      ensures SameNodeNames(old(g.nodes), g.nodes)
    {
      ghost var orders0, nodes0 := g.orders, g.nodes;
      var i := 0;
      assert orders0[o].nodeList + [] == orders0[o].nodeList;
      while i < |es|
        invariant 0 <= i <= |es| && |g.orders| == |orders0|
        invariant old(g.Valid()) ==> g.Valid()
        invariant g.orders == orders0[o := orders0[o].(nodeList := orders0[o].nodeList + TermNodes(nodeKeys, es[..i]))]
        invariant SameNodeNames(nodes0, g.nodes)
      {
        assert es[..i + 1][..i] == es[..i];
        ghost var step := if es[i].Term? then NodeRef(nodeKeys, es[i].value) else [];
        assert TermNodes(nodeKeys, es[..i + 1]) == TermNodes(nodeKeys, es[..i]) + step;
        assert orders0[o].nodeList + TermNodes(nodeKeys, es[..i + 1]) == orders0[o].nodeList + TermNodes(nodeKeys, es[..i]) + step;
        if es[i].Term? && es[i].value in nodeKeys {
          g.OrderAddNode(o, nodeKeys[es[i].value]);
        } else {
          assert step == [];
          assert orders0[o].nodeList + TermNodes(nodeKeys, es[..i]) + step == orders0[o].nodeList + TermNodes(nodeKeys, es[..i]);
        }
        i := i + 1;
      }
      assert es[..i] == es;
    }

    /** A new order holding the nodes of the ORDER BY terms, set as the query's order. */
    method SetOrder(es: seq<Expr>)
      requires forall k :: k in nodeKeys ==> nodeKeys[k] < |g.nodes|
      modifies g`orders, g`nodes, g`query
      ensures old(g.Valid()) ==> g.Valid()
      ensures g.orders == old(g.orders) + [OrderRec([], TermNodes(nodeKeys, es))]
      ensures g.query == old(g.query).(order := Some(old(|g.orders|)))
      ensures SameNodeNames(old(g.nodes), g.nodes)
    {
      var o := g.NewOrder();
      OrderTerms(o, es);
      g.QuerySetOrder(Some(o));
      assert [] + TermNodes(nodeKeys, es) == TermNodes(nodeKeys, es);
    }

    /** The selection, the limit and the order, once the walk is done. */
    method Finish(ast: Ast, ghost a: Trace)
      requires Inv(a)
      modifies g`nodes, g`query, g`orders
      ensures old(g.Valid()) ==> g.Valid()
      ensures Built(prefixes, nodeKeys, graphKeys, Fields(), a)
      ensures forall n :: 0 <= n < |g.nodes| ==> (g.nodes[n].IsSelect() <==> Chosen(ast.body, nodeKeys, n))
      ensures g.query.limit == if ast.limit.Present? then Limited(ast.limit.value) else Unbounded
      ensures g.query.order == if ast.order.Present? then Some(0) else None
      ensures g.orders == if ast.order.Present? then [OrderRec([], TermNodes(nodeKeys, ast.order.value))] else []
    {
      ghost var s0 := Fields();
      MarkSelect(ast.body);
      SetLimitOrder(ast.limit, ast.order);
      BuiltKeep(prefixes, nodeKeys, graphKeys, s0, Fields(), a);
    }

    /** object.setLimit and object.setOrder, each only when the parse has the field. */
    method SetLimitOrder(limit: Maybe<int>, order: Maybe<seq<Expr>>)
      requires |g.orders| == 0 && forall k :: k in nodeKeys ==> nodeKeys[k] < |g.nodes|
      modifies g`nodes, g`query, g`orders
      ensures old(g.Valid()) ==> g.Valid()
      ensures SameNodeNames(old(g.nodes), g.nodes)
      ensures g.query == old(g.query).(
        limit := if limit.Present? then Limited(limit.value) else old(g.query.limit),
        order := if order.Present? then Some(0) else old(g.query.order))
      ensures g.orders == if order.Present? then [OrderRec([], TermNodes(nodeKeys, order.value))] else []
    {
      if limit.Present? {
        g.QuerySetLimit(Limited(limit.value));
      }
      if order.Present? {
        SetOrder(order.value);
      }
    }
  }

  /**
   * objectify: the graph model of a parse, or None where the source throws (the caller
   * then keeps its previous query). The graph is what the parse's trace says; a node is
   * marked exactly when the SELECT projection names it; the limit and the order are the parse's.
   */
  method Objectify(ast: Ast, toPattern: Pattern -> string) returns (ok: bool, c: Compilation)
    ensures ok <==> ObjectifyTrace(ast, toPattern).Some?
    ensures ok ==> c.g.Valid() && Built(ast.prefixes, c.nodeKeys, c.graphKeys, c.Fields(), ObjectifyTrace(ast, toPattern).value)
    ensures ok ==> forall n :: 0 <= n < |c.g.nodes| ==> (c.g.nodes[n].IsSelect() <==> Chosen(ast.body, c.nodeKeys, n))
    ensures ok ==> c.g.query.limit == if ast.limit.Present? then Limited(ast.limit.value) else Unbounded
    ensures ok ==> c.g.query.order == if ast.order.Present? then Some(0) else None
    ensures ok ==> c.g.orders == if ast.order.Present? then [OrderRec([], TermNodes(c.nodeKeys, ast.order.value))] else []
  {
    c := new Compilation(ast.prefixes, toPattern);
    ghost var a;
    ok, a := c.Start(ast);
    if ok {
      c.Finish(ast, a);
    }
  }
}
