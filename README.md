# sparqlViz core in Dafny

This project models the part of sparqlViz that turns a parsed SPARQL query or update into a graph, lays out parallel edges, and tracks what the editor highlights:

- **The graph model** (`graph_model.dfy`, module `GraphModel`). It holds the query's nodes (terms) and edges (triple patterns). It also holds the annotation entities: named graphs (SubGraph), SERVICE blocks, UNIONs, FILTERs, BINDs and the ORDER BY clause. Entities keep membership lists in both directions.
  - The cyclic object graph is an arena. Class `Graph` holds one sequence of records per entity kind, and a handle is an index into that sequence.
  - `Graph` also holds the `Query` aggregate: its registration lists, its order and its limit.
  - Every `add*` of the source is a method of `Graph` that states the exact new state.
  - `Graph.Valid()` is the invariant. Every edge is on both endpoints' edge lists. Every owning subgraph or service lists the edge and both endpoints, and the endpoints list it back. SubGraph and Service lists hold no duplicates. Every union, filter, bind and order is registered in both directions.
  - Each operation that can violate the invariant is proved to keep it (`old(Valid()) ==> Valid()`). The proofs rely on value-level "Keeps" lemmas.
- **The compiler `objectify`**:
  - `sparql_ast.dfy`: the parser's output as a datatype.
  - `term_names.dfy`: `killPrefixes`, the rule that names a term.
  - `walk_spec.dfy`: what the compilation creates, as a pure function of the parse.
  - `compile_state.dfy`: the invariant relating the graph to that function.
  - `compiler.dfy`: class `Compilation`, the closure state (the graph plus the node and subgraph memos), with one method per inner function of `objectify`.
  - The walk is proved to build exactly what `WalkSpec` describes. `Objectify` proves that the finished graph is valid and is the described one, with the SELECT marking, LIMIT and ORDER BY as the driver sets them.
- **Curve classes** (`curve_classes.dfy`). This is the loop of the graph controller that sets each edge's `source`/`target` node indices and chooses its curve from the number of earlier edges between the same unordered pair of nodes. It is an imperative method over the graph and an `array` of counters, proved against a fold specification.
- **Highlighting** (`highlighting.dfy`). Class `HighlightingService` has six optional selection slots, with `highlight` as a method and `isHighlighted` as a function over the slots and the entities' membership lists.

Terms are named as SPARQL 1.1 Query Language writes them:
- the `rdf:type` IRI is shown as `a` (section 4.2.4 of SPARQL 1.1 Query Language);
- an IRI under a declared prefix is shown as `prefix:local` (section 4.1.1.1 of SPARQL 1.1 Query Language).

The serialiser `generator.toPattern` is a function-valued parameter of the compilation. Nothing inside the model decides its output.

## Model

| member | source | states |
|---|---|---|
| GraphModel.Graph.constructor | js/graphicalSPARQL/classes.ts:34-43 | A fresh query has every list empty, no order and an unbounded limit, and the arena is empty and valid. |
| GraphModel.Graph.QueryAddEdge | js/graphicalSPARQL/classes.ts:46 | Appends exactly the edge to the query's edge list, changes nothing else and keeps the invariant. |
| GraphModel.Graph.QueryAddNode | js/graphicalSPARQL/classes.ts:49 | Appends exactly the node to the query's node list and keeps the invariant. |
| GraphModel.Graph.QueryAddSubGraph | js/graphicalSPARQL/classes.ts:52 | Appends exactly the subgraph to the query's subgraph list and keeps the invariant. |
| GraphModel.Graph.QueryAddService | js/graphicalSPARQL/classes.ts:55 | Appends exactly the service to the query's service list and keeps the invariant. |
| GraphModel.Graph.QueryAddUnion | js/graphicalSPARQL/classes.ts:58 | Appends exactly the union to the query's union list and keeps the invariant. |
| GraphModel.Graph.QueryAddFilter | js/graphicalSPARQL/classes.ts:61 | Appends exactly the filter to the query's filter list and keeps the invariant. |
| GraphModel.Graph.QueryAddBind | js/graphicalSPARQL/classes.ts:64 | Appends exactly the bind to the query's bind list and keeps the invariant. |
| GraphModel.Graph.QuerySetOrder | js/graphicalSPARQL/classes.ts:67 | Replaces only the query's order and keeps the invariant. |
| GraphModel.Graph.QuerySetLimit | js/graphicalSPARQL/classes.ts:70 | Replaces only the query's limit and keeps the invariant. |
| GraphModel.Graph.NewNode | js/graphicalSPARQL/classes.ts:550-553 | A new node has its name and type and empty membership lists; it is appended under the next handle. |
| GraphModel.Graph.NewSubGraph | js/graphicalSPARQL/classes.ts:798-800 | A new subgraph has its name and empty lists; it is appended under the next handle. |
| GraphModel.Graph.NewService | js/graphicalSPARQL/classes.ts:890-892 | A new service has its name and empty lists; it is appended under the next handle. |
| GraphModel.Graph.NewUnion | js/graphicalSPARQL/classes.ts:977-979 | A new union has its name and no edges; it is appended under the next handle. |
| GraphModel.Graph.NewFilter | js/graphicalSPARQL/classes.ts:1031-1033 | A new filter has its text and no edges or nodes; it is appended under the next handle. |
| GraphModel.Graph.NewBind | js/graphicalSPARQL/classes.ts:1112-1114 | A new bind has its text and no edges or nodes; it is appended under the next handle. |
| GraphModel.Graph.NewOrder | js/graphicalSPARQL/classes.ts:1174-1184 | A new order has no edges or nodes; it is appended under the next handle. |
| GraphModel.Graph.NodeSetType | js/graphicalSPARQL/classes.ts:576-580 | Changes only that node's type and keeps the invariant. |
| GraphModel.Graph.NodeAddEdge | js/graphicalSPARQL/classes.ts:624-628 | Appends the edge to that node's edge list unconditionally; nothing else changes. |
| GraphModel.Graph.NodeAddFilter | js/graphicalSPARQL/classes.ts:645-649 | Appends the filter to that node's filter list unconditionally. |
| GraphModel.Graph.NodeAddBind | js/graphicalSPARQL/classes.ts:666-670 | Appends the bind to that node's bind list unconditionally. |
| GraphModel.Graph.NodeAddUnion | js/graphicalSPARQL/classes.ts:687-699 | Always appends the union. The duplicate check compares index keys with the union's string form, so it never matches and the list can hold a union twice. |
| GraphModel.Graph.NodeAddOrder | js/graphicalSPARQL/classes.ts:716-720 | Appends the order to that node's order list unconditionally. |
| GraphModel.Graph.NodeAddSubGraph | js/graphicalSPARQL/classes.ts:601-607 | Appends the subgraph to the node's list unconditionally, then adds the node to the subgraph only if it is absent there. |
| GraphModel.Graph.NodeAddService | js/graphicalSPARQL/classes.ts:737-743 | Appends the service to the node's list unconditionally, then adds the node to the service only if it is absent there. |
| GraphModel.Contains | js/graphicalSPARQL/classes.ts:827-833 | The identity search finds the element exactly when it is on the list. |
| GraphModel.AdjoinMembers | js/graphicalSPARQL/classes.ts:826-838 | Insert-unless-present yields exactly the old elements plus the new one, and keeps a duplicate-free list duplicate-free. |
| GraphModel.Graph.SubGraphAddNode | js/graphicalSPARQL/classes.ts:826-838 | The subgraph's node list gains the node only if it was absent. |
| GraphModel.Graph.SubGraphAddEdge | js/graphicalSPARQL/classes.ts:855-867 | The subgraph's edge list gains the edge only if it was absent. |
| GraphModel.Graph.ServiceAddNode | js/graphicalSPARQL/classes.ts:918-930 | The service's node list gains the node only if it was absent. |
| GraphModel.Graph.ServiceAddEdge | js/graphicalSPARQL/classes.ts:947-959 | The service's edge list gains the edge only if it was absent. |
| GraphModel.Graph.NewEdge | js/graphicalSPARQL/classes.ts:161-185 | The new edge is appended with a straight curve. Each endpoint's edge list gains it once per endpoint role, so a self-loop lists it twice. A non-null subgraph or service gains the edge and both endpoints, and both endpoints list it; a null one changes nothing. The invariant is kept. |
| GraphModel.NewEdgeEndpointLists | js/graphicalSPARQL/classes.ts:169-184 | For every node, the exact effect of the edge constructor on each of its lists: the edge appears twice on a self-loop, once on an endpoint, and not at all elsewhere. |
| GraphModel.NewEdgeKeeps | js/graphicalSPARQL/classes.ts:161-185 | Constructing an edge keeps the arena invariant. |
| GraphModel.Graph.SubGraphTakeEdge | js/graphicalSPARQL/classes.ts:172-177 | The owning subgraph gains the edge and both endpoints, each only if absent, and both endpoints list the subgraph. |
| GraphModel.Graph.ServiceTakeEdge | js/graphicalSPARQL/classes.ts:179-184 | The same for the owning service. |
| GraphModel.Graph.EdgeAddFilter | js/graphicalSPARQL/classes.ts:242-246 | Appends the filter to that edge's filter list. |
| GraphModel.Graph.EdgeAddBind | js/graphicalSPARQL/classes.ts:263-267 | Appends the bind to that edge's bind list. |
| GraphModel.Graph.EdgeAddUnion | js/graphicalSPARQL/classes.ts:284-291 | Appends the union to the edge. Each endpoint gains the union once per endpoint role, twice for a self-loop; every other node is unchanged. |
| GraphModel.Graph.EdgeAddOrder | js/graphicalSPARQL/classes.ts:308-312 | Appends the order to that edge's order list. |
| GraphModel.Graph.EdgeSetCurve | js/graphicalSPARQL/classes.ts:342-346 | Changes only the edge's curve class, never its semantic edge type, and keeps the invariant. |
| GraphModel.Graph.EdgeSetEnds | js/graphicalSPARQL/controller.ts:103-104 | Changes only the edge's `source` and `target` layout indices and keeps the invariant. |
| GraphModel.RedrawnKeeps | js/graphicalSPARQL/controller.ts:87-120 | Changing only curves and layout indices of edges keeps the invariant. |
| GraphModel.Graph.UnionAddEdge | js/graphicalSPARQL/classes.ts:1002-1008 | The union gains the edge, the edge gains the union, and both endpoints gain the union. The invariant is kept. |
| GraphModel.UnionAddEdgeKeeps | js/graphicalSPARQL/classes.ts:1002-1008 | Registering an edge with a union in all four places keeps the invariant. |
| GraphModel.Graph.FilterAddNode | js/graphicalSPARQL/classes.ts:1080-1089 | A null node changes nothing. Otherwise the filter lists the node and the node lists the filter, and names, types and texts are unchanged. |
| GraphModel.Graph.FilterAddEdges | js/graphicalSPARQL/classes.ts:1056-1065 | The filter's edge list gains the edges in order. Each edge gains the filter once per occurrence in the argument. The invariant is kept. |
| GraphModel.Graph.FilterTakeEdges | js/graphicalSPARQL/classes.ts:1056-1065 | The loop over the edge argument computes exactly that new state. |
| GraphModel.FilterAddEdgesKeeps | js/graphicalSPARQL/classes.ts:1056-1065 | Registering any sequence of edges with a filter keeps the invariant. |
| GraphModel.Graph.BindAddNode | js/graphicalSPARQL/classes.ts:1162-1171 | A null node changes nothing; otherwise the bind and the node list each other. |
| GraphModel.Graph.BindAddEdges | js/graphicalSPARQL/classes.ts:1137-1147 | The bind's edge list gains the edges in order, and each edge lists the bind once per occurrence; the invariant is kept. |
| GraphModel.Graph.BindTakeEdges | js/graphicalSPARQL/classes.ts:1137-1147 | The loop over the edge argument computes exactly that new state. |
| GraphModel.BindAddEdgesKeeps | js/graphicalSPARQL/classes.ts:1137-1147 | Registering any sequence of edges with a bind keeps the invariant. |
| GraphModel.Graph.OrderAddNode | js/graphicalSPARQL/classes.ts:1234-1240 | The order lists the node and the node lists the order; the invariant is kept. |
| GraphModel.Graph.OrderAddEdge | js/graphicalSPARQL/classes.ts:1213-1219 | The order lists the edge and the edge lists the order; the invariant is kept. |
| GraphModel.Graph.OrderListsBelow | js/graphicalSPARQL/classes.ts:1186-1198 | In a valid graph, every handle on an order's lists names an existing edge or node, so `getText` can read their names. |
| GraphModel.Graph.OrderText | js/graphicalSPARQL/classes.ts:1186-1198 | The text is the edge names, then the node names, in list order, joined by ", ". |
| TermNames.IndexOfFrom | js/graphicalSPARQL/parse-query-factory.ts:70 | `indexOf(c, from)`: -1 when the character does not occur from `from` on, otherwise its first position there. |
| TermNames.FirstMatch | js/graphicalSPARQL/parse-query-factory.ts:75-83 | Finds the first declared prefix whose URI starts the string; no earlier one does. |
| TermNames.KillRdfType | js/graphicalSPARQL/parse-query-factory.ts:62-66 | The rdf:type IRI is named `a`, whatever the prefixes. |
| TermNames.KillBoolean | js/graphicalSPARQL/parse-query-factory.ts:67-71 | A string containing the xsd:boolean IRI becomes its characters from index 1 up to the next `"`, or the empty string when no `"` follows. |
| TermNames.KillFirstPrefix | js/graphicalSPARQL/parse-query-factory.ts:73-83 | Otherwise the first matching prefix `p` turns the string into `p:` followed by the rest after the URI. |
| TermNames.KillNoPrefix | js/graphicalSPARQL/parse-query-factory.ts:73-85 | With no matching prefix the string is returned unchanged. |
| TermNames.ExpandKill | js/graphicalSPARQL/parse-query-factory.ts:73-83 | Round trip: with distinct prefix names, expanding the compacted name `p:local` through the prefix table gives back the IRI. |
| CompileState.NodeMemoAdd | js/graphicalSPARQL/parse-query-factory.ts:34-44 | A forced miss on a term the memo lacks appends the node named `killPrefixes(term)`, registers it and mentions the term last. Afterwards node `i` still belongs to the `i`-th mentioned term, the memo holds exactly the mentioned terms, and every node is still regular. |
| CompileState.GraphMemoAdd | js/graphicalSPARQL/parse-query-factory.ts:22-32 | A miss on a graph name the memo lacks appends the subgraph with that name, registers it and mentions the name last. Afterwards subgraph `i` still belongs to the `i`-th mentioned name and the memo holds exactly the mentioned names. |
| CompileState.NodeMemoKeys | js/graphicalSPARQL/parse-query-factory.ts:34-44 | The node memo has a term exactly when the trace mentions it. |
| CompileState.GraphMemoKeys | js/graphicalSPARQL/parse-query-factory.ts:22-32 | The subgraph memo has a name exactly when the trace mentions it. |
| CompileState.MemosDistinct | js/graphicalSPARQL/parse-query-factory.ts:22-44 | Node `i` is named by the display name of the `i`-th mentioned term and subgraph `i` by the `i`-th mentioned graph name. No term and no graph name is mentioned twice, so no two subgraphs share a name and different raw terms have different nodes. |
| CompileState.BuiltEmpty | js/graphicalSPARQL/parse-query-factory.ts:17-20 | A graph that the empty trace describes has empty memos and no nodes, subgraphs, edges, services, unions, filters or binds. |
| CompileState.BuiltEndsMentioned | js/graphicalSPARQL/parse-query-factory.ts:88-116 | In a described graph, every traced edge joins two mentioned terms, and its graph, if any, is a mentioned graph name. |
| CompileState.NamedEdgesIota | js/graphicalSPARQL/parse-query-factory.ts:46-58 | Over the query's edge list, the lookup returns exactly the edges with that display name, in increasing creation order. |
| CompileState.DecimalValueNatText | js/graphicalSPARQL/parse-query-factory.ts:160 | The decimal text used in a union's name reads back as its number. |
| CompileState.UnionNamesDistinct | js/graphicalSPARQL/parse-query-factory.ts:160 | Unions named `"U" + (k + 1)` for different counts `k` get different names. |
| CompileState.RawLookup | js/graphicalSPARQL/parse-query-factory.ts:211-216 | The filter triple's edge lookup finds nothing exactly when no traced edge's display name (the compacted text of its predicate) equals the raw predicate. A path predicate matches none. |
| CompileState.PickedNodesMeaning | js/graphicalSPARQL/parse-query-factory.ts:273-279 | A node is marked by the projected variables exactly when some projected variable is a memo key that maps to it. |
| WalkSpec.TriplesShapesAt | js/graphicalSPARQL/parse-query-factory.ts:88-116 | One edge per triple, in order. Each carries the triple's predicate text (an IRI as it is; a path joined by its operator with `*` appended), its end terms, and the given type, graph, service and union. The edge's name is the compacted text, as `CompileState.EdgeFits` requires. |
| WalkSpec.TriplesTraceShapeList | js/graphicalSPARQL/parse-query-factory.ts:88-116 | A run of triples appends exactly its shapes, in order, to the trace's edges. |
| WalkSpec.TriplesTraceTerms | js/graphicalSPARQL/parse-query-factory.ts:88-116 | A run of triples only adds mentioned terms. |
| WalkSpec.TriplesTraceFrame | js/graphicalSPARQL/parse-query-factory.ts:88-116 | A run of triples changes only the mentioned terms and the edges of the trace. |
| WalkSpec.TriplesTraceShapes | js/graphicalSPARQL/parse-query-factory.ts:88-116 | All three: exactly the shapes are appended, the terms only grow, and nothing else in the trace changes. |
| WalkSpec.FilterTriplesTrace | js/graphicalSPARQL/parse-query-factory.ts:209-221 | The embedded triples of a filter only append edges and mention terms; no other part of the trace changes. |
| WalkSpec.FilterArgsTrace | js/graphicalSPARQL/parse-query-factory.ts:195-229 | Only the filter arguments that carry triples append edges and mention terms; no other part of the trace changes. |
| WalkSpec.WalkUnder | js/graphicalSPARQL/parse-query-factory.ts:132-235 | The walk only appends to every part of the trace. Each edge it creates carries the enclosing type unless under a nested MINUS or OPTIONAL, and the enclosing service and union unless under a service or union the walk itself created. |
| WalkSpec.PatternUnder | js/graphicalSPARQL/parse-query-factory.ts:136-233 | The same for one pattern. Inside a MINUS or an OPTIONAL every new edge has type MINUS or OPTIONAL, whatever the enclosing type: the construct forces its own type, which only a nested MINUS or OPTIONAL overrides. A basic or graph pattern's edges carry exactly the enclosing type, service and union. |
| WalkSpec.TriplesUnder | js/graphicalSPARQL/parse-query-factory.ts:88-116 | A run of triples only appends to the trace, and every edge it creates carries exactly the given type, service and union. |
| WalkSpec.FilterTriplesUnder | js/graphicalSPARQL/parse-query-factory.ts:209-221 | The embedded triples of a filter only append to the trace, and every edge they create carries exactly the enclosing type, service and union. |
| WalkSpec.FilterArgsUnder | js/graphicalSPARQL/parse-query-factory.ts:195-229 | The same for all the arguments of a filter: every edge they create carries exactly the enclosing type, service and union. |
| WalkSpec.FilterTripleUnder | js/graphicalSPARQL/parse-query-factory.ts:209-221 | One embedded triple only appends to the trace, and its edge, if the lookup found none, carries exactly the enclosing type, service and union. |
| WalkSpec.UnderTrans | js/graphicalSPARQL/parse-query-factory.ts:134 | Two consecutive stretches of the walk under one context compose: the trace still only grows and every new edge is still under the context. |
| WalkSpec.ExactTrans | js/graphicalSPARQL/parse-query-factory.ts:134 | The same for edges that carry the context exactly. |
| WalkSpec.WalkConcat | js/graphicalSPARQL/parse-query-factory.ts:134 | Patterns are walked one after the other: walking `ps + qs` walks `qs` from where `ps` ended, and fails if either part fails. |
| Compiler.Compilation.constructor | js/graphicalSPARQL/parse-query-factory.ts:17-20 | An empty query, empty node and subgraph memos, and the invariant for the empty trace. |
| Compiler.Compilation.GetGraph | js/graphicalSPARQL/parse-query-factory.ts:22-32 | Mentions the name in the trace and keeps the invariant. A hit returns the memoised subgraph and changes nothing. A miss creates a subgraph with that name under the next handle, registers it in the query and memoises it. |
| Compiler.Compilation.CreateGraph | js/graphicalSPARQL/parse-query-factory.ts:24-30 | The miss: exactly one new subgraph named `name`, under the next handle, memoised and registered, with the trace mentioning the name last. |
| Compiler.Compilation.GetNode | js/graphicalSPARQL/parse-query-factory.ts:34-44 | A forced call mentions the term in the trace; an unforced one leaves the trace alone. A hit returns the memoised node and changes nothing. A forced miss creates the node named `killPrefixes(name)` under the next handle, registers it once and memoises it. An unforced miss returns null and adds nothing. |
| Compiler.Compilation.CreateNode | js/graphicalSPARQL/parse-query-factory.ts:36-42 | The forced miss: exactly one new regular node named `killPrefixes(name)`, under the next handle, memoised and registered, with the trace mentioning the term last. |
| Compiler.Compilation.ForcedNode | js/graphicalSPARQL/parse-query-factory.ts:34-44 | `getNode(name)` with the default `force`: the term's memoised node, created on first mention; the trace mentions the term and the query's edge list is unchanged. |
| Compiler.Compilation.LookupMentioned | js/graphicalSPARQL/parse-query-factory.ts:34-44 | The unforced lookup finds a node exactly for a term the trace mentions: the node created at its first mention, named by the term's display name. |
| Compiler.Compilation.GetEdges | js/graphicalSPARQL/parse-query-factory.ts:46-58 | Returns the query's edges whose display name equals the argument, in list order. |
| Compiler.Compilation.CreateEdge | js/graphicalSPARQL/parse-query-factory.ts:100-107 | The edge is constructed with its name, ends, type, subgraph and service, keeping every name. |
| Compiler.Compilation.JoinUnion | js/graphicalSPARQL/parse-query-factory.ts:109-112 | The new edge joins the union, and only its union list changes among the edges. |
| Compiler.Compilation.TripleEdge | js/graphicalSPARQL/parse-query-factory.ts:100-114 | One edge is created and registered exactly as the triple's shape says: named `killPrefixes` of the predicate text, between the memoised end nodes, with the context's type, subgraph, service and union. The trace gains that shape. |
| Compiler.Compilation.AppendEdge | js/graphicalSPARQL/parse-query-factory.ts:100-114 | The edge record is appended and registered, in the context's union if any, and every other record keeps its name. |
| Compiler.Compilation.NewTripleEdge | js/graphicalSPARQL/parse-query-factory.ts:90-115 | One triple mentions its subject and object (their nodes forced) and adds exactly its shape, carrying the predicate's text, to the trace. |
| Compiler.Compilation.AddTriple | js/graphicalSPARQL/parse-query-factory.ts:88-116 | The triples add exactly their shapes, in order, to the trace; the graph stays valid and is still the traced one. |
| Compiler.Compilation.AddEdge | js/graphicalSPARQL/parse-query-factory.ts:116-126 | A pattern's triples become edges owned by `getGraph(name)` for a graph clause, which mentions the name first, and by no subgraph otherwise. |
| Compiler.Compilation.AddEdges | js/graphicalSPARQL/parse-query-factory.ts:126-132 | The quads of an INSERT or DELETE template add exactly their traced edges, in order, under the template's edge type. |
| Compiler.Compilation.AddQuad | js/graphicalSPARQL/parse-query-factory.ts:126-132 | One quad adds exactly its traced edges, under its named graph if it has one. |
| Compiler.Compilation.FilterNode | js/graphicalSPARQL/parse-query-factory.ts:226 | Attaches the term's node to the filter if the memo has it, and otherwise nothing. |
| Compiler.Compilation.FilterEdges | js/graphicalSPARQL/parse-query-factory.ts:227 | Attaches exactly the edges named by the term to the filter. |
| Compiler.Compilation.FilterAttach | js/graphicalSPARQL/parse-query-factory.ts:226-227 | Attaches the term's node and then its named edges. |
| Compiler.Compilation.FilterTerms | js/graphicalSPARQL/parse-query-factory.ts:201-205 | Over a list of arguments, attaches the nodes and edges of exactly its plain terms, in order. |
| Compiler.Compilation.BindNode | js/graphicalSPARQL/parse-query-factory.ts:167 | Attaches the variable's node to the bind if the memo has it. |
| Compiler.Compilation.BindEdges | js/graphicalSPARQL/parse-query-factory.ts:168 | Attaches exactly the edges named by the variable to the bind. |
| Compiler.Compilation.BindAttach | js/graphicalSPARQL/parse-query-factory.ts:167-168 | Attaches the term's node and then its named edges to the bind. |
| Compiler.Compilation.BindTerms | js/graphicalSPARQL/parse-query-factory.ts:167-182 | Attaches the nodes and edges of the bound variable and then of the expression's plain terms, in order. |
| Compiler.Compilation.FilterTripleEdge | js/graphicalSPARQL/parse-query-factory.ts:211-216 | Adds the embedded triple's edge, owned by no subgraph, exactly when no traced edge is named by the raw predicate (`RawUnnamed`); otherwise nothing changes. |
| Compiler.Compilation.FilterForcedNode | js/graphicalSPARQL/parse-query-factory.ts:218-219 | Mentions the term, creating its node if needed, and attaches exactly that node to the filter. |
| Compiler.Compilation.FilterEnds | js/graphicalSPARQL/parse-query-factory.ts:218-219 | Mentions the subject and then the object, and attaches exactly their two nodes, in that order, to the filter. |
| Compiler.Compilation.FilterTripleAttach | js/graphicalSPARQL/parse-query-factory.ts:218-220 | Attaches exactly both end nodes and then the edges named by the predicate's raw text; edge names, types and owners are unchanged. |
| Compiler.Compilation.FilterTriple | js/graphicalSPARQL/parse-query-factory.ts:209-221 | One embedded triple does what the filter-triple step of the trace says and keeps every filter's text. |
| Compiler.Compilation.FilterTriples | js/graphicalSPARQL/parse-query-factory.ts:207-222 | The embedded triples, in order, do what the trace says. |
| Compiler.Compilation.FilterArg | js/graphicalSPARQL/parse-query-factory.ts:197-228 | An argument with `args` attaches its plain terms. One with `triples` runs the triple step. A plain term attaches its node and edges. Any other object changes no filter. |
| Compiler.Compilation.FilterArgs | js/graphicalSPARQL/parse-query-factory.ts:195-229 | The arguments, in order, do what the trace says. |
| Compiler.Compilation.StartService | js/graphicalSPARQL/parse-query-factory.ts:155 | A new service with the clause's name, not yet registered. |
| Compiler.Compilation.EndService | js/graphicalSPARQL/parse-query-factory.ts:157 | Registers the service after its contents were walked. |
| Compiler.Compilation.StartUnion | js/graphicalSPARQL/parse-query-factory.ts:160-161 | A new union named `"U" + (k + 1)` for `k` registered unions, registered before its branches. |
| Compiler.Compilation.StartFilter | js/graphicalSPARQL/parse-query-factory.ts:189-193 | A new filter with the serialised pattern as its text. |
| Compiler.Compilation.StartBind | js/graphicalSPARQL/parse-query-factory.ts:165 | A new bind with the serialised pattern as its text. |
| Compiler.Compilation.WalkBind | js/graphicalSPARQL/parse-query-factory.ts:164-185 | A BIND succeeds exactly when the trace says so. It then adds one bind with the serialised text, holding exactly the edges and nodes of its variable and of the expression's plain terms. |
| Compiler.Compilation.MakeBind | js/graphicalSPARQL/parse-query-factory.ts:164-185 | A new registered bind with the given text, holding exactly the nodes and edges of the plain terms among the arguments; the trace gains its text. |
| Compiler.Compilation.WalkFilter | js/graphicalSPARQL/parse-query-factory.ts:187-231 | A FILTER succeeds exactly when its expression has arguments, adds one filter with the serialised text, and does what the trace says. |
| Compiler.Compilation.Walk | js/graphicalSPARQL/parse-query-factory.ts:132-235 | The walk over a pattern list succeeds exactly when the trace does. It then builds exactly the traced graph, and every part of the trace only grew. |
| Compiler.Compilation.WalkPattern | js/graphicalSPARQL/parse-query-factory.ts:136-233 | One pattern, by its type tag, does exactly what the trace says, including the graph-to-bgp fall-through, and the trace only grows. |
| Compiler.Compilation.WalkBgp | js/graphicalSPARQL/parse-query-factory.ts:145-147 | A basic graph pattern adds exactly its traced edges, in no subgraph, and the trace only grows. |
| Compiler.Compilation.WalkGraph | js/graphicalSPARQL/parse-query-factory.ts:143-147 | A graph clause turns its first nested pattern's triples into edges owned by `getGraph(name)`, and fails as the trace does when there is none. |
| Compiler.Compilation.WalkService | js/graphicalSPARQL/parse-query-factory.ts:154-158 | Nested edges carry the new service, which is registered after the walk. |
| Compiler.Compilation.WalkUnion | js/graphicalSPARQL/parse-query-factory.ts:159-163 | Nested edges join the new union, which is registered before the walk. |
| Compiler.Compilation.StartUpdate | js/graphicalSPARQL/parse-query-factory.ts:239-250 | INSERT edges, then DELETE edges when present, then the WHERE walk (empty when absent). |
| Compiler.Compilation.StartQuery | js/graphicalSPARQL/parse-query-factory.ts:251-259 | CONSTRUCT template edges, then the WHERE walk; a query without a WHERE clause fails. |
| Compiler.Compilation.Start | js/graphicalSPARQL/parse-query-factory.ts:237-261 | The whole creation phase succeeds exactly when the trace of the parse exists. It then builds that trace's graph: node `i` for the `i`-th mentioned term, subgraph `i` for the `i`-th graph name, and edge `k` as the `k`-th traced shape. |
| Compiler.Compilation.MarkNodes | js/graphicalSPARQL/parse-query-factory.ts:265-271 | Exactly the listed nodes become SELECT; no other node changes. |
| Compiler.Compilation.MarkVariables | js/graphicalSPARQL/parse-query-factory.ts:273-279 | Exactly the nodes memoised under a projected variable become SELECT. |
| Compiler.Compilation.MarkVariable | js/graphicalSPARQL/parse-query-factory.ts:275-278 | One variable marks exactly the node memoised under it, if any, as SELECT; every other node is unchanged. |
| Compiler.Compilation.MarkSelect | js/graphicalSPARQL/parse-query-factory.ts:263-280 | A node is SELECT exactly when the query is a SELECT and its projection is `*` or names the node's term. |
| Compiler.Compilation.OrderTerms | js/graphicalSPARQL/parse-query-factory.ts:291-297 | The order gains, in order, the nodes of exactly those order expressions that are node keys. |
| Compiler.Compilation.SetOrder | js/graphicalSPARQL/parse-query-factory.ts:287-300 | A new order holding those nodes becomes the query's order. |
| Compiler.Compilation.SetLimitOrder | js/graphicalSPARQL/parse-query-factory.ts:282-300 | The limit is set only when present, and the order only when ORDER BY is present. |
| Compiler.Compilation.Finish | js/graphicalSPARQL/parse-query-factory.ts:263-300 | After the walk: the SELECT marking, the limit and the order are as the parse says, and the traced graph is kept. |
| Compiler.Objectify | js/graphicalSPARQL/parse-query-factory.ts:17-304 | `objectify` fails exactly when the source would throw. Otherwise the graph is valid and is the traced one: each node, subgraph, edge, service, union, filter and bind is the one the trace creates at that position, registered once in order and reachable through the memos. The SELECT marking, LIMIT and ORDER BY are as the parse says. |
| CurveClasses.ScanEndsMeaning | js/graphicalSPARQL/controller.ts:89-101 | After the node scan, `source` is the last position of the start node, or the previous value when it is absent. `target` is the last position of the end node, except that a self-loop or an absent end node leaves the previous value. |
| CurveClasses.Locate | js/graphicalSPARQL/controller.ts:89-101 | The scan loop computes exactly that. |
| CurveClasses.PairSlotUnordered | js/graphicalSPARQL/controller.ts:108 | `min*n + max` is the same for both directions of a pair, lies below `n*n`, and is shared by two pairs exactly when they are the same unordered pair. |
| CurveClasses.ZeroCounts | js/graphicalSPARQL/controller.ts:78-85 | A fresh counter array with `n*n` slots, all 0. |
| CurveClasses.VisitEdge | js/graphicalSPARQL/controller.ts:87-120 | One iteration: set the layout indices, choose the curve from the pair's count (1 gives positive, more than 1 negative), then raise that count by one. |
| CurveClasses.PassCounts | js/graphicalSPARQL/controller.ts:119 | After the first `i` edges, each slot holds the number of those edges whose pair maps to it. |
| CurveClasses.PassVisited | js/graphicalSPARQL/controller.ts:103-117 | An edge visited once ends with the layout indices from its scan and the curve chosen from the number of earlier edges between the same pair; a count of 0 keeps its curve. |
| CurveClasses.PassUntouched | js/graphicalSPARQL/controller.ts:87-120 | An edge not on the query's edge list is unchanged. |
| CurveClasses.PassRedraws | js/graphicalSPARQL/controller.ts:87-120 | The pass changes only edges' curves and layout indices. |
| CurveClasses.PassAssigned | js/graphicalSPARQL/controller.ts:78-120 | The whole pass meets all of the above. |
| CurveClasses.AssignCurves | js/graphicalSPARQL/controller.ts:78-120 | The loop over the edges computes exactly the specified pass: the counters, the unchanged edges, and every visited edge's indices and curve. |
| CurveClasses.LayoutCurves | js/graphicalSPARQL/controller.ts:78-120 | The same on a valid graph, which stays valid. |
| Highlighting.HighlightingService.constructor | js/graphicalSPARQL/factories.ts:44-49 | All six selections start null. |
| Highlighting.HighlightingService.Highlight | js/graphicalSPARQL/factories.ts:52-82 | An annotation overwrites only its kind's selection, after which an annotation of that kind is highlighted exactly when it is the chosen one. Anything else clears all six, after which everything is highlighted. |
| Highlighting.HighlightingService.IsHighlighted | js/graphicalSPARQL/factories.ts:83-135 | With nothing selected everything is highlighted. Otherwise an annotation is highlighted exactly when it is its kind's selection, and any other object is not. |
| Highlighting.NodeLit | js/graphicalSPARQL/factories.ts:115-123 | With something selected, a node is highlighted exactly when some selection is on the node's list of that kind. |
| Highlighting.EdgeLit | js/graphicalSPARQL/factories.ts:124-132 | With something selected, an edge is highlighted exactly when it belongs to some selection: its non-null subgraph or service is selected, or a selected filter, bind, union or order is on its lists. |
| Highlighting.EdgeLightsEnds | js/graphicalSPARQL/factories.ts:115-132 | In a valid graph, an edge highlighted through its subgraph, service or union has both endpoints highlighted too. |

## Left out

- Edge geometry (center and interjection points, the Newton iteration, node ellipse parameters) is floating-point numerics and is not modelled. The curve class is the only layout state kept.
- The Edge, Node, SubGraph, Service, Union, Filter, Bind, Order and Query getters, and the edge `is*` tests are plain field reads. They are record fields and member predicates of the records (`IsInsert`, `IsSelect`, ...), with no contract of their own.
- Entities are handles into the arena, not objects, so JavaScript object identity (`===`) is handle equality. Fluent `return this` results are not modelled.
- The external SPARQL parser is left out. Its output is the `SparqlAst.Ast` datatype, narrowed to the fields the compiler reads; a query's `prefixes` object is a list of declarations in enumeration order.
- `generator.toPattern` is a parameter (`Pattern -> string`). Its text is whatever the caller supplies.
- `parse()` is left out: its try/catch, the `alert`, and the three PREFIX lines it prepends before parsing (parse-query-factory.ts:307-320). A JavaScript exception inside `objectify` is the failure result (`ok == false`) of `Compiler.Objectify`, and the graph built so far is not described.
- The cases that throw in the source become failures of the trace: an update without an `insert` list, a query without `where`, a graph clause whose first nested pattern has no triples, a BIND expression that is neither a string nor has `args`, and a FILTER expression without `args`. A query body that is neither `query` nor `update` cannot be expressed.
- `addTriple` overwrites `triple.predicate` with the path text in place (parse-query-factory.ts:94-97), and the graph clause gets a `triples` field written onto it (line 144). The model computes the same text (`WalkSpec.PredicateText`) without changing the parse. The later lookups that read the changed predicate read the same text.
- Compiler.Compilation.WalkBind and Compiler.Compilation.WalkFilter create the bind or filter before walking its arguments, while the source registers it with the query after them. The final registration list and the attached contents are the same, because arguments never create binds or filters.
- Compiler.Compilation.FilterTriples and Compiler.Compilation.FilterArgs state the trace exactly and keep every filter's text. The nodes and edges attached to the filter are stated exactly per argument (`FilterArg`), but not composed over a whole filter.
- Compiler.Compilation.WalkFilter states the new filter's text and the trace, and not the composed list of everything attached to it (see the line above).
- Compiler.Objectify does not describe the contents of filters, binds and the order beyond what `Built` and the order clause state. Those contents are stated per step by the methods above.
- Compiler.Objectify pins each record's name, type, ends and owners to the trace, but not the membership lists on nodes and containers (a node's edges, subgraphs, services, unions, filters and binds; a subgraph's or service's nodes and edges). Those lists are kept consistent with the edges by `Graph.Valid()` and stated exactly per step by the graph methods, not computed from the trace.
- Compiler.Compilation.Lookup is the unforced `getNode` as a function. It has no contract of its own; `LookupMentioned` states what it finds.
- Numeric LIMIT values are kept as integers. JavaScript's default `Infinity` is the `Unbounded` limit.
- CurveClasses.Locate and CurveClasses.AssignCurves use node positions (`nat`) for the `for nodeId in` keys. JavaScript's string keys and `parseInt` are not modelled.
- CurveClasses.VisitEdge: when the start or end node is on no position yet (the layout index is still undefined), the source computes a NaN slot, whose count stays undefined and so never compares equal to 1 or greater than 0. The model leaves the curve and the counters unchanged in that case; `edge.source` and `edge.target` are `Option` values.
- The Angular `$scope` wiring is left out: copying the query's lists into `$scope.nodes` and `$scope.edges`, the d3 force simulation and its tick callback, the settings and legend controllers, and the graph size. The curve loop reads the query's node and edge lists directly.
- Sockets, local storage, HTTP polling, node dragging and the other services in factories.ts are I/O or UI state and are not modelled.
- Highlighting receives its argument as an `Entity`. An annotation is named by its kind and handle, and a node or an edge is passed as its record, which is what `isHighlighted` reads. `instanceof` dispatch becomes the datatype's constructors.
- The compiled `.js` copies of the core files are earlier versions of the same code and are not modelled.
