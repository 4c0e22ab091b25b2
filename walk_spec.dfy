/**
 * What compiling a parse builds, as a pure function of the parse: the raw terms that
 * get a node and the graph names that get a subgraph, each in order of first request,
 * the sequence of edges in creation order (the text of each predicate, its end terms,
 * its type and its owners), the services created and the order they are registered
 * in, the number of unions, and the texts of the filters and binds. The compiler is
 * proved to build exactly this.
 */
module WalkSpec {
  import opened GraphModel
  import opened SparqlAst
  import TermNames

  /** The predicate as text: an IRI as it is, a path as its items joined by the path operator, then `*`. */
  function PredicateText(p: Predicate): string {
    match p
    case Iri(v) => v
    case Path(op, items) => Join(items, op) + "*"
  }

  /**
   * What the compiler records about one edge it creates; `pred` is the predicate's raw
   * text, the edge's name is its display form.
   */
  datatype Shape = Shape(
    pred: string,
    subject: string,
    obj: string,
    edgeType: EdgeType,
    graph: Option<string>,
    service: Option<nat>,
    union: Option<nat>)

  /** The enclosing edge type, service and union a pattern is walked under. */
  datatype Ctx = Ctx(edgeType: EdgeType, service: Option<nat>, union: Option<nat>)

  function TopCtx(ty: EdgeType): Ctx {
    Ctx(ty, None, None)
  }

  /**
   * Everything created so far: the raw terms with a node and the names with a
   * subgraph (a node's or a subgraph's handle is its position), edges, the names of
   * the services (a service's handle is its position), the services in registration
   * order, the number of unions, and the texts of the filters and binds.
   */
  datatype Trace = Trace(
    terms: seq<string>,
    graphs: seq<string>,
    shapes: seq<Shape>,
    serviceNames: seq<string>,
    serviceOrder: seq<nat>,
    unions: nat,
    filters: seq<string>,
    binds: seq<string>)

  function EmptyTrace(): Trace {
    Trace([], [], [], [], [], 0, [], [])
  }

  /** `x` joins the list unless it is on it already: a memo's keys, in order of first request. */
  function Mention(ks: seq<string>, x: string): (r: seq<string>)
  {
    if x in ks then ks else ks + [x]
  }

  /** `getNode(x)` (forced): from now on the raw term `x` has a node. */
  function NodeStep(a: Trace, x: string): Trace {
    a.(terms := Mention(a.terms, x))
  }

  /** `getGraph(name)`: from now on `name` has a subgraph. */
  function GraphStep(a: Trace, name: string): Trace {
    a.(graphs := Mention(a.graphs, name))
  }

  function TripleShape(t: Triple, c: Ctx, graph: Option<string>): Shape {
    Shape(PredicateText(t.pred), t.subject, t.obj, c.edgeType, graph, c.service, c.union)
  }

  /** The edges of a run of triples. */
  function TriplesShapes(ts: seq<Triple>, c: Ctx, graph: Option<string>): seq<Shape>
    decreases |ts|
  {
    if ts == [] then [] else [TripleShape(ts[0], c, graph)] + TriplesShapes(ts[1..], c, graph)
  }

  /** One edge per triple, in order. */
  lemma {:induction false} TriplesShapesAt(ts: seq<Triple>, c: Ctx, graph: Option<string>)
    ensures |TriplesShapes(ts, c, graph)| == |ts|
    ensures forall i :: 0 <= i < |ts| ==> TriplesShapes(ts, c, graph)[i] == TripleShape(ts[i], c, graph)
    decreases |ts|
  {
    if ts != [] {
      TriplesShapesAt(ts[1..], c, graph);
      forall i | 0 <= i < |ts| ensures TriplesShapes(ts, c, graph)[i] == TripleShape(ts[i], c, graph) {
        if i > 0 {
          assert ts[1..][i - 1] == ts[i];
        }
      }
    }
  }

  function AddShapes(a: Trace, ss: seq<Shape>): Trace {
    a.(shapes := a.shapes + ss)
  }

  /** One triple of addTriple: the nodes of its subject and of its object, then its edge. */
  function TripleStep(t: Triple, c: Ctx, graph: Option<string>, a: Trace): Trace {
    AddShapes(NodeStep(NodeStep(a, t.subject), t.obj), [TripleShape(t, c, graph)])
  }

  /** addTriple over a run of triples. */
  function TriplesTrace(ts: seq<Triple>, c: Ctx, graph: Option<string>, a: Trace): Trace
    decreases |ts|
  {
    if ts == [] then a else TriplesTrace(ts[1..], c, graph, TripleStep(ts[0], c, graph, a))
  }

  /** The shapes of a run of triples follow the trace's own. */
  lemma {:induction false} TriplesTraceShapeList(ts: seq<Triple>, c: Ctx, graph: Option<string>, a: Trace)
    ensures TriplesTrace(ts, c, graph, a).shapes == a.shapes + TriplesShapes(ts, c, graph)
    decreases |ts|
  {
    if ts == [] {
      assert a.shapes + TriplesShapes(ts, c, graph) == a.shapes;
    } else {
      var a1 := TripleStep(ts[0], c, graph, a);
      TriplesTraceShapeList(ts[1..], c, graph, a1);
      assert a1.shapes + TriplesShapes(ts[1..], c, graph) == a.shapes + TriplesShapes(ts, c, graph);
    }
  }

  /** A run of triples only adds terms. */
  lemma {:induction false} TriplesTraceTerms(ts: seq<Triple>, c: Ctx, graph: Option<string>, a: Trace)
    ensures a.terms <= TriplesTrace(ts, c, graph, a).terms
    decreases |ts|
  {
    if ts != [] {
      var a1 := TripleStep(ts[0], c, graph, a);
      TriplesTraceTerms(ts[1..], c, graph, a1);
      assert a.terms <= NodeStep(a, ts[0].subject).terms <= a1.terms;
    }
  }

  /** A run of triples changes nothing but the terms and the shapes. */
  lemma {:induction false} TriplesTraceFrame(ts: seq<Triple>, c: Ctx, graph: Option<string>, a: Trace)
    ensures TriplesTrace(ts, c, graph, a) == a.(terms := TriplesTrace(ts, c, graph, a).terms,
                                                shapes := TriplesTrace(ts, c, graph, a).shapes)
    decreases |ts|
  {
    if ts != [] {
      TriplesTraceFrame(ts[1..], c, graph, TripleStep(ts[0], c, graph, a));
    }
  }

  /** A run of triples appends its edges, one per triple, and mentions terms; nothing else changes. */
  lemma TriplesTraceShapes(ts: seq<Triple>, c: Ctx, graph: Option<string>, a: Trace)
    ensures TriplesTrace(ts, c, graph, a).shapes == a.shapes + TriplesShapes(ts, c, graph)
    ensures a.terms <= TriplesTrace(ts, c, graph, a).terms
    ensures TriplesTrace(ts, c, graph, a) == a.(terms := TriplesTrace(ts, c, graph, a).terms,
                                                shapes := TriplesTrace(ts, c, graph, a).shapes)
  {
    TriplesTraceShapeList(ts, c, graph, a);
    TriplesTraceTerms(ts, c, graph, a);
    TriplesTraceFrame(ts, c, graph, a);
  }

  /**
   * The edge lookup of a filter triple finds nothing: it compares the raw predicate
   * with the edges' display names, and a path predicate (an object) equals no name.
   */
  predicate RawUnnamed(pre: seq<PrefixDecl>, shapes: seq<Shape>, p: Predicate) {
    match p
    case Path(_, _) => true
    case Iri(s) => forall k :: 0 <= k < |shapes| ==> TermNames.KillPrefixes(pre, shapes[k].pred) != s
  }

  /**
   * A filter's embedded triple adds its edge (owned by no subgraph) only when the
   * lookup finds none; then its subject and its object get their nodes.
   */
  function FilterTripleStep(pre: seq<PrefixDecl>, t: Triple, c: Ctx, a: Trace): (r: Trace)
    ensures r == a.(terms := r.terms, shapes := r.shapes) && a.shapes <= r.shapes && a.terms <= r.terms
  {
    var a1 := if RawUnnamed(pre, a.shapes, t.pred) then TripleStep(t, c, None, a) else a;
    assert a.terms <= a1.terms && a.shapes <= a1.shapes;
    NodeStep(NodeStep(a1, t.subject), t.obj)
  }

  function FilterTriplesTrace(pre: seq<PrefixDecl>, ts: seq<Triple>, c: Ctx, a: Trace): (r: Trace)
    ensures r == a.(terms := r.terms, shapes := r.shapes) && a.shapes <= r.shapes && a.terms <= r.terms
    decreases |ts|
  {
    if ts == [] then a else FilterTriplesTrace(pre, ts[1..], c, FilterTripleStep(pre, ts[0], c, a))
  }

  /** Only the arguments that carry triples create edges. */
  function FilterArgsTrace(pre: seq<PrefixDecl>, args: seq<Expr>, c: Ctx, a: Trace): (r: Trace)
    ensures r == a.(terms := r.terms, shapes := r.shapes) && a.shapes <= r.shapes && a.terms <= r.terms
    decreases |args|
  {
    if args == [] then a
    else
      var a1 := if args[0].TriplesExpr? then FilterTriplesTrace(pre, args[0].triples, c, a) else a;
      FilterArgsTrace(pre, args[1..], c, a1)
  }

  /** The where-clause walk over a list of patterns, in order; None when the source would throw. */
  function WalkTrace(pre: seq<PrefixDecl>, toPattern: Pattern -> string, ps: seq<Pattern>, c: Ctx, a: Trace): Option<Trace>
    decreases ps
  {
    if ps == [] then Some(a)
    else match PatternTrace(pre, toPattern, ps[0], c, a)
      case None => None
      case Some(a1) => WalkTrace(pre, toPattern, ps[1..], c, a1)
  }

  function PatternTrace(pre: seq<PrefixDecl>, toPattern: Pattern -> string, p: Pattern, c: Ctx, a: Trace): Option<Trace>
    decreases p
  {
    match p
    case Group(ps) => WalkTrace(pre, toPattern, ps, c, a)
    case GraphPattern(name, ps) =>
      if |ps| > 0 && ps[0].Bgp? then Some(TriplesTrace(ps[0].triples, c, Some(name), GraphStep(a, name))) else None
    case Bgp(ts) => Some(TriplesTrace(ts, c, None, a))
    case MinusPattern(ps) => WalkTrace(pre, toPattern, ps, c.(edgeType := Minus), a)
    case OptionalPattern(ps) => WalkTrace(pre, toPattern, ps, c.(edgeType := Optional), a)
    case ServicePattern(name, ps) =>
      var v := |a.serviceNames|;
      (match WalkTrace(pre, toPattern, ps, c.(service := Some(v)), a.(serviceNames := a.serviceNames + [name]))
       case None => None
       case Some(a1) => Some(a1.(serviceOrder := a1.serviceOrder + [v])))
    case UnionPattern(ps) => WalkTrace(pre, toPattern, ps, c.(union := Some(a.unions)), a.(unions := a.unions + 1))
    case BindPattern(_, e) =>
      if e.Term? || e.Operation? then Some(a.(binds := a.binds + [toPattern(p)])) else None
    case FilterPattern(e) =>
      if e.Operation? then Some(FilterArgsTrace(pre, e.args, c, a.(filters := a.filters + [toPattern(p)]))) else None
    case OtherPattern(_) => Some(a)
  }

  /** addEdge on one quad: a named graph's subgraph first, then its triples, owned by it. */
  function QuadTrace(q: QuadPattern, ty: EdgeType, a: Trace): Trace {
    if q.QuadGraph? then TriplesTrace(q.triples, TopCtx(ty), Some(q.name), GraphStep(a, q.name))
    else TriplesTrace(q.triples, TopCtx(ty), None, a)
  }

  /** The edges of INSERT or DELETE quads, each quad's triples owned by its named graph (if any). */
  function QuadsTrace(qs: seq<QuadPattern>, ty: EdgeType, a: Trace): Trace
    decreases |qs|
  {
    if qs == [] then a else QuadsTrace(qs[1..], ty, QuadTrace(qs[0], ty, a))
  }

  /** The edges and entities of a whole parse, or None when the source would throw. */
  function ObjectifyTrace(ast: Ast, toPattern: Pattern -> string): Option<Trace> {
    var pre := ast.prefixes;
    match ast.body
    case UpdateBody(us) =>
      if |us| == 0 || us[0].insert.Absent? then None
      else
        var a1 := QuadsTrace(us[0].insert.value, Insert, EmptyTrace());
        var a2 := if us[0].delete.Present? then QuadsTrace(us[0].delete.value, Delete, a1) else a1;
        var where := if us[0].where.Present? then us[0].where.value else [];
        WalkTrace(pre, toPattern, where, TopCtx(Regular), a2)
    case QueryBody(qt, _, template, where) =>
      var a1 := if qt == ConstructQuery then TriplesTrace(template, TopCtx(Construct), None, EmptyTrace()) else EmptyTrace();
      if where.Absent? then None else WalkTrace(pre, toPattern, where.value, TopCtx(Regular), a1)
  }

  // ---------------------------------------------------------------------------
  // What the walk promises about everything it creates

  /** Every part of the trace only grows: the walk appends and never rewrites. */
  predicate Grows(a: Trace, a': Trace) {
    && a.terms <= a'.terms && a.graphs <= a'.graphs
    && a.shapes <= a'.shapes && a.serviceNames <= a'.serviceNames && a.serviceOrder <= a'.serviceOrder
    && a.unions <= a'.unions && a.filters <= a'.filters && a.binds <= a'.binds
  }

  /**
   * An edge created under context `c`, from the trace `a` on: it carries the enclosing
   * type unless a nested MINUS or OPTIONAL forced its own, and the enclosing service
   * and union unless it lies in a service or union created after `a`.
   */
  predicate Under(s: Shape, c: Ctx, a: Trace) {
    && (s.edgeType == c.edgeType || s.edgeType == Minus || s.edgeType == Optional)
    && (s.service == c.service || (s.service.Some? && s.service.value >= |a.serviceNames|))
    && (s.union == c.union || (s.union.Some? && s.union.value >= a.unions))
  }

  /** Every edge appended from `a` to `a'` is under `c`. */
  predicate NewUnder(a: Trace, a': Trace, c: Ctx) {
    forall i :: |a.shapes| <= i < |a'.shapes| ==> Under(a'.shapes[i], c, a)
  }

  /** Every edge appended from `a` to `a'` carries exactly the type, service and union of `c`. */
  predicate NewExact(a: Trace, a': Trace, c: Ctx) {
    forall i :: |a.shapes| <= i < |a'.shapes| ==>
      a'.shapes[i].edgeType == c.edgeType && a'.shapes[i].service == c.service && a'.shapes[i].union == c.union
  }

  lemma ExactUnder(a: Trace, a': Trace, c: Ctx)
    requires NewExact(a, a', c)
    ensures NewUnder(a, a', c)
  {
  }

  /** A run of triples appends one edge per triple, each exactly under the given context. */
  lemma TriplesUnder(ts: seq<Triple>, c: Ctx, graph: Option<string>, a: Trace)
    ensures Grows(a, TriplesTrace(ts, c, graph, a))
    ensures NewExact(a, TriplesTrace(ts, c, graph, a), c)
  {
    var ss := TriplesShapes(ts, c, graph);
    TriplesShapesAt(ts, c, graph);
    TriplesTraceShapes(ts, c, graph, a);
    var a' := TriplesTrace(ts, c, graph, a);
    assert a'.shapes == a.shapes + ss;
    assert a'.shapes[..|a.shapes|] == a.shapes;
    forall i | |a.shapes| <= i < |a'.shapes|
      ensures a'.shapes[i].edgeType == c.edgeType && a'.shapes[i].service == c.service && a'.shapes[i].union == c.union
    {
      var j := i - |a.shapes|;
      assert a'.shapes[i] == ss[j];
      assert ss[j] == TripleShape(ts[j], c, graph);
    }
  }

  /** Composing two stretches of the walk: the second, under a context it knows, starts where the first ended. */
  lemma UnderTrans(a: Trace, a1: Trace, a': Trace, c: Ctx)
    requires Grows(a, a1) && Grows(a1, a')
    requires NewUnder(a, a1, c) && NewUnder(a1, a', c)
    ensures Grows(a, a') && NewUnder(a, a', c)
  {
    forall i | |a.shapes| <= i < |a'.shapes| ensures Under(a'.shapes[i], c, a) {
      if i < |a1.shapes| {
        assert a'.shapes[i] == a1.shapes[i];
      }
    }
  }

  lemma ExactTrans(a: Trace, a1: Trace, a': Trace, c: Ctx)
    requires Grows(a, a1) && Grows(a1, a')
    requires NewExact(a, a1, c) && NewExact(a1, a', c)
    ensures Grows(a, a') && NewExact(a, a', c)
  {
    forall i | |a.shapes| <= i < |a'.shapes|
      ensures a'.shapes[i].edgeType == c.edgeType && a'.shapes[i].service == c.service && a'.shapes[i].union == c.union
    {
      if i < |a1.shapes| {
        assert a'.shapes[i] == a1.shapes[i];
      }
    }
  }

  /** A filter's embedded triple: its edge, if any, carries exactly the enclosing type, service and union. */
  lemma FilterTripleUnder(pre: seq<PrefixDecl>, t: Triple, c: Ctx, a: Trace)
    ensures Grows(a, FilterTripleStep(pre, t, c, a)) && NewExact(a, FilterTripleStep(pre, t, c, a), c)
  {
    var a1 := if RawUnnamed(pre, a.shapes, t.pred) then TripleStep(t, c, None, a) else a;
    if RawUnnamed(pre, a.shapes, t.pred) {
      TriplesUnder([t], c, None, a);
      assert [t][1..] == [];
    }
    ExactTrans(a, a1, FilterTripleStep(pre, t, c, a), c);
  }

  lemma {:induction false} FilterTriplesUnder(pre: seq<PrefixDecl>, ts: seq<Triple>, c: Ctx, a: Trace)
    ensures Grows(a, FilterTriplesTrace(pre, ts, c, a)) && NewExact(a, FilterTriplesTrace(pre, ts, c, a), c)
    decreases |ts|
  {
    if ts != [] {
      var a1 := FilterTripleStep(pre, ts[0], c, a);
      FilterTripleUnder(pre, ts[0], c, a);
      FilterTriplesUnder(pre, ts[1..], c, a1);
      ExactTrans(a, a1, FilterTriplesTrace(pre, ts, c, a), c);
    }
  }

  lemma {:induction false} FilterArgsUnder(pre: seq<PrefixDecl>, args: seq<Expr>, c: Ctx, a: Trace)
    ensures Grows(a, FilterArgsTrace(pre, args, c, a)) && NewExact(a, FilterArgsTrace(pre, args, c, a), c)
    decreases |args|
  {
    if args != [] {
      var a1 := if args[0].TriplesExpr? then FilterTriplesTrace(pre, args[0].triples, c, a) else a;
      if args[0].TriplesExpr? {
        FilterTriplesUnder(pre, args[0].triples, c, a);
      }
      FilterArgsUnder(pre, args[1..], c, a1);
      ExactTrans(a, a1, FilterArgsTrace(pre, args, c, a), c);
    }
  }

  /**
   * The walk of a where clause only appends, and every edge it creates inherits the
   * enclosing edge type, service and union, except where a nested MINUS or OPTIONAL,
   * or a service or union it creates itself, overrides them.
   */
  lemma {:induction false} WalkUnder(pre: seq<PrefixDecl>, toPattern: Pattern -> string, ps: seq<Pattern>, c: Ctx, a: Trace)
    ensures var r := WalkTrace(pre, toPattern, ps, c, a);
      r.Some? ==> Grows(a, r.value) && NewUnder(a, r.value, c)
    decreases ps
  {
    if ps != [] {
      PatternUnder(pre, toPattern, ps[0], c, a);
      var r0 := PatternTrace(pre, toPattern, ps[0], c, a);
      if r0.Some? {
        WalkUnder(pre, toPattern, ps[1..], c, r0.value);
        var r := WalkTrace(pre, toPattern, ps, c, a);
        if r.Some? {
          UnderTrans(a, r0.value, r.value, c);
        }
      }
    }
  }

  /**
   * One pattern: as for the walk; moreover nothing inside a MINUS or an OPTIONAL keeps
   * the enclosing type, for the pattern forces its own on what it contains, and the
   * edges of a basic or graph pattern carry exactly the enclosing type, service and union.
   */
  lemma {:induction false} PatternUnder(pre: seq<PrefixDecl>, toPattern: Pattern -> string, p: Pattern, c: Ctx, a: Trace)
    ensures var r := PatternTrace(pre, toPattern, p, c, a);
      r.Some? ==> Grows(a, r.value) && NewUnder(a, r.value, c)
    ensures var r := PatternTrace(pre, toPattern, p, c, a);
      p.MinusPattern? && r.Some? ==> NewUnder(a, r.value, c.(edgeType := Minus))
    ensures var r := PatternTrace(pre, toPattern, p, c, a);
      p.OptionalPattern? && r.Some? ==> NewUnder(a, r.value, c.(edgeType := Optional))
    ensures var r := PatternTrace(pre, toPattern, p, c, a);
      (p.Bgp? || p.GraphPattern?) && r.Some? ==> NewExact(a, r.value, c)
    decreases p
  {
    match p
    case Group(ps) => WalkUnder(pre, toPattern, ps, c, a);
    case GraphPattern(name, ps) =>
      if |ps| > 0 && ps[0].Bgp? {
        var a0 := GraphStep(a, name);
        TriplesUnder(ps[0].triples, c, Some(name), a0);
        ExactTrans(a, a0, TriplesTrace(ps[0].triples, c, Some(name), a0), c);
        ExactUnder(a, TriplesTrace(ps[0].triples, c, Some(name), a0), c);
      }
    case Bgp(ts) =>
      TriplesUnder(ts, c, None, a);
      ExactUnder(a, TriplesTrace(ts, c, None, a), c);
    case MinusPattern(ps) => WalkUnder(pre, toPattern, ps, c.(edgeType := Minus), a);
    case OptionalPattern(ps) => WalkUnder(pre, toPattern, ps, c.(edgeType := Optional), a);
    case ServicePattern(name, ps) =>
      var a0 := a.(serviceNames := a.serviceNames + [name]);
      WalkUnder(pre, toPattern, ps, c.(service := Some(|a.serviceNames|)), a0);
    case UnionPattern(ps) =>
      WalkUnder(pre, toPattern, ps, c.(union := Some(a.unions)), a.(unions := a.unions + 1));
    case BindPattern(_, _) =>
    case FilterPattern(e) =>
      if e.Operation? {
        var a0 := a.(filters := a.filters + [toPattern(p)]);
        FilterArgsUnder(pre, e.args, c, a0);
        ExactUnder(a0, FilterArgsTrace(pre, e.args, c, a0), c);
      }
    case OtherPattern(_) =>
  }

  /** The patterns of a where clause are walked one after the other: walking `ps + qs` walks `qs` from where `ps` ended. */
  lemma {:induction false} WalkConcat(pre: seq<PrefixDecl>, toPattern: Pattern -> string, ps: seq<Pattern>, qs: seq<Pattern>, c: Ctx, a: Trace)
    ensures WalkTrace(pre, toPattern, ps + qs, c, a) ==
      match WalkTrace(pre, toPattern, ps, c, a)
      case None => None
      case Some(a1) => WalkTrace(pre, toPattern, qs, c, a1)
    decreases |ps|
  {
    if ps == [] {
      assert ps + qs == qs;
    } else {
      assert (ps + qs)[0] == ps[0] && (ps + qs)[1..] == ps[1..] + qs;
      var r0 := PatternTrace(pre, toPattern, ps[0], c, a);
      if r0.Some? {
        WalkConcat(pre, toPattern, ps[1..], qs, c, r0.value);
      }
    }
  }
}
