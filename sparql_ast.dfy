/**
 * The parser's output that the compiler reads: the JSON shape of a parsed SPARQL
 * query or update, narrowed to the fields the compiler looks at. Terms (IRIs,
 * variables, literals) are the parser's strings.
 */
module SparqlAst {

  /** One `PREFIX name: <uri>` declaration; a query's list is its prefix dictionary in enumeration order. */
  datatype PrefixDecl = PrefixDecl(name: string, uri: string)

  /** A triple's predicate: an IRI or variable, or a property path over IRIs. */
  datatype Predicate = Iri(value: string) | Path(pathType: string, items: seq<string>)

  datatype Triple = Triple(subject: string, pred: Predicate, obj: string)

  /**
   * An expression or an expression argument: a plain term, an operation over
   * arguments, an object carrying triples (an embedded graph pattern), or any other
   * object (which has neither `args` nor `triples`).
   */
  datatype Expr =
    | Term(value: string)
    | Operation(operator: string, args: seq<Expr>)
    | TriplesExpr(triples: seq<Triple>)
    | OtherExpr

  /** A where-clause pattern, by its `type` tag; `OtherPattern` is any tag the compiler ignores. */
  datatype Pattern =
    | Group(patterns: seq<Pattern>)
    | GraphPattern(name: string, patterns: seq<Pattern>)
    | Bgp(triples: seq<Triple>)
    | MinusPattern(patterns: seq<Pattern>)
    | OptionalPattern(patterns: seq<Pattern>)
    | ServicePattern(name: string, patterns: seq<Pattern>)
    | UnionPattern(patterns: seq<Pattern>)
    | BindPattern(variable: string, expression: Expr)
    | FilterPattern(expression: Expr)
    | OtherPattern(tag: string)

  /** A quad pattern of an INSERT or DELETE template: triples, optionally in a named graph. */
  datatype QuadPattern = QuadBgp(triples: seq<Triple>) | QuadGraph(name: string, triples: seq<Triple>)

  datatype Maybe<T> = Absent | Present(value: T)

  /** One update operation; a missing `insert`, `delete` or `where` field is `Absent`. */
  datatype Update = Update(
    insert: Maybe<seq<QuadPattern>>,
    delete: Maybe<seq<QuadPattern>>,
    where: Maybe<seq<Pattern>>)

  datatype QueryType = SelectQuery | ConstructQuery | AskQuery | DescribeQuery

  /** `type: "query"` or `type: "update"`. */
  datatype Body =
    | QueryBody(queryType: QueryType, variables: seq<string>, template: seq<Triple>, where: Maybe<seq<Pattern>>)
    | UpdateBody(updates: seq<Update>)

  /** The whole parse: prefixes, the body, and the optional LIMIT and ORDER BY expressions. */
  datatype Ast = Ast(prefixes: seq<PrefixDecl>, body: Body, limit: Maybe<int>, order: Maybe<seq<Expr>>)
}
