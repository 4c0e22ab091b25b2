/**
 * The highlighting service of the editor: at most one selected entity per kind of
 * annotation (subgraph, filter, bind, union, order, service). Selecting an
 * annotation replaces the selection of its kind; selecting anything else clears all
 * six. An entity is shown highlighted when nothing is selected, when it is the
 * selection of its kind, or, for nodes and edges, when it belongs to a selection.
 */
module Highlighting {
  import opened GraphModel

  datatype Kind = SubGraphKind | FilterKind | BindKind | UnionKind | OrderKind | ServiceKind

  /**
   * What can be handed to the service: an annotation named by its kind and its position
   * among the entities of that kind, a node or an edge (by its record, whose lists are
   * what the service reads), or anything else (null included).
   */
  datatype Entity = Annotation(kind: Kind, id: nat) | GraphNode(node: NodeRec) | GraphEdge(edge: EdgeRec) | Other

  /** The node's membership list for annotations of kind `k`. */
  function NodeList(n: NodeRec, k: Kind): seq<nat> {
    match k
    case SubGraphKind => n.subGraphList
    case FilterKind => n.filterList
    case BindKind => n.bindList
    case UnionKind => n.unionList
    case OrderKind => n.orderList
    case ServiceKind => n.serviceList
  }

  /** The edge belongs to annotation `i` of kind `k`: by its owner for subgraphs and services, by its lists otherwise. */
  predicate EdgeMember(e: EdgeRec, k: Kind, i: nat) {
    match k
    case SubGraphKind => e.subGraph == Some(i)
    case ServiceKind => e.service == Some(i)
    case FilterKind => i in e.filterList
    case BindKind => i in e.bindList
    case UnionKind => i in e.unionList
    case OrderKind => i in e.orderList
  }

  /** `$.inArray(slot, list) >= 0`: a null slot is in no list. */
  predicate Listed(slot: Option<nat>, list: seq<nat>) {
    slot.Some? && slot.value in list
  }

  class HighlightingService {
    var subGraph: Option<nat>
    var filter: Option<nat>
    var bind: Option<nat>
    var union: Option<nat>
    var order: Option<nat>
    var service: Option<nat>

    /** The selection of kind `k`. */
    function Slot(k: Kind): Option<nat>
      reads this
    {
      match k
      case SubGraphKind => subGraph
      case FilterKind => filter
      case BindKind => bind
      case UnionKind => union
      case OrderKind => order
      case ServiceKind => service
    }

    predicate AllClear()
      reads this
    {
      && subGraph.None? && filter.None? && bind.None?
      && union.None? && order.None? && service.None?
    }

    /** The service starts with nothing selected. */
    constructor ()
      ensures AllClear()
    {
      subGraph, filter, bind, union, order, service := None, None, None, None, None, None;
    }

    /**
     * `highlight(object)`: an annotation becomes the selection of its kind and the other
     * kinds keep theirs; anything else clears every selection. Afterwards an annotation
     * of the chosen kind is highlighted exactly when it is the chosen one, and after a
     * clear everything is.
     */
    method Highlight(x: Entity)
      modifies this
      ensures x.Annotation? ==> Slot(x.kind) == Some(x.id)
      ensures x.Annotation? ==> forall k :: k != x.kind ==> Slot(k) == old(Slot(k))
      ensures !x.Annotation? ==> AllClear()
      ensures x.Annotation? ==> forall i :: IsHighlighted(Annotation(x.kind, i)) <==> i == x.id
      ensures !x.Annotation? ==> forall y :: IsHighlighted(y)
    {
      match x
      case Annotation(k, i) => {
        match k {
          case SubGraphKind => subGraph := Some(i);
          case FilterKind => filter := Some(i);
          case BindKind => bind := Some(i);
          case UnionKind => union := Some(i);
          case OrderKind => order := Some(i);
          case ServiceKind => service := Some(i);
        }
      }
      case _ =>
        subGraph, filter, bind, union, order, service := None, None, None, None, None, None;
    }

    /**
     * `isHighlighted(object)`: everything while nothing is selected; otherwise an
     * annotation when it is its kind's selection, a node or an edge by its memberships
     * (`NodeLit`, `EdgeLit`), and nothing else.
     */
    function IsHighlighted(x: Entity): (r: bool)
      reads this
      ensures AllClear() ==> r
      ensures !AllClear() && x.Annotation? ==> (r <==> Slot(x.kind) == Some(x.id))
      ensures x.Other? ==> (r <==> AllClear())
    {
      if AllClear() then true
      else match x
        case Annotation(k, i) =>
          (match k
           case SubGraphKind => subGraph == Some(i)
           case FilterKind => filter == Some(i)
           case BindKind => bind == Some(i)
           case UnionKind => union == Some(i)
           case OrderKind => order == Some(i)
           case ServiceKind => service == Some(i))
        case GraphNode(n) =>
          Listed(subGraph, n.subGraphList) || Listed(filter, n.filterList) || Listed(bind, n.bindList)
          || Listed(union, n.unionList) || Listed(order, n.orderList) || Listed(service, n.serviceList)
        case GraphEdge(e) =>
          (subGraph == e.subGraph && e.subGraph.Some?) || (service == e.service && e.service.Some?)
          || Listed(filter, e.filterList) || Listed(bind, e.bindList)
          || Listed(union, e.unionList) || Listed(order, e.orderList)
        case Other => false
    }
  }

  /** With something selected, a node is lit exactly when some selection is on its membership list of that kind. */
  lemma NodeLit(h: HighlightingService, n: NodeRec)
    requires !h.AllClear()
    ensures h.IsHighlighted(GraphNode(n)) <==> exists k :: h.Slot(k).Some? && h.Slot(k).value in NodeList(n, k)
  {
    if h.IsHighlighted(GraphNode(n)) {
      var k :=
        if Listed(h.subGraph, n.subGraphList) then SubGraphKind
        else if Listed(h.filter, n.filterList) then FilterKind
        else if Listed(h.bind, n.bindList) then BindKind
        else if Listed(h.union, n.unionList) then UnionKind
        else if Listed(h.order, n.orderList) then OrderKind
        else ServiceKind;
      assert h.Slot(k).Some? && h.Slot(k).value in NodeList(n, k);
    }
  }

  /**
   * With something selected, an edge is lit exactly when it belongs to some selection:
   * the selected subgraph or service owning it, or a selected filter, bind, union or
   * order on its lists.
   */
  lemma EdgeLit(h: HighlightingService, e: EdgeRec)
    requires !h.AllClear()
    ensures h.IsHighlighted(GraphEdge(e)) <==> exists k :: h.Slot(k).Some? && EdgeMember(e, k, h.Slot(k).value)
  {
    if h.IsHighlighted(GraphEdge(e)) {
      var k :=
        if h.subGraph == e.subGraph && e.subGraph.Some? then SubGraphKind
        else if h.service == e.service && e.service.Some? then ServiceKind
        else if Listed(h.filter, e.filterList) then FilterKind
        else if Listed(h.bind, e.bindList) then BindKind
        else if Listed(h.union, e.unionList) then UnionKind
        else OrderKind;
      assert h.Slot(k).Some? && EdgeMember(e, k, h.Slot(k).value);
    }
  }

  /**
   * In a well-formed graph, an edge lit by the selected subgraph, service or union has
   * both its endpoints lit: the endpoints list every subgraph, service and union the
   * edge belongs to. (Filters, binds and orders record nodes separately, so an edge
   * lit by one of those says nothing about its endpoints.)
   */
  lemma EdgeLightsEnds(h: HighlightingService, g: Graph, e: nat, k: Kind)
    requires g.Valid() && e < |g.edges|
    requires k == SubGraphKind || k == ServiceKind || k == UnionKind
    requires h.Slot(k).Some? && EdgeMember(g.edges[e], k, h.Slot(k).value)
    ensures h.IsHighlighted(GraphEdge(g.edges[e]))
    ensures h.IsHighlighted(GraphNode(g.nodes[g.edges[e].startNode]))
    ensures h.IsHighlighted(GraphNode(g.nodes[g.edges[e].endNode]))
  {
    var r := g.edges[e];
    var i := h.Slot(k).value;
    assert r.startNode < |g.nodes| && r.endNode < |g.nodes|;
    assert i in NodeList(g.nodes[r.startNode], k) && i in NodeList(g.nodes[r.endNode], k);
  }
}
