/**
 * The layout's pass over a compiled query: each edge learns the positions of its
 * end nodes in the query's node list, and an edge between two nodes that earlier
 * edges already join is drawn curved. A counter per unordered pair of positions,
 * in an `n * n` array, gives the multiplicity so far.
 */
module CurveClasses {
  import opened GraphModel

  /** What the node scan has found for the edge at hand: positions of its ends (undefined at first). */
  datatype Ends = Ends(source: Option<nat>, target: Option<nat>)

  /**
   * The scan over `list[..k]`: a position holding the start node sets the source;
   * otherwise, a position holding the end node sets the target.
   */
  function ScanEnds(list: seq<nat>, s: nat, t: nat, st: Ends, k: nat): Ends
    requires k <= |list|
  {
    if k == 0 then st
    else
      var p := ScanEnds(list, s, t, st, k - 1);
      if list[k - 1] == s then p.(source := Some(k - 1))
      else if list[k - 1] == t then p.(target := Some(k - 1))
      else p
  }

  /** `i` is the last position before `k` that holds `x`. */
  predicate LastAt(list: seq<nat>, k: nat, x: nat, i: nat)
    requires k <= |list|
  {
    i < k && list[i] == x && forall j :: i < j < k ==> list[j] != x
  }

  predicate Holds(list: seq<nat>, k: nat, x: nat)
    requires k <= |list|
  {
    exists j :: 0 <= j < k && list[j] == x
  }

  /**
   * The scan picks the last position of the start node and, unless the edge is a
   * self-loop, the last position of the end node; a node not in the list (and the
   * end of a self-loop) keeps the position found for the previous edge.
   */
  lemma {:induction false} ScanEndsMeaning(list: seq<nat>, s: nat, t: nat, st: Ends, k: nat)
    requires k <= |list|
    ensures var r := ScanEnds(list, s, t, st, k);
      && (Holds(list, k, s) ==> r.source.Some? && LastAt(list, k, s, r.source.value))
      && (!Holds(list, k, s) ==> r.source == st.source)
      && (s != t && Holds(list, k, t) ==> r.target.Some? && LastAt(list, k, t, r.target.value))
      && (s == t || !Holds(list, k, t) ==> r.target == st.target)
  {
    if k > 0 {
      ScanEndsMeaning(list, s, t, st, k - 1);
      var p := ScanEnds(list, s, t, st, k - 1);
      var r := ScanEnds(list, s, t, st, k);
      if Holds(list, k, s) && list[k - 1] != s {
        var j :| 0 <= j < k && list[j] == s;
        assert Holds(list, k - 1, s);
      }
      if s != t && Holds(list, k, t) && list[k - 1] != t {
        var j :| 0 <= j < k && list[j] == t;
        assert Holds(list, k - 1, t);
      }
    }
  }

  /** The slot of the pair `{s, t}` in the `n * n` counter array: `min * n + max`. */
  function PairSlot(n: nat, s: nat, t: nat): nat {
    if s <= t then s * n + t else t * n + s
  }

  /** Both directions of a pair share their slot, which lies in the array, and distinct unordered pairs of positions have distinct slots. */
  lemma PairSlotUnordered(n: nat, s: nat, t: nat, s': nat, t': nat)
    requires s < n && t < n && s' < n && t' < n
    ensures PairSlot(n, s, t) == PairSlot(n, t, s)
    ensures PairSlot(n, s, t) < n * n
    ensures PairSlot(n, s, t) == PairSlot(n, s', t') <==> (s == s' && t == t') || (s == t' && t == s')
  {
    var lo, hi := if s <= t then s else t, if s <= t then t else s;
    var lo', hi' := if s' <= t' then s' else t', if s' <= t' then t' else s';
    assert PairSlot(n, s, t) == lo * n + hi;
    assert PairSlot(n, s', t') == lo' * n + hi';
    SlotBelow(n, lo, hi);
    SlotDigits(n, lo, hi, lo', hi');
  }

  lemma SlotBelow(n: nat, lo: nat, hi: nat)
    requires lo < n && hi < n
    ensures lo * n + hi < n * n
  {
    MulMono(lo, n - 1, n);
    assert (n - 1) * n + n == n * n;
  }

  lemma MulMono(a: nat, b: nat, n: nat)
    requires a <= b
    ensures a * n <= b * n
  {
    assert b * n == a * n + (b - a) * n;
  }

  /** `lo * n + hi` with `hi < n` determines `lo` and `hi`. */
  lemma SlotDigits(n: nat, lo: nat, hi: nat, lo': nat, hi': nat)
    requires hi < n && hi' < n
    ensures lo * n + hi == lo' * n + hi' <==> lo == lo' && hi == hi'
  {
    if lo < lo' {
      MulMono(lo + 1, lo', n);
      assert (lo + 1) * n == lo * n + n;
    } else if lo' < lo {
      MulMono(lo' + 1, lo, n);
      assert (lo' + 1) * n == lo' * n + n;
    }
  }

  /** The slot of an edge whose two ends were found; none while one is undefined (the source's NaN index). */
  function Slot(n: nat, st: Ends): Option<nat> {
    if st.source.Some? && st.target.Some? then Some(PairSlot(n, st.source.value, st.target.value)) else None
  }

  /** The positions each edge gets, edge after edge: the scan of the k-th starts from the (k-1)-th's. */
  function EndsAfter(list: seq<nat>, edges: seq<EdgeRec>, es: seq<nat>, k: nat): Ends
    requires Below(es, |edges|) && k <= |es|
  {
    if k == 0 then Ends(None, None)
    else ScanEnds(list, edges[es[k - 1]].startNode, edges[es[k - 1]].endNode, EndsAfter(list, edges, es, k - 1), |list|)
  }

  /** Among the first `k` edges, how many fall in slot `p`. */
  function SlotCount(list: seq<nat>, edges: seq<EdgeRec>, es: seq<nat>, k: nat, p: nat): nat
    requires Below(es, |edges|) && k <= |es|
  {
    if k == 0 then 0
    else SlotCount(list, edges, es, k - 1, p) + if Slot(|list|, EndsAfter(list, edges, es, k)) == Some(p) then 1 else 0
  }

  /** setType by the count of earlier edges in the slot: one gives BEZIER_POSITIVE, more BEZIER_NEGATIVE, none leaves it. */
  function CurveFor(count: int, c: CurveClass): CurveClass {
    if count == 1 then BezierPositive else if count > 0 then BezierNegative else c
  }

  /** The k-th edge of the list once visited: its positions, and its curve class from the count before it. */
  function Visited(list: seq<nat>, edges: seq<EdgeRec>, es: seq<nat>, k: nat): EdgeRec
    requires Below(es, |edges|) && k < |es|
  {
    var st := EndsAfter(list, edges, es, k + 1);
    var r := edges[es[k]];
    r.(source := st.source, target := st.target,
       curve := match Slot(|list|, st) case None => r.curve case Some(p) => CurveFor(SlotCount(list, edges, es, k, p), r.curve))
  }

  /** The edge at position `k` is listed nowhere else. */
  predicate Once(es: seq<nat>, k: nat)
    requires k < |es|
  {
    forall j :: 0 <= j < |es| && j != k ==> es[j] != es[k]
  }

  /** The scanned positions lie in the list. */
  lemma {:induction false} EndsAfterBelow(list: seq<nat>, edges: seq<EdgeRec>, es: seq<nat>, k: nat)
    requires Below(es, |edges|) && k <= |es|
    ensures OptBelow(EndsAfter(list, edges, es, k).source, |list|) && OptBelow(EndsAfter(list, edges, es, k).target, |list|)
  {
    if k > 0 {
      EndsAfterBelow(list, edges, es, k - 1);
      var e := es[k - 1];
      ScanEndsMeaning(list, edges[e].startNode, edges[e].endNode, EndsAfter(list, edges, es, k - 1), |list|);
    }
  }

  /** The `for nodeId in nodes` scan for one edge. */
  method Locate(list: seq<nat>, s: nat, t: nat, st: Ends) returns (r: Ends)
    ensures r == ScanEnds(list, s, t, st, |list|)
  {
    r := st;
    var k := 0;
    while k < |list|
      invariant 0 <= k <= |list|
      invariant r == ScanEnds(list, s, t, st, k)
    {
      if list[k] == s {
        r := r.(source := Some(k));
      } else if list[k] == t {
        r := r.(target := Some(k));
      }
      k := k + 1;
    }
  }

  /** The counter array, all `n * n` slots at zero. */
  method ZeroCounts(n: nat) returns (counts: array<int>)
    ensures fresh(counts) && counts[..] == seq(n * n, _ => 0)
  {
    counts := new int[n * n];
    var i := 0;
    while i < counts.Length
      invariant 0 <= i <= counts.Length
      invariant forall p :: 0 <= p < i ==> counts[p] == 0
    {
      counts[i] := 0;
      i := i + 1;
    }
    assert counts[..] == seq(n * n, _ => 0);
  }

  /** The counters after an edge in `slot` is counted. */
  function Bumped(cs: seq<int>, slot: Option<nat>): seq<int>
    requires slot.Some? ==> slot.value < |cs|
  {
    match slot
    case None => cs
    case Some(p) => cs[p := cs[p] + 1]
  }

  /** An edge once its positions are set and, when it has a slot, its curve class is chosen by that slot's count. */
  function Marked(r: EdgeRec, st: Ends, slot: Option<nat>, cs: seq<int>): EdgeRec
    requires slot.Some? ==> slot.value < |cs|
  {
    r.(source := st.source, target := st.target,
       curve := match slot case None => r.curve case Some(p) => CurveFor(cs[p], r.curve))
  }

  /** What the pass holds after some edges: the edges, the counters and the positions of the last edge. */
  datatype PassState = PassState(edges: seq<EdgeRec>, counts: seq<int>, ends: Ends)

  /** A slot of scanned positions lies in the counter array. */
  lemma SlotFits(n: nat, st: Ends)
    requires OptBelow(st.source, n) && OptBelow(st.target, n)
    ensures Slot(n, st).Some? ==> Slot(n, st).value < n * n
  {
    if Slot(n, st).Some? {
      PairSlotUnordered(n, st.source.value, st.target.value, st.source.value, st.target.value);
    }
  }

  /** A state the pass can be in: counters for every slot, positions inside the list. */
  predicate Fits(list: seq<nat>, s: PassState) {
    |s.counts| == |list| * |list| && OptBelow(s.ends.source, |list|) && OptBelow(s.ends.target, |list|)
  }

  /**
   * One edge of the pass on values: the scan from the previous positions, the edge
   * marked by its slot's count, and that count raised.
   */
  function Step(list: seq<nat>, s: PassState, e: nat): (r: PassState)
    requires e < |s.edges| && Fits(list, s)
    ensures |r.edges| == |s.edges| && Fits(list, r)
  {
    var st := ScanEnds(list, s.edges[e].startNode, s.edges[e].endNode, s.ends, |list|);
    ScanEndsMeaning(list, s.edges[e].startNode, s.edges[e].endNode, s.ends, |list|);
    SlotFits(|list|, st);
    var slot := Slot(|list|, st);
    PassState(s.edges[e := Marked(s.edges[e], st, slot, s.counts)], Bumped(s.counts, slot), st)
  }

  /**
   * One edge of the pass: its positions are set; if both are defined, its curve class
   * follows the count of its slot, which then rises by one.
   */
  method VisitEdge(g: Graph, list: seq<nat>, e: nat, st: Ends, counts: array<int>) returns (r: Ends)
    requires e < |g.edges| && Fits(list, PassState(g.edges, counts[..], st))
    modifies g`edges, counts
    ensures PassState(g.edges, counts[..], r) == Step(list, PassState(old(g.edges), old(counts[..]), st), e)
  {
    r := Locate(list, g.edges[e].startNode, g.edges[e].endNode, st);
    ScanEndsMeaning(list, g.edges[e].startNode, g.edges[e].endNode, st, |list|);
    g.EdgeSetEnds(e, r.source, r.target);
    if r.source.Some? && r.target.Some? {
      var p := PairSlot(|list|, r.source.value, r.target.value);
      PairSlotUnordered(|list|, r.source.value, r.target.value, r.source.value, r.target.value);
      if counts[p] == 1 {
        g.EdgeSetCurve(e, BezierPositive);
      } else if counts[p] > 0 {
        g.EdgeSetCurve(e, BezierNegative);
      }
      counts[p] := counts[p] + 1;
    }
  }

  /** `r'` is `r` with at most its positions and curve class changed. */
  predicate Redrawn(r: EdgeRec, r': EdgeRec) {
    r' == r.(source := r'.source, target := r'.target, curve := r'.curve)
  }

  /**
   * The outcome of the whole pass: each slot counts the edges of its pair; every edge
   * differs from its original in positions and curve class at most; edges not in the
   * list are untouched; each edge listed once is as `Visited` says.
   */
  predicate Assigned(list: seq<nat>, edges0: seq<EdgeRec>, es: seq<nat>, edges: seq<EdgeRec>, cs: seq<int>)
    requires Below(es, |edges0|)
  {
    && |edges| == |edges0| && |cs| == |list| * |list|
    && (forall p :: 0 <= p < |cs| ==> cs[p] == SlotCount(list, edges0, es, |es|, p))
    && (forall e :: 0 <= e < |edges| ==> Redrawn(edges0[e], edges[e]))
    && (forall e :: 0 <= e < |edges| && e !in es ==> edges[e] == edges0[e])
    && (forall k :: 0 <= k < |es| && Once(es, k) ==> edges[es[k]] == Visited(list, edges0, es, k))
  }

  /** The pass as a fold over the edge list, one `Step` per edge. */
  function PassAfter(list: seq<nat>, edges0: seq<EdgeRec>, es: seq<nat>, i: nat): (r: PassState)
    requires Below(es, |edges0|) && i <= |es|
    ensures |r.edges| == |edges0| && Fits(list, r)
  {
    if i == 0 then PassState(edges0, seq(|list| * |list|, _ => 0), Ends(None, None))
    else Step(list, PassAfter(list, edges0, es, i - 1), es[i - 1])
  }

  /** The fold only redraws edges. */
  lemma {:induction false} PassRedraws(list: seq<nat>, edges0: seq<EdgeRec>, es: seq<nat>, i: nat)
    requires Below(es, |edges0|) && i <= |es|
    ensures forall e :: 0 <= e < |edges0| ==> Redrawn(edges0[e], PassAfter(list, edges0, es, i).edges[e])
  {
    if i > 0 {
      PassRedraws(list, edges0, es, i - 1);
    }
  }

  /** The positions after `i` edges are those `EndsAfter` gives. */
  lemma {:induction false} PassEnds(list: seq<nat>, edges0: seq<EdgeRec>, es: seq<nat>, i: nat)
    requires Below(es, |edges0|) && i <= |es|
    ensures PassAfter(list, edges0, es, i).ends == EndsAfter(list, edges0, es, i)
  {
    if i > 0 {
      PassEnds(list, edges0, es, i - 1);
      PassRedraws(list, edges0, es, i - 1);
      var e := es[i - 1];
      assert Redrawn(edges0[e], PassAfter(list, edges0, es, i - 1).edges[e]);
    }
  }

  /** The counters after `i` edges count the slots of those edges. */
  lemma {:induction false} PassCounts(list: seq<nat>, edges0: seq<EdgeRec>, es: seq<nat>, i: nat)
    requires Below(es, |edges0|) && i <= |es|
    ensures forall p :: 0 <= p < |list| * |list| ==> PassAfter(list, edges0, es, i).counts[p] == SlotCount(list, edges0, es, i, p)
  {
    if i > 0 {
      PassCounts(list, edges0, es, i - 1);
      PassEnds(list, edges0, es, i);
    }
  }

  /** Edges not among the first `i` of the list are untouched. */
  lemma {:induction false} PassUntouched(list: seq<nat>, edges0: seq<EdgeRec>, es: seq<nat>, i: nat)
    requires Below(es, |edges0|) && i <= |es|
    ensures forall e :: 0 <= e < |edges0| && e !in es[..i] ==> PassAfter(list, edges0, es, i).edges[e] == edges0[e]
  {
    if i > 0 {
      PassUntouched(list, edges0, es, i - 1);
      assert es[..i] == es[..i - 1] + [es[i - 1]];
    }
  }

  /** An edge listed once, among the first `i`, is as `Visited` says. */
  lemma {:induction false} PassVisited(list: seq<nat>, edges0: seq<EdgeRec>, es: seq<nat>, i: nat)
    requires Below(es, |edges0|) && i <= |es|
    ensures forall k :: 0 <= k < i && Once(es, k) ==> PassAfter(list, edges0, es, i).edges[es[k]] == Visited(list, edges0, es, k)
  {
    if i > 0 {
      PassVisited(list, edges0, es, i - 1);
      var e := es[i - 1];
      if Once(es, i - 1) {
        VisitedLast(list, edges0, es, i);
      }
      PassStepOthers(list, edges0, es, i);
      forall k | 0 <= k < i - 1 && Once(es, k)
        ensures es[k] != e
      {
        assert es[i - 1] != es[k];
      }
    }
  }

  /** A step of the fold changes only the edge it visits. */
  lemma PassStepOthers(list: seq<nat>, edges0: seq<EdgeRec>, es: seq<nat>, i: nat)
    requires Below(es, |edges0|) && 0 < i <= |es|
    ensures forall e :: 0 <= e < |edges0| && e != es[i - 1] ==>
      PassAfter(list, edges0, es, i).edges[e] == PassAfter(list, edges0, es, i - 1).edges[e]
  {
  }

  /** The edge just visited, when listed once, is as `Visited` says. */
  lemma VisitedLast(list: seq<nat>, edges0: seq<EdgeRec>, es: seq<nat>, i: nat)
    requires Below(es, |edges0|) && 0 < i <= |es| && Once(es, i - 1)
    ensures PassAfter(list, edges0, es, i).edges[es[i - 1]] == Visited(list, edges0, es, i - 1)
  {
    var e := es[i - 1];
    var s := PassAfter(list, edges0, es, i - 1);
    PassUntouched(list, edges0, es, i - 1);
    PassCounts(list, edges0, es, i - 1);
    PassEnds(list, edges0, es, i);
    OnceFirst(es, i - 1);
    var st := PassAfter(list, edges0, es, i).ends;
    var slot := Slot(|list|, st);
    SlotFits(|list|, st);
    assert s.edges[e] == edges0[e];
    assert PassAfter(list, edges0, es, i).edges[e] == Marked(edges0[e], st, slot, s.counts);
  }

  /** An edge listed once is not among those before it. */
  lemma OnceFirst(es: seq<nat>, k: nat)
    requires k < |es| && Once(es, k)
    ensures es[k] !in es[..k]
  {
  }

  /** After the whole list the fold has done what `Assigned` says. */
  lemma PassAssigned(list: seq<nat>, edges0: seq<EdgeRec>, es: seq<nat>)
    requires Below(es, |edges0|)
    ensures Assigned(list, edges0, es, PassAfter(list, edges0, es, |es|).edges, PassAfter(list, edges0, es, |es|).counts)
  {
    var n := |es|;
    PassRedraws(list, edges0, es, n);
    PassCounts(list, edges0, es, n);
    PassUntouched(list, edges0, es, n);
    PassVisited(list, edges0, es, n);
    assert es[..n] == es;
  }

  /** The pass over the query's edges, `for edge in $scope.edges`, from a zeroed counter array. */
  method AssignCurves(g: Graph) returns (counts: array<int>)
    requires Below(g.query.edgeList, |g.edges|)
    modifies g`edges
    ensures fresh(counts)
    ensures Assigned(g.query.nodeList, old(g.edges), g.query.edgeList, g.edges, counts[..])
  {
    var list, es := g.query.nodeList, g.query.edgeList;
    ghost var edges0 := g.edges;
    counts := ZeroCounts(|list|);
    var st := Ends(None, None);
    var i := 0;
    while i < |es|
      invariant 0 <= i <= |es|
      invariant PassAfter(list, edges0, es, i) == PassState(g.edges, counts[..], st)
    {
      st := VisitEdge(g, list, es[i], st, counts);
      i := i + 1;
    }
    PassAssigned(list, edges0, es);
  }

  /** The pass on a well-formed graph leaves it well formed: it only redraws edges. */
  method LayoutCurves(g: Graph) returns (counts: array<int>)
    requires g.Valid()
    modifies g`edges
    ensures fresh(counts)
    ensures Assigned(g.query.nodeList, old(g.edges), g.query.edgeList, g.edges, counts[..])
    ensures g.Valid()
  {
    ghost var edges0 := g.edges;
    counts := AssignCurves(g);
    RedrawnKeeps(g.query, g.nodes, edges0, g.edges, g.subGraphs, g.services, g.unions, g.filters, g.binds, g.orders);
  }
}
