/**
 * Display names of terms. The rdf:type IRI is shown as `a` (section 4.2.4 of SPARQL
 * 1.1 Query Language), a boolean literal as its lexical form, and an IRI under a
 * declared prefix as the prefixed name `prefix:local` (section 4.1.1.1 of SPARQL 1.1
 * Query Language).
 */
module TermNames {
  import opened SparqlAst

  const RdfType: string := "http://www.w3.org/1999/02/22-rdf-syntax-ns#type"
  const XsdBoolean: string := "http://www.w3.org/2001/XMLSchema#boolean"

  /** `sub` occurs somewhere in `s` (JavaScript `s.indexOf(sub) !== -1`). */
  predicate Occurs(sub: string, s: string) {
    exists i :: 0 <= i <= |s| && sub <= s[i..]
  }

  /** The first index at or after `from` holding `c`, or -1 (JavaScript `s.indexOf(c, from)`). */
  function IndexOfFrom(s: string, c: char, from: nat): (r: int)
    ensures r == -1 || (from <= r < |s| && s[r] == c)
    ensures forall i :: from <= i < |s| && (r == -1 || i < r) ==> s[i] != c
    decreases |s| - from
  {
    if from >= |s| then -1
    else if s[from] == c then from
    else IndexOfFrom(s, c, from + 1)
  }

  /**
   * `s.substr(1, s.indexOf('"', 1) - 1)`: the text after the opening quote up to the
   * next quote; empty when there is no further quote (a negative length).
   */
  function BooleanText(s: string): string {
    var q := IndexOfFrom(s, '"', 1);
    if q <= 1 then "" else s[1..q]
  }

  /** The position of the first declaration whose URI starts `s`. */
  function FirstMatch(prefixes: seq<PrefixDecl>, s: string): (r: Option<nat>)
    ensures r.Some? ==> r.value < |prefixes| && prefixes[r.value].uri <= s
    ensures forall j :: 0 <= j < |prefixes| && (r.None? || j < r.value) ==> !(prefixes[j].uri <= s)
  {
    if prefixes == [] then None
    else if prefixes[0].uri <= s then Some(0)
    else match FirstMatch(prefixes[1..], s)
      case None => None
      case Some(k) => Some(k + 1)
  }

  datatype Option<T> = None | Some(value: T)

  /** killPrefixes: the display name of a raw term. */
  function KillPrefixes(prefixes: seq<PrefixDecl>, s: string): string {
    if s == RdfType then "a"
    else if Occurs(XsdBoolean, s) then BooleanText(s)
    else match FirstMatch(prefixes, s)
      case None => s
      case Some(i) => prefixes[i].name + ":" + s[|prefixes[i].uri|..]
  }

  /** rdf:type is always shown as `a`, whatever the prefixes. */
  lemma KillRdfType(prefixes: seq<PrefixDecl>)
    ensures KillPrefixes(prefixes, RdfType) == "a"
  {
  }

  /**
   * A term mentioning xsd:boolean is shown as the text between its first character
   * and the next quote, which holds no quote itself; with no further quote it is empty.
   */
  lemma KillBoolean(prefixes: seq<PrefixDecl>, s: string)
    requires s != RdfType && Occurs(XsdBoolean, s)
    ensures var r := KillPrefixes(prefixes, s);
      && (forall i :: 1 <= i < |s| ==> s[i] != '"') ==> r == ""
    ensures var r := KillPrefixes(prefixes, s);
      forall q :: 1 < q < |s| && s[q] == '"' && (forall i :: 1 <= i < q ==> s[i] != '"') ==>
        r == s[1..q] && '"' !in r
  {
    var r := KillPrefixes(prefixes, s);
    assert r == BooleanText(s);
    forall q | 1 < q < |s| && s[q] == '"' && (forall i :: 1 <= i < q ==> s[i] != '"')
      ensures r == s[1..q] && '"' !in r
    {
      var k := IndexOfFrom(s, '"', 1);
      assert k == q;
      assert forall j :: 0 <= j < |s[1..q]| ==> s[1..q][j] == s[j + 1];
    }
  }

  /**
   * Under the first declaration whose URI starts the term, the term is shown as that
   * prefix, a colon and the rest of the term; no earlier declaration matched.
   */
  lemma KillFirstPrefix(prefixes: seq<PrefixDecl>, s: string, i: nat)
    requires s != RdfType && !Occurs(XsdBoolean, s)
    requires i < |prefixes| && prefixes[i].uri <= s
    requires forall j :: 0 <= j < i ==> !(prefixes[j].uri <= s)
    ensures KillPrefixes(prefixes, s) == prefixes[i].name + ":" + s[|prefixes[i].uri|..]
  {
    var m := FirstMatch(prefixes, s);
    assert m == Some(i);
  }

  /** A term that no declared URI starts (and that is neither special case) is shown unchanged. */
  lemma KillNoPrefix(prefixes: seq<PrefixDecl>, s: string)
    requires s != RdfType && !Occurs(XsdBoolean, s)
    requires forall j :: 0 <= j < |prefixes| ==> !(prefixes[j].uri <= s)
    ensures KillPrefixes(prefixes, s) == s
  {
    assert FirstMatch(prefixes, s).None?;
  }

  // ---------------------------------------------------------------------------
  // The inverse: expanding a prefixed name

  /** The URI declared for `name`, at its first declaration. */
  function Lookup(prefixes: seq<PrefixDecl>, name: string): (r: Option<string>)
    ensures r.Some? ==> exists j :: 0 <= j < |prefixes| && prefixes[j].name == name && prefixes[j].uri == r.value
    ensures r.None? ==> forall j :: 0 <= j < |prefixes| ==> prefixes[j].name != name
  {
    if prefixes == [] then None
    else if prefixes[0].name == name then Some(prefixes[0].uri)
    else Lookup(prefixes[1..], name)
  }

  /** The first position of `c` in `s`, or |s|. */
  function FirstIndex(s: string, c: char): (r: nat)
    ensures r <= |s| && (r < |s| ==> s[r] == c)
    ensures forall i :: 0 <= i < r ==> s[i] != c
  {
    if s == [] then 0
    else if s[0] == c then 0
    else 1 + FirstIndex(s[1..], c)
  }

  /** `prefix:local` read back as the declared URI followed by `local`; other text is left as it is. */
  function ExpandName(prefixes: seq<PrefixDecl>, r: string): string {
    var c := FirstIndex(r, ':');
    if c == |r| then r
    else match Lookup(prefixes, r[..c])
      case None => r
      case Some(uri) => uri + r[c + 1..]
  }

  /** Prefix names are distinct (a dictionary) and hold no colon (SPARQL's PN_PREFIX). */
  predicate WellFormedPrefixes(prefixes: seq<PrefixDecl>) {
    && (forall j, k :: 0 <= j < k < |prefixes| ==> prefixes[j].name != prefixes[k].name)
    && (forall j :: 0 <= j < |prefixes| ==> ':' !in prefixes[j].name)
  }

  lemma LookupDistinct(prefixes: seq<PrefixDecl>, i: nat)
    requires WellFormedPrefixes(prefixes) && i < |prefixes|
    ensures Lookup(prefixes, prefixes[i].name) == Some(prefixes[i].uri)
  {
    var r := Lookup(prefixes, prefixes[i].name);
    if r.Some? {
      var j :| 0 <= j < |prefixes| && prefixes[j].name == prefixes[i].name && prefixes[j].uri == r.value;
      assert j == i;
    }
  }

  /** A term shortened under a prefix expands back to itself. */
  lemma {:induction false} ExpandKill(prefixes: seq<PrefixDecl>, s: string)
    requires WellFormedPrefixes(prefixes)
    requires s != RdfType && !Occurs(XsdBoolean, s) && FirstMatch(prefixes, s).Some?
    ensures ExpandName(prefixes, KillPrefixes(prefixes, s)) == s
  {
    var i := FirstMatch(prefixes, s).value;
    var name, uri := prefixes[i].name, prefixes[i].uri;
    var r := KillPrefixes(prefixes, s);
    assert r == name + ":" + s[|uri|..];
    var c := FirstIndex(r, ':');
    assert c == |name| by {
      assert r[|name|] == ':';
      assert forall k :: 0 <= k < |name| ==> r[k] == name[k] && name[k] in name;
    }
    assert r[..c] == name;
    assert r[c + 1..] == s[|uri|..];
    LookupDistinct(prefixes, i);
    assert uri + s[|uri|..] == s;
  }
}
