/**
 * RDF graphs as rdflib presents them to the core: nodes, triples, and the
 * pattern query `g.triples((s, p, o))` in which `None` is a wildcard.
 * A graph is the store's sequence of distinct triples; the order is the
 * order in which the store yields them, which decides "the last match wins"
 * in the callers.
 */
module Rdf {
  import opened Wrappers
  import opened Strings
  import opened Seqs

  /**
   * A literal carries its datatype IRI and language tag, either of which
   * may be absent; two literals are equal only when all three agree, so a
   * pattern with a plain literal matches plain literals only.
   */
  datatype Node = IRI(iri: string) | Literal(lexical: string, datatypeIri: Option<string>, lang: Option<string>) | BNode(id: string)

  datatype Triple = Triple(s: Node, p: Node, o: Node)

  type Graph = g: seq<Triple> | Distinct(g) witness []

  /** Python `str(node)`. */
  function Str(n: Node): string {
    match n
    case IRI(x) => x
    case Literal(x, _, _) => x
    case BNode(x) => x
  }

  /** `Literal(s)`: a literal with neither datatype nor language. */
  function Plain(s: string): Node {
    Literal(s, None, None)
  }

  /** Truthiness of a node variable, taken as a non-empty string form (see the README for literals). */
  predicate Truthy(n: Option<Node>) {
    n.Some? && Str(n.value) != []
  }

  predicate Fits(x: Node, pattern: Option<Node>) {
    pattern == None || pattern == Some(x)
  }

  predicate Matches(t: Triple, s: Option<Node>, p: Option<Node>, o: Option<Node>) {
    Fits(t.s, s) && Fits(t.p, p) && Fits(t.o, o)
  }

  /** `g.triples((s, p, o))`: the matching triples, in store order. */
  function Triples(g: seq<Triple>, s: Option<Node>, p: Option<Node>, o: Option<Node>): (r: seq<Triple>)
    ensures forall t :: t in r <==> t in g && Matches(t, s, p, o)
    ensures Distinct(g) ==> Distinct(r)
    ensures |r| <= |g|
    decreases |g|
  {
    if g == [] then []
    else
      var rest := Triples(g[1..], s, p, o);
      if Matches(g[0], s, p, o) then
        assert g[0] !in g[1..] ==> g[0] !in rest;
        [g[0]] + rest
      else rest
  }

  /** `len(g)`. */
  function Len(g: Graph): nat {
    |g|
  }

  /** `g.remove((None, p, None))`: every triple with predicate `p` is dropped. */
  function RemovePredicate(g: Graph, p: Node): (r: Graph)
    ensures forall t :: t in r <==> t in g && t.p != p
    ensures |r| <= |g|
    decreases |g|
  {
    if g == [] then []
    else
      var rest := RemovePredicate(g[1..], p);
      if g[0].p != p then
        assert g[0] !in rest;
        [g[0]] + rest
      else rest
  }

  // ---------------------------------------------------------------------
  // Predicate expansion and the triples `extract_prop` visits (both the
  // current and the legacy evaluation classes use these).

  /**
   * The predicates checked for one given predicate `p`: `p` itself and its
   * http/https counterpart, obtained by Python's `replace` on the whole string.
   */
  function PredicateVariants(p: string): set<string> {
    if StartsWith(p, "http://") then {p, ReplaceAll(p, "http://", "https://")}
    else if StartsWith(p, "https://") then {p, ReplaceAll(p, "https://", "http://")}
    else {p}
  }

  /** The `check_preds` set built from the given predicates. */
  function CheckPredicates(preds: seq<string>): (r: set<Node>)
    ensures forall n :: n in r ==> n.IRI?
  {
    set p, v | p in preds && v in PredicateVariants(p) :: IRI(v)
  }

  /** Adding one more given predicate adds exactly its variants. */
  lemma CheckPredicatesSnoc(preds: seq<string>, p: string)
    ensures CheckPredicates(preds + [p]) == CheckPredicates(preds) + set v | v in PredicateVariants(p) :: IRI(v)
  {
    var lhs := CheckPredicates(preds + [p]);
    var rhs := CheckPredicates(preds) + set v | v in PredicateVariants(p) :: IRI(v);
    forall n | n in lhs
      ensures n in rhs
    {
      var q, v :| q in preds + [p] && v in PredicateVariants(q) && n == IRI(v);
      if q != p {
        assert q in preds;
      }
    }
    forall n | n in rhs
      ensures n in lhs
    {
      if n !in CheckPredicates(preds) {
        var v :| v in PredicateVariants(p) && n == IRI(v);
        assert p in preds + [p];
      } else {
        var q, v :| q in preds && v in PredicateVariants(q) && n == IRI(v);
        assert q in preds + [p];
      }
    }
  }

  /**
   * What `extract_prop` collects: the objects of the triples whose predicate
   * is one of `ps` and whose subject fits one of the subject patterns.
   */
  function PropValues(g: seq<Triple>, ps: set<Node>, subjs: seq<Option<Node>>): set<Node> {
    set t, s | t in g && s in subjs && t.p in ps && Fits(t.s, s) :: t.o
  }

  /** The objects `g.triples((s, p, None))` yields, as a set. */
  function ObjectsOf(ms: seq<Triple>): set<Node> {
    set t | t in ms :: t.o
  }

  lemma PropValuesNoPredicates(g: seq<Triple>, subjs: seq<Option<Node>>)
    ensures PropValues(g, {}, subjs) == {}
  {
  }

  lemma PropValuesNoSubjects(g: seq<Triple>, ps: set<Node>)
    ensures PropValues(g, ps, []) == {}
  {
  }

  /** Checking one more predicate adds exactly its own values. */
  lemma PropValuesAddPredicate(g: seq<Triple>, ps: set<Node>, p: Node, subjs: seq<Option<Node>>)
    ensures PropValues(g, ps + {p}, subjs) == PropValues(g, ps, subjs) + PropValues(g, {p}, subjs)
  {
  }

  /** Trying one more subject pattern for a predicate adds the objects of the triples it matches. */
  lemma PropValuesAddSubject(g: seq<Triple>, p: Node, subjs: seq<Option<Node>>, s: Option<Node>)
    ensures PropValues(g, {p}, subjs + [s]) == PropValues(g, {p}, subjs) + ObjectsOf(Triples(g, s, Some(p), None))
  {
    var lhs := PropValues(g, {p}, subjs + [s]);
    var rhs := PropValues(g, {p}, subjs) + ObjectsOf(Triples(g, s, Some(p), None));
    forall x | x in lhs
      ensures x in rhs
    {
      var t, s' :| t in g && s' in subjs + [s] && t.p in {p} && Fits(t.s, s') && t.o == x;
      if s' !in subjs {
        assert t in Triples(g, s, Some(p), None);
      }
    }
    forall x | x in rhs
      ensures x in lhs
    {
      if x !in PropValues(g, {p}, subjs) {
        var t :| t in Triples(g, s, Some(p), None) && t.o == x;
        assert s in subjs + [s];
      } else {
        var t, s' :| t in g && s' in subjs && t.p in {p} && Fits(t.s, s') && t.o == x;
        assert s' in subjs + [s];
      }
    }
  }

  /** The wildcard subject finds every value any list of subject patterns finds. */
  lemma WildcardFindsAll(g: seq<Triple>, ps: set<Node>, subjs: seq<Option<Node>>)
    ensures PropValues(g, ps, subjs) <= PropValues(g, ps, [None])
  {
    forall x | x in PropValues(g, ps, subjs)
      ensures x in PropValues(g, ps, [None])
    {
      var t, s :| t in g && s in subjs && t.p in ps && Fits(t.s, s) && t.o == x;
      var wild: seq<Option<Node>> := [None];
      assert None in wild && Fits(t.s, None);
    }
  }

  /** Each given predicate is checked together with its http/https counterpart. */
  lemma CheckPredicatesCoverCounterparts(preds: seq<string>, p: string)
    requires p in preds
    ensures IRI(p) in CheckPredicates(preds)
    ensures StartsWith(p, "http://") ==> IRI(ReplaceAll(p, "http://", "https://")) in CheckPredicates(preds)
    ensures StartsWith(p, "https://") ==> IRI(ReplaceAll(p, "https://", "http://")) in CheckPredicates(preds)
  {
    assert p in PredicateVariants(p);
    if StartsWith(p, "http://") {
      assert ReplaceAll(p, "http://", "https://") in PredicateVariants(p);
      SchemesExclusive(p);
    } else if StartsWith(p, "https://") {
      assert ReplaceAll(p, "https://", "http://") in PredicateVariants(p);
    }
  }

  /** No string starts with both `http://` and `https://`. */
  lemma SchemesExclusive(u: string)
    ensures !(StartsWith(u, "http://") && StartsWith(u, "https://"))
  {
    if StartsWith(u, "http://") {
      assert u[4] == ':';
    }
  }

  /** Nothing but the given predicates and their counterparts is checked. */
  lemma CheckPredicatesOnlyVariants(preds: seq<string>, n: Node)
    requires n in CheckPredicates(preds)
    ensures exists p :: p in preds && n.iri in PredicateVariants(p)
  {
  }
}
