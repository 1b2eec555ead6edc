/**
 * The search `extract_metadata_subject` performs: which node of a metadata
 * graph stands for the evaluated resource. Aliases are tried in order. A
 * triple whose subject is the alias makes the alias the subject and records
 * its property. While no truthy subject is known, triples that point at the
 * alias through an identifier predicate (as an IRI, or, when that finds
 * nothing, as a plain literal) make their own subject the answer. Every match
 * overrides the previous one, so the last match wins.
 */
module MetadataSubject {
  import opened Wrappers
  import opened Rdf

  /** The state the search carries from alias to alias. */
  datatype Search = Search(
    subject: Option<Node>,
    properties: map<string, string>,
    linkedTo: map<string, string>,
    /** The subject of every triple visited, in order; each one is logged. */
    seen: seq<Node>)

  const Start := Search(None, map[], map[], [])

  /** Visiting the triples whose subject is the alias `ref`. */
  function Direct(st: Search, ms: seq<Triple>, ref: Node): Search
    decreases |ms|
  {
    if ms == [] then st
    else Direct(Search(Some(ref), st.properties[Str(ms[0].p) := Str(ms[0].o)], st.linkedTo, st.seen + [ms[0].s]),
                ms[1..], ref)
  }

  /** Visiting triples that point at the alias: their subject becomes the answer. */
  function Linked(st: Search, ms: seq<Triple>): Search
    decreases |ms|
  {
    if ms == [] then st
    else Linked(Search(Some(ms[0].s), st.properties, st.linkedTo[Str(ms[0].s) := Str(ms[0].p)], st.seen + [ms[0].s]),
                ms[1..])
  }

  /** One identifier predicate: the alias as an IRI object, then as a literal while nothing truthy is known. */
  function ByPredicate(g: seq<Triple>, st: Search, pred: string, ref: Node): Search {
    var st1 := Linked(st, Triples(g, None, Some(IRI(pred)), Some(ref)));
    if Truthy(st1.subject) then st1
    else Linked(st1, Triples(g, None, Some(IRI(pred)), Some(Plain(Str(ref)))))
  }

  function ByPredicates(g: seq<Triple>, st: Search, preds: seq<string>, ref: Node): Search
    decreases |preds|
  {
    if preds == [] then st else ByPredicates(g, ByPredicate(g, st, preds[0], ref), preds[1..], ref)
  }

  /** One alias: the subject search, then the object search unless a truthy subject is known. */
  function AliasStep(g: seq<Triple>, st: Search, preds: seq<string>, alt: string): Search {
    var ref := IRI(alt);
    var st1 := Direct(st, Triples(g, Some(ref), None, None), ref);
    if Truthy(st1.subject) then st1 else ByPredicates(g, st1, preds, ref)
  }

  /** The whole search over the aliases, in order. */
  function SearchAll(g: seq<Triple>, st: Search, preds: seq<string>, alts: seq<string>): Search
    decreases |alts|
  {
    if alts == [] then st else SearchAll(g, AliasStep(g, st, preds, alts[0]), preds, alts[1..])
  }

  // ---------------------------------------------------------------------
  // What the search finds

  /** `t` names alias `a`: as its subject, or as the object of an identifier predicate. */
  predicate Mentions(t: Triple, preds: seq<string>, a: string) {
    t.s == IRI(a) || (t.p.IRI? && t.p.iri in preds && (t.o == IRI(a) || t.o == Plain(a)))
  }

  /** The graph never names any alias. */
  predicate NoMention(g: seq<Triple>, preds: seq<string>, alts: seq<string>) {
    forall t, a :: t in g && a in alts ==> !Mentions(t, preds, a)
  }

  /** `n` is a node the search may answer: a named alias, or the subject of a triple pointing at one. */
  ghost predicate Candidate(g: seq<Triple>, preds: seq<string>, alts: seq<string>, n: Node) {
    (exists a, t :: a in alts && t in g && n == IRI(a) && t.s == n) ||
    (exists a, t :: a in alts && t in g && t.s == n && Mentions(t, preds, a))
  }

  lemma {:induction false} DirectSubject(st: Search, ms: seq<Triple>, ref: Node)
    ensures Direct(st, ms, ref).subject == if ms == [] then st.subject else Some(ref)
    ensures Direct(st, ms, ref).linkedTo == st.linkedTo
    decreases |ms|
  {
    if ms != [] {
      DirectSubject(Search(Some(ref), st.properties[Str(ms[0].p) := Str(ms[0].o)], st.linkedTo, st.seen + [ms[0].s]),
                    ms[1..], ref);
    }
  }

  lemma {:induction false} LinkedSubject(st: Search, ms: seq<Triple>)
    ensures Linked(st, ms).subject == if ms == [] then st.subject else Some(ms[|ms| - 1].s)
    ensures Linked(st, ms).properties == st.properties
    decreases |ms|
  {
    if ms != [] {
      LinkedSubject(Search(Some(ms[0].s), st.properties, st.linkedTo[Str(ms[0].s) := Str(ms[0].p)], st.seen + [ms[0].s]),
                    ms[1..]);
    }
  }

  /** Starting from no subject, the object search finds none exactly when no triple points at the alias. */
  lemma {:induction false} ByPredicatesNone(g: seq<Triple>, st: Search, preds: seq<string>, a: string)
    requires st.subject == None
    ensures ByPredicates(g, st, preds, IRI(a)).subject == None <==>
            forall t :: t in g ==> !(t.p.IRI? && t.p.iri in preds && (t.o == IRI(a) || t.o == Plain(a)))
    decreases |preds|
  {
    if preds != [] {
      var ref := IRI(a);
      var p := preds[0];
      var ms := Triples(g, None, Some(IRI(p)), Some(ref));
      var ls := Triples(g, None, Some(IRI(p)), Some(Plain(a)));
      LinkedSubject(st, ms);
      var st1 := Linked(st, ms);
      LinkedSubject(st1, ls);
      var st2 := ByPredicate(g, st, p, ref);
      assert st2.subject == None <==> ms == [] && ls == [] by {
        if ms != [] {
          assert st1.subject.Some?;
        }
      }
      if st2.subject == None {
        ByPredicatesNone(g, st2, preds[1..], a);
      } else {
        ByPredicatesKeepsSome(g, st2, preds[1..], ref);
        if ms != [] {
          assert ms[0] in g && ms[0].p == IRI(p) && ms[0].o == IRI(a);
        } else {
          assert ls[0] in g && ls[0].p == IRI(p) && ls[0].o == Plain(a);
        }
      }
    }
  }

  lemma {:induction false} ByPredicatesKeepsSome(g: seq<Triple>, st: Search, preds: seq<string>, ref: Node)
    requires st.subject.Some?
    ensures ByPredicates(g, st, preds, ref).subject.Some?
    decreases |preds|
  {
    if preds != [] {
      var p := preds[0];
      LinkedSubject(st, Triples(g, None, Some(IRI(p)), Some(ref)));
      var st1 := Linked(st, Triples(g, None, Some(IRI(p)), Some(ref)));
      LinkedSubject(st1, Triples(g, None, Some(IRI(p)), Some(Plain(Str(ref)))));
      ByPredicatesKeepsSome(g, ByPredicate(g, st, p, ref), preds[1..], ref);
    }
  }

  lemma {:induction false} SearchAllKeepsSome(g: seq<Triple>, st: Search, preds: seq<string>, alts: seq<string>)
    requires st.subject.Some?
    ensures SearchAll(g, st, preds, alts).subject.Some?
    decreases |alts|
  {
    if alts != [] {
      var ref := IRI(alts[0]);
      DirectSubject(st, Triples(g, Some(ref), None, None), ref);
      var st1 := Direct(st, Triples(g, Some(ref), None, None), ref);
      if !Truthy(st1.subject) {
        ByPredicatesKeepsSome(g, st1, preds, ref);
      }
      SearchAllKeepsSome(g, AliasStep(g, st, preds, alts[0]), preds, alts[1..]);
    }
  }

  /**
   * The search comes back empty-handed exactly when the graph names none of
   * the aliases, neither as a subject nor through an identifier predicate.
   */
  lemma {:induction false} NoSubjectIffNoMention(g: seq<Triple>, preds: seq<string>, alts: seq<string>)
    ensures SearchAll(g, Start, preds, alts).subject == None <==> NoMention(g, preds, alts)
  {
    SearchAllNone(g, Start, preds, alts);
  }

  lemma {:induction false} SearchAllNone(g: seq<Triple>, st: Search, preds: seq<string>, alts: seq<string>)
    requires st.subject == None
    ensures SearchAll(g, st, preds, alts).subject == None <==> NoMention(g, preds, alts)
    decreases |alts|
  {
    if alts != [] {
      var a := alts[0];
      var ref := IRI(a);
      var ds := Triples(g, Some(ref), None, None);
      DirectSubject(st, ds, ref);
      var st1 := Direct(st, ds, ref);
      var st2 := AliasStep(g, st, preds, a);
      if ds == [] {
        ByPredicatesNone(g, st1, preds, a);
      } else if !Truthy(st1.subject) {
        ByPredicatesKeepsSome(g, st1, preds, ref);
      }
      if st2.subject == None {
        SearchAllNone(g, st2, preds, alts[1..]);
        assert ds == [];
        if SearchAll(g, st, preds, alts).subject == None {
          forall t, b | t in g && b in alts
            ensures !Mentions(t, preds, b)
          {
            if b != a {
              assert b in alts[1..];
            } else {
              assert t !in ds;
            }
          }
        }
      } else {
        SearchAllKeepsSome(g, st2, preds, alts[1..]);
        if ds != [] {
          assert ds[0] in ds;
          assert Mentions(ds[0], preds, a);
        } else {
          var t :| t in g && t.p.IRI? && t.p.iri in preds && (t.o == IRI(a) || t.o == Plain(a));
          assert Mentions(t, preds, a);
        }
      }
    }
  }

  /**
   * An alias that is itself the subject of a triple wins when no later
   * alias is: once the subject is truthy, later aliases are only looked up
   * as subjects.
   */
  lemma {:induction false} LastDirectMatchWins(g: seq<Triple>, st: Search, preds: seq<string>, alts: seq<string>, i: nat)
    requires i < |alts| && alts[i] != []
    requires Triples(g, Some(IRI(alts[i])), None, None) != []
    requires forall j :: i < j < |alts| ==> Triples(g, Some(IRI(alts[j])), None, None) == []
    ensures SearchAll(g, st, preds, alts).subject == Some(IRI(alts[i]))
    decreases |alts|
  {
    var st2 := AliasStep(g, st, preds, alts[0]);
    if i == 0 {
      var ref := IRI(alts[0]);
      DirectSubject(st, Triples(g, Some(ref), None, None), ref);
      UnnamedAliasesKeepSubject(g, st2, preds, alts[1..]);
    } else {
      LastDirectMatchWins(g, st2, preds, alts[1..], i - 1);
    }
  }

  /** With a truthy subject, aliases that are nobody's subject change nothing. */
  lemma {:induction false} UnnamedAliasesKeepSubject(g: seq<Triple>, st: Search, preds: seq<string>, alts: seq<string>)
    requires Truthy(st.subject)
    requires forall j :: 0 <= j < |alts| ==> Triples(g, Some(IRI(alts[j])), None, None) == []
    ensures SearchAll(g, st, preds, alts).subject == st.subject
    decreases |alts|
  {
    if alts != [] {
      assert Triples(g, Some(IRI(alts[0])), None, None) == [];
      UnnamedAliasesKeepSubject(g, AliasStep(g, st, preds, alts[0]), preds, alts[1..]);
    }
  }

  /** Every answer of the search is a node the graph ties to one of the aliases. */
  lemma {:induction false} AnswerIsCandidate(g: seq<Triple>, st: Search, preds: seq<string>, alts: seq<string>)
    requires st.subject.Some? ==> Candidate(g, preds, alts, st.subject.value)
    ensures SearchAll(g, st, preds, alts).subject.Some? ==>
            Candidate(g, preds, alts, SearchAll(g, st, preds, alts).subject.value)
    decreases |alts|
  {
    AnswerIsCandidateInto(g, st, preds, alts, alts);
  }

  /** As `AnswerIsCandidate`, with the candidates drawn from a wider alias list. */
  lemma {:induction false} AnswerIsCandidateInto(g: seq<Triple>, st: Search, preds: seq<string>, alts: seq<string>, all: seq<string>)
    requires forall a :: a in alts ==> a in all
    requires st.subject.Some? ==> Candidate(g, preds, all, st.subject.value)
    ensures SearchAll(g, st, preds, alts).subject.Some? ==>
            Candidate(g, preds, all, SearchAll(g, st, preds, alts).subject.value)
    decreases |alts|
  {
    if alts != [] {
      AliasStepCandidate(g, st, preds, all, alts[0]);
      AnswerIsCandidateInto(g, AliasStep(g, st, preds, alts[0]), preds, alts[1..], all);
    }
  }

  lemma AliasStepCandidate(g: seq<Triple>, st: Search, preds: seq<string>, all: seq<string>, a: string)
    requires a in all
    requires st.subject.Some? ==> Candidate(g, preds, all, st.subject.value)
    ensures AliasStep(g, st, preds, a).subject.Some? ==>
            Candidate(g, preds, all, AliasStep(g, st, preds, a).subject.value)
  {
    var ref := IRI(a);
    var ds := Triples(g, Some(ref), None, None);
    DirectSubject(st, ds, ref);
    var st1 := Direct(st, ds, ref);
    if ds != [] {
      assert ds[0] in g && ds[0].s == ref;
    }
    if !Truthy(st1.subject) {
      ByPredicatesCandidate(g, st1, preds, preds, all, a);
    }
  }

  lemma {:induction false} ByPredicatesCandidate(g: seq<Triple>, st: Search, ps: seq<string>, preds: seq<string>, all: seq<string>, a: string)
    requires a in all
    requires forall p :: p in ps ==> p in preds
    requires st.subject.Some? ==> Candidate(g, preds, all, st.subject.value)
    ensures ByPredicates(g, st, ps, IRI(a)).subject.Some? ==>
            Candidate(g, preds, all, ByPredicates(g, st, ps, IRI(a)).subject.value)
    decreases |ps|
  {
    if ps != [] {
      var p := ps[0];
      var ms := Triples(g, None, Some(IRI(p)), Some(IRI(a)));
      var ls := Triples(g, None, Some(IRI(p)), Some(Plain(a)));
      LinkedSubject(st, ms);
      var st1 := Linked(st, ms);
      LinkedSubject(st1, ls);
      if ms != [] {
        var t := ms[|ms| - 1];
        assert t in ms && Mentions(t, preds, a);
      }
      if ls != [] {
        var t := ls[|ls| - 1];
        assert t in ls && Mentions(t, preds, a);
      }
      ByPredicatesCandidate(g, ByPredicate(g, st, p, IRI(a)), ps[1..], preds, all, a);
    }
  }
}
