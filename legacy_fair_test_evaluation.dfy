/**
 * The first-generation evaluation class of `fair_test/fair_test_evaluation.py`.
 * Its comments are plain lines without a timestamp, its alias set is built
 * from the subject as given (adding, for a `doi.org` URL, the `dx.doi.org`
 * form and the lower-cased subject), and `extract_prop` returns the string
 * forms of the values it finds.
 */
module LegacyEvaluation {
  import opened Wrappers
  import opened Strings
  import opened Seqs
  import opened Rdf
  import Ledger
  import Logger
  import Harvester
  import Urls
  import Evaluation
  import Legacy

  // ---------------------------------------------------------------------
  // The alias set

  const DxDoi := "http://dx.doi.org/"

  /** For a subject under `prefix`: its `dx.doi.org` form and the subject lower-cased. */
  function DoiForms(subject: string, prefix: string): set<string> {
    if StartsWith(subject, prefix) then {ReplaceAll(subject, prefix, DxDoi), Lower(subject)} else {}
  }

  /** The alias set `__init__` builds: the subject, its scheme counterpart, and the DOI forms. */
  function Aliases(subject: string): set<string> {
    {subject} + Evaluation.Counterpart(subject)
      + DoiForms(subject, "https://doi.org/") + DoiForms(subject, "http://doi.org/")
  }

  /** Under the prefix it names, the DOI forms are the `dx.doi.org` form and the lower-cased URL. */
  lemma DoiFormsUnderPrefix(scheme: string, d: string)
    requires scheme != [] && !Contains(d, scheme)
    ensures DoiForms(scheme + "doi.org/" + d, scheme + "doi.org/") == {DxDoi + d, Lower(scheme + "doi.org/" + d)}
  {
    var pre := scheme + "doi.org/";
    var u := pre + d;
    StartsWithConcat(pre, d);
    ReplaceAllAtStart(u, pre, DxDoi);
    assert u[|pre|..] == d;
    if Contains(d, pre) {
      ContainsShorter(d, scheme, "doi.org/");
    }
    ReplaceAllAbsent(d, pre, DxDoi);
  }

  /** A URL under one scheme has no DOI forms for the other scheme's prefix. */
  lemma NoDoiFormsAcrossSchemes(u: string)
    ensures StartsWith(u, "https://") ==> DoiForms(u, "http://doi.org/") == {}
    ensures StartsWith(u, "http://") ==> DoiForms(u, "https://doi.org/") == {}
  {
    SchemesExclusive(u);
    if StartsWith(u, "http://doi.org/") {
      assert u[..7] == "http://doi.org/"[..7];
    }
    if StartsWith(u, "https://doi.org/") {
      assert u[..8] == "https://doi.org/"[..8];
    }
  }

  /** The alias set, read off its four parts. */
  lemma AliasesFromParts(u: string, c: set<string>, fs: set<string>, f: set<string>)
    requires Evaluation.Counterpart(u) == c
    requires DoiForms(u, "https://doi.org/") == fs && DoiForms(u, "http://doi.org/") == f
    ensures Aliases(u) == {u} + c + fs + f
  {
  }

  lemma HttpsDoiForms(d: string)
    requires !Contains(d, "https://")
    ensures DoiForms("https://doi.org/" + d, "https://doi.org/") == {DxDoi + d, Lower("https://doi.org/" + d)}
    ensures DoiForms("https://doi.org/" + d, "http://doi.org/") == {}
  {
    assert "https://" + "doi.org/" + d == "https://doi.org/" + d;
    assert "https://" + "doi.org/" == "https://doi.org/";
    DoiFormsUnderPrefix("https://", d);
    StartsWithConcat("https://", "doi.org/" + d);
    assert "https://" + ("doi.org/" + d) == "https://doi.org/" + d;
    NoDoiFormsAcrossSchemes("https://doi.org/" + d);
  }

  lemma HttpDoiForms(d: string)
    requires !Contains(d, "http://")
    ensures DoiForms("http://doi.org/" + d, "http://doi.org/") == {DxDoi + d, Lower("http://doi.org/" + d)}
    ensures DoiForms("http://doi.org/" + d, "https://doi.org/") == {}
  {
    assert "http://" + "doi.org/" + d == "http://doi.org/" + d;
    assert "http://" + "doi.org/" == "http://doi.org/";
    DoiFormsUnderPrefix("http://", d);
    StartsWithConcat("http://", "doi.org/" + d);
    assert "http://" + ("doi.org/" + d) == "http://doi.org/" + d;
    NoDoiFormsAcrossSchemes("http://doi.org/" + d);
  }

  /**
   * An https `doi.org` subject: the alias set is the subject, its http
   * form, its `dx.doi.org` form and the subject lower-cased.
   */
  lemma HttpsDoiAliases(d: string)
    requires !Contains(d, "https://")
    ensures Aliases("https://doi.org/" + d) ==
      {"https://doi.org/" + d, "http://doi.org/" + d, DxDoi + d, Lower("https://doi.org/" + d)}
  {
    var u := "https://doi.org/" + d;
    Evaluation.HttpsDoiCounterpart(d);
    HttpsDoiForms(d);
    AliasesFromParts(u, {"http://doi.org/" + d}, {DxDoi + d, Lower(u)}, {});
  }

  /**
   * An http `doi.org` subject: the alias set is the subject, its https
   * form, its `dx.doi.org` form and the subject lower-cased.
   */
  lemma HttpDoiAliases(d: string)
    requires !Contains(d, "http://")
    ensures Aliases("http://doi.org/" + d) ==
      {"http://doi.org/" + d, "https://doi.org/" + d, DxDoi + d, Lower("http://doi.org/" + d)}
  {
    var u := "http://doi.org/" + d;
    Evaluation.HttpDoiCounterpart(d);
    HttpDoiForms(d);
    AliasesFromParts(u, {"https://doi.org/" + d}, {}, {DxDoi + d, Lower(u)});
  }

  /**
   * For an https DOI URL the first-generation set is the later set plus
   * the lower-cased subject, and nothing else.
   */
  lemma LaterSetPlusLowerCase(d: string, parsed: Urls.ParsedUrl)
    requires parsed.netloc == "doi.org" && parsed.path == "/" + d
    requires !Contains(d, "https://")
    ensures Aliases("https://doi.org/" + d) == Evaluation.Aliases("https://doi.org/" + d, parsed) + {Lower("https://doi.org/" + d)}
  {
    HttpsDoiAliases(d);
    Evaluation.DoiAliases(d, parsed);
  }

  /** Any subject is its own alias and brings its scheme counterpart; other subjects bring nothing else. */
  lemma AliasesOfOtherSubjects(subject: string)
    ensures subject in Aliases(subject)
    ensures Evaluation.Counterpart(subject) <= Aliases(subject)
    ensures !StartsWith(subject, "https://doi.org/") && !StartsWith(subject, "http://doi.org/") ==>
      Aliases(subject) == {subject} + Evaluation.Counterpart(subject)
  {
  }

  // ---------------------------------------------------------------------
  // extract_prop

  /** The `subj` argument: a list of subjects, or a single one (`None` or "" is any subject). */
  datatype Subjects = Listed(items: seq<string>) | Single(value: Option<string>)

  /** The subject patterns tried: a list's IRIs, a truthy single IRI, or the wildcard. */
  function Patterns(subj: Subjects): (r: seq<Option<Node>>)
    ensures subj.Listed? ==> |r| == |subj.items| && forall i :: 0 <= i < |r| ==> r[i] == Some(IRI(subj.items[i]))
    ensures subj.Single? && subj.value.Some? && subj.value.value != [] ==> r == [Some(IRI(subj.value.value))]
    ensures subj.Single? && (subj.value.None? || subj.value.value == []) ==> r == [None]
  {
    match subj
    case Listed(xs) => seq(|xs|, i requires 0 <= i < |xs| => Some(IRI(xs[i])))
    case Single(v) => if v.Some? && v.value != [] then [Some(IRI(v.value))] else [None]
  }

  /** Python truthiness of the argument. */
  predicate Given(subj: Subjects) {
    match subj
    case Listed(xs) => xs != []
    case Single(v) => v.Some? && v.value != []
  }

  /** Python `repr` of a list of strings. */
  function Repr(xs: seq<string>): string {
    "[" + Join(", ", seq(|xs|, i requires 0 <= i < |xs| => "'" + xs[i] + "'")) + "]"
  }

  function Shown(subj: Subjects): string {
    match subj
    case Listed(xs) => Repr(xs)
    case Single(v) => Harvester.ShowOpt(v)
  }

  /** The comment lines written before the search: the predicates, then the subjects when some are given. */
  function Header(preds: seq<string>, subj: Subjects): seq<string> {
    [Legacy.Comment("Checking values for properties: " + Repr(preds), Some(Logger.InfoPrefix))]
      + (if Given(subj) then [Legacy.Comment("Checking values for subjects URIs: " + Shown(subj), Some(Logger.InfoPrefix))] else [])
  }

  function FoundMessage(p: Node, o: Node): string {
    "Found a value for property " + Str(p) + " => " + Str(o)
  }

  /** The comment line for one visited triple of the checked predicate `p`. */
  function FoundLine(p: Node, t: Triple): string {
    Legacy.Comment(FoundMessage(p, t.o), Some(Logger.InfoPrefix))
  }

  /** The comment lines for the visited triples, in visiting order. */
  function FoundLines(p: Node, ms: seq<Triple>): seq<string>
    decreases |ms|
  {
    if ms == [] then [] else FoundLines(p, ms[..|ms| - 1]) + [FoundLine(p, ms[|ms| - 1])]
  }

  /** There is one line per visited triple, and the n-th line names the predicate and the n-th triple's object. */
  lemma {:induction false} FoundLinesNameTriples(p: Node, ms: seq<Triple>, n: nat)
    requires n < |ms|
    ensures |FoundLines(p, ms)| == |ms|
    ensures FoundLines(p, ms)[n] == Legacy.Comment(FoundMessage(p, ms[n].o), Some(Logger.InfoPrefix))
    decreases |ms|
  {
    if n < |ms| - 1 {
      FoundLinesNameTriples(p, ms[..|ms| - 1], n);
    } else if |ms| > 1 {
      FoundLinesNameTriples(p, ms[..|ms| - 1], 0);
    }
  }

  /** The lines for one predicate, subject pattern by subject pattern. */
  function PredicateLines(g: seq<Triple>, p: Node, pats: seq<Option<Node>>): seq<string>
    decreases |pats|
  {
    if pats == [] then []
    else PredicateLines(g, p, pats[..|pats| - 1]) + FoundLines(p, Triples(g, pats[|pats| - 1], Some(p), None))
  }

  /** The lines for the predicates in the order they are visited. */
  function PredicatesLines(g: seq<Triple>, ps: seq<Node>, pats: seq<Option<Node>>): seq<string>
    decreases |ps|
  {
    if ps == [] then [] else PredicatesLines(g, ps[..|ps| - 1], pats) + PredicateLines(g, ps[|ps| - 1], pats)
  }

  /** Visiting one more subject pattern adds its values. */
  lemma NextSubjectValues(g: seq<Triple>, p: Node, pats: seq<Option<Node>>, j: nat)
    requires j < |pats|
    ensures Evaluation.Strs(PropValues(g, {p}, pats[..j + 1])) ==
            Evaluation.Strs(PropValues(g, {p}, pats[..j])) + Evaluation.Strs(ObjectsOf(Triples(g, pats[j], Some(p), None)))
  {
    assert pats[..j + 1] == pats[..j] + [pats[j]];
    PropValuesAddSubject(g, p, pats[..j], pats[j]);
    StrsUnion(PropValues(g, {p}, pats[..j]), ObjectsOf(Triples(g, pats[j], Some(p), None)));
  }

  /** Visiting one more subject pattern adds its lines. */
  lemma NextSubjectLines(g: seq<Triple>, p: Node, pats: seq<Option<Node>>, j: nat)
    requires j < |pats|
    ensures PredicateLines(g, p, pats[..j + 1]) == PredicateLines(g, p, pats[..j]) + FoundLines(p, Triples(g, pats[j], Some(p), None))
  {
    assert pats[..j + 1][..j] == pats[..j];
  }

  /** Visiting one more predicate adds its values and its lines. */
  lemma NextPredicate(g: seq<Triple>, ps: seq<Node>, i: nat, pats: seq<Option<Node>>)
    requires i < |ps|
    ensures Evaluation.Strs(PropValues(g, Elems(ps[..i + 1]), pats)) ==
            Evaluation.Strs(PropValues(g, Elems(ps[..i]), pats)) + Evaluation.Strs(PropValues(g, {ps[i]}, pats))
    ensures PredicatesLines(g, ps[..i + 1], pats) == PredicatesLines(g, ps[..i], pats) + PredicateLines(g, ps[i], pats)
  {
    assert ps[..i + 1][..i] == ps[..i];
    assert Elems(ps[..i + 1]) == Elems(ps[..i]) + {ps[i]} by {
      assert ps[..i + 1] == ps[..i] + [ps[i]];
    }
    PropValuesAddPredicate(g, Elems(ps[..i]), ps[i], pats);
    StrsUnion(PropValues(g, Elems(ps[..i]), pats), PropValues(g, {ps[i]}, pats));
  }

  /** The string forms of a union are the union of the string forms. */
  lemma StrsUnion(a: set<Node>, b: set<Node>)
    ensures Evaluation.Strs(a + b) == Evaluation.Strs(a) + Evaluation.Strs(b)
  {
  }

  /** One more visited triple adds the string form of its object. */
  lemma StrsOfObjectsSnoc(ms: seq<Triple>, k: nat)
    requires k < |ms|
    ensures Evaluation.Strs(ObjectsOf(ms[..k + 1])) == Evaluation.Strs(ObjectsOf(ms[..k])) + {Str(ms[k].o)}
  {
    assert ms[..k + 1] == ms[..k] + [ms[k]];
    assert ObjectsOf(ms[..k + 1]) == ObjectsOf(ms[..k]) + {ms[k].o};
    StrsUnion(ObjectsOf(ms[..k]), {ms[k].o});
  }

  /**
   * A value found on a list of subjects is the string form of the object
   * of a triple with one of the predicates whose subject is one of the
   * listed IRIs, and every such object is found.
   */
  lemma ValuesOnListedSubjects(g: Graph, ps: set<Node>, xs: seq<string>, v: string)
    ensures v in Evaluation.Strs(PropValues(g, ps, Patterns(Listed(xs)))) <==>
      exists t :: t in g && t.p in ps && t.s.IRI? && t.s.iri in xs && Str(t.o) == v
  {
    var pats := Patterns(Listed(xs));
    if v in Evaluation.Strs(PropValues(g, ps, pats)) {
      var o :| o in PropValues(g, ps, pats) && Str(o) == v;
      var t, s :| t in g && s in pats && t.p in ps && Fits(t.s, s) && t.o == o;
      var i :| 0 <= i < |pats| && pats[i] == s;
      assert t.s == IRI(xs[i]);
      assert xs[i] in xs;
    }
    if exists t :: t in g && t.p in ps && t.s.IRI? && t.s.iri in xs && Str(t.o) == v {
      var t :| t in g && t.p in ps && t.s.IRI? && t.s.iri in xs && Str(t.o) == v;
      var i :| 0 <= i < |xs| && xs[i] == t.s.iri;
      assert pats[i] == Some(t.s) && pats[i] in pats;
      assert Fits(t.s, pats[i]);
      assert t.o in PropValues(g, ps, pats);
    }
  }

  /** The data predicates under their http scheme, as `extract_data_uri` derives them. */
  function HttpForms(ps: seq<string>): (r: seq<string>)
    ensures |r| == |ps| && forall i :: 0 <= i < |ps| ==> r[i] == ReplaceAll(ps[i], "https://", "http://")
  {
    seq(|ps|, i requires 0 <= i < |ps| => ReplaceAll(ps[i], "https://", "http://"))
  }

  /** The predicates `extract_data_uri` queries: the data predicates, then their http forms. */
  function DataUriProps(dataProps: seq<string>): seq<string> {
    dataProps + HttpForms(dataProps)
  }

  /** The http/https step of `__init__`: an http subject brings its https form, else an https one its http form. */
  method AddCounterpart(subject: string) returns (added: set<string>)
    ensures added == Evaluation.Counterpart(subject)
  {
    added := {};
    if StartsWith(subject, "http://") {
      added := {ReplaceAll(subject, "http://", "https://")};
    } else if StartsWith(subject, "https://") {
      added := {ReplaceAll(subject, "https://", "http://")};
    }
  }

  /** One DOI step of `__init__`: a subject under `prefix` brings its `dx.doi.org` form and its lower-cased form. */
  method AddDoiForms(subject: string, prefix: string) returns (added: set<string>)
    ensures added == DoiForms(subject, prefix)
  {
    added := {};
    if StartsWith(subject, prefix) {
      added := added + {ReplaceAll(subject, prefix, DxDoi)};
      added := added + {Lower(subject)};
    }
  }

  /** Every data predicate is queried as given and under its http form. */
  lemma DataUriPropsBothSchemes(dataProps: seq<string>, i: nat)
    requires i < |dataProps|
    ensures IRI(dataProps[i]) in CheckPredicates(DataUriProps(dataProps))
    ensures IRI(ReplaceAll(dataProps[i], "https://", "http://")) in CheckPredicates(DataUriProps(dataProps))
  {
    var all := DataUriProps(dataProps);
    assert all[i] == dataProps[i];
    assert all[|dataProps| + i] == ReplaceAll(dataProps[i], "https://", "http://");
    CheckPredicatesCoverCounterparts(all, all[i]);
    CheckPredicatesCoverCounterparts(all, all[|dataProps| + i]);
  }

  // ---------------------------------------------------------------------
  // The evaluation

  class FairTestEvaluation {
    const subject: string
    var score: int
    var scoreBonus: int
    var comment: seq<string>
    /** `data['alternative_uris']`, the only entry of `data` the core writes. */
    var alternativeUris: seq<string>

    function Tally(): Ledger.Tally
      reads this
    {
      Ledger.Tally(score, scoreBonus)
    }

    /** `__init__`: the alias set of the subject, stored without duplicates. */
    constructor(subject: string)
      ensures this.subject == subject && Tally() == Ledger.Tally(0, 0) && comment == []
      ensures Distinct(alternativeUris) && Elems(alternativeUris) == Aliases(subject)
    {
      var alts := {subject};
      var counterpart := AddCounterpart(subject);
      alts := alts + counterpart;
      var httpsDoi := AddDoiForms(subject, "https://doi.org/");
      alts := alts + httpsDoi;
      var httpDoi := AddDoiForms(subject, "http://doi.org/");
      alts := alts + httpDoi;
      var stored := SetToList(alts);
      this.subject := subject;
      score, scoreBonus := 0, 0;
      comment := [];
      alternativeUris := stored;
    }

    // -------------------------------------------------------------------
    // Logging and scoring

    method Log(msg: string, prefix: Option<string>)
      modifies this
      ensures comment == old(comment) + [Legacy.Comment(msg, prefix)]
      ensures Tally() == old(Tally()) && alternativeUris == old(alternativeUris)
    {
      comment := comment + [Legacy.Comment(msg, prefix)];
    }

    method Warn(msg: string)
      modifies this
      ensures Tally() == Ledger.Apply(old(Tally()), Ledger.Warn)
      ensures comment == old(comment) + [Legacy.Comment(msg, Some(Logger.WarnPrefix))]
      ensures alternativeUris == old(alternativeUris)
    {
      Log(msg, Some(Logger.WarnPrefix));
    }

    method Info(msg: string)
      modifies this
      ensures Tally() == Ledger.Apply(old(Tally()), Ledger.Info)
      ensures comment == old(comment) + [Legacy.Comment(msg, Some(Logger.InfoPrefix))]
      ensures alternativeUris == old(alternativeUris)
    {
      Log(msg, Some(Logger.InfoPrefix));
    }

    method Failure(msg: string)
      modifies this
      ensures Tally() == Ledger.Apply(old(Tally()), Ledger.Failure)
      ensures comment == old(comment) + [Legacy.Comment(msg, Some(Logger.FailurePrefix))]
      ensures alternativeUris == old(alternativeUris)
    {
      score := 0;
      Log(msg, Some(Logger.FailurePrefix));
    }

    method Success(msg: string)
      modifies this
      ensures Tally() == Ledger.Apply(old(Tally()), Ledger.Success)
      ensures comment == old(comment) + [Legacy.Comment(msg, Some(Logger.SuccessPrefix))]
      ensures alternativeUris == old(alternativeUris)
    {
      if score >= 1 {
        Bonus(msg);
      } else {
        score := score + 1;
        Log(msg, Some(Logger.SuccessPrefix));
      }
    }

    method Bonus(msg: string)
      modifies this
      ensures Tally() == Ledger.Apply(old(Tally()), Ledger.Bonus)
      ensures comment == old(comment) + [Legacy.Comment(msg, Some(Logger.SuccessPrefix))]
      ensures alternativeUris == old(alternativeUris)
    {
      scoreBonus := scoreBonus + 1;
      Log(msg, Some(Logger.SuccessPrefix));
    }

    // -------------------------------------------------------------------
    // parse_rdf

    /** `parse_rdf`: the graph `Legacy.ParseSpec` describes and the one line it comments. */
    method ParseRdf(web: Harvester.Web, d: Harvester.RdfData, mime: Option<string>, logMsg: string)
      returns (r: Result<Graph, string>)
      modifies this
      ensures r == Legacy.ParseSpec(web, d, mime)
      ensures comment == old(comment) + Legacy.ParseNotes(web, d, mime, logMsg)
      ensures Tally() == old(Tally()) && alternativeUris == old(alternativeUris)
    {
      var at := Legacy.PrepareData(web, d, mime);
      if at.Err? {
        return Err(at.error);
      }
      var format := at.value.format;
      match web.parse(at.value.payload, Legacy.FormatArg(format)) {
        case Parsed(g) =>
          Info(Legacy.ParsedMessage(|g|, format, logMsg));
          r := Ok(g);
        case Failed(h, e) =>
          if format.None? {
            return Err(Legacy.NoneConcat);
          }
          Warn(Legacy.FailedMessage(format.value, logMsg, e));
          r := Ok(h);
      }
    }

    // -------------------------------------------------------------------
    // extract_prop and extract_data_uri

    /** The comment line for the `k`-th visited triple. */
    method NoteFound(p: Node, ms: seq<Triple>, k: nat, ghost base: seq<string>)
      requires k < |ms| && comment == base + FoundLines(p, ms[..k])
      modifies this
      ensures comment == base + FoundLines(p, ms[..k + 1])
      ensures Tally() == old(Tally()) && alternativeUris == old(alternativeUris)
    {
      Info(FoundMessage(p, ms[k].o));
      ConcatAssoc(base, FoundLines(p, ms[..k]), [FoundLine(p, ms[k])]);
      assert ms[..k + 1][..k] == ms[..k];
    }

    /** The string forms of the objects of the triples with predicate `p` and a subject fitting `pats[j]`, each one commented. */
    method ScanValues(g: Graph, pats: seq<Option<Node>>, j: nat, p: Node) returns (objs: set<string>)
      requires j < |pats|
      modifies this
      ensures objs == Evaluation.Strs(ObjectsOf(Triples(g, pats[j], Some(p), None)))
      ensures comment == old(comment) + FoundLines(p, Triples(g, pats[j], Some(p), None))
      ensures Tally() == old(Tally()) && alternativeUris == old(alternativeUris)
    {
      var ms := Triples(g, pats[j], Some(p), None);
      objs := {};
      var k := 0;
      while k < |ms|
        invariant 0 <= k <= |ms|
        invariant objs == Evaluation.Strs(ObjectsOf(ms[..k]))
        invariant comment == old(comment) + FoundLines(p, ms[..k])
        invariant Tally() == old(Tally()) && alternativeUris == old(alternativeUris)
      {
        var t := ms[k];
        NoteFound(p, ms, k, old(comment));
        StrsOfObjectsSnoc(ms, k);
        objs := objs + {Str(t.o)};
        k := k + 1;
      }
      assert ms[..|ms|] == ms;
    }

    /** The values of one predicate on every subject pattern, one comment per visited triple. */
    method ScanPredicate(g: Graph, pats: seq<Option<Node>>, p: Node) returns (found: set<string>)
      modifies this
      ensures found == Evaluation.Strs(PropValues(g, {p}, pats))
      ensures comment == old(comment) + PredicateLines(g, p, pats)
      ensures Tally() == old(Tally()) && alternativeUris == old(alternativeUris)
    {
      found := {};
      PropValuesNoSubjects(g, {p});
      var j := 0;
      while j < |pats|
        invariant 0 <= j <= |pats|
        invariant found == Evaluation.Strs(PropValues(g, {p}, pats[..j]))
        invariant comment == old(comment) + PredicateLines(g, p, pats[..j])
        invariant Tally() == old(Tally()) && alternativeUris == old(alternativeUris)
      {
        var objs := ScanValues(g, pats, j, p);
        ConcatAssoc(old(comment), PredicateLines(g, p, pats[..j]), FoundLines(p, Triples(g, pats[j], Some(p), None)));
        NextSubjectValues(g, p, pats, j);
        NextSubjectLines(g, p, pats, j);
        found := found + objs;
        j := j + 1;
      }
      assert pats[..|pats|] == pats;
    }

    /** The comment lines `extract_prop` writes before searching. */
    method CommentHeader(preds: seq<string>, subj: Subjects)
      modifies this
      ensures comment == old(comment) + Header(preds, subj)
      ensures Tally() == old(Tally()) && alternativeUris == old(alternativeUris)
    {
      Info("Checking values for properties: " + Repr(preds));
      if Given(subj) {
        Info("Checking values for subjects URIs: " + Shown(subj));
      }
    }

    /**
     * `extract_prop`: the string forms of the values of the given
     * predicates (each also under its other scheme) on the given subjects,
     * every value once; the header lines come first, then one line per
     * visited triple.
     */
    method ExtractProp(g: Graph, preds: seq<string>, subj: Subjects) returns (values: seq<string>)
      modifies this
      ensures Distinct(values) && Elems(values) == Evaluation.Strs(PropValues(g, CheckPredicates(preds), Patterns(subj)))
      ensures exists ps :: Distinct(ps) && Elems(ps) == CheckPredicates(preds) &&
                comment == old(comment) + Header(preds, subj) + PredicatesLines(g, ps, Patterns(subj))
      ensures Tally() == old(Tally()) && alternativeUris == old(alternativeUris)
    {
      var check := Evaluation.CheckPreds(preds);
      CommentHeader(preds, subj);
      var ps := SetToList(check);
      var found := ScanPredicates(g, ps, Patterns(subj));
      values := SetToList(found);
    }

    /** The values of each listed predicate on every subject pattern, one comment per visited triple. */
    method ScanPredicates(g: Graph, ps: seq<Node>, pats: seq<Option<Node>>) returns (found: set<string>)
      modifies this
      ensures found == Evaluation.Strs(PropValues(g, Elems(ps), pats))
      ensures comment == old(comment) + PredicatesLines(g, ps, pats)
      ensures Tally() == old(Tally()) && alternativeUris == old(alternativeUris)
    {
      found := {};
      PropValuesNoPredicates(g, pats);
      var i := 0;
      while i < |ps|
        invariant 0 <= i <= |ps|
        invariant found == Evaluation.Strs(PropValues(g, Elems(ps[..i]), pats))
        invariant comment == old(comment) + PredicatesLines(g, ps[..i], pats)
        invariant Tally() == old(Tally()) && alternativeUris == old(alternativeUris)
      {
        var p := ps[i];
        var objs := ScanPredicate(g, pats, p);
        ConcatAssoc(old(comment), PredicatesLines(g, ps[..i], pats), PredicateLines(g, p, pats));
        NextPredicate(g, ps, i, pats);
        found := found + objs;
        i := i + 1;
      }
      assert ps[..|ps|] == ps;
    }

    /** The comment line naming the data predicates. */
    method CommentDataProps(props: seq<string>)
      modifies this
      ensures comment == old(comment) + [Legacy.Comment(
        "Searching for the data URI using the following predicates: " + Join(", ", props), Some(Logger.InfoPrefix))]
      ensures Tally() == old(Tally()) && alternativeUris == old(alternativeUris)
    {
      Info("Searching for the data URI using the following predicates: " + Join(", ", props));
    }

    /**
     * `extract_data_uri`: the values of the data predicates, under both
     * schemes, on the stored aliases.
     */
    method ExtractDataUri(g: Graph) returns (values: seq<string>)
      modifies this
      ensures Distinct(values)
      ensures Elems(values) ==
        Evaluation.Strs(PropValues(g, CheckPredicates(DataUriProps(Evaluation.DataProps)), Patterns(Listed(alternativeUris))))
      ensures old(comment) <= comment
      ensures Tally() == old(Tally()) && alternativeUris == old(alternativeUris)
    {
      values := SearchDataUri(g, Evaluation.DataProps);
    }

    /** The body of `extract_data_uri` for its list of data predicates. */
    method SearchDataUri(g: Graph, dataProps: seq<string>) returns (values: seq<string>)
      modifies this
      ensures Distinct(values)
      ensures Elems(values) == Evaluation.Strs(PropValues(g, CheckPredicates(DataUriProps(dataProps)), Patterns(Listed(alternativeUris))))
      ensures old(comment) <= comment
      ensures Tally() == old(Tally()) && alternativeUris == old(alternativeUris)
    {
      var props := dataProps + HttpForms(dataProps);
      CommentDataProps(props);
      values := ExtractProp(g, props, Listed(alternativeUris));
    }
  }
}
