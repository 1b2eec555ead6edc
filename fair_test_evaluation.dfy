/**
 * FairTestEvaluation: the state of one metric test run on one subject. It
 * holds the score, the bonus, the `data` entries the core writes
 * (`alternative_uris`, `identifier_in_metadata`, `content_url`) and its own
 * logger, and offers the helpers metric tests call: identifier resolution,
 * metadata retrieval through a harvester, and property look-ups in a graph.
 */
module Evaluation {
  import opened Wrappers
  import opened Strings
  import opened Seqs
  import opened Rdf
  import opened Urls
  import opened Logger
  import opened MetadataSubject
  import Ledger
  import Harvester

  // ---------------------------------------------------------------------
  // The alternative URIs of the subject

  /** The other-scheme form of an http or https URL (Python `replace` on the whole string). */
  function Counterpart(url: string): set<string> {
    if StartsWith(url, "http://") then {ReplaceAll(url, "http://", "https://")}
    else if StartsWith(url, "https://") then {ReplaceAll(url, "https://", "http://")}
    else {}
  }

  /** The legacy `dx.doi.org` form of a URL whose network location is `doi.org`, read from its parts. */
  function DoiAlias(parsed: ParsedUrl): set<string> {
    if parsed.netloc != [] && parsed.netloc == "doi.org" then {"http://dx.doi.org/" + Drop(parsed.path, 1)} else {}
  }

  /**
   * The alias set as `__init__` builds it from the resolved URL and its
   * parts: the counterpart of an https URL is only added when the subject
   * as given (not its resolved URL) starts with "https://".
   */
  function AliasesAsWritten(subject: string, url: string, parsed: ParsedUrl): set<string> {
    {url}
      + (if StartsWith(url, "http://") then {ReplaceAll(url, "http://", "https://")}
         else if StartsWith(subject, "https://") then {ReplaceAll(url, "https://", "http://")}
         else {})
      + DoiAlias(parsed)
  }

  /** The alias set the model uses: the resolved URL, its counterpart, and the `dx.doi.org` form. */
  function Aliases(url: string, parsed: ParsedUrl): set<string> {
    {url} + Counterpart(url) + DoiAlias(parsed)
  }

  /** Alias symmetry: an http URL brings its https form, and an https URL its http form. */
  lemma AliasSymmetry(url: string, parsed: ParsedUrl)
    ensures url in Aliases(url, parsed)
    ensures StartsWith(url, "http://") ==>
      exists a :: a in Aliases(url, parsed) && StartsWith(a, "https://") && a == ReplaceAll(url, "http://", "https://")
    ensures StartsWith(url, "https://") ==>
      exists a :: a in Aliases(url, parsed) && StartsWith(a, "http://") && a == ReplaceAll(url, "https://", "http://")
  {
    SchemesExclusive(url);
    if StartsWith(url, "http://") {
      ReplaceAllKeepsPrefix(url, "http://", "https://");
      assert ReplaceAll(url, "http://", "https://") in Aliases(url, parsed);
    } else if StartsWith(url, "https://") {
      ReplaceAllKeepsPrefix(url, "https://", "http://");
      assert ReplaceAll(url, "https://", "http://") in Aliases(url, parsed);
    }
  }

  /** The scheme counterpart of an https URL whose rest holds no "https://" is its http form. */
  lemma HttpsCounterpart(host: string, d: string)
    requires 'h' !in host && !Contains(d, "https://")
    ensures Counterpart("https://" + host + d) == {"http://" + host + d}
  {
    var u := "https://" + host + d;
    assert u == "https://" + (host + d);
    StartsWithConcat("https://", host + d);
    SchemesExclusive(u);
    ReplaceAllAtStart(u, "https://", "http://");
    assert u[8..] == host + d;
    NoMatchAfterPrefix(host, d, "https://");
    ReplaceAllAbsent(host + d, "https://", "http://");
    assert "http://" + (host + d) == "http://" + host + d;
  }

  /** The scheme counterpart of an http URL whose rest holds no "http://" is its https form. */
  lemma HttpCounterpart(host: string, d: string)
    requires 'h' !in host && !Contains(d, "http://")
    ensures Counterpart("http://" + host + d) == {"https://" + host + d}
  {
    var u := "http://" + host + d;
    assert u == "http://" + (host + d);
    StartsWithConcat("http://", host + d);
    ReplaceAllAtStart(u, "http://", "https://");
    assert u[7..] == host + d;
    NoMatchAfterPrefix(host, d, "http://");
    ReplaceAllAbsent(host + d, "http://", "https://");
    assert "https://" + (host + d) == "https://" + host + d;
  }

  /**
   * For a `https://doi.org/` URL whose parts are read as `urlparse` reads
   * them, the set holds the URL, its http form and its `dx.doi.org` form,
   * and nothing else.
   */
  lemma DoiAliases(d: string, parsed: ParsedUrl)
    requires parsed.netloc == "doi.org" && parsed.path == "/" + d
    requires !Contains(d, "https://")
    ensures Aliases("https://doi.org/" + d, parsed) ==
      {"https://doi.org/" + d, "http://doi.org/" + d, "http://dx.doi.org/" + d}
  {
    HttpsDoiCounterpart(d);
    DxDoiAlias(d, parsed);
  }

  /** The http form of a `https://doi.org/` URL. */
  lemma HttpsDoiCounterpart(d: string)
    requires !Contains(d, "https://")
    ensures Counterpart("https://doi.org/" + d) == {"http://doi.org/" + d}
  {
    assert "https://" + "doi.org/" + d == "https://doi.org/" + d;
    assert "http://" + "doi.org/" + d == "http://doi.org/" + d;
    HttpsCounterpart("doi.org/", d);
  }

  /** The https form of a `http://doi.org/` URL. */
  lemma HttpDoiCounterpart(d: string)
    requires !Contains(d, "http://")
    ensures Counterpart("http://doi.org/" + d) == {"https://doi.org/" + d}
  {
    assert "http://" + "doi.org/" + d == "http://doi.org/" + d;
    assert "https://" + "doi.org/" + d == "https://doi.org/" + d;
    HttpCounterpart("doi.org/", d);
  }

  /** A URL whose netloc is `doi.org` adds its path, without the leading slash, under `http://dx.doi.org/`. */
  lemma DxDoiAlias(d: string, parsed: ParsedUrl)
    requires parsed.netloc == "doi.org" && parsed.path == "/" + d
    ensures DoiAlias(parsed) == {"http://dx.doi.org/" + d}
  {
    assert Drop("/" + d, 1) == d;
  }

  /** A prefix without the pattern's first character cannot start an occurrence. */
  lemma {:induction false} NoMatchAfterPrefix(a: string, d: string, pat: string)
    requires pat != [] && pat[0] !in a
    requires !Contains(d, pat)
    ensures !Contains(a + d, pat)
    decreases |a|
  {
    if a != [] {
      assert (a + d)[0] == a[0];
      assert (a + d)[1..] == a[1..] + d;
      NoMatchAfterPrefix(a[1..], d, pat);
    } else {
      assert a + d == d;
    }
  }

  /** Where the subject is already the URL, the set as written and the model's set agree. */
  lemma AliasesAgreeOnUrls(url: string, parsed: ParsedUrl)
    ensures AliasesAsWritten(url, url, parsed) == Aliases(url, parsed)
  {
    SchemesExclusive(url);
  }

  /**
   * A DOI given as a bare identifier (so not starting with "https://")
   * resolves to a `https://doi.org/` URL, and the set as written then lacks
   * that URL's http form, which the model's set holds.
   */
  lemma DoiSubjectMissesHttpForm(subject: string, d: string, parsed: ParsedUrl)
    requires !StartsWith(subject, "https://")
    requires parsed.netloc == "doi.org" && parsed.path == "/" + d
    requires !Contains(d, "https://")
    ensures "http://doi.org/" + d !in AliasesAsWritten(subject, "https://doi.org/" + d, parsed)
    ensures "http://doi.org/" + d in Aliases("https://doi.org/" + d, parsed)
  {
    DoiAliases(d, parsed);
    var url := "https://doi.org/" + d;
    var http := "http://doi.org/" + d;
    StartsWithConcat("https://", "doi.org/" + d);
    assert url == "https://" + ("doi.org/" + d);
    SchemesExclusive(url);
    assert Drop(parsed.path, 1) == d;
    assert AliasesAsWritten(subject, url, parsed) == {url, "http://dx.doi.org/" + d};
    assert http[4] != url[4];
    assert http[8] != ("http://dx.doi.org/" + d)[8];
  }

  // ---------------------------------------------------------------------
  // Harvester loggers

  /**
   * The evaluation's log after `get_url` calls whose harvesters all write to
   * one logger that starts empty: each call copies that logger's whole
   * history, so the `k`-th call adds the first `k` entries again.
   */
  function SharedCopies(entries: seq<string>): seq<string>
    decreases |entries|
  {
    if entries == [] then [] else SharedCopies(entries[..|entries| - 1]) + entries
  }

  /** With a shared harvester logger, two calls log the first entry twice. */
  lemma SharedLoggerRepeatsEntries(e1: string, e2: string)
    ensures SharedCopies([e1, e2]) == [e1, e1, e2]
    ensures SharedCopies([e1, e2]) != [e1, e2]
  {
    assert [e1, e2][..1] == [e1];
    assert [e1][..0] == [];
    assert SharedCopies([e1]) == [e1];
    assert SharedCopies([e1, e2]) == [e1] + [e1, e2];
  }

  /** The shared-logger log grows quadratically in the number of calls, not linearly. */
  lemma {:induction false} SharedCopiesLength(entries: seq<string>)
    ensures 2 * |SharedCopies(entries)| == |entries| * (|entries| + 1)
    decreases |entries|
  {
    if entries != [] {
      SharedCopiesLength(entries[..|entries| - 1]);
    }
  }

  // ---------------------------------------------------------------------
  // Property look-ups

  /** The `subj` argument of `extract_prop`: one pattern (`None` is any subject) or a list of them. */
  datatype Subjects = One(node: Option<Node>) | Many(nodes: seq<Option<Node>>)

  /** The subject patterns tried: a single argument is wrapped in a list. */
  function Patterns(subj: Subjects): (r: seq<Option<Node>>)
    ensures subj.One? ==> r == [subj.node]
    ensures subj.Many? ==> r == subj.nodes
  {
    match subj
    case One(n) => [n]
    case Many(ns) => ns
  }

  /** Python truthiness of the argument. */
  predicate Falsy(subj: Subjects) {
    match subj
    case One(n) => !Truthy(n)
    case Many(ns) => ns == []
  }

  function FoundValueMessage(p: Node, o: Node): string {
    "Found a value for a property " + Str(p) + " => " + Str(o)
  }

  /** The entry `extract_prop` logs for one visited triple. */
  function ValueEntry(t: Triple, ts: string): string {
    Entry(FoundValueMessage(t.p, t.o), Some(InfoPrefix), ts)
  }

  /** The entries for the triples visited, in the order they are visited. */
  function ValueEntries(ms: seq<Triple>, ts: string): seq<string>
    decreases |ms|
  {
    if ms == [] then [] else ValueEntries(ms[..|ms| - 1], ts) + [ValueEntry(ms[|ms| - 1], ts)]
  }

  /** One entry per visited triple, and the n-th entry names the n-th triple's predicate and object. */
  lemma {:induction false} ValueEntriesNameTriples(ms: seq<Triple>, ts: string)
    ensures |ValueEntries(ms, ts)| == |ms|
    ensures forall n :: 0 <= n < |ms| ==> ValueEntries(ms, ts)[n] == ValueEntry(ms[n], ts)
    decreases |ms|
  {
    if ms != [] {
      ValueEntriesNameTriples(ms[..|ms| - 1], ts);
    }
  }

  lemma ValueEntriesSnoc(ms: seq<Triple>, k: nat, ts: string)
    requires k < |ms|
    ensures ValueEntries(ms[..k + 1], ts) == ValueEntries(ms[..k], ts) + [ValueEntry(ms[k], ts)]
  {
    assert ms[..k + 1][..k] == ms[..k];
  }

  /** A log entry `extract_prop` writes: one per triple it visits. */
  ghost predicate FoundValueEntry(g: seq<Triple>, ps: set<Node>, pats: seq<Option<Node>>, e: string, ts: string) {
    exists t, s :: t in g && s in pats && t.p in ps && Fits(t.s, s) &&
      e == Entry(FoundValueMessage(t.p, t.o), Some(InfoPrefix), ts)
  }

  /** The `check_preds` loop: every given predicate with its http/https counterpart. */
  method CheckPreds(preds: seq<string>) returns (ps: set<Node>)
    ensures ps == CheckPredicates(preds)
  {
    ps := {};
    var i := 0;
    while i < |preds|
      invariant 0 <= i <= |preds|
      invariant ps == CheckPredicates(preds[..i])
    {
      var p := preds[i];
      var added := {IRI(p)};
      if StartsWith(p, "http://") {
        added := added + {IRI(ReplaceAll(p, "http://", "https://"))};
      } else if StartsWith(p, "https://") {
        added := added + {IRI(ReplaceAll(p, "https://", "http://"))};
      }
      assert added == set v | v in PredicateVariants(p) :: IRI(v);
      CheckPredicatesSnoc(preds[..i], p);
      assert preds[..i + 1] == preds[..i] + [p];
      ps := ps + added;
      i := i + 1;
    }
    assert preds[..|preds|] == preds;
  }

  // ---------------------------------------------------------------------
  // What `extract_metadata_subject` and `extract_data_subject` look for

  const IdPredicates: seq<string> := [
    "https://purl.org/dc/terms/identifier",
    "https://purl.org/dc/elements/1.1/identifier",
    "https://schema.org/identifier",
    "https://schema.org/sameAs",
    "http://ogp.me/ns#url"
  ]

  /** The http forms of the identifier predicates, then the predicates as given (the last one twice). */
  const AllIdPredicates: seq<string> := [
    "http://purl.org/dc/terms/identifier",
    "http://purl.org/dc/elements/1.1/identifier",
    "http://schema.org/identifier",
    "http://schema.org/sameAs",
    "http://ogp.me/ns#url"
  ] + IdPredicates

  const DataProps: seq<string> := [
    "https://www.w3.org/ns/ldp#contains",
    "https://xmlns.com/foaf/0.1/primaryTopic",
    "https://schema.org/about",
    "https://schema.org/mainEntity",
    "https://schema.org/codeRepository",
    "https://schema.org/distribution",
    "https://www.w3.org/ns/dcat#distribution",
    "https://semanticscience.org/resource/SIO_000332",
    "https://semanticscience.org/resource/is-about",
    "https://purl.obolibrary.org/obo/IAO_0000136"
  ]

  const ContentProps: seq<string> := [
    "https://schema.org/url",
    "https://schema.org/contentUrl",
    "http://www.w3.org/ns/dcat#downloadURL"
  ]

  /** The text of the `KeyError` raised when `data` has no alias list. */
  const MissingAliases := "alternative_uris"

  /** The `identifier_in_metadata` entry of `data`. */
  datatype IdInMetadata = IdInMetadata(properties: Option<map<string, string>>, linkedTo: Option<map<string, string>>)

  /** The entry after a search: each non-empty map is stored, the entry being created when needed. */
  function Recorded(prev: Option<IdInMetadata>, st: Search): (r: Option<IdInMetadata>)
    ensures |st.properties| == 0 && |st.linkedTo| == 0 ==> r == prev
    ensures |st.properties| > 0 ==> r.Some? && r.value.properties == Some(st.properties)
    ensures |st.linkedTo| > 0 ==> r.Some? && r.value.linkedTo == Some(st.linkedTo)
    ensures |st.properties| == 0 && prev.Some? ==> r.Some? && r.value.properties == prev.value.properties
    ensures |st.linkedTo| == 0 && prev.Some? ==> r.Some? && r.value.linkedTo == prev.value.linkedTo
  {
    if |st.properties| == 0 && |st.linkedTo| == 0 then prev
    else
      var base := if prev.Some? then prev.value else IdInMetadata(None, None);
      Some(IdInMetadata(
        if |st.properties| > 0 then Some(st.properties) else base.properties,
        if |st.linkedTo| > 0 then Some(st.linkedTo) else base.linkedTo))
  }

  /** The aliases searched: the argument when truthy, otherwise the stored list (absent: `KeyError`). */
  function SearchedAliases(altUris: Option<seq<string>>, stored: Option<seq<string>>): Option<seq<string>> {
    if altUris.Some? && altUris.value != [] then altUris else stored
  }

  function SubjectEntry(s: Node, ts: string): string {
    Entry("Found the subject URI in the metadata: " + Str(s), Some(InfoPrefix), ts)
  }

  /** One log entry per visited triple, naming its subject. */
  function SubjectEntries(seen: seq<Node>, ts: string): seq<string>
    decreases |seen|
  {
    if seen == [] then [] else SubjectEntries(seen[..|seen| - 1], ts) + [SubjectEntry(seen[|seen| - 1], ts)]
  }

  lemma SubjectEntriesSnoc(seen: seq<Node>, s: Node, ts: string)
    ensures SubjectEntries(seen + [s], ts) == SubjectEntries(seen, ts) + [SubjectEntry(s, ts)]
  {
    assert (seen + [s])[..|seen|] == seen;
  }

  /** The subject patterns `extract_data_subject` uses: the argument when truthy, else the aliases as IRIs. */
  function DataPatterns(subj: Subjects, stored: Option<seq<string>>): Option<Subjects> {
    if !Falsy(subj) then Some(subj)
    else if stored.None? then None
    else Some(Many(seq(|stored.value|, i requires 0 <= i < |stored.value| => Some(IRI(stored.value[i])))))
  }

  /** The download URLs of the data URIs: a blank node's content URLs, any other node itself. */
  function DownloadUrls(g: seq<Triple>, content: set<Node>, uris: set<Node>): set<string> {
    (set u | u in uris && !u.BNode? :: Str(u)) +
    (set u, c | u in uris && u.BNode? && c in PropValues(g, content, [Some(u)]) :: Str(c))
  }

  function Strs(ns: set<Node>): set<string> {
    set n | n in ns :: Str(n)
  }

  /** The download URLs of a union are the union of the download URLs. */
  lemma DownloadUrlsAdd(g: seq<Triple>, P: set<Node>, uris: set<Node>, u: Node)
    ensures DownloadUrls(g, P, uris + {u}) ==
      DownloadUrls(g, P, uris) + (if u.BNode? then Strs(PropValues(g, P, [Some(u)])) else {Str(u)})
  {
    var lhs := DownloadUrls(g, P, uris + {u});
    var rhs := DownloadUrls(g, P, uris) + (if u.BNode? then Strs(PropValues(g, P, [Some(u)])) else {Str(u)});
    forall x | x in lhs
      ensures x in rhs
    {
      if x !in DownloadUrls(g, P, uris) {
        if exists v :: v in uris + {u} && !v.BNode? && x == Str(v) {
          var v :| v in uris + {u} && !v.BNode? && x == Str(v);
          assert v == u;
        } else {
          var v, c :| v in uris + {u} && v.BNode? && c in PropValues(g, P, [Some(v)]) && x == Str(c);
          assert v == u;
        }
      }
    }
    forall x | x in rhs
      ensures x in lhs
    {
      if x !in DownloadUrls(g, P, uris) {
        if u.BNode? {
          var c :| c in PropValues(g, P, [Some(u)]) && x == Str(c);
          assert u in uris + {u};
        } else {
          assert u in uris + {u};
        }
      } else if exists v :: v in uris && !v.BNode? && x == Str(v) {
        var v :| v in uris && !v.BNode? && x == Str(v);
        assert v in uris + {u};
      } else {
        var v, c :| v in uris && v.BNode? && c in PropValues(g, P, [Some(v)]) && x == Str(c);
        assert v in uris + {u};
      }
    }
  }

  /** Without blank nodes among the data URIs, the download URLs are the data URIs themselves. */
  lemma DownloadUrlsWithoutBlanks(g: seq<Triple>, P: set<Node>, uris: set<Node>)
    requires forall u :: u in uris ==> !u.BNode?
    ensures DownloadUrls(g, P, uris) == Strs(uris)
  {
  }

  /** A blank data URI without content triples contributes nothing. */
  lemma BlankWithoutContent(g: seq<Triple>, P: set<Node>, uris: set<Node>, b: Node)
    requires b.BNode?
    requires forall t :: t in g && t.s == b ==> t.p !in P
    ensures DownloadUrls(g, P, uris + {b}) == DownloadUrls(g, P, uris)
  {
    DownloadUrlsAdd(g, P, uris, b);
    assert PropValues(g, P, [Some(b)]) == {};
  }

  // ---------------------------------------------------------------------
  // The evaluation

  /** Visiting one more predicate adds its values. */
  lemma NextPredicate(g: seq<Triple>, ps: seq<Node>, i: nat, pats: seq<Option<Node>>)
    requires i < |ps|
    ensures PropValues(g, Elems(ps[..i + 1]), pats) == PropValues(g, Elems(ps[..i]), pats) + PropValues(g, {ps[i]}, pats)
  {
    assert Elems(ps[..i + 1]) == Elems(ps[..i]) + {ps[i]} by {
      assert ps[..i + 1] == ps[..i] + [ps[i]];
    }
    PropValuesAddPredicate(g, Elems(ps[..i]), ps[i], pats);
  }

  /** Visiting one more subject pattern adds its values. */
  lemma NextSubject(g: seq<Triple>, p: Node, pats: seq<Option<Node>>, j: nat)
    requires j < |pats|
    ensures PropValues(g, {p}, pats[..j + 1]) == PropValues(g, {p}, pats[..j]) + ObjectsOf(Triples(g, pats[j], Some(p), None))
  {
    assert pats[..j + 1] == pats[..j] + [pats[j]];
    PropValuesAddSubject(g, p, pats[..j], pats[j]);
  }

  /** The entries logged for one predicate: those of each subject pattern in turn. */
  function PredicateEntries(g: seq<Triple>, p: Node, pats: seq<Option<Node>>, ts: string): seq<string>
    decreases |pats|
  {
    if pats == [] then []
    else PredicateEntries(g, p, pats[..|pats| - 1], ts) + ValueEntries(Triples(g, pats[|pats| - 1], Some(p), None), ts)
  }

  /** The entries logged for the predicates in the order they are visited. */
  function PredicatesEntries(g: seq<Triple>, ps: seq<Node>, pats: seq<Option<Node>>, ts: string): seq<string>
    decreases |ps|
  {
    if ps == [] then [] else PredicatesEntries(g, ps[..|ps| - 1], pats, ts) + PredicateEntries(g, ps[|ps| - 1], pats, ts)
  }

  lemma NextSubjectEntries(g: seq<Triple>, p: Node, pats: seq<Option<Node>>, j: nat, ts: string)
    requires j < |pats|
    ensures PredicateEntries(g, p, pats[..j + 1], ts) ==
            PredicateEntries(g, p, pats[..j], ts) + ValueEntries(Triples(g, pats[j], Some(p), None), ts)
  {
    assert pats[..j + 1][..j] == pats[..j];
  }

  lemma NextPredicateEntries(g: seq<Triple>, ps: seq<Node>, i: nat, pats: seq<Option<Node>>, ts: string)
    requires i < |ps|
    ensures PredicatesEntries(g, ps[..i + 1], pats, ts) == PredicatesEntries(g, ps[..i], pats, ts) + PredicateEntries(g, ps[i], pats, ts)
  {
    assert ps[..i + 1][..i] == ps[..i];
  }

  /** Every entry logged for a checked predicate names a triple of that predicate on a listed subject. */
  lemma {:induction false} PredicateEntriesFound(g: Graph, check: set<Node>, pats: seq<Option<Node>>, p: Node,
                                           n: nat, ts: string)
    requires p in check && n <= |pats|
    ensures forall k :: 0 <= k < |PredicateEntries(g, p, pats[..n], ts)| ==>
              FoundValueEntry(g, check, pats, PredicateEntries(g, p, pats[..n], ts)[k], ts)
  {
    if n > 0 {
      PredicateEntriesFound(g, check, pats, p, n - 1, ts);
      NextSubjectEntries(g, p, pats, n - 1, ts);
      FairTestEvaluation.ScanEntriesFound(g, check, pats, n - 1, p, ts, PredicateEntries(g, p, pats[..n - 1], ts));
    }
  }

  /** Every entry logged for checked predicates names a triple of one of them on a listed subject. */
  lemma {:induction false} PredicatesEntriesFound(g: Graph, check: set<Node>, ps: seq<Node>,
                                            pats: seq<Option<Node>>, ts: string)
    requires Elems(ps) <= check
    ensures forall k :: 0 <= k < |PredicatesEntries(g, ps, pats, ts)| ==>
              FoundValueEntry(g, check, pats, PredicatesEntries(g, ps, pats, ts)[k], ts)
    decreases |ps|
  {
    if ps != [] {
      var init := ps[..|ps| - 1];
      var p := ps[|ps| - 1];
      assert Elems(init) <= check;
      assert p in check;
      PredicatesEntriesFound(g, check, init, pats, ts);
      PredicateEntriesFound(g, check, pats, p, |pats|, ts);
      assert pats[..|pats|] == pats;
    }
  }

  /** Visiting one more data URI adds its download URLs. */
  lemma NextDataUri(g: seq<Triple>, P: set<Node>, dataUris: seq<Node>, i: nat)
    requires i < |dataUris|
    ensures DownloadUrls(g, P, Elems(dataUris[..i + 1])) == DownloadUrls(g, P, Elems(dataUris[..i])) +
      (if dataUris[i].BNode? then Strs(PropValues(g, P, [Some(dataUris[i])])) else {Str(dataUris[i])})
  {
    assert Elems(dataUris[..i + 1]) == Elems(dataUris[..i]) + {dataUris[i]} by {
      assert dataUris[..i + 1] == dataUris[..i] + [dataUris[i]];
    }
    DownloadUrlsAdd(g, P, Elems(dataUris[..i]), dataUris[i]);
  }

  /** The loop adding the string form of every content URL found. */
  method AddStrings(acc: set<string>, xs: seq<Node>) returns (r: set<string>)
    ensures r == acc + Strs(Elems(xs))
  {
    r := acc;
    var k := 0;
    while k < |xs|
      invariant 0 <= k <= |xs|
      invariant r == acc + Strs(Elems(xs[..k]))
    {
      assert xs[..k + 1] == xs[..k] + [xs[k]];
      r := r + {Str(xs[k])};
      k := k + 1;
    }
    assert xs[..|xs|] == xs;
  }

  /** The stored `alternative_uris`: none for an empty URL, otherwise `list(alt_uris)`, the alias set in no particular order. */
  method AliasList(url: string) returns (r: Option<seq<string>>)
    ensures url == [] ==> r == None
    ensures url != [] ==> r.Some? && Distinct(r.value) && Elems(r.value) == Aliases(url, UrlParse(url))
  {
    if url == [] {
      return None;
    }
    var xs := SetToList(Aliases(url, UrlParse(url)));
    return Some(xs);
  }

  /** The `data` entries the core reads and writes. */
  datatype Data = Data(
    alternativeUris: Option<seq<string>>,
    identifierInMetadata: Option<IdInMetadata>,
    contentUrl: Option<seq<string>>)

  class FairTestEvaluation {
    const subject: string
    var subjectUrl: string
    var score: int
    var scoreBonus: int
    /** The evaluation's own logger: its entries are the `comment` of the result. */
    const logs: FairTestLogger
    var alternativeUris: Option<seq<string>>
    var identifierInMetadata: Option<IdInMetadata>
    var contentUrl: Option<seq<string>>

    function Tally(): Ledger.Tally
      reads this
    {
      Ledger.Tally(score, scoreBonus)
    }

    function Stored(): Data
      reads this
    {
      Data(alternativeUris, identifierInMetadata, contentUrl)
    }

    /**
     * `__init__`: resolves the subject to a URL (logging how) and, when the
     * URL is non-empty, stores its alias set as a list.
     */
    constructor(web: Harvester.Web, subject: string, ts: string)
      ensures this.subject == subject && subjectUrl == Harvester.ResolveId(web, subject)
      ensures Tally() == Ledger.Tally(0, 0)
      ensures fresh(logs) && logs.logs == [Harvester.ResolveEntry(web, subject, ts)] && logs.score == None
      ensures subjectUrl == [] ==> alternativeUris == None
      ensures subjectUrl != [] ==> alternativeUris.Some? && Distinct(alternativeUris.value) &&
                                   Elems(alternativeUris.value) == Aliases(subjectUrl, UrlParse(subjectUrl))
      ensures identifierInMetadata == None && contentUrl == None
    {
      this.subject := subject;
      subjectUrl := [];
      score := 0;
      scoreBonus := 0;
      logs := new FairTestLogger();
      alternativeUris := None;
      identifierInMetadata := None;
      contentUrl := None;
      new;
      var url := GetUrl(web, subject, ts);
      subjectUrl := url;
      alternativeUris := AliasList(url);
    }

    /** `get_url` through a harvester with a logger of its own: exactly its one entry is copied. */
    method GetUrl(web: Harvester.Web, id: string, ts: string) returns (url: string)
      modifies logs
      ensures url == Harvester.ResolveId(web, id)
      ensures logs.logs == old(logs.logs) + [Harvester.ResolveEntry(web, id, ts)] && logs.score == old(logs.score)
    {
      var own := new FairTestLogger();
      var harvester := new Harvester.MetadataHarvester(None, None, own);
      url := harvester.GetUrl(web, id, ts);
      logs.SetLogs(logs.logs + own.logs);
    }

    /**
     * `get_url` as written: the harvester's logger is the one shared by
     * every harvester, and its whole history is copied.
     */
    method GetUrlSharedLogger(web: Harvester.Web, id: string, shared: FairTestLogger, ts: string) returns (url: string)
      requires shared != logs
      modifies logs, shared
      ensures url == Harvester.ResolveId(web, id)
      ensures shared.logs == old(shared.logs) + [Harvester.ResolveEntry(web, id, ts)]
      ensures logs.logs == old(logs.logs) + shared.logs
    {
      var harvester := new Harvester.MetadataHarvester(None, None, shared);
      url := harvester.GetUrl(web, id, ts);
      logs.SetLogs(logs.logs + shared.logs);
    }

    /**
     * `retrieve_metadata`: a harvester for `url`, with a logger of its own,
     * runs the whole resolution; its entries are appended to the log. The
     * result is the harvester's, as its `RetrieveMetadata` states it.
     */
    method RetrieveMetadata(web: Harvester.Web, url: string, useHarvester: bool, service: string, ts: string, fuel: nat)
      returns (m: Harvester.Metadata, ghost signposted: bool, ghost early: Harvester.Metadata)
      modifies logs
      ensures Harvester.ResolveId(web, url) == [] ==> m == Harvester.Objects([]) && !signposted
      ensures var u := Harvester.ResolveId(web, url);
              u != [] && useHarvester && Harvester.ServiceSpec(web, u, service).Some? ==>
                m == Harvester.Graph(Harvester.ServiceSpec(web, u, service).value) && !signposted
      ensures signposted ==> Harvester.Signposts(web, Harvester.ResolveId(web, url)) && Harvester.Size(early) > 0 && m == early
      ensures var u := Harvester.ResolveId(web, url);
              u != [] && !(useHarvester && Harvester.ServiceSpec(web, u, service).Some?) && !signposted ==>
                Harvester.Size(early) == 0 && m == Harvester.AfterFirstRequest(web, u, service, Harvester.PageText(web, u), early)
      ensures var u := Harvester.ResolveId(web, url);
              u != [] && !(useHarvester && Harvester.ServiceSpec(web, u, service).Some?) && !Harvester.Signposts(web, u) ==>
                !signposted && early == Harvester.Objects([])
      ensures m.Objects? ==> Harvester.ResolveId(web, url) == [] || Harvester.Signposts(web, Harvester.ResolveId(web, url)) ||
                             !Harvester.Negotiable(web, Harvester.ResolveId(web, url))
      ensures old(logs.logs) <= logs.logs && logs.score == old(logs.score)
    {
      var own := new FairTestLogger();
      var harvester := new Harvester.MetadataHarvester(Some(url), None, own);
      m, signposted, early := harvester.RetrieveMetadata(web, url, useHarvester, service, ts, fuel);
      logs.SetLogs(logs.logs + own.logs);
    }

    // -------------------------------------------------------------------
    // Logging and scoring

    method Log(msg: string, prefix: Option<string>, ts: string)
      modifies logs
      ensures logs.logs == old(logs.logs) + [Entry(msg, prefix, ts)] && logs.score == old(logs.score)
    {
      logs.Log(msg, prefix, ts);
    }

    method Warn(msg: string, ts: string)
      modifies logs
      ensures Tally() == Ledger.Apply(old(Tally()), Ledger.Warn)
      ensures logs.logs == old(logs.logs) + [Entry(msg, Some(WarnPrefix), ts)] && logs.score == old(logs.score)
    {
      logs.Warn(msg, ts);
    }

    method Info(msg: string, ts: string)
      modifies logs
      ensures Tally() == Ledger.Apply(old(Tally()), Ledger.Info)
      ensures logs.logs == old(logs.logs) + [Entry(msg, Some(InfoPrefix), ts)] && logs.score == old(logs.score)
    {
      logs.Info(msg, ts);
    }

    method Failure(msg: string, ts: string)
      modifies this, logs
      ensures Tally() == Ledger.Apply(old(Tally()), Ledger.Failure)
      ensures logs.logs == old(logs.logs) + [Entry(msg, Some(FailurePrefix), ts)] && logs.score == Some(0)
      ensures Stored() == old(Stored()) && subjectUrl == old(subjectUrl)
    {
      score := 0;
      logs.Failure(msg, ts);
    }

    method Success(msg: string, ts: string)
      modifies this, logs
      ensures Tally() == Ledger.Apply(old(Tally()), Ledger.Success)
      ensures logs.logs == old(logs.logs) + [Entry(msg, Some(SuccessPrefix), ts)] && logs.score == old(logs.score)
      ensures Stored() == old(Stored()) && subjectUrl == old(subjectUrl)
    {
      if score >= 1 {
        Bonus(msg, ts);
      } else {
        score := score + 1;
        logs.Success(msg, ts);
      }
    }

    method Bonus(msg: string, ts: string)
      modifies this, logs
      ensures Tally() == Ledger.Apply(old(Tally()), Ledger.Bonus)
      ensures logs.logs == old(logs.logs) + [Entry(msg, Some(SuccessPrefix), ts)] && logs.score == old(logs.score)
      ensures Stored() == old(Stored()) && subjectUrl == old(subjectUrl)
    {
      scoreBonus := scoreBonus + 1;
      logs.Success(msg, ts);
    }

    // -------------------------------------------------------------------
    // extract_prop

    /** The entry for the `k`-th visited triple, after the entries of those before it. */
    method LogValue(ms: seq<Triple>, k: nat, ts: string, ghost base: seq<string>)
      requires k < |ms| && logs.logs == base + ValueEntries(ms[..k], ts)
      modifies logs
      ensures logs.logs == base + ValueEntries(ms[..k + 1], ts) && logs.score == old(logs.score)
    {
      logs.Info(FoundValueMessage(ms[k].p, ms[k].o), ts);
      ConcatAssoc(base, ValueEntries(ms[..k], ts), [ValueEntry(ms[k], ts)]);
      ValueEntriesSnoc(ms, k, ts);
    }

    lemma ObjectsOfSnoc(ms: seq<Triple>, k: nat)
      requires k < |ms|
      ensures ObjectsOf(ms[..k + 1]) == ObjectsOf(ms[..k]) + {ms[k].o}
    {
      assert ms[..k + 1] == ms[..k] + [ms[k]];
    }

    /** Appending the entries of one scan keeps every entry past `before` an entry of a visited triple. */
    static lemma ScanEntriesFound(g: Graph, check: set<Node>, pats: seq<Option<Node>>, j: nat, p: Node, ts: string,
                                  before: seq<string>)
      requires j < |pats| && p in check
      ensures var all := before + ValueEntries(Triples(g, pats[j], Some(p), None), ts);
              forall k :: |before| <= k < |all| ==> FoundValueEntry(g, check, pats, all[k], ts)
    {
      var ms := Triples(g, pats[j], Some(p), None);
      var all := before + ValueEntries(ms, ts);
      ValueEntriesNameTriples(ms, ts);
      assert pats[j] in pats;
      forall k | |before| <= k < |all|
        ensures FoundValueEntry(g, check, pats, all[k], ts)
      {
        var t := ms[k - |before|];
        assert t in ms && Matches(t, pats[j], Some(p), None);
        assert all[k] == Entry(FoundValueMessage(t.p, t.o), Some(InfoPrefix), ts);
      }
    }

    /**
     * The objects of the triples with predicate `p` and a subject fitting
     * `pats[j]`; the log gains exactly one entry per triple, in the order
     * the triples are visited.
     */
    method ScanValues(g: Graph, check: set<Node>, pats: seq<Option<Node>>, j: nat, p: Node, ts: string)
      returns (objs: set<Node>)
      requires j < |pats| && p in check
      modifies logs
      ensures objs == ObjectsOf(Triples(g, pats[j], Some(p), None))
      ensures logs.logs == old(logs.logs) + ValueEntries(Triples(g, pats[j], Some(p), None), ts)
      ensures logs.score == old(logs.score)
    {
      var ms := Triples(g, pats[j], Some(p), None);
      objs := {};
      var k := 0;
      while k < |ms|
        invariant 0 <= k <= |ms|
        invariant objs == ObjectsOf(ms[..k])
        invariant logs.logs == old(logs.logs) + ValueEntries(ms[..k], ts) && logs.score == old(logs.score)
      {
        var t := ms[k];
        LogValue(ms, k, ts, old(logs.logs));
        ObjectsOfSnoc(ms, k);
        objs := objs + {t.o};
        k := k + 1;
      }
      assert ms[..|ms|] == ms;
    }

    /** The values of one predicate on every subject pattern, each visited triple logged. */
    method ScanPredicate(g: Graph, check: set<Node>, pats: seq<Option<Node>>, p: Node, ts: string)
      returns (found: set<Node>)
      requires p in check
      modifies logs
      ensures found == PropValues(g, {p}, pats)
      ensures logs.logs == old(logs.logs) + PredicateEntries(g, p, pats, ts) && logs.score == old(logs.score)
      ensures forall k :: |old(logs.logs)| <= k < |logs.logs| ==> FoundValueEntry(g, check, pats, logs.logs[k], ts)
    {
      found := {};
      PropValuesNoSubjects(g, {p});
      var j := 0;
      while j < |pats|
        invariant 0 <= j <= |pats|
        invariant found == PropValues(g, {p}, pats[..j])
        invariant logs.logs == old(logs.logs) + PredicateEntries(g, p, pats[..j], ts) && logs.score == old(logs.score)
      {
        var objs := ScanValues(g, check, pats, j, p, ts);
        ConcatAssoc(old(logs.logs), PredicateEntries(g, p, pats[..j], ts), ValueEntries(Triples(g, pats[j], Some(p), None), ts));
        NextSubjectEntries(g, p, pats, j, ts);
        NextSubject(g, p, pats, j);
        found := found + objs;
        j := j + 1;
      }
      assert pats[..|pats|] == pats;
      PredicateEntriesFound(g, check, pats, p, |pats|, ts);
    }

    /** The values of each listed predicate on every subject pattern, each visited triple logged. */
    method ScanPredicates(g: Graph, check: set<Node>, ps: seq<Node>, pats: seq<Option<Node>>, ts: string)
      returns (found: set<Node>)
      requires Elems(ps) <= check
      modifies logs
      ensures found == PropValues(g, Elems(ps), pats)
      ensures logs.logs == old(logs.logs) + PredicatesEntries(g, ps, pats, ts) && logs.score == old(logs.score)
    {
      found := {};
      PropValuesNoPredicates(g, pats);
      var i := 0;
      while i < |ps|
        invariant 0 <= i <= |ps|
        invariant found == PropValues(g, Elems(ps[..i]), pats)
        invariant logs.logs == old(logs.logs) + PredicatesEntries(g, ps[..i], pats, ts) && logs.score == old(logs.score)
      {
        assert ps[i] in Elems(ps);
        var objs := ScanPredicate(g, check, pats, ps[i], ts);
        ConcatAssoc(old(logs.logs), PredicatesEntries(g, ps[..i], pats, ts), PredicateEntries(g, ps[i], pats, ts));
        NextPredicateEntries(g, ps, i, pats, ts);
        NextPredicate(g, ps, i, pats);
        found := found + objs;
        i := i + 1;
      }
      assert ps[..|ps|] == ps;
    }

    /**
     * `extract_prop`: the values of the given predicates (each also under
     * its other scheme) on the given subjects, every value once, and one
     * log entry per visited triple, predicate by predicate in the (set)
     * order the predicates are visited.
     */
    method ExtractProp(g: Graph, preds: seq<string>, subj: Subjects, ts: string) returns (values: seq<Node>)
      modifies logs
      ensures Distinct(values) && Elems(values) == PropValues(g, CheckPredicates(preds), Patterns(subj))
      ensures exists ps :: Distinct(ps) && Elems(ps) == CheckPredicates(preds) &&
                logs.logs == old(logs.logs) + PredicatesEntries(g, ps, Patterns(subj), ts)
      ensures logs.score == old(logs.score)
      ensures forall k :: |old(logs.logs)| <= k < |logs.logs| ==>
                FoundValueEntry(g, CheckPredicates(preds), Patterns(subj), logs.logs[k], ts)
    {
      var check := CheckPreds(preds);
      var ps := SetToList(check);
      var pats := Patterns(subj);
      var found := ScanPredicates(g, check, ps, pats, ts);
      PredicatesEntriesFound(g, check, ps, pats, ts);
      values := SetToList(found);
    }

    // -------------------------------------------------------------------
    // extract_metadata_subject

    /** The entry naming one more visited subject. */
    method LogSubject(subj: Node, ts: string, ghost seen: seq<Node>, ghost base: seq<string>)
      requires logs.logs == base + SubjectEntries(seen, ts)
      modifies logs
      ensures logs.logs == base + SubjectEntries(seen + [subj], ts) && logs.score == old(logs.score)
    {
      logs.Info("Found the subject URI in the metadata: " + Str(subj), ts);
      SubjectEntriesSnoc(seen, subj, ts);
    }

    /** Visiting the triples whose subject is the alias, each one logged. */
    method ScanDirect(st: Search, ms: seq<Triple>, ref: Node, ts: string, ghost base: seq<string>) returns (r: Search)
      requires logs.logs == base + SubjectEntries(st.seen, ts)
      modifies logs
      ensures r == Direct(st, ms, ref)
      ensures logs.logs == base + SubjectEntries(r.seen, ts) && logs.score == old(logs.score)
    {
      r := st;
      var k := 0;
      while k < |ms|
        invariant 0 <= k <= |ms|
        invariant Direct(r, ms[k..], ref) == Direct(st, ms, ref)
        invariant logs.logs == base + SubjectEntries(r.seen, ts) && logs.score == old(logs.score)
      {
        var t := ms[k];
        LogSubject(t.s, ts, r.seen, base);
        r := Search(Some(ref), r.properties[Str(t.p) := Str(t.o)], r.linkedTo, r.seen + [t.s]);
        assert ms[k..][1..] == ms[k + 1..];
        k := k + 1;
      }
    }

    /** Visiting triples that point at the alias, each one logged. */
    method ScanLinked(st: Search, ms: seq<Triple>, ts: string, ghost base: seq<string>) returns (r: Search)
      requires logs.logs == base + SubjectEntries(st.seen, ts)
      modifies logs
      ensures r == Linked(st, ms)
      ensures logs.logs == base + SubjectEntries(r.seen, ts) && logs.score == old(logs.score)
    {
      r := st;
      var k := 0;
      while k < |ms|
        invariant 0 <= k <= |ms|
        invariant Linked(r, ms[k..]) == Linked(st, ms)
        invariant logs.logs == base + SubjectEntries(r.seen, ts) && logs.score == old(logs.score)
      {
        var t := ms[k];
        LogSubject(t.s, ts, r.seen, base);
        r := Search(Some(t.s), r.properties, r.linkedTo[Str(t.s) := Str(t.p)], r.seen + [t.s]);
        assert ms[k..][1..] == ms[k + 1..];
        k := k + 1;
      }
    }

    /** One alias of the search. */
    method SearchAlias(g: Graph, st: Search, alt: string, ts: string, ghost base: seq<string>) returns (r: Search)
      requires logs.logs == base + SubjectEntries(st.seen, ts)
      modifies logs
      ensures r == AliasStep(g, st, AllIdPredicates, alt)
      ensures logs.logs == base + SubjectEntries(r.seen, ts) && logs.score == old(logs.score)
    {
      var ref := IRI(alt);
      r := ScanDirect(st, Triples(g, Some(ref), None, None), ref, ts, base);
      if !Truthy(r.subject) {
        ghost var st1 := r;
        var preds := AllIdPredicates;
        var k := 0;
        while k < |preds|
          invariant 0 <= k <= |preds|
          invariant ByPredicates(g, r, preds[k..], ref) == ByPredicates(g, st1, preds, ref)
          invariant logs.logs == base + SubjectEntries(r.seen, ts) && logs.score == old(logs.score)
        {
          var pred := IRI(preds[k]);
          r := ScanLinked(r, Triples(g, None, Some(pred), Some(ref)), ts, base);
          if !Truthy(r.subject) {
            r := ScanLinked(r, Triples(g, None, Some(pred), Some(Plain(Str(ref)))), ts, base);
          }
          assert preds[k..][1..] == preds[k + 1..];
          k := k + 1;
        }
      }
    }

    /**
     * `extract_metadata_subject`: the node standing for the subject in `g`
     * (the last match wins), found from the given aliases or, when those
     * are falsy, the stored ones; the properties and links found are stored.
     */
    method ExtractMetadataSubject(g: Graph, altUris: Option<seq<string>>, ts: string)
      returns (r: Result<Option<Node>, string>)
      modifies this, logs
      ensures SearchedAliases(altUris, old(alternativeUris)).None? ==>
                r == Err(MissingAliases) && logs.logs == old(logs.logs) && identifierInMetadata == old(identifierInMetadata)
      ensures SearchedAliases(altUris, old(alternativeUris)).Some? ==>
                var st := SearchAll(g, Start, AllIdPredicates, SearchedAliases(altUris, old(alternativeUris)).value);
                r == Ok(st.subject) &&
                identifierInMetadata == Recorded(old(identifierInMetadata), st) &&
                logs.logs == old(logs.logs) + SubjectEntries(st.seen, ts)
      ensures alternativeUris == old(alternativeUris) && contentUrl == old(contentUrl)
      ensures Tally() == old(Tally()) && subjectUrl == old(subjectUrl) && logs.score == old(logs.score)
    {
      var aliases := SearchedAliases(altUris, alternativeUris);
      if aliases.None? {
        return Err(MissingAliases);
      }
      var alts := aliases.value;
      ghost var base := logs.logs;
      var st := Start;
      var i := 0;
      while i < |alts|
        invariant 0 <= i <= |alts|
        modifies logs
        invariant SearchAll(g, st, AllIdPredicates, alts[i..]) == SearchAll(g, Start, AllIdPredicates, alts)
        invariant logs.logs == base + SubjectEntries(st.seen, ts) && logs.score == old(logs.score)
      {
        st := SearchAlias(g, st, alts[i], ts, base);
        assert alts[i..][1..] == alts[i + 1..];
        i := i + 1;
      }
      identifierInMetadata := Recorded(identifierInMetadata, st);
      r := Ok(st.subject);
    }

    // -------------------------------------------------------------------
    // extract_data_subject

    /**
     * `extract_data_subject`: the values of the data predicates on the given
     * subjects (by default the stored aliases), each value once; the download
     * URLs found for them replace `content_url`.
     */
    method ExtractDataSubject(g: Graph, subj: Subjects, ts: string) returns (r: Result<seq<Node>, string>)
      modifies this, logs
      ensures DataPatterns(subj, old(alternativeUris)).None? ==>
                r == Err(MissingAliases) && logs.logs == old(logs.logs) && contentUrl == old(contentUrl)
      ensures DataPatterns(subj, old(alternativeUris)).Some? ==>
                r.Ok? && Distinct(r.value) &&
                Elems(r.value) == PropValues(g, CheckPredicates(DataProps), Patterns(DataPatterns(subj, old(alternativeUris)).value)) &&
                contentUrl.Some? && Distinct(contentUrl.value) && Elems(contentUrl.value) == DownloadUrls(g, CheckPredicates(ContentProps), Elems(r.value))
      ensures old(logs.logs) <= logs.logs && logs.score == old(logs.score)
      ensures alternativeUris == old(alternativeUris) && identifierInMetadata == old(identifierInMetadata)
      ensures Tally() == old(Tally()) && subjectUrl == old(subjectUrl)
    {
      var pats := DataPatterns(subj, alternativeUris);
      if pats.None? {
        return Err(MissingAliases);
      }
      var dataUris, extracted := FindDataUris(g, pats.value, ts);
      var listed := SetToList(extracted);
      contentUrl := Some([] + listed);
      r := Ok(dataUris);
    }

    /** The look-ups of `extract_data_subject`, each announced in the log. */
    method FindDataUris(g: Graph, pats: Subjects, ts: string) returns (dataUris: seq<Node>, extracted: set<string>)
      modifies logs
      ensures Distinct(dataUris) && Elems(dataUris) == PropValues(g, CheckPredicates(DataProps), Patterns(pats))
      ensures extracted == DownloadUrls(g, CheckPredicates(ContentProps), Elems(dataUris))
      ensures old(logs.logs) <= logs.logs && logs.score == old(logs.score)
    {
      Info("Searching for the data URI using the following predicates: " + Join(", ", DataProps), ts);
      dataUris := ExtractProp(g, DataProps, pats, ts);
      Info("Checking if the data URI point to a download URL using one of the following predicates: " +
           Join(", ", ContentProps), ts);
      extracted := CollectDownloadUrls(g, ContentProps, dataUris, ts);
    }

    /** The loop over the data URIs: blank nodes are looked up for content URLs, other nodes kept. */
    method CollectDownloadUrls(g: Graph, contentProps: seq<string>, dataUris: seq<Node>, ts: string)
      returns (extracted: set<string>)
      modifies logs
      ensures extracted == DownloadUrls(g, CheckPredicates(contentProps), Elems(dataUris))
      ensures old(logs.logs) <= logs.logs && logs.score == old(logs.score)
    {
      extracted := {};
      var i := 0;
      while i < |dataUris|
        invariant 0 <= i <= |dataUris|
        invariant extracted == DownloadUrls(g, CheckPredicates(contentProps), Elems(dataUris[..i]))
        invariant old(logs.logs) <= logs.logs && logs.score == old(logs.score)
      {
        var u := dataUris[i];
        if u.BNode? {
          var contentUrls := ExtractProp(g, contentProps, One(Some(u)), ts);
          extracted := AddStrings(extracted, contentUrls);
        } else {
          extracted := extracted + {Str(u)};
        }
        NextDataUri(g, CheckPredicates(contentProps), dataUris, i);
        i := i + 1;
      }
      assert dataUris[..|dataUris|] == dataUris;
    }
  }
}
