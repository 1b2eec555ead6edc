/**
 * MetadataHarvester: turns an identifier into a URL and retrieves the RDF
 * metadata published at that URL, trying in turn an external harvester
 * service (on request), Signposting links, metadata embedded in the HTML
 * page, content negotiation, and the harvester service as a last resort.
 *
 * The libraries and the network are an environment `Web` of functions: the
 * identifier classifiers and `to_url`, HTTP GET and POST, the HTML metadata
 * extractor, JSON-LD expansion and serialisation, and the RDF parser.
 */
module Harvester {
  import opened Wrappers
  import opened Strings
  import opened JsonValue
  import opened Rdf
  import opened Logger

  // ---------------------------------------------------------------------
  // The environment

  /** What the RDF parser is handed: text, or a JSON scalar that is neither a string nor a container. */
  datatype Payload = Text(text: string) | Scalar(value: Json)

  /** One parse attempt: the graph, or the error and whatever the graph holds when the parser gave up. */
  datatype Outcome = Parsed(graph: Graph) | Failed(partial: Graph, error: string)

  /**
   * An HTTP reply: its status, final URL, whether it was redirected, body,
   * the rel -> URL map of its `Link` header with that map's printed form,
   * its Content-Type header if any, its body read as JSON if that succeeds,
   * and the text of the error `raise_for_status` raises for it.
   */
  datatype Response = Response(
    status: int, url: string, redirected: bool, text: string,
    links: map<string, string>, linksText: string,
    contentType: Option<string>, json: Option<Json>, httpError: string)

  /** An HTTP request either gets a reply or raises. */
  datatype Fetch = Reply(response: Response) | Raised(error: string)

  /** The four kinds of embedded metadata the extractor hands back. */
  datatype Extracted = Extracted(jsonld: seq<Json>, rdfa: seq<Json>, microdata: seq<Json>, dublincore: seq<Json>)

  datatype Web = Web(
    isUrl: string -> bool,
    isDoi: string -> bool,
    isHandle: string -> bool,
    toUrl: (string, string) -> string,
    get: (string, Option<string>) -> Fetch,
    post: (string, string) -> Fetch,
    extract: string -> Result<Extracted, string>,
    expand: seq<Json> -> Result<Json, string>,
    dumps: Json -> string,
    parse: (Payload, string) -> Outcome)

  /** What `retrieve_metadata` hands back: a graph, or the JSON objects found when no RDF was. */
  datatype Metadata = Graph(graph: Graph) | Objects(items: seq<Json>)

  /** Python `len(...)` of a metadata value; a value of size 0 is falsy. */
  function Size(m: Metadata): nat {
    match m
    case Graph(g) => |g|
    case Objects(xs) => |xs|
  }

  /** `raise_for_status` raises for 4xx and 5xx statuses only. */
  predicate StatusOk(status: int) {
    !(400 <= status < 600)
  }

  function ShowOpt(s: Option<string>): string {
    if s.Some? then s.value else "None"
  }

  // ---------------------------------------------------------------------
  // Identifiers

  /** `get_url`: a URL is kept, a DOI or a handle becomes its https URL, anything else is kept. */
  function ResolveId(web: Web, id: string): string {
    if web.isUrl(id) then id
    else if web.isDoi(id) then web.toUrl(id, "doi")
    else if web.isHandle(id) then web.toUrl(id, "handle")
    else id
  }

  /** The one entry `get_url` logs. */
  function ResolveEntry(web: Web, id: string, ts: string): string {
    if web.isUrl(id) then Entry("Validated the resource " + id + " is a URL", Some(InfoPrefix), ts)
    else if web.isDoi(id) then Entry("Validated the resource " + id + " is a DOI", Some(InfoPrefix), ts)
    else if web.isHandle(id) then Entry("Validated the resource " + id + " is a handle", Some(InfoPrefix), ts)
    else Entry("Could not validate the given resource URI " + id + " is a URL, DOI, or handle", Some(WarnPrefix), ts)
  }

  /**
   * Resolving is idempotent as long as the URLs `to_url` builds are
   * recognised as URLs: a resolved identifier resolves to itself.
   */
  lemma ResolveIdempotent(web: Web, id: string)
    requires !web.isUrl(id) && web.isDoi(id) ==> web.isUrl(web.toUrl(id, "doi"))
    requires !web.isUrl(id) && !web.isDoi(id) && web.isHandle(id) ==> web.isUrl(web.toUrl(id, "handle"))
    ensures ResolveId(web, ResolveId(web, id)) == ResolveId(web, id)
  {
  }

  /** An identifier is changed only when it is a DOI or a handle not already read as a URL. */
  lemma ResolveChangesOnlyIdentifiers(web: Web, id: string)
    ensures ResolveId(web, id) != id ==> !web.isUrl(id) && (web.isDoi(id) || web.isHandle(id))
    ensures ResolveId(web, id) == id || ResolveId(web, id) == web.toUrl(id, "doi") || ResolveId(web, id) == web.toUrl(id, "handle")
  {
  }

  // ---------------------------------------------------------------------
  // Pinning the schema.org JSON-LD context

  const ContextKey := "@context"
  const PinnedContext := "https://schema.org/docs/jsonldcontext.json"

  /** Every string of a list context becomes the pinned context; other members are kept. */
  function PinStrings(cs: seq<Json>): (r: seq<Json>)
    ensures |r| == |cs|
    ensures forall i :: 0 <= i < |cs| ==> r[i] == (if cs[i].JStr? then JStr(PinnedContext) else cs[i])
  {
    seq(|cs|, i requires 0 <= i < |cs| => if cs[i].JStr? then JStr(PinnedContext) else cs[i])
  }

  predicate SchemaOrgContext(c: string) {
    StartsWith(c, "http://schema.org") || StartsWith(c, "https://schema.org")
  }

  /**
   * The context fix applied to one entry of a JSON-LD list. Only an object
   * with an `@context` member changes: a schema.org string context is
   * replaced by the pinned context, and every string of a list context is.
   * Any other entry makes the fix raise, which is swallowed, so it is kept.
   */
  function RewriteEntry(e: Json): Json {
    match e
    case JObj(f) =>
      if ContextKey in f then
        match f[ContextKey]
        case JStr(c) => if SchemaOrgContext(c) then JObj(f[ContextKey := JStr(PinnedContext)]) else e
        case JArr(cs) => JObj(f[ContextKey := JArr(PinStrings(cs))])
        case _ => e
      else e
    case _ => e
  }

  function RewriteAll(es: seq<Json>): (r: seq<Json>)
    ensures |r| == |es| && forall i :: 0 <= i < |es| ==> r[i] == RewriteEntry(es[i])
  {
    seq(|es|, i requires 0 <= i < |es| => RewriteEntry(es[i]))
  }

  /** The pinned context is itself a schema.org context. */
  lemma PinnedIsSchemaOrg()
    ensures SchemaOrgContext(PinnedContext)
  {
    assert PinnedContext[..18] == "https://schema.org";
  }

  /** So the fix leaves a fixed entry alone. */
  lemma RewriteIdempotent(e: Json)
    ensures RewriteEntry(RewriteEntry(e)) == RewriteEntry(e)
  {
    if e.JObj? && ContextKey in e.fields {
      var f := e.fields;
      match f[ContextKey]
      case JStr(c) =>
        if SchemaOrgContext(c) {
          PinnedIsSchemaOrg();
          var f' := f[ContextKey := JStr(PinnedContext)];
          assert f'[ContextKey := JStr(PinnedContext)] == f';
        }
      case JArr(cs) =>
        var f' := f[ContextKey := JArr(PinStrings(cs))];
        assert PinStrings(PinStrings(cs)) == PinStrings(cs);
        assert f'[ContextKey := JArr(PinStrings(PinStrings(cs)))] == f';
      case _ =>
    }
  }

  /** The fix touches nothing but the `@context` member of objects. */
  lemma RewriteOnlyContext(e: Json)
    ensures !e.JObj? ==> RewriteEntry(e) == e
    ensures e.JObj? ==> RewriteEntry(e).JObj? && RewriteEntry(e).fields.Keys == e.fields.Keys
    ensures e.JObj? ==> forall k :: k in e.fields && k != ContextKey ==> RewriteEntry(e).fields[k] == e.fields[k]
  {
  }

  /** After the fix no schema.org string context and no string in a list context is left but the pinned one. */
  lemma RewritePins(e: Json)
    requires e.JObj? && ContextKey in e.fields
    ensures var c := RewriteEntry(e).fields[ContextKey];
            (c.JStr? ==> c.str == PinnedContext || !SchemaOrgContext(c.str)) &&
            (c.JArr? ==> forall i :: 0 <= i < |c.items| && c.items[i].JStr? ==> c.items[i].str == PinnedContext)
  {
  }

  /** The fix as the source applies it: in place, entry after entry of the list. */
  method RewriteContexts(a: array<Json>)
    modifies a
    ensures a[..] == RewriteAll(old(a[..]))
  {
    var i := 0;
    while i < a.Length
      invariant 0 <= i <= a.Length
      invariant forall k :: 0 <= k < i ==> a[k] == RewriteEntry(old(a[k]))
      invariant forall k :: i <= k < a.Length ==> a[k] == old(a[k])
    {
      a[i] := RewriteEntry(a[i]);
      i := i + 1;
    }
  }

  // ---------------------------------------------------------------------
  // Choosing the parsers

  const AllFormats := ["turtle", "json-ld", "xml", "ntriples", "nquads", "trig", "n3"]

  /** The words of a media type that select a single parser, in the order they are checked. */
  const FormatWords := ["turtle", "xml", "ntriples", "nquads", "trig"]

  /** Only an absent or empty media type leaves every parser to try. */
  predicate Given(mime: Option<string>) {
    mime.Some? && mime.value != []
  }

  /**
   * The parsers tried for text: the media type is cut at its first ';' and
   * the first of turtle, xml, ntriples, nquads, trig that it mentions picks
   * the one parser; otherwise every parser is tried in turn.
   */
  function SelectFormats(mime: Option<string>): (r: seq<string>)
    ensures |r| >= 1
  {
    if !Given(mime) then AllFormats
    else
      var m := BeforeFirst(mime.value, ';');
      if Contains(m, "turtle") then ["turtle"]
      else if Contains(m, "xml") then ["xml"]
      else if Contains(m, "ntriples") then ["ntriples"]
      else if Contains(m, "nquads") then ["nquads"]
      else if Contains(m, "trig") then ["trig"]
      else AllFormats
  }

  /**
   * Reference reading of the format choice: the parser chosen is the first
   * word of `FormatWords` the media type (before ';') mentions, and all
   * parsers are tried exactly when it mentions none.
   */
  lemma SelectFormatsFirstWord(mime: string, i: nat)
    requires mime != [] && i < |FormatWords|
    requires Contains(BeforeFirst(mime, ';'), FormatWords[i])
    requires forall j :: 0 <= j < i ==> !Contains(BeforeFirst(mime, ';'), FormatWords[j])
    ensures SelectFormats(Some(mime)) == [FormatWords[i]]
  {
    var m := BeforeFirst(mime, ';');
    if i >= 1 { assert !Contains(m, FormatWords[0]); }
    if i >= 2 { assert !Contains(m, FormatWords[1]); }
    if i >= 3 { assert !Contains(m, FormatWords[2]); }
    if i >= 4 { assert !Contains(m, FormatWords[3]); }
  }

  lemma SelectFormatsNoWord(mime: Option<string>)
    requires Given(mime) ==> forall j :: 0 <= j < |FormatWords| ==> !Contains(BeforeFirst(mime.value, ';'), FormatWords[j])
    ensures SelectFormats(mime) == AllFormats
  {
    if Given(mime) {
      var m := BeforeFirst(mime.value, ';');
      assert !Contains(m, FormatWords[0]) && !Contains(m, FormatWords[1]) && !Contains(m, FormatWords[2]);
      assert !Contains(m, FormatWords[3]) && !Contains(m, FormatWords[4]);
    }
  }

  /** Media-type parameters are ignored: `type;params` selects what `type` does. */
  lemma SelectFormatsIgnoresParameters(m: string, params: string)
    requires ';' !in m && m != []
    ensures SelectFormats(Some(m + ";" + params)) == SelectFormats(Some(m))
  {
    BeforeFirstAt(m, params, ';');
    assert m + ";" + params == m + [';'] + params;
    BeforeFirstAbsent(m, ';');
  }

  // ---------------------------------------------------------------------
  // Parsing

  const RolePredicate := "http://www.w3.org/1999/xhtml/vocab#role"

  /**
   * The parser loop: the first format that parses gives the graph, cleared
   * of the XHTML role triples; when none does, the graph left by the last
   * attempt is kept (`g` is the graph before any attempt).
   */
  function ParseLoop(web: Web, p: Payload, formats: seq<string>, g: Graph): Graph
    decreases |formats|
  {
    if formats == [] then g
    else
      match web.parse(p, formats[0])
      case Parsed(h) => RemovePredicate(h, IRI(RolePredicate))
      case Failed(h, _) => ParseLoop(web, p, formats[1..], h)
  }

  /** The first format that parses decides the graph. */
  lemma {:induction false} FirstParseWins(web: Web, p: Payload, formats: seq<string>, g: Graph, i: nat)
    requires i < |formats| && web.parse(p, formats[i]).Parsed?
    requires forall j :: 0 <= j < i ==> web.parse(p, formats[j]).Failed?
    ensures ParseLoop(web, p, formats, g) == RemovePredicate(web.parse(p, formats[i]).graph, IRI(RolePredicate))
    decreases i
  {
    if i > 0 {
      assert web.parse(p, formats[0]).Failed?;
      FirstParseWins(web, p, formats[1..], web.parse(p, formats[0]).partial, i - 1);
    }
  }

  /** When every format fails, the graph is whatever the last attempt left. */
  lemma {:induction false} AllFailKeepsLast(web: Web, p: Payload, formats: seq<string>, g: Graph)
    requires |formats| >= 1
    requires forall j :: 0 <= j < |formats| ==> web.parse(p, formats[j]).Failed?
    ensures ParseLoop(web, p, formats, g) == web.parse(p, formats[|formats| - 1]).partial
    decreases |formats|
  {
    assert web.parse(p, formats[0]).Failed?;
    if |formats| > 1 {
      AllFailKeepsLast(web, p, formats[1..], web.parse(p, formats[0]).partial);
    }
  }

  /** The input of `parse_rdf`: text, or a value read as JSON. */
  datatype RdfData = Raw(text: string) | Data(value: Json)

  /** A dict is parsed as a one-entry list; a list as itself; anything else is not JSON-LD to expand. */
  function JsonEntries(d: RdfData): Option<seq<Json>> {
    match d
    case Data(JObj(f)) => Some([JObj(f)])
    case Data(JArr(xs)) => Some(xs)
    case _ => None
  }

  function AsPayload(d: RdfData): Payload {
    match d
    case Raw(s) => Text(s)
    case Data(JStr(s)) => Text(s)
    case Data(j) => Scalar(j)
  }

  /**
   * `parse_rdf`: JSON-LD entries get the context fix, are expanded (an
   * expansion error is raised to the caller, `Err` here), serialised and
   * parsed as JSON-LD; anything else is parsed with the parsers the media
   * type selects.
   */
  function ParseSpec(web: Web, d: RdfData, mime: Option<string>): (r: Result<Graph, string>)
    ensures r.Err? ==> JsonEntries(d).Some?
  {
    match JsonEntries(d)
    case Some(es) =>
      (match web.expand(RewriteAll(es))
       case Err(e) => Err(e)
       case Ok(x) => Ok(ParseLoop(web, Text(web.dumps(x)), ["json-ld"], [])))
    case None => Ok(ParseLoop(web, AsPayload(d), SelectFormats(mime), []))
  }

  /** A graph a parser produced carries no XHTML role triple. */
  lemma ParsedGraphHasNoRole(web: Web, d: RdfData, mime: Option<string>, t: Triple)
    requires JsonEntries(d).None?
    requires exists i :: 0 <= i < |SelectFormats(mime)| && web.parse(AsPayload(d), SelectFormats(mime)[i]).Parsed?
    requires t in ParseSpec(web, d, mime).value
    ensures t.p != IRI(RolePredicate)
  {
    var fs := SelectFormats(mime);
    var i := FirstParsed(web, AsPayload(d), fs);
    FirstParseWins(web, AsPayload(d), fs, [], i);
  }

  /** The index of the first format that parses. */
  function FirstParsed(web: Web, p: Payload, fs: seq<string>): (i: nat)
    requires exists i :: 0 <= i < |fs| && web.parse(p, fs[i]).Parsed?
    ensures i < |fs| && web.parse(p, fs[i]).Parsed?
    ensures forall j :: 0 <= j < i ==> web.parse(p, fs[j]).Failed?
    decreases |fs|
  {
    if web.parse(p, fs[0]).Parsed? then 0
    else
      var k :| 0 <= k < |fs| && web.parse(p, fs[k]).Parsed?;
      assert fs[1..][k - 1] == fs[k];
      var j := FirstParsed(web, p, fs[1..]);
      j + 1
  }

  // ---------------------------------------------------------------------
  // Redirects

  const ElsevierPrefix := "https://" + "linkinghub.elsevier.com/retrieve/pii/"
  const ScienceDirectPrefix := "https://" + "www.sciencedirect.com/science/article/pii/"

  /** Where a redirect leads: Elsevier's resolver is read as the ScienceDirect article page it fails to reach. */
  function RedirectTarget(u: string): string {
    if StartsWith(u, ElsevierPrefix) then ReplaceAll(u, ElsevierPrefix, ScienceDirectPrefix) else u
  }

  /**
   * The aliases a redirect of the subject adds: the target, then the target
   * with the other scheme, chosen by the scheme of the reply's own URL.
   */
  function RedirectAliases(u: string): seq<string> {
    var target := RedirectTarget(u);
    [target] +
      (if StartsWith(u, "http://") then [ReplaceAll(target, "http://", "https://")]
       else if StartsWith(u, "https://") then [ReplaceAll(target, "https://", "http://")]
       else [])
  }

  /** A redirect adds aliases only for the subject itself, only when its target is new, and only to an existing alias list. */
  function RedirectAliasUpdate(alts: Option<seq<string>>, isSubject: bool, u: string): Option<seq<string>> {
    if isSubject && alts.Some? && RedirectTarget(u) !in alts.value then Some(alts.value + RedirectAliases(u))
    else alts
  }

  /** An Elsevier redirect is read as the ScienceDirect page; any other target is kept. */
  lemma RedirectTargetRewritesElsevier(u: string)
    ensures StartsWith(u, ElsevierPrefix) ==> StartsWith(RedirectTarget(u), ScienceDirectPrefix)
    ensures StartsWith(u, ElsevierPrefix) ==>
      RedirectTarget(u) == ScienceDirectPrefix + ReplaceAll(u[|ElsevierPrefix|..], ElsevierPrefix, ScienceDirectPrefix)
    ensures StartsWith(u, ElsevierPrefix) && !Contains(u[|ElsevierPrefix|..], ElsevierPrefix) ==>
      RedirectTarget(u) == ScienceDirectPrefix + u[|ElsevierPrefix|..]
    ensures !StartsWith(u, ElsevierPrefix) ==> RedirectTarget(u) == u
  {
    if StartsWith(u, ElsevierPrefix) {
      ReplaceAllKeepsPrefix(u, ElsevierPrefix, ScienceDirectPrefix);
      ReplaceAllAtStart(u, ElsevierPrefix, ScienceDirectPrefix);
      if !Contains(u[|ElsevierPrefix|..], ElsevierPrefix) {
        ReplaceAllAbsent(u[|ElsevierPrefix|..], ElsevierPrefix, ScienceDirectPrefix);
      }
    }
  }

  lemma PrefixesAreHttps()
    ensures StartsWith(ElsevierPrefix, "https://") && StartsWith(ScienceDirectPrefix, "https://")
  {
    StartsWithConcat("https://", "linkinghub.elsevier.com/retrieve/pii/");
    StartsWithConcat("https://", "www.sciencedirect.com/science/article/pii/");
  }

  /** A redirect to an http or https URL adds the target under both schemes, the reply's scheme first. */
  lemma RedirectAliasesBothSchemes(u: string)
    requires StartsWith(u, "http://") || StartsWith(u, "https://")
    ensures |RedirectAliases(u)| == 2
    ensures StartsWith(u, "http://") ==>
              StartsWith(RedirectAliases(u)[0], "http://") && StartsWith(RedirectAliases(u)[1], "https://")
    ensures StartsWith(u, "https://") ==>
              StartsWith(RedirectAliases(u)[0], "https://") && StartsWith(RedirectAliases(u)[1], "http://")
  {
    SchemesExclusive(u);
    if StartsWith(u, "http://") {
      HttpRedirectAliases(u);
    } else {
      HttpsRedirectAliases(u);
    }
  }

  lemma HttpRedirectAliases(u: string)
    requires StartsWith(u, "http://")
    ensures RedirectAliases(u) == [u, ReplaceAll(u, "http://", "https://")]
    ensures StartsWith(ReplaceAll(u, "http://", "https://"), "https://")
  {
    PrefixesAreHttps();
    SchemesExclusive(u);
    if StartsWith(u, ElsevierPrefix) {
      StartsWithTrans(u, ElsevierPrefix, "https://");
    }
    ReplaceAllKeepsPrefix(u, "http://", "https://");
  }

  lemma HttpsRedirectAliases(u: string)
    requires StartsWith(u, "https://")
    ensures StartsWith(RedirectTarget(u), "https://")
    ensures RedirectAliases(u) == [RedirectTarget(u), ReplaceAll(RedirectTarget(u), "https://", "http://")]
    ensures StartsWith(ReplaceAll(RedirectTarget(u), "https://", "http://"), "http://")
  {
    PrefixesAreHttps();
    SchemesExclusive(u);
    RedirectTargetRewritesElsevier(u);
    if StartsWith(u, ElsevierPrefix) {
      StartsWithTrans(RedirectTarget(u), ScienceDirectPrefix, "https://");
    }
    ReplaceAllKeepsPrefix(RedirectTarget(u), "https://", "http://");
  }

  /** Repeating the same redirect adds nothing more. */
  lemma RedirectAliasUpdateOnce(alts: Option<seq<string>>, isSubject: bool, u: string)
    ensures RedirectAliasUpdate(RedirectAliasUpdate(alts, isSubject, u), isSubject, u) == RedirectAliasUpdate(alts, isSubject, u)
  {
    if isSubject && alts.Some? && RedirectTarget(u) !in alts.value {
      assert (alts.value + RedirectAliases(u))[|alts.value|] == RedirectTarget(u);
    }
  }

  // ---------------------------------------------------------------------
  // Signposting

  const SignpostingRels := ["alternate", "describedby", "meta"]

  predicate Absolute(link: string) {
    StartsWith(link, "http://") || StartsWith(link, "https://")
  }

  /** A Signposting link read against the reply's URL; one '/' is dropped where both sides bring one. */
  function JoinLink(base: string, link: string): string {
    if Absolute(link) then link
    else if EndsWith(base, "/") && StartsWith(link, "/") then base + link[1..]
    else base + link
  }

  /** A relative link is resolved below the reply's URL and never doubles the '/' at the seam; an absolute one is kept. */
  lemma JoinLinkResolves(base: string, link: string)
    ensures Absolute(link) ==> JoinLink(base, link) == link
    ensures !Absolute(link) ==> StartsWith(JoinLink(base, link), base)
    ensures !Absolute(link) && EndsWith(base, "/") ==>
            |JoinLink(base, link)| == |base| + |link| - (if StartsWith(link, "/") then 1 else 0)
  {
    if !Absolute(link) {
      if EndsWith(base, "/") && StartsWith(link, "/") {
        StartsWithConcat(base, link[1..]);
      } else {
        StartsWithConcat(base, link);
      }
    }
  }

  // ---------------------------------------------------------------------
  // Metadata embedded in the HTML page

  /** What the extractor reports for Dublin Core when the page has none. */
  const EmptyDublinCore: seq<Json> :=
    [JObj(map["namespaces" := JObj(map[]), "elements" := JArr([]), "terms" := JArr([])])]

  /** The outcome of a step: a graph to return at once, and the JSON kept as a fallback. */
  datatype Harvest = Harvest(graph: Option<Graph>, raw: Metadata)

  /** After one kind of embedded metadata: the step is over, or it goes on with this fallback. */
  datatype Step = Done(harvest: Harvest) | Go(obj: Metadata)

  /**
   * One kind (JSON-LD or RDFa) read as JSON-LD: a parse that raises ends the
   * step with the fallback so far, a non-empty graph ends it with that graph,
   * and an empty one makes the kind itself the fallback (for RDFa only when
   * there is none yet, `keepFirst`). The parse applies the context fix to the
   * extractor's own list, so the kind kept as the fallback carries the fix.
   */
  function KindStep(web: Web, kind: seq<Json>, obj: Metadata, keepFirst: bool): Step {
    if |kind| == 0 then Go(obj)
    else
      var p := ParseSpec(web, Data(JArr(kind)), Some("json-ld"));
      if p.Err? then Done(Harvest(None, obj))
      else if |p.value| > 0 then Done(Harvest(Some(p.value), obj))
      else Go(if keepFirst && Size(obj) > 0 then obj else Objects(RewriteAll(kind)))
  }

  /** Microdata, then Dublin Core unless it is the extractor's empty report, when there is no fallback yet. */
  function RawRest(x: Extracted, obj: Metadata): Metadata {
    var obj3 := if Size(obj) == 0 && |x.microdata| > 0 then Objects(x.microdata) else obj;
    if Size(obj3) == 0 && x.dublincore != EmptyDublinCore then Objects(x.dublincore) else obj3
  }

  /**
   * The embedded-metadata step once the page has been extracted: the JSON-LD
   * graph, then the RDFa graph, if non-empty; a parse that raises ends the
   * step with the fallback found so far; otherwise the fallback becomes the
   * first non-empty kind, in the order JSON-LD, RDFa, microdata, Dublin Core.
   */
  function FromExtracted(web: Web, x: Extracted, prior: Metadata): Harvest {
    match KindStep(web, x.jsonld, prior, false)
    case Done(h) => h
    case Go(obj1) =>
      match KindStep(web, x.rdfa, obj1, true)
      case Done(h) => h
      case Go(obj2) => Harvest(None, RawRest(x, obj2))
  }

  /**
   * The extraction as the harvester holds it once the step is over: the
   * kinds that were parsed carry the context fix, because the fix rewrites
   * the extractor's lists in place. The JSON-LD kind is always parsed when
   * non-empty; the RDFa kind only when the JSON-LD step went on.
   */
  function StoredExtraction(web: Web, x: Extracted, prior: Metadata): Extracted {
    var rdfa := if KindStep(web, x.jsonld, prior, false).Go? then RewriteAll(x.rdfa) else x.rdfa;
    Extracted(RewriteAll(x.jsonld), rdfa, x.microdata, x.dublincore)
  }

  /**
   * The fix leaves nothing for a second parse to change: a kind the
   * harvester holds with the fix parses exactly as the extractor's original.
   */
  lemma {:induction false} FixedKindParsesAlike(web: Web, kind: seq<Json>, mime: Option<string>)
    ensures ParseSpec(web, Data(JArr(RewriteAll(kind))), mime) == ParseSpec(web, Data(JArr(kind)), mime)
  {
    var once := RewriteAll(kind);
    forall i | 0 <= i < |kind|
      ensures RewriteAll(once)[i] == once[i]
    {
      RewriteIdempotent(kind[i]);
    }
    assert RewriteAll(once) == once;
  }

  /** The step as a whole: without page text, or when extraction raises, nothing is found. */
  function EmbeddedSpec(web: Web, html: Option<string>, prior: Metadata): Harvest {
    if !Given(html) then Harvest(None, prior)
    else
      match web.extract(html.value)
      case Err(_) => Harvest(None, prior)
      case Ok(x) => FromExtracted(web, x, prior)
  }

  /** Reference reading of the fallback: the first non-empty kind of embedded metadata, JSON-LD and RDFa with the context fix. */
  function FirstRaw(x: Extracted): Metadata {
    if |x.jsonld| > 0 then Objects(RewriteAll(x.jsonld))
    else if |x.rdfa| > 0 then Objects(RewriteAll(x.rdfa))
    else if |x.microdata| > 0 then Objects(x.microdata)
    else if x.dublincore != EmptyDublinCore then Objects(x.dublincore)
    else Objects([])
  }

  /** The JSON-LD and RDFa kinds both expand without error. */
  predicate ExpandsCleanly(web: Web, x: Extracted) {
    (|x.jsonld| > 0 ==> ParseSpec(web, Data(JArr(x.jsonld)), Some("json-ld")).Ok?) &&
    (|x.rdfa| > 0 ==> ParseSpec(web, Data(JArr(x.rdfa)), Some("json-ld")).Ok?)
  }

  /**
   * RDF takes priority over raw JSON: a graph is returned only when it is
   * non-empty and comes from the JSON-LD or, failing that, the RDFa kind;
   * when no graph is found and nothing raises, the fallback is exactly the
   * first non-empty kind.
   */
  lemma EmbeddedPriority(web: Web, x: Extracted, prior: Metadata)
    requires Size(prior) == 0
    ensures var h := FromExtracted(web, x, prior);
            var jl := ParseSpec(web, Data(JArr(x.jsonld)), Some("json-ld"));
            var ra := ParseSpec(web, Data(JArr(x.rdfa)), Some("json-ld"));
            (h.graph.Some? ==>
               |h.graph.value| > 0 && ((jl.Ok? && h.graph.value == jl.value) || (ra.Ok? && h.graph.value == ra.value))) &&
            (h.graph.Some? && |x.jsonld| > 0 && jl.Ok? && |jl.value| > 0 ==> h.graph.value == jl.value) &&
            (h.graph.None? && ExpandsCleanly(web, x) && Size(FirstRaw(x)) > 0 ==> h.raw == FirstRaw(x))
  {
  }

  // ---------------------------------------------------------------------
  // Content negotiation

  const CheckMimeTypes := [
    "text/turtle",
    "application/ld+json",
    "text/turtle, application/turtle, application/x-turtle;q=0.9, application/ld+json;q=0.8, application/rdf+xml, text/n3, text/rdf+n3;q=0.7"
  ]

  /** A negotiation attempt answers when the request returns, its status is not an error, and it names a Content-Type. */
  predicate Answers(f: Fetch) {
    f.Reply? && StatusOk(f.response.status) && f.response.contentType.Some?
  }

  /** Why a negotiation attempt failed, as its exception reads. */
  function FetchError(f: Fetch): string {
    match f
    case Raised(e) => e
    case Reply(r) => if !StatusOk(r.status) then r.httpError else "Content-Type"
  }

  /** The Content-Type header with its spaces and a `;charset=utf-8` parameter removed. */
  function NormaliseContentType(ct: string): string {
    ReplaceAll(ReplaceAll(ct, " ", ""), ";charset=utf-8", "")
  }

  lemma NormaliseRemovesSpaces(ct: string)
    ensures ' ' !in NormaliseContentType(ct)
  {
    ReplaceAllRemovesChar(ct, ' ', "");
    assert [' '] == " ";
    ReplaceAllKeepsOut(ReplaceAll(ct, " ", ""), ";charset=utf-8", "", ' ');
  }

  /** The reply of the first media type that answers. */
  function FirstAnswer(web: Web, u: string, ms: seq<string>): (r: Option<Response>)
    ensures r.Some? ==> Answers(Reply(r.value))
    decreases |ms|
  {
    if ms == [] then None
    else if Answers(web.get(u, Some(ms[0]))) then Some(web.get(u, Some(ms[0])).response)
    else FirstAnswer(web, u, ms[1..])
  }

  /** Some media type of the list gets an answer. */
  ghost predicate Negotiable(web: Web, u: string) {
    exists i :: 0 <= i < |CheckMimeTypes| && Answers(web.get(u, Some(CheckMimeTypes[i])))
  }

  /** The first answer is the reply to the first media type, in order, that gets one; there is one exactly when any gets one. */
  lemma {:induction false} FirstAnswerIsFirst(web: Web, u: string, ms: seq<string>)
    ensures FirstAnswer(web, u, ms).Some? <==> exists i :: 0 <= i < |ms| && Answers(web.get(u, Some(ms[i])))
    ensures FirstAnswer(web, u, ms).Some? ==>
            exists i :: 0 <= i < |ms| && web.get(u, Some(ms[i])) == Reply(FirstAnswer(web, u, ms).value) &&
              forall j :: 0 <= j < i ==> !Answers(web.get(u, Some(ms[j])))
    decreases |ms|
  {
    if ms != [] && !Answers(web.get(u, Some(ms[0]))) {
      FirstAnswerIsFirst(web, u, ms[1..]);
      if exists i :: 0 <= i < |ms| && Answers(web.get(u, Some(ms[i]))) {
        var i :| 0 <= i < |ms| && Answers(web.get(u, Some(ms[i])));
        assert ms[1..][i - 1] == ms[i];
      }
      if FirstAnswer(web, u, ms).Some? {
        var i :| 0 <= i < |ms[1..]| && web.get(u, Some(ms[1..][i])) == Reply(FirstAnswer(web, u, ms).value) &&
              forall j :: 0 <= j < i ==> !Answers(web.get(u, Some(ms[1..][j])));
        assert forall j :: 0 <= j < i + 1 ==> !Answers(web.get(u, Some(ms[j]))) by {
          forall j | 0 <= j < i + 1
            ensures !Answers(web.get(u, Some(ms[j])))
          {
            if j > 0 { assert ms[j] == ms[1..][j - 1]; }
          }
        }
      }
    }
  }

  /** The graph an answering reply yields: its JSON read as JSON-LD if that expands, its text otherwise. */
  function NegotiatedGraph(web: Web, r: Response): Graph
    requires r.contentType.Some?
  {
    var text := ParseSpec(web, Raw(r.text), Some(NormaliseContentType(r.contentType.value))).value;
    match r.json
    case Some(j) => (var p := ParseSpec(web, Data(j), Some("json-ld")); if p.Ok? then p.value else text)
    case None => text
  }

  function NegotiationSpec(web: Web, u: string): Option<Graph> {
    match FirstAnswer(web, u, CheckMimeTypes)
    case None => None
    case Some(r) => Some(NegotiatedGraph(web, r))
  }

  // ---------------------------------------------------------------------
  // The harvester service

  const DefaultHarvesterUrl := "https://w3id.org/FAIR_Tests/tests/harvester"

  /** Asked first on request: any reply is parsed as Turtle and returned, whatever its status. */
  function ServiceSpec(web: Web, u: string, service: string): Option<Graph> {
    match web.post(service, u)
    case Raised(_) => None
    case Reply(r) => Some(ParseSpec(web, Raw(r.text), Some("text/turtle")).value)
  }

  /** Asked last: only a successful reply whose graph has more than one triple counts. */
  function FallbackSpec(web: Web, u: string, service: string): (r: Option<Graph>)
    ensures r.Some? ==> |r.value| > 1
  {
    match web.post(service, u)
    case Raised(_) => None
    case Reply(r) =>
      if !StatusOk(r.status) then None
      else
        var g := ParseSpec(web, Raw(r.text), Some("text/turtle")).value;
        if |g| > 1 then Some(g) else None
  }

  /** Both service uses read the same reply; the fallback keeps only what the first use would return with more than one triple. */
  lemma FallbackNarrowsService(web: Web, u: string, service: string)
    ensures FallbackSpec(web, u, service).Some? ==> FallbackSpec(web, u, service) == ServiceSpec(web, u, service)
    ensures (web.post(service, u).Reply? && StatusOk(web.post(service, u).response.status) &&
             |ServiceSpec(web, u, service).value| > 1) ==> FallbackSpec(web, u, service).Some?
  {
  }

  /** Retrieval answered through Signposting headers of the first request. */
  ghost predicate Signposts(web: Web, u: string) {
    var f := web.get(u, None);
    f.Reply? && StatusOk(f.response.status) && f.response.links != map[]
  }

  /** The alias list only ever grows, and is never created. */
  predicate AliasesGrew(before: Option<seq<string>>, after: Option<seq<string>>) {
    (before.None? ==> after.None?) && (before.Some? ==> after.Some? && before.value <= after.value)
  }

  /** The page text the first request keeps: the body of a reply whose status is not an error. */
  function PageText(web: Web, u: string): Option<string> {
    var f := web.get(u, None);
    if f.Reply? && StatusOk(f.response.status) then Some(f.response.text) else None
  }

  /** The Signposting links of a reply to follow, one per relation it carries, in the order of `SignpostingRels`. */
  function SignpostLinks(r: Response): seq<string> {
    LinksFor(r, SignpostingRels)
  }

  function LinksFor(r: Response, rels: seq<string>): seq<string>
    decreases |rels|
  {
    if rels == [] then []
    else (if rels[0] in r.links then [JoinLink(r.url, r.links[rels[0]])] else []) + LinksFor(r, rels[1..])
  }

  /**
   * The links are ordered by relation: a reply with an `alternate` link has
   * it first, one with none of the relations gives no link, and each link
   * is the join of a relation the reply carries.
   */
  lemma SignpostLinksOrdered(r: Response)
    ensures |SignpostLinks(r)| <= |SignpostingRels|
    ensures SignpostLinks(r) == [] <==> forall rel :: rel in SignpostingRels ==> rel !in r.links
    ensures "alternate" in r.links ==> SignpostLinks(r)[0] == JoinLink(r.url, r.links["alternate"])
    ensures forall l :: l in SignpostLinks(r) ==>
              exists rel :: rel in SignpostingRels && rel in r.links && l == JoinLink(r.url, r.links[rel])
  {
    var rels := SignpostingRels;
    assert rels[1..][1..][1..] == [];
    assert LinksFor(r, rels[1..][1..][1..]) == [];
  }

  /** One relation of the list: its link, if the reply carries it, then the links of the rest. */
  lemma LinksForStep(r: Response, rels: seq<string>, i: nat)
    requires i < |rels|
    ensures LinksFor(r, rels[i..]) ==
            (if rels[i] in r.links then [JoinLink(r.url, r.links[rels[i]])] else []) + LinksFor(r, rels[i + 1..])
  {
    assert rels[i..][1..] == rels[i + 1..];
  }

  /**
   * Following links in order until one gives something: `tried` is the
   * links followed, a prefix of `links`, and `results` what each gave;
   * every result before the last is empty, the search stops at the first
   * non-empty one, which is returned, and it tries every link when none is.
   */
  predicate FirstNonEmpty(links: seq<string>, found: bool, obj: Metadata, tried: seq<string>, results: seq<Metadata>) {
    tried <= links && |results| == |tried| &&
    (found <==> Size(obj) > 0) &&
    (forall i :: 0 <= i < |results| - 1 ==> Size(results[i]) == 0) &&
    (found ==> |results| > 0 && obj == results[|results| - 1]) &&
    (!found ==> tried == links && obj == (if results == [] then Objects([]) else results[|results| - 1]))
  }

  /** Stopping at a non-empty result after empty ones meets the search's promise. */
  lemma StopAtFirst(links: seq<string>, tried: seq<string>, rest: seq<string>, obj: Metadata, results: seq<Metadata>)
    requires tried + rest == links && |results| == |tried| && |tried| > 0
    requires forall k :: 0 <= k < |results| - 1 ==> Size(results[k]) == 0
    requires obj == results[|results| - 1] && Size(obj) > 0
    ensures FirstNonEmpty(links, true, obj, tried, results)
  {
  }

  /** Trying every link with only empty results meets it too. */
  lemma TriedAll(links: seq<string>, obj: Metadata, results: seq<Metadata>)
    requires |results| == |links| && forall k :: 0 <= k < |results| ==> Size(results[k]) == 0
    requires obj == (if results == [] then Objects([]) else results[|results| - 1])
    ensures FirstNonEmpty(links, false, obj, links, results)
  {
  }

  /** Content negotiation, then the harvester service when the fallback found so far is empty. */
  function LastResortsSpec(web: Web, u: string, service: string, obj: Metadata): Metadata {
    match NegotiationSpec(web, u)
    case Some(g) => Graph(g)
    case None =>
      var fb := FallbackSpec(web, u, service);
      if Size(obj) == 0 && fb.Some? then Graph(fb.value) else obj
  }

  /** The built-in harvesting after the first request: embedded metadata, then the last resorts. */
  function AfterFirstRequest(web: Web, u: string, service: string, html: Option<string>, obj: Metadata): Metadata {
    var h := EmbeddedSpec(web, html, obj);
    if h.graph.Some? then Graph(h.graph.value) else LastResortsSpec(web, u, service, h.raw)
  }

  /**
   * A negotiated graph beats any fallback: the fallback comes back only when
   * no media type gets an answer, and the service only replaces an empty
   * fallback, with a graph of more than one triple.
   */
  lemma LastResortsPriority(web: Web, u: string, service: string, obj: Metadata)
    ensures Negotiable(web, u) ==> LastResortsSpec(web, u, service, obj) == Graph(NegotiationSpec(web, u).value)
    ensures LastResortsSpec(web, u, service, obj).Objects? ==> !Negotiable(web, u) && LastResortsSpec(web, u, service, obj) == obj
    ensures !Negotiable(web, u) && Size(obj) > 0 ==> LastResortsSpec(web, u, service, obj) == obj
    ensures !Negotiable(web, u) && Size(obj) == 0 && FallbackSpec(web, u, service).Some? ==>
              LastResortsSpec(web, u, service, obj).Graph? && |LastResortsSpec(web, u, service, obj).graph| > 1
  {
    FirstAnswerIsFirst(web, u, CheckMimeTypes);
  }

  /** RDF before raw JSON: the result after the first request is raw JSON only when no media type is negotiable and the page gave no graph. */
  lemma AfterFirstRequestPriority(web: Web, u: string, service: string, html: Option<string>, obj: Metadata)
    ensures EmbeddedSpec(web, html, obj).graph.Some? ==>
              AfterFirstRequest(web, u, service, html, obj) == Graph(EmbeddedSpec(web, html, obj).graph.value)
    ensures AfterFirstRequest(web, u, service, html, obj).Objects? ==>
              !Negotiable(web, u) && EmbeddedSpec(web, html, obj).graph.None? &&
              AfterFirstRequest(web, u, service, html, obj) == EmbeddedSpec(web, html, obj).raw
  {
    LastResortsPriority(web, u, service, EmbeddedSpec(web, html, obj).raw);
  }

  // ---------------------------------------------------------------------
  // The harvester

  class MetadataHarvester {
    const subject: Option<string>
    /** The logger the harvester writes to. */
    const logs: FairTestLogger
    /** The `data` entries the harvester reads and writes. */
    var alternativeUris: Option<seq<string>>
    var redirectUrl: Option<string>
    var signpostingLinks: Option<map<string, string>>
    var extruct: Option<Extracted>
    var jsonLd: Option<Json>

    constructor(subject: Option<string>, alternativeUris: Option<seq<string>>, logs: FairTestLogger)
      ensures this.subject == subject && this.logs == logs && this.alternativeUris == alternativeUris
      ensures redirectUrl == None && signpostingLinks == None && extruct == None && jsonLd == None
    {
      this.subject := subject;
      this.logs := logs;
      this.alternativeUris := alternativeUris;
      redirectUrl := None;
      signpostingLinks := None;
      extruct := None;
      jsonLd := None;
    }

    /** `get_url`: resolves the identifier and logs how it was read. */
    method GetUrl(web: Web, id: string, ts: string) returns (url: string)
      modifies logs
      ensures url == ResolveId(web, id)
      ensures logs.logs == old(logs.logs) + [ResolveEntry(web, id, ts)] && logs.score == old(logs.score)
    {
      if web.isUrl(id) {
        logs.Info("Validated the resource " + id + " is a URL", ts);
        return id;
      }
      if web.isDoi(id) {
        logs.Info("Validated the resource " + id + " is a DOI", ts);
        return web.toUrl(id, "doi");
      }
      if web.isHandle(id) {
        logs.Info("Validated the resource " + id + " is a handle", ts);
        return web.toUrl(id, "handle");
      }
      logs.Warn("Could not validate the given resource URI " + id + " is a URL, DOI, or handle", ts);
      return id;
    }

    /** An INFO entry on the harvester's logger, of which callers keep only that the history grows. */
    method Note(msg: string, ts: string)
      modifies logs
      ensures old(logs.logs) <= logs.logs && logs.score == old(logs.score)
    {
      logs.Info(msg, ts);
    }

    /** A WARNING entry on the harvester's logger, of which callers keep only that the history grows. */
    method NoteWarning(msg: string, ts: string)
      modifies logs
      ensures old(logs.logs) <= logs.logs && logs.score == old(logs.score)
    {
      logs.Warn(msg, ts);
    }

    /** `parse_rdf`: the graph `ParseSpec` describes, logging each attempt. */
    method ParseRdf(web: Web, d: RdfData, mime: Option<string>, logMsg: string, ts: string) returns (r: Result<Graph, string>)
      modifies logs
      ensures r == ParseSpec(web, d, mime)
      ensures old(logs.logs) <= logs.logs && logs.score == old(logs.score)
    {
      var payload: Payload;
      var formats: seq<string>;
      var shown := mime;
      var entries := JsonEntries(d);
      if entries.Some? {
        var a := new Json[|entries.value|](i requires 0 <= i < |entries.value| => entries.value[i]);
        assert a[..] == entries.value;
        RewriteContexts(a);
        var expanded := web.expand(a[..]);
        if expanded.Err? {
          return Err(expanded.error);
        }
        payload, formats := Text(web.dumps(expanded.value)), ["json-ld"];
      } else {
        payload, formats := AsPayload(d), SelectFormats(mime);
        if Given(mime) {
          shown := Some(BeforeFirst(mime.value, ';'));
        }
      }
      var g: Graph := [];
      var i := 0;
      while i < |formats|
        invariant 0 <= i <= |formats|
        invariant ParseLoop(web, payload, formats[i..], g) == ParseLoop(web, payload, formats, [])
        invariant old(logs.logs) <= logs.logs && logs.score == old(logs.score)
      {
        match web.parse(payload, formats[i]) {
          case Parsed(h) =>
            var kept := RemovePredicate(h, IRI(RolePredicate));
            Note("Successfully parsed " + ShowOpt(shown) + " RDF from " + logMsg + " with parser " + formats[i]
                      + ", containing " + NatStr(|kept|) + " triples", ts);
            return Ok(kept);
          case Failed(h, e) =>
            Note("Could not parse " + ShowOpt(shown) + " metadata from " + logMsg + " with parser " + formats[i]
                      + ". Getting error: " + e, ts);
            assert formats[i..][1..] == formats[i + 1..];
            g := h;
        }
        i := i + 1;
      }
      return Ok(g);
    }

    /** The external harvester service asked first, on request. */
    method AskService(web: Web, u: string, service: string, ts: string) returns (g: Option<Graph>)
      modifies logs
      ensures g == ServiceSpec(web, u, service)
      ensures old(logs.logs) <= logs.logs && logs.score == old(logs.score)
    {
      Note("Using Harvester at " + service + " to retrieve RDF metadata at " + u, ts);
      var f := web.post(service, u);
      if f.Raised? {
        NoteWarning("Could not retrieve metadata from the Harvester service at " + service + " for " + u + ": " + f.error, ts);
        return None;
      }
      var p := ParseRdf(web, Raw(f.response.text), Some("text/turtle"), "FAIR evaluator harvester RDF", ts);
      return Some(p.value);
    }

    /** The redirect bookkeeping of a successful first request; `false` when the alias list is missing (a KeyError). */
    method FollowRedirect(u: string, r: Response, ts: string) returns (ok: bool)
      modifies this, logs
      ensures redirectUrl == Some(RedirectTarget(r.url))
      ensures ok <==> !(subject == Some(u) && old(alternativeUris).None?)
      ensures alternativeUris == RedirectAliasUpdate(old(alternativeUris), subject == Some(u), r.url)
      ensures signpostingLinks == old(signpostingLinks) && extruct == old(extruct) && jsonLd == old(jsonLd)
      ensures old(logs.logs) <= logs.logs && logs.score == old(logs.score)
    {
      var target := RedirectTarget(r.url);
      redirectUrl := Some(target);
      if subject == Some(u) {
        if alternativeUris.None? {
          return false;
        }
        if target !in alternativeUris.value {
          Note("Request was redirected to " + target + ", adding to the list of alternative URIs for the subject", ts);
          alternativeUris := Some(alternativeUris.value + RedirectAliases(r.url));
        }
      }
      return true;
    }

    /** One kind of embedded metadata parsed as JSON-LD, with its log entries. */
    method ParseKind(web: Web, u: string, kind: seq<Json>, obj: Metadata, keepFirst: bool,
                     origin: string, foundMsg: string, ts: string) returns (s: Step)
      modifies logs
      ensures s == KindStep(web, kind, obj, keepFirst)
      ensures old(logs.logs) <= logs.logs && logs.score == old(logs.score)
    {
      if |kind| == 0 {
        return Go(obj);
      }
      var g := ParseRdf(web, Data(JArr(kind)), Some("json-ld"), origin, ts);
      if g.Err? {
        Note("Error when running extruct on " + u + ". Getting: " + g.error, ts);
        return Done(Harvest(None, obj));
      }
      if |g.value| > 0 {
        Note(foundMsg, ts);
        return Done(Harvest(Some(g.value), obj));
      }
      return Go(if keepFirst && Size(obj) > 0 then obj else Objects(RewriteAll(kind)));
    }

    /** The embedded-metadata step. */
    method Embedded(web: Web, u: string, html: Option<string>, prior: Metadata, ts: string) returns (h: Harvest)
      modifies this, logs
      ensures h == EmbeddedSpec(web, html, prior)
      ensures extruct == (if Given(html) && web.extract(html.value).Ok? && subject == Some(u)
                          then Some(StoredExtraction(web, web.extract(html.value).value, prior)) else old(extruct))
      ensures alternativeUris == old(alternativeUris) && redirectUrl == old(redirectUrl)
      ensures signpostingLinks == old(signpostingLinks) && jsonLd == old(jsonLd)
      ensures old(logs.logs) <= logs.logs && logs.score == old(logs.score)
    {
      if !Given(html) {
        Note("Error when running extruct on " + u + ". Getting: No HTML text provided", ts);
        return Harvest(None, prior);
      }
      var extracted := web.extract(html.value);
      if extracted.Err? {
        Note("Error when running extruct on " + u + ". Getting: " + extracted.error, ts);
        return Harvest(None, prior);
      }
      var x := extracted.value;
      if subject == Some(u) {
        extruct := Some(x);
      }
      var stored;
      h, stored := ReadExtracted(web, u, x, prior, ts);
      if subject == Some(u) {
        extruct := Some(stored);
      }
    }

    /**
     * The embedded-metadata step once the page has been extracted; `stored`
     * is the extraction after the parses have fixed its lists.
     */
    method ReadExtracted(web: Web, u: string, x: Extracted, prior: Metadata, ts: string) returns (h: Harvest, stored: Extracted)
      modifies logs
      ensures h == FromExtracted(web, x, prior)
      ensures stored == StoredExtraction(web, x, prior)
      ensures old(logs.logs) <= logs.logs && logs.score == old(logs.score)
    {
      var s1 := ParseKind(web, u, x.jsonld, prior, false, "HTML embedded JSON-LD RDF",
                          "Found JSON-LD RDF metadata embedded in the HTML with extruct", ts);
      stored := x.(jsonld := RewriteAll(x.jsonld));
      if s1.Done? {
        return s1.harvest, stored;
      }
      stored := stored.(rdfa := RewriteAll(x.rdfa));
      var s2 := ParseKind(web, u, x.rdfa, s1.obj, true, "HTML embedded RDFa",
                          "Found RDFa metadata embedded in the HTML with extruct", ts);
      if s2.Done? {
        return s2.harvest, stored;
      }
      return Harvest(None, RawRest(x, s2.obj)), stored;
    }

    /** Content negotiation: the media types in turn; the first that answers decides the graph. */
    method Negotiate(web: Web, u: string, ts: string) returns (g: Option<Graph>)
      modifies this, logs
      ensures g == NegotiationSpec(web, u)
      ensures var a := FirstAnswer(web, u, CheckMimeTypes);
              jsonLd == (if a.Some? && a.value.json.Some? then a.value.json else old(jsonLd))
      ensures alternativeUris == old(alternativeUris) && redirectUrl == old(redirectUrl)
      ensures signpostingLinks == old(signpostingLinks) && extruct == old(extruct)
      ensures old(logs.logs) <= logs.logs && logs.score == old(logs.score)
    {
      var i := 0;
      while i < |CheckMimeTypes|
        invariant 0 <= i <= |CheckMimeTypes|
        invariant FirstAnswer(web, u, CheckMimeTypes[i..]) == FirstAnswer(web, u, CheckMimeTypes)
        invariant jsonLd == old(jsonLd)
        invariant alternativeUris == old(alternativeUris) && redirectUrl == old(redirectUrl)
        invariant signpostingLinks == old(signpostingLinks) && extruct == old(extruct)
        invariant old(logs.logs) <= logs.logs && logs.score == old(logs.score)
      {
        var m := CheckMimeTypes[i];
        var f := web.get(u, Some(m));
        if Answers(f) {
          var r := f.response;
          var ct := NormaliseContentType(r.contentType.value);
          Note("Content-negotiation: found some metadata in " + ct + " when asking for " + m, ts);
          if r.json.Some? {
            jsonLd := r.json;
            var p := ParseRdf(web, Data(r.json.value), Some("json-ld"), "content negotiation JSON-LD RDF", ts);
            if p.Ok? {
              return Some(p.value);
            }
          }
          var q := ParseRdf(web, Raw(r.text), Some(ct), "content negotiation RDF", ts);
          return Some(q.value);
        }
        Note("Content-negotiation: error with " + u + " when asking for " + m + ". Getting " + FetchError(f), ts);
        assert CheckMimeTypes[i..][1..] == CheckMimeTypes[i + 1..];
        i := i + 1;
      }
      return None;
    }

    /** The harvester service as the last resort. */
    method Fallback(web: Web, u: string, service: string, ts: string) returns (g: Option<Graph>)
      modifies logs
      ensures g == FallbackSpec(web, u, service)
      ensures old(logs.logs) <= logs.logs && logs.score == old(logs.score)
    {
      Note("Nothing found with built-in metadata harvesting process. Using Metadata Harvester service at "
                + service + " to retrieve RDF metadata from " + u, ts);
      var f := web.post(service, u);
      if f.Raised? {
        NoteWarning("Could not retrieve metadata from the Harvester service at " + service + " for " + u + ": " + f.error, ts);
        return None;
      }
      if !StatusOk(f.response.status) {
        NoteWarning("Could not retrieve metadata from the Harvester service at " + service + " for " + u + ": "
                  + f.response.httpError, ts);
        return None;
      }
      var p := ParseRdf(web, Raw(f.response.text), Some("text/turtle"), "Metadata harvester service RDF", ts);
      if |p.value| > 1 {
        return Some(p.value);
      }
      NoteWarning("The Harvester service at " + service + " could not find metadata for " + u, ts);
      return None;
    }

    /** One Signposting link, retrieved with the default service; nothing once the fuel is spent. */
    method FollowLink(web: Web, link: string, ts: string, fuel: nat) returns (obj: Metadata)
      modifies this, logs
      decreases fuel, 0
      ensures AliasesGrew(old(alternativeUris), alternativeUris)
      ensures old(logs.logs) <= logs.logs && logs.score == old(logs.score)
    {
      if fuel == 0 {
        return Objects([]);
      }
      ghost var signposted, early;
      obj, signposted, early := RetrieveMetadata(web, link, false, DefaultHarvesterUrl, ts, fuel - 1);
    }

    /**
     * Following the Signposting links of a reply, rel after rel, each through
     * a full retrieval of its own; the first non-empty result is returned.
     * `fuel` bounds the depth of these nested retrievals.
     */
    method FollowSignposting(web: Web, r: Response, ts: string, fuel: nat)
      returns (found: bool, obj: Metadata, ghost tried: seq<string>, ghost results: seq<Metadata>)
      modifies this, logs
      decreases fuel, 3
      ensures FirstNonEmpty(SignpostLinks(r), found, obj, tried, results)
      ensures AliasesGrew(old(alternativeUris), alternativeUris)
      ensures old(logs.logs) <= logs.logs && logs.score == old(logs.score)
    {
      Note("Found Signposting links: " + r.linksText, ts);
      signpostingLinks := Some(r.links);
      found, obj, tried, results := TryLinks(web, r, SignpostingRels, ts, fuel);
    }

    /** One relation: what its link gives when the reply carries it. */
    method TryRelation(web: Web, r: Response, rel: string, ts: string, fuel: nat) returns (got: Option<Metadata>)
      modifies this, logs
      decreases fuel, 1
      ensures got.Some? <==> rel in r.links
      ensures AliasesGrew(old(alternativeUris), alternativeUris)
      ensures old(logs.logs) <= logs.logs && logs.score == old(logs.score)
    {
      if rel !in r.links {
        return None;
      }
      var obj := FollowLink(web, JoinLink(r.url, r.links[rel]), ts, fuel);
      return Some(obj);
    }

    /** The links of the relations `rels` a reply carries, followed in turn until one gives something. */
    method TryLinks(web: Web, r: Response, rels: seq<string>, ts: string, fuel: nat)
      returns (found: bool, obj: Metadata, ghost tried: seq<string>, ghost results: seq<Metadata>)
      modifies this, logs
      decreases fuel, 2
      ensures FirstNonEmpty(LinksFor(r, rels), found, obj, tried, results)
      ensures AliasesGrew(old(alternativeUris), alternativeUris)
      ensures old(logs.logs) <= logs.logs && logs.score == old(logs.score)
    {
      obj, tried, results := Objects([]), [], [];
      var i := 0;
      while i < |rels|
        invariant 0 <= i <= |rels|
        invariant tried + LinksFor(r, rels[i..]) == LinksFor(r, rels)
        invariant |results| == |tried| && forall k :: 0 <= k < |results| ==> Size(results[k]) == 0
        invariant obj == (if results == [] then Objects([]) else results[|results| - 1])
        invariant AliasesGrew(old(alternativeUris), alternativeUris)
        invariant old(logs.logs) <= logs.logs && logs.score == old(logs.score)
      {
        LinksForStep(r, rels, i);
        var got := TryRelation(web, r, rels[i], ts, fuel);
        if got.Some? {
          var link := JoinLink(r.url, r.links[rels[i]]);
          obj := got.value;
          assert (tried + [link]) + LinksFor(r, rels[i + 1..]) == LinksFor(r, rels);
          tried, results := tried + [link], results + [obj];
          if Size(obj) > 0 {
            StopAtFirst(LinksFor(r, rels), tried, LinksFor(r, rels[i + 1..]), obj, results);
            return true, obj, tried, results;
          }
        }
        i := i + 1;
      }
      assert rels[i..] == [];
      TriedAll(LinksFor(r, rels), obj, results);
      return false, obj, tried, results;
    }

    /**
     * The first request: logs the outcome, does the redirect bookkeeping and
     * follows the Signposting links. Gives the page text when the request
     * succeeded, and the result of the Signposting links if it is non-empty.
     * A redirect of the subject with no alias list raises before the links
     * are read, so none is followed.
     */
    method FirstRequest(web: Web, u: string, ts: string, fuel: nat)
      returns (html: Option<string>, found: bool, obj: Metadata, ghost tried: seq<string>, ghost results: seq<Metadata>)
      modifies this, logs
      decreases fuel, 4
      ensures html == PageText(web, u)
      ensures found ==> Signposts(web, u)
      ensures !Signposts(web, u) ==> !found && obj == Objects([]) && tried == []
      ensures Signposts(web, u) ==>
                var r := web.get(u, None).response;
                if r.redirected && subject == Some(u) && old(alternativeUris).None?
                then !found && obj == Objects([]) && tried == []
                else FirstNonEmpty(SignpostLinks(r), found, obj, tried, results)
      ensures AliasesGrew(old(alternativeUris), alternativeUris)
      ensures old(logs.logs) <= logs.logs && logs.score == old(logs.score)
    {
      html, found, obj, tried, results := None, false, Objects([]), [], [];
      var f := web.get(u, None);
      if f.Raised? {
        NoteWarning("Error resolving the URL " + u + " : " + f.error, ts);
        return;
      }
      var r := f.response;
      if !StatusOk(r.status) {
        NoteWarning("Error resolving the URL " + u + " : " + r.httpError, ts);
        return;
      }
      Note("Successfully resolved " + u, ts);
      html := Some(r.text);
      if r.redirected {
        var ok := FollowRedirect(u, r, ts);
        if !ok {
          NoteWarning("Error resolving the URL " + u + " : alternative_uris", ts);
          return;
        }
      }
      if r.links != map[] {
        found, obj, tried, results := FollowSignposting(web, r, ts, fuel);
      }
    }

    /**
     * The built-in harvesting of a URL: the first request with its
     * Signposting links, the embedded metadata, content negotiation, and the
     * harvester service when nothing at all was found. `early` is what the
     * Signposting links gave, returned as it is when `signposted`.
     */
    method HarvestUrl(web: Web, u: string, service: string, ts: string, fuel: nat)
      returns (m: Metadata, ghost signposted: bool, ghost early: Metadata)
      modifies this, logs
      decreases fuel, 5
      ensures signposted ==> Signposts(web, u) && Size(early) > 0 && m == early
      ensures !signposted ==> Size(early) == 0 && m == AfterFirstRequest(web, u, service, PageText(web, u), early)
      ensures !Signposts(web, u) ==> !signposted && early == Objects([])
      ensures m.Objects? ==> Signposts(web, u) || !Negotiable(web, u)
      ensures AliasesGrew(old(alternativeUris), alternativeUris)
      ensures old(logs.logs) <= logs.logs && logs.score == old(logs.score)
    {
      var html, found, obj;
      ghost var tried, results;
      html, found, obj, tried, results := FirstRequest(web, u, ts, fuel);
      signposted, early := found, obj;
      if found {
        return obj, signposted, early;
      }
      AfterFirstRequestPriority(web, u, service, html, obj);
      m := AfterRequest(web, u, service, html, obj, ts);
    }

    /** The embedded metadata, then the last resorts, once the first request has found nothing. */
    method AfterRequest(web: Web, u: string, service: string, html: Option<string>, obj: Metadata, ts: string) returns (m: Metadata)
      modifies this, logs
      ensures m == AfterFirstRequest(web, u, service, html, obj)
      ensures alternativeUris == old(alternativeUris)
      ensures old(logs.logs) <= logs.logs && logs.score == old(logs.score)
    {
      Note("Checking for metadata embedded in the HTML page returned by the resource URI " + u + " using extruct", ts);
      var h := Embedded(web, u, html, obj, ts);
      if h.graph.Some? {
        return Graph(h.graph.value);
      }
      m := LastResorts(web, u, service, h.raw, ts);
    }

    /** Content negotiation, then the harvester service if the fallback found so far is empty. */
    method LastResorts(web: Web, u: string, service: string, obj: Metadata, ts: string) returns (m: Metadata)
      modifies this, logs
      ensures m == LastResortsSpec(web, u, service, obj)
      ensures m.Objects? ==> !Negotiable(web, u)
      ensures m.Objects? ==> m == obj
      ensures alternativeUris == old(alternativeUris)
      ensures old(logs.logs) <= logs.logs && logs.score == old(logs.score)
    {
      var negotiated := Negotiate(web, u, ts);
      if negotiated.Some? {
        return Graph(negotiated.value);
      }
      LastResortsPriority(web, u, service, obj);
      if Size(obj) == 0 {
        var fb := Fallback(web, u, service, ts);
        if fb.Some? {
          return Graph(fb.value);
        }
      }
      return obj;
    }

    /**
     * `retrieve_metadata`: RDF first. An identifier that gives no URL yields
     * `[]`; on request the harvester service answers first; otherwise the
     * built-in harvesting decides, with `signposted` and `early` as
     * `HarvestUrl` gives them. The result is raw JSON only when the
     * identifier gave no URL, when Signposting led to it, or when no media
     * type of the content negotiation got an answer.
     */
    method RetrieveMetadata(web: Web, url: string, useHarvester: bool, service: string, ts: string, fuel: nat)
      returns (m: Metadata, ghost signposted: bool, ghost early: Metadata)
      modifies this, logs
      decreases fuel, 7
      ensures ResolveId(web, url) == [] ==> m == Objects([]) && !signposted
      ensures var u := ResolveId(web, url);
              u != [] && useHarvester && ServiceSpec(web, u, service).Some? ==>
                m == Graph(ServiceSpec(web, u, service).value) && !signposted
      ensures signposted ==> Signposts(web, ResolveId(web, url)) && Size(early) > 0 && m == early
      ensures var u := ResolveId(web, url);
              u != [] && !(useHarvester && ServiceSpec(web, u, service).Some?) && !signposted ==>
                Size(early) == 0 && m == AfterFirstRequest(web, u, service, PageText(web, u), early)
      ensures var u := ResolveId(web, url);
              u != [] && !(useHarvester && ServiceSpec(web, u, service).Some?) && !Signposts(web, u) ==>
                !signposted && early == Objects([])
      ensures m.Objects? ==> ResolveId(web, url) == [] || Signposts(web, ResolveId(web, url)) || !Negotiable(web, ResolveId(web, url))
      ensures AliasesGrew(old(alternativeUris), alternativeUris)
      ensures old(logs.logs) <= logs.logs && logs.score == old(logs.score)
    {
      signposted, early := false, Objects([]);
      var u := GetUrl(web, url, ts);
      if u == [] {
        NoteWarning("The resource " + url + " could not be converted to a valid URL, hence no metadata could be retrieved", ts);
        return Objects([]), signposted, early;
      }
      m, signposted, early := FromUrl(web, u, useHarvester, service, ts, fuel);
    }

    /** `retrieve_metadata` once the identifier has given a URL. */
    method FromUrl(web: Web, u: string, useHarvester: bool, service: string, ts: string, fuel: nat)
      returns (m: Metadata, ghost signposted: bool, ghost early: Metadata)
      modifies this, logs
      decreases fuel, 6
      ensures useHarvester && ServiceSpec(web, u, service).Some? ==> m == Graph(ServiceSpec(web, u, service).value) && !signposted
      ensures signposted ==> Signposts(web, u) && Size(early) > 0 && m == early
      ensures !(useHarvester && ServiceSpec(web, u, service).Some?) && !signposted ==>
                Size(early) == 0 && m == AfterFirstRequest(web, u, service, PageText(web, u), early)
      ensures !(useHarvester && ServiceSpec(web, u, service).Some?) && !Signposts(web, u) ==> !signposted && early == Objects([])
      ensures m.Objects? ==> Signposts(web, u) || !Negotiable(web, u)
      ensures AliasesGrew(old(alternativeUris), alternativeUris)
      ensures old(logs.logs) <= logs.logs && logs.score == old(logs.score)
    {
      signposted, early := false, Objects([]);
      if useHarvester {
        var viaService := AskService(web, u, service, ts);
        if viaService.Some? {
          return Graph(viaService.value), signposted, early;
        }
      }
      m, signposted, early := HarvestUrl(web, u, service, ts, fuel);
    }
  }
}
