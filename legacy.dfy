/**
 * What the two first-generation classes (`FairTestEvaluation` in
 * `fair_test/fair_test_evaluation.py` and `FairTest` in
 * `fair_test/fair_test.py`) share: comment lines without a timestamp, and
 * the front-end of their `parse_rdf`. That front-end applies the schema.org
 * context fix without guarding it (an entry it cannot handle raises to the
 * caller), hands JSON-LD to a single parser call, and on a failed parse
 * keeps the graph with a warning.
 */
module Legacy {
  import opened Wrappers
  import opened Strings
  import opened JsonValue
  import opened Rdf
  import Logger
  import Harvester

  // ---------------------------------------------------------------------
  // Comment lines

  /** The line `log` appends: a non-empty prefix and a space, then the message. */
  function Comment(msg: string, prefix: Option<string>): string {
    if prefix.Some? && prefix.value != [] then prefix.value + " " + msg else msg
  }

  /** A comment ends with its message, after the prefix and one space when the prefix is truthy. */
  lemma CommentShape(msg: string, prefix: Option<string>)
    ensures EndsWith(Comment(msg, prefix), msg)
    ensures prefix.Some? && prefix.value != [] ==>
      StartsWith(Comment(msg, prefix), prefix.value + " ") && |Comment(msg, prefix)| == |prefix.value| + 1 + |msg|
    ensures prefix.None? || prefix.value == [] ==> Comment(msg, prefix) == msg
  {
    var c := Comment(msg, prefix);
    if prefix.Some? && prefix.value != [] {
      assert c == (prefix.value + " ") + msg;
      assert c[|c| - |msg|..] == msg;
      assert c[..|prefix.value + " "|] == prefix.value + " ";
    }
  }

  /**
   * The later logger writes the same line with the timestamp in front of
   * the message: its entries are legacy comments of the stamped message.
   */
  lemma EntryIsStampedComment(msg: string, prefix: Option<string>, ts: string)
    ensures Logger.Entry(msg, prefix, ts) == Comment("[" + ts + "] " + msg, prefix)
  {
  }

  // ---------------------------------------------------------------------
  // The unguarded context fix

  /** `rdf_entry['@context']` on a list or a string. */
  const NotIndexable := "TypeError: entry indices must be integers"
  /** `'@context' in rdf_entry` on null, a boolean or a number. */
  const NotIterable := "TypeError: entry is not iterable"
  /** `.startswith` on an `@context` that is not a string. */
  const NoStartsWith := "AttributeError: the @context has no attribute 'startswith'"

  /**
   * The context fix on one entry, raising where Python raises: a
   * schema.org string context is pinned; an entry that is not a JSON object
   * but holds "@context" cannot be indexed; a scalar cannot be searched; a
   * context that is not a string has no `startswith`.
   */
  function FixEntry(e: Json): (r: Result<Json, string>)
    ensures r.Ok? ==> r.value == Harvester.RewriteEntry(e)
  {
    match e
    case JObj(f) =>
      if Harvester.ContextKey in f then
        match f[Harvester.ContextKey]
        case JStr(c) =>
          Ok(if Harvester.SchemaOrgContext(c) then JObj(f[Harvester.ContextKey := JStr(Harvester.PinnedContext)]) else e)
        case _ => Err(NoStartsWith)
      else Ok(e)
    case JArr(xs) => if JStr(Harvester.ContextKey) in xs then Err(NotIndexable) else Ok(e)
    case JStr(s) => if Contains(s, Harvester.ContextKey) then Err(NotIndexable) else Ok(e)
    case _ => Err(NotIterable)
  }

  /** The fix over the whole list: the first entry that raises ends it. */
  function FixAll(es: seq<Json>): Result<seq<Json>, string>
    decreases |es|
  {
    if es == [] then Ok([])
    else
      match FixEntry(es[0])
      case Err(e) => Err(e)
      case Ok(x) =>
        match FixAll(es[1..])
        case Err(e) => Err(e)
        case Ok(rest) => Ok([x] + rest)
  }

  /** The fix of a list succeeds exactly when no entry raises, and then it is the later fix of every entry. */
  lemma {:induction false} FixAllMeaning(es: seq<Json>)
    ensures FixAll(es).Ok? <==> forall i :: 0 <= i < |es| ==> FixEntry(es[i]).Ok?
    ensures FixAll(es).Ok? ==> FixAll(es).value == Harvester.RewriteAll(es)
    decreases |es|
  {
    if es != [] {
      var tail := es[1..];
      FixAllMeaning(tail);
      assert forall i :: 1 <= i < |es| ==> es[i] == tail[i - 1];
      if FixEntry(es[0]).Ok? && FixAll(tail).Ok? {
        assert FixAll(es).value == [FixEntry(es[0]).value] + FixAll(tail).value;
        assert Harvester.RewriteAll(es) == [Harvester.RewriteEntry(es[0])] + Harvester.RewriteAll(tail);
      } else if FixEntry(es[0]).Ok? {
        var j :| 0 <= j < |tail| && FixEntry(tail[j]).Err?;
        assert FixEntry(es[j + 1]).Err?;
      }
    }
  }

  /** The error raised is the one of the first entry that raises. */
  lemma {:induction false} FirstRaiseWins(es: seq<Json>, i: nat)
    requires i < |es| && FixEntry(es[i]).Err?
    requires forall j :: 0 <= j < i ==> FixEntry(es[j]).Ok?
    ensures FixAll(es) == Err(FixEntry(es[i]).error)
    decreases i
  {
    if i > 0 {
      assert FixEntry(es[0]).Ok?;
      assert forall j :: 0 <= j < i - 1 ==> es[1..][j] == es[j + 1];
      FirstRaiseWins(es[1..], i - 1);
    }
  }

  /** A JSON object whose `@context` is not a string makes the fix raise, a list context included. */
  lemma ObjectContextMustBeString(f: map<string, Json>)
    requires Harvester.ContextKey in f
    ensures FixEntry(JObj(f)).Err? <==> !f[Harvester.ContextKey].JStr?
  {
  }

  /** The fix as the source applies it: in place, entry after entry, until one raises. */
  method FixContexts(a: array<Json>) returns (err: Option<string>)
    modifies a
    ensures err.None? ==> FixAll(old(a[..])) == Ok(a[..])
    ensures err.Some? ==> FixAll(old(a[..])) == Err(err.value)
    ensures forall k :: 0 <= k < a.Length ==> a[k] == old(a[k]) || a[k] == Harvester.RewriteEntry(old(a[k]))
  {
    var i := 0;
    while i < a.Length
      invariant 0 <= i <= a.Length
      invariant forall k :: 0 <= k < i ==> FixEntry(old(a[k])).Ok? && a[k] == Harvester.RewriteEntry(old(a[k]))
      invariant forall k :: i <= k < a.Length ==> a[k] == old(a[k])
    {
      match FixEntry(a[i]) {
        case Err(e) =>
          FirstRaiseWins(old(a[..]), i);
          return Some(e);
        case Ok(x) =>
          a[i] := x;
      }
      i := i + 1;
    }
    assert a[..] == Harvester.RewriteAll(old(a[..]));
    FixAllMeaning(old(a[..]));
    return None;
  }

  // ---------------------------------------------------------------------
  // The single parser call

  /** What the parser is handed: the payload and the format argument (`None` when the caller gave none). */
  datatype Attempt = Attempt(payload: Harvester.Payload, format: Option<string>)

  /** The format argument as the parser sees it: with no format it picks its own default. */
  function FormatArg(format: Option<string>): string {
    if format.Some? then format.value else ""
  }

  /**
   * JSON input is fixed, expanded (an expansion error propagates) and
   * serialised, and the format becomes "json-ld"; anything else goes to
   * the parser as given, with the caller's format.
   */
  function Prepare(web: Harvester.Web, d: Harvester.RdfData, mime: Option<string>): (r: Result<Attempt, string>)
    ensures r.Err? ==> Harvester.JsonEntries(d).Some?
    ensures r.Ok? && Harvester.JsonEntries(d).Some? ==> r.value.format == Some("json-ld")
    ensures Harvester.JsonEntries(d).None? ==> r == Ok(Attempt(Harvester.AsPayload(d), mime))
  {
    match Harvester.JsonEntries(d)
    case Some(es) =>
      (match FixAll(es)
       case Err(e) => Err(e)
       case Ok(fixed) =>
         match web.expand(fixed)
         case Err(e) => Err(e)
         case Ok(x) => Ok(Attempt(Harvester.Text(web.dumps(x)), Some("json-ld"))))
    case None => Ok(Attempt(Harvester.AsPayload(d), mime))
  }

  /** The warning concatenates the format: with no format that raises. */
  const NoneConcat := "TypeError: can only concatenate str (not \"NoneType\") to str"

  /**
   * `parse_rdf`: the graph of the one parser call; a failed call keeps the
   * graph it left and only warns, except when no format was given, where
   * writing the warning raises.
   */
  function ParseSpec(web: Harvester.Web, d: Harvester.RdfData, mime: Option<string>): (r: Result<Graph, string>)
  {
    match Prepare(web, d, mime)
    case Err(e) => Err(e)
    case Ok(at) =>
      match web.parse(at.payload, FormatArg(at.format))
      case Parsed(g) => Ok(g)
      case Failed(h, _) => if at.format.None? then Err(NoneConcat) else Ok(h)
  }

  function ParsedMessage(n: nat, format: Option<string>, logMsg: string): string {
    NatStr(n) + " triples parsed. Metadata from " + Harvester.ShowOpt(format) + " " + logMsg
      + " parsed with RDFLib parser " + Harvester.ShowOpt(format)
  }

  function FailedMessage(format: string, logMsg: string, e: string): string {
    "Could not parse " + format + " metadata from " + logMsg + " with RDFLib parser " + format + " " + e
  }

  /** The comment lines `parse_rdf` writes: one, or none when it raises. */
  function ParseNotes(web: Harvester.Web, d: Harvester.RdfData, mime: Option<string>, logMsg: string): (r: seq<string>)
    ensures |r| <= 1
    ensures ParseSpec(web, d, mime).Err? <==> r == []
  {
    match Prepare(web, d, mime)
    case Err(_) => []
    case Ok(at) =>
      match web.parse(at.payload, FormatArg(at.format))
      case Parsed(g) => [Comment(ParsedMessage(|g|, at.format, logMsg), Some(Logger.InfoPrefix))]
      case Failed(_, e) =>
        if at.format.None? then [] else [Comment(FailedMessage(at.format.value, logMsg, e), Some(Logger.WarnPrefix))]
  }

  /** The graph a parser call leaves behind, whether it succeeded or not. */
  function Kept(o: Harvester.Outcome): Graph {
    match o
    case Parsed(g) => g
    case Failed(h, _) => h
  }

  /**
   * JSON input is parsed as JSON-LD and nothing else, whatever media type
   * the caller gave: it raises only when the fix or the expansion does,
   * and otherwise gives the graph of the JSON-LD parser on the expanded
   * entries.
   */
  lemma JsonParsedAsJsonLd(web: Harvester.Web, d: Harvester.RdfData, mime: Option<string>)
    requires Harvester.JsonEntries(d).Some?
    ensures var es := Harvester.JsonEntries(d).value;
      ParseSpec(web, d, mime).Ok? <==> FixAll(es).Ok? && web.expand(Harvester.RewriteAll(es)).Ok?
    ensures var es := Harvester.JsonEntries(d).value;
      ParseSpec(web, d, mime).Ok? ==>
        ParseSpec(web, d, mime).value ==
          Kept(web.parse(Harvester.Text(web.dumps(web.expand(Harvester.RewriteAll(es)).value)), "json-ld"))
  {
    FixAllMeaning(Harvester.JsonEntries(d).value);
  }

  /**
   * Where the first-generation parse of JSON succeeds, the later harvester
   * (which guards the fix and strips the XHTML role triples) produces the
   * same graph without those triples.
   */
  lemma HarvesterAgreesOnJson(web: Harvester.Web, d: Harvester.RdfData, mime: Option<string>)
    requires Harvester.JsonEntries(d).Some? && FixAll(Harvester.JsonEntries(d).value).Ok?
    requires Prepare(web, d, mime).Ok?
    requires web.parse(Prepare(web, d, mime).value.payload, "json-ld").Parsed?
    ensures Harvester.ParseSpec(web, d, mime) ==
      Ok(RemovePredicate(ParseSpec(web, d, mime).value, IRI(Harvester.RolePredicate)))
  {
    FixAllMeaning(Harvester.JsonEntries(d).value);
    var at := Prepare(web, d, mime).value;
    Harvester.FirstParseWins(web, at.payload, ["json-ld"], [], 0);
  }

  /** A parse with no format given either succeeds or raises: it never warns. */
  lemma NoFormatNeverWarns(web: Harvester.Web, d: Harvester.RdfData, logMsg: string)
    requires Harvester.JsonEntries(d).None?
    ensures ParseSpec(web, d, None).Ok? <==> web.parse(Harvester.AsPayload(d), "").Parsed?
    ensures ParseNotes(web, d, None, logMsg) != [] ==> StartsWith(ParseNotes(web, d, None, logMsg)[0], Logger.InfoPrefix + " ")
  {
  }

  /**
   * The preparation as the source runs it: the in-place fix over a fresh
   * list of the entries, the expansion and the serialisation.
   */
  method PrepareData(web: Harvester.Web, d: Harvester.RdfData, mime: Option<string>) returns (r: Result<Attempt, string>)
    ensures r == Prepare(web, d, mime)
  {
    var entries := Harvester.JsonEntries(d);
    if entries.None? {
      return Ok(Attempt(Harvester.AsPayload(d), mime));
    }
    var es := entries.value;
    var a := new Json[|es|](i requires 0 <= i < |es| => es[i]);
    assert a[..] == es;
    var err := FixContexts(a);
    if err.Some? {
      return Err(err.value);
    }
    var expanded := web.expand(a[..]);
    if expanded.Err? {
      return Err(expanded.error);
    }
    return Ok(Attempt(Harvester.Text(web.dumps(expanded.value)), Some("json-ld")));
  }
}
