# fair-test core, modelled in Dafny

This project models the deterministic core of the `fair-test` library. The
library lets FAIR metric tests be published as web services. Each test
evaluates a *subject* (a URL, DOI or handle). To do so it finds the metadata
published for that subject, reads it as an RDF graph, queries that graph, and
keeps a score and a comment log.

Both generations of the library are modelled:

- **the current one** (`src/fair_test/`, with `fair_test/metadata_harvester.py`
  and `fair_test/fair_test_logger.py`);
- **the first one** (`fair_test/fair_test_evaluation.py`, `fair_test/fair_test.py`,
  `fair_test/fair_test_api.py`).

The libraries and the network are one value, `Harvester.Web`: the identifier
classifiers, HTTP GET and POST, the HTML metadata extractor, JSON-LD
expansion and serialisation, and the RDF parser. Timestamps are a parameter
(`ts`). A graph is the triple sequence rdflib stores (`Rdf.Graph`, no
repetition), and `g.triples((s, p, o))` is `Rdf.Triples`, with `None` as a
wildcard. A literal node carries its datatype IRI and language tag
(`Rdf.Node`), and nodes match only when equal, so a pattern with a plain
`Literal(str(ref))` matches plain literals only, as rdflib's literal
equality has it.

Modules, one per source file (plus shared helpers):

| module | models |
|---|---|
| `Wrappers`, `Strings`, `Seqs`, `JsonValue`, `Urls` | `Option`/`Result`, Python `str` operations (`replace` replaces every occurrence, `lower` on ASCII), `list(set)`, JSON values, `urlparse` |
| `Rdf` | nodes, triples, `g.triples`, `g.remove`, and the predicate expansion of `extract_prop` |
| `Ledger` | the score rules shared by every evaluation class |
| `Logger` | `fair_test/fair_test_logger.py` |
| `Harvester` | `fair_test/metadata_harvester.py` |
| `MetadataSubject`, `Evaluation` | `src/fair_test/fair_test_evaluation.py` |
| `MetricsApi` | `src/fair_test/fair_test_api.py` (metric discovery and the `run_tests` filter) |
| `Legacy`, `LegacyEvaluation` | `fair_test/fair_test_evaluation.py` |
| `LegacyFairTest` | `fair_test/fair_test.py` |
| `LegacyMetricsApi` | `fair_test/fair_test_api.py` |

Code that changes state in place is a class or a method. This covers the
evaluations, the loggers, the harvester, the in-place `@context` fix on an
array, and the loops over walks and test cases. Each method is proved
against a specification function or predicate, and the properties of that
function are lemmas. The one part of a result no function describes is what
the nested retrievals of Signposting links return, since those retrievals
are the recursive methods themselves: `Harvester.FirstNonEmpty` states the
order in which the links are tried and that the first non-empty result is
returned, and the harvester's `HarvestUrl` and `RetrieveMetadata` state
their result in terms of that Signposting result (`early`) and of the
functions for the later steps.

Points where the code's behaviour is easy to misread; the model follows the
code:

- **Redirect aliases.** The code checks only whether the redirect target is
  already an alias, then appends the target and its scheme counterpart
  (`fair_test/metadata_harvester.py:118-126`), so the counterpart can repeat
  an existing alias. `Harvester.RedirectAliasUpdate` keeps that behaviour.
- **When a redirect counts.** A redirect is detected through `r.history`,
  not by comparing URLs; this is `Response.redirected`.
- **The first-generation `parse_rdf`.** It has no `try` around its context
  fix (`fair_test/fair_test_evaluation.py:221-224`). A list context, or any
  other non-string context, therefore raises. The later harvester instead
  pins every string in a list context. `Legacy.FixEntry` models the raise.
- **The first-generation `FairTest`.** It sets `alternative_uris` to
  `[self.subject]` in `__init__`, before any request
  (`fair_test/fair_test.py:39-44`). `doEvaluate` only assigns the subject, so
  the aliases keep the subject the metric was built with
  (`LegacyFairTest.StaleAliases`).

## Model

| member | source | states |
|---|---|---|
| Ledger.Verdicts | src/fair_test/fair_test_evaluation.py:318-337 | the calls that can move a counter are exactly the calls other than `info` and `warn` |
| Ledger.LoggingIsNeutral | src/fair_test/fair_test_evaluation.py:318-337 | dropping every `info`/`warn` call from any call sequence leaves score and bonus unchanged |
| Ledger.ScoreStaysBinary | src/fair_test/fair_test_evaluation.py:339-364 | from a score of 0 or 1, any sequence of `failure`/`success`/`bonus`/`info`/`warn` keeps the score in {0, 1} |
| Ledger.ScoreIsLastVerdict | src/fair_test/fair_test_evaluation.py:339-364 | from score 0, the final score is 1 exactly when some `success` is not followed by any `failure` |
| Ledger.BonusNeverDecreases | src/fair_test/fair_test_evaluation.py:349-364 | no call sequence lowers the bonus |
| Ledger.EverySuccessCounted | src/fair_test/fair_test_evaluation.py:349-364 | without a `failure`, score plus bonus grows by exactly the number of `success` and `bonus` calls (a repeated success becomes a bonus, never lost) |
| Logger.EntryRoundTrip | fair_test/fair_test_logger.py:22-27 | the message and the level word can be read back from an entry: the stamp and the optional prefix keep the parts apart |
| Logger.LevelsReadable | fair_test/fair_test_logger.py:29-64 | each of `WARN:`, `INFO:`, `FAILURE:`, `SUCCESS:` is a single word that `LevelOf` reads back |
| Logger.FairTestLogger.constructor | fair_test/fair_test_logger.py:8-9 | a new logger has no entries and no `score` attribute |
| Logger.FairTestLogger.Repr | fair_test/fair_test_logger.py:11-12 | `__repr__` joins the entries with newlines; splitting it on newlines gives back a non-empty list of entries when none holds a newline |
| Logger.FairTestLogger.SetLogs | fair_test/fair_test_logger.py:18-20 | the setter replaces the whole list and nothing else |
| Logger.FairTestLogger.Log | fair_test/fair_test_logger.py:22-27 | exactly one entry `"[" + ts + "] " + msg` is appended, preceded by `prefix + " "` when the prefix is truthy; earlier entries are untouched |
| Logger.FairTestLogger.Warn | fair_test/fair_test_logger.py:29-36 | appends one entry with prefix `WARN:` |
| Logger.FairTestLogger.Info | fair_test/fair_test_logger.py:38-45 | appends one entry with prefix `INFO:` |
| Logger.FairTestLogger.Failure | fair_test/fair_test_logger.py:47-55 | sets the logger's own `score` to 0 and appends one `FAILURE:` entry |
| Logger.FairTestLogger.Success | fair_test/fair_test_logger.py:57-64 | appends one `SUCCESS:` entry and leaves `score` alone |
| Rdf.Triples | src/fair_test/fair_test_evaluation.py:157 | the triples returned are exactly the triples of the graph matching the pattern (`None` matches anything), without repetition |
| Rdf.RemovePredicate | fair_test/metadata_harvester.py:311-312 | exactly the triples whose predicate differs from the removed one remain |
| Rdf.CheckPredicates | src/fair_test/fair_test_evaluation.py:140-147 | every checked predicate is an IRI (its contents are fixed by the three lemmas below) |
| Rdf.CheckPredicatesSnoc | src/fair_test/fair_test_evaluation.py:141-147 | one more given predicate adds exactly itself and its http/https counterpart |
| Rdf.CheckPredicatesCoverCounterparts | src/fair_test/fair_test_evaluation.py:141-147 | each given predicate is checked, together with its `https://` form when it starts with `http://` and its `http://` form when it starts with `https://` |
| Rdf.CheckPredicatesOnlyVariants | src/fair_test/fair_test_evaluation.py:141-147 | nothing but the given predicates and their counterparts is checked |
| Rdf.PropValuesNoPredicates | src/fair_test/fair_test_evaluation.py:152-161 | with no predicates, no value is found |
| Rdf.PropValuesNoSubjects | src/fair_test/fair_test_evaluation.py:152-161 | with an empty subject list, no value is found |
| Rdf.PropValuesAddPredicate | src/fair_test/fair_test_evaluation.py:152-159 | the values for a set of predicates are the union of the values per predicate |
| Rdf.PropValuesAddSubject | src/fair_test/fair_test_evaluation.py:156-159 | one more subject pattern adds exactly the objects of the triples it matches |
| Rdf.WildcardFindsAll | src/fair_test/fair_test_evaluation.py:153-157 | the `None` subject finds every value that any list of subjects finds |
| Seqs.AddOnce | src/fair_test/fair_test_evaluation.py:159 | `values.add(o)` as a list: no repetition, contents grow by exactly `o`, unchanged when `o` is present |
| Seqs.SetToList | src/fair_test/fair_test_evaluation.py:161 | `list(values)` holds every element of the set exactly once |
| Urls.DoiOrgParts | src/fair_test/fair_test_evaluation.py:76-78 | `http(s)://doi.org/d`, for `d` free of `?`, `#` and `;`, parses to network location `doi.org` and path `"/" + d` |
| Harvester.ResolveIdempotent | fair_test/metadata_harvester.py:23-42 | resolving an identifier twice gives what resolving it once gives, when the built URLs are recognised as URLs |
| Harvester.ResolveChangesOnlyIdentifiers | fair_test/metadata_harvester.py:23-42 | `get_url` changes an identifier only when it is a DOI or handle that is not a URL, and the result is the identifier or its DOI/handle URL |
| Harvester.RewriteIdempotent | fair_test/metadata_harvester.py:269-278 | the context fix applied twice is the fix applied once |
| Harvester.RewriteOnlyContext | fair_test/metadata_harvester.py:263-280 | the fix leaves non-objects unchanged and changes no member of an object but `@context` |
| Harvester.RewritePins | fair_test/metadata_harvester.py:269-278 | afterwards a string context is the pinned URL or not a schema.org URL, and every string of a list context is the pinned URL |
| Harvester.RewriteContexts | fair_test/metadata_harvester.py:265-280 | the in-place loop leaves each entry of the array rewritten |
| Harvester.SelectFormats | fair_test/metadata_harvester.py:261 | at least one format is always tried |
| Harvester.SelectFormatsFirstWord | fair_test/metadata_harvester.py:288-299 | the first of turtle, xml, ntriples, nquads, trig contained in the media type before `;` is the only format tried |
| Harvester.SelectFormatsNoWord | fair_test/metadata_harvester.py:261-299 | with no media type, or one containing none of those words, all 7 formats are tried in list order |
| Harvester.SelectFormatsIgnoresParameters | fair_test/metadata_harvester.py:289 | `type;params` selects what `type` selects |
| Harvester.FirstParseWins | fair_test/metadata_harvester.py:306-317 | the first format that parses gives the result, with its role triples removed |
| Harvester.AllFailKeepsLast | fair_test/metadata_harvester.py:303-322 | when every format fails, the graph the last attempt left is returned instead of raising |
| Harvester.ParseSpec | fair_test/metadata_harvester.py:263-322 | only JSON input can raise (an expansion error); text input always yields a graph |
| Harvester.ParsedGraphHasNoRole | fair_test/metadata_harvester.py:305-317 | a graph a parser produced holds no `xhtml/vocab#role` triple |
| Harvester.RedirectTargetRewritesElsevier | fair_test/metadata_harvester.py:109-117 | a target starting with `https://linkinghub.elsevier.com/retrieve/pii/` becomes the ScienceDirect article prefix followed by the rest of the URL, with every later occurrence of the Elsevier prefix rewritten as well (so exactly prefix + rest when the rest holds none); any other target is kept unchanged |
| Harvester.RedirectAliasesBothSchemes | fair_test/metadata_harvester.py:122-126 | a redirect to an http(s) URL adds two aliases, the reply's scheme first and the other scheme second |
| Harvester.HttpRedirectAliases | fair_test/metadata_harvester.py:122-124 | an http target adds itself and its https form |
| Harvester.HttpsRedirectAliases | fair_test/metadata_harvester.py:122-126 | an https target adds its (Elsevier-rewritten) target and that target's http form |
| Harvester.RedirectAliasUpdateOnce | fair_test/metadata_harvester.py:118-126 | seeing the same redirect again adds nothing |
| Harvester.JoinLinkResolves | fair_test/metadata_harvester.py:137-142 | an absolute link is kept; a relative one is appended to the reply's URL with one `/` dropped at a `/`-`/` seam |
| Harvester.EmbeddedPriority | fair_test/metadata_harvester.py:160-178 | a graph returned is non-empty and is the parsed JSON-LD or RDFa kind, the JSON-LD one whenever it parses to a non-empty graph; with no graph and no expansion error, the fallback is the first non-empty raw kind, the JSON-LD and RDFa kinds with the context fix the parse applied to them in place |
| Harvester.FixedKindParsesAlike | fair_test/metadata_harvester.py:263-280 | a kind held with the context fix parses exactly as the extractor's original list |
| Harvester.NormaliseRemovesSpaces | fair_test/metadata_harvester.py:196 | the normalised Content-Type holds no space |
| Harvester.FirstAnswer | fair_test/metadata_harvester.py:192-195 | a reply returned is one that answered |
| Harvester.FirstAnswerIsFirst | fair_test/metadata_harvester.py:187-215 | there is an answer exactly when some media type gets one, and it is the reply to the first such media type in order |
| Harvester.FallbackSpec | fair_test/metadata_harvester.py:218-235 | the last-resort service counts only with a graph of more than one triple |
| Harvester.FallbackNarrowsService | fair_test/metadata_harvester.py:78-90 | the last-resort use of the service returns what the first use would, and it answers whenever the reply succeeds with more than one triple |
| Harvester.SignpostLinksOrdered | fair_test/metadata_harvester.py:131-143 | the links followed are one per relation the reply carries, in the order alternate, describedby, meta: an `alternate` link comes first, and no relation gives no link |
| Harvester.LastResortsPriority | fair_test/metadata_harvester.py:184-241 | a negotiable URL gives the negotiated graph; raw JSON comes back only when nothing is negotiable, and is then the fallback so far; an empty fallback is replaced by the service's graph of more than one triple when it answers |
| Harvester.AfterFirstRequestPriority | fair_test/metadata_harvester.py:150-241 | an embedded graph is returned as it is; raw JSON after the first request means no embedded graph and nothing negotiable, and is the embedded step's fallback |
| Harvester.MetadataHarvester.constructor | fair_test/metadata_harvester.py:14-21 | a harvester starts with the given subject, logger and alias list and no redirect, links, extraction or JSON |
| Harvester.MetadataHarvester.GetUrl | fair_test/metadata_harvester.py:23-42 | returns the resolved identifier (URL, then DOI, then handle, else unchanged) and logs exactly one entry |
| Harvester.MetadataHarvester.ParseRdf | fair_test/metadata_harvester.py:243-322 | returns the graph `ParseSpec` describes; the log only grows |
| Harvester.MetadataHarvester.AskService | fair_test/metadata_harvester.py:78-94 | the service asked first returns its reply parsed as Turtle, or nothing when the request raises |
| Harvester.MetadataHarvester.FollowRedirect | fair_test/metadata_harvester.py:107-126 | records the (rewritten) redirect target, updates the aliases only for the subject, and fails exactly when the subject has no alias list |
| Harvester.MetadataHarvester.ParseKind | fair_test/metadata_harvester.py:160-173 | one kind of embedded metadata is handled as `KindStep` says: a raising parse ends the step with the fallback so far, a non-empty graph ends it with the graph, an empty one makes the kind, with its context fix, the fallback (RDFa only when there is none) |
| Harvester.MetadataHarvester.Embedded | fair_test/metadata_harvester.py:150-182 | the embedded step returns what `EmbeddedSpec` says and stores the extraction only for the subject, as the parses left it: the JSON-LD list with the context fix, and the RDFa list too when the JSON-LD step went on (`StoredExtraction`) |
| Harvester.MetadataHarvester.ReadExtracted | fair_test/metadata_harvester.py:160-182 | once the page is extracted, the step returns what `FromExtracted` says (JSON-LD, then RDFa, then the raw fallback) and the extraction as `StoredExtraction` describes it |
| Harvester.MetadataHarvester.Negotiate | fair_test/metadata_harvester.py:187-215 | returns the graph `NegotiationSpec` gives; the JSON of the first answering reply, when it has one, is stored |
| Harvester.MetadataHarvester.Fallback | fair_test/metadata_harvester.py:217-239 | the last-resort service call returns what `FallbackSpec` says |
| Harvester.MetadataHarvester.FollowSignposting | fair_test/metadata_harvester.py:128-145 | the links of the relations alternate, describedby, meta are followed in that order, stopping at the first non-empty result, which is returned; every link is tried when none gives anything, and the last (empty) result is kept (`FirstNonEmpty` over `SignpostLinks`); aliases only grow |
| Harvester.MetadataHarvester.TryLinks | fair_test/metadata_harvester.py:133-145 | the loop over the relations meets `FirstNonEmpty` for the links of the relations the reply carries |
| Harvester.MetadataHarvester.FirstRequest | fair_test/metadata_harvester.py:102-148 | the page text kept is the body of a successful reply and nothing otherwise; without Signposting headers nothing is found; a redirect of the subject with no alias list skips the links; otherwise the links are followed as `FirstNonEmpty` states |
| Harvester.MetadataHarvester.HarvestUrl | fair_test/metadata_harvester.py:97-241 | a non-empty Signposting result (only with Signposting headers) is returned as it is; otherwise the result is `AfterFirstRequest` of the page text and the empty Signposting result, which is `[]` without headers; raw JSON means Signposting answered or nothing was negotiable |
| Harvester.MetadataHarvester.AfterRequest | fair_test/metadata_harvester.py:150-241 | the steps after the first request give `AfterFirstRequest`: the embedded graph, else content negotiation, else the service when the fallback is empty |
| Harvester.MetadataHarvester.LastResorts | fair_test/metadata_harvester.py:184-241 | returns `LastResortsSpec`: the negotiated graph when a media type answers, else the service's graph when the fallback is empty and the service gives more than one triple, else the fallback; raw JSON means no media type was negotiable |
| Harvester.MetadataHarvester.FromUrl | fair_test/metadata_harvester.py:78-241 | the service's graph when asked first and it replies; otherwise what `HarvestUrl` states |
| Harvester.MetadataHarvester.RetrieveMetadata | fair_test/metadata_harvester.py:47-241 | an empty URL gives `[]`; with the service asked first, a reply gives its graph (`ServiceSpec`); otherwise a non-empty Signposting result is returned as it is, and anything else is `AfterFirstRequest` of the page text and the empty Signposting result; aliases only grow |
| MetadataSubject.DirectSubject | src/fair_test/fair_test_evaluation.py:193-196 | the alias becomes the subject once it appears as a triple subject |
| MetadataSubject.LinkedSubject | src/fair_test/fair_test_evaluation.py:200-211 | the subject of the last triple pointing at the alias becomes the subject |
| MetadataSubject.ByPredicatesNone | src/fair_test/fair_test_evaluation.py:198-211 | the object search finds nothing exactly when no identifier predicate links to the alias as an IRI or a plain literal (one with neither datatype nor language) |
| MetadataSubject.ByPredicatesKeepsSome | src/fair_test/fair_test_evaluation.py:198-211 | once a subject is found, the object search keeps one |
| MetadataSubject.SearchAllKeepsSome | src/fair_test/fair_test_evaluation.py:190-211 | once a subject is found, later aliases never lose it |
| MetadataSubject.NoSubjectIffNoMention | src/fair_test/fair_test_evaluation.py:190-221 | `None` is returned exactly when no triple names any alias, as subject or through an identifier predicate |
| MetadataSubject.LastDirectMatchWins | src/fair_test/fair_test_evaluation.py:190-196 | a later alias that appears as a triple subject overrides an earlier one |
| MetadataSubject.UnnamedAliasesKeepSubject | src/fair_test/fair_test_evaluation.py:190-211 | aliases that are no triple's subject leave a found subject unchanged |
| MetadataSubject.AnswerIsCandidate | src/fair_test/fair_test_evaluation.py:190-221 | any subject returned is an alias found as a triple subject or a node linked to an alias |
| Evaluation.AliasSymmetry | src/fair_test/fair_test_evaluation.py:66-74 | the alias set holds the URL, and its https form for an http URL and its http form for an https URL |
| Evaluation.DoiAliases | src/fair_test/fair_test_evaluation.py:66-80 | for `https://doi.org/d` the aliases are exactly the URL, its http form and `http://dx.doi.org/d` |
| Evaluation.HttpsDoiCounterpart | src/fair_test/fair_test_evaluation.py:72-73 | the counterpart of `https://doi.org/d` is exactly `http://doi.org/d` |
| Evaluation.HttpDoiCounterpart | src/fair_test/fair_test_evaluation.py:70-71 | the counterpart of `http://doi.org/d` is exactly `https://doi.org/d` |
| Evaluation.DxDoiAlias | src/fair_test/fair_test_evaluation.py:76-78 | a `doi.org` netloc adds exactly `http://dx.doi.org/` followed by the path without its leading slash |
| Evaluation.AliasList | src/fair_test/fair_test_evaluation.py:66-80 | follows the corrected alias set `Aliases` of the second Findings row, not `AliasesAsWritten`: an empty URL stores no aliases; otherwise the stored list holds every alias exactly once |
| Evaluation.AliasesAgreeOnUrls | src/fair_test/fair_test_evaluation.py:63-80 | when the subject is already the URL, the alias set as written equals the corrected one |
| Evaluation.DoiSubjectMissesHttpForm | src/fair_test/fair_test_evaluation.py:70-73 | as written, a DOI given bare gets no `http://doi.org/` alias, which the corrected set holds |
| Evaluation.SharedLoggerRepeatsEntries | src/fair_test/fair_test_evaluation.py:89-94 | with the shared harvester logger, two `get_url` calls log the first entry twice |
| Evaluation.SharedCopiesLength | src/fair_test/fair_test_evaluation.py:89-94 | with the shared logger, n calls add n(n+1)/2 entries |
| Evaluation.Patterns | src/fair_test/fair_test_evaluation.py:153-154 | a single subject argument (`None` included) is tried as a one-element list; a list as given |
| Evaluation.CheckPreds | src/fair_test/fair_test_evaluation.py:140-147 | the `check_preds` loop builds exactly `CheckPredicates(preds)` |
| Evaluation.Recorded | src/fair_test/fair_test_evaluation.py:213-219 | each non-empty map of a search is stored in `identifier_in_metadata`, created when needed; empty maps keep what was there |
| Evaluation.DownloadUrlsAdd | src/fair_test/fair_test_evaluation.py:262-269 | a blank data URI adds its content URLs, any other data URI adds its own string |
| Evaluation.DownloadUrlsWithoutBlanks | src/fair_test/fair_test_evaluation.py:262-269 | without blank nodes the download URLs are the data URIs' strings |
| Evaluation.BlankWithoutContent | src/fair_test/fair_test_evaluation.py:263-267 | a blank data URI with no content triple contributes nothing |
| Evaluation.FairTestEvaluation.constructor | src/fair_test/fair_test_evaluation.py:59-80 | follows the corrected reading of both Findings rows (a logger of its own for `get_url`, the alias set `Aliases`): score and bonus start at 0; the log holds the one `get_url` entry; an empty URL stores no aliases, any other stores its alias set without duplicates |
| Evaluation.FairTestEvaluation.GetUrl | src/fair_test/fair_test_evaluation.py:89-94 | returns the resolved identifier and adds exactly the one entry the harvester logged |
| Evaluation.FairTestEvaluation.GetUrlSharedLogger | src/fair_test/fair_test_evaluation.py:89-94 | as written: the shared logger's whole history is copied into the evaluation's log |
| Evaluation.FairTestEvaluation.RetrieveMetadata | src/fair_test/fair_test_evaluation.py:96-125 | the result of a harvester for the subject, as the harvester's `RetrieveMetadata` states it (service reply, Signposting result, or `AfterFirstRequest`); the harvester's logger is its own, the corrected reading of the first Findings row; the log only grows |
| Evaluation.FairTestEvaluation.Log | src/fair_test/fair_test_evaluation.py:318-319 | one stamped entry is appended |
| Evaluation.FairTestEvaluation.Warn | src/fair_test/fair_test_evaluation.py:321-328 | one `WARN:` entry; counters unchanged |
| Evaluation.FairTestEvaluation.Info | src/fair_test/fair_test_evaluation.py:330-337 | one `INFO:` entry; counters unchanged |
| Evaluation.FairTestEvaluation.Failure | src/fair_test/fair_test_evaluation.py:339-347 | score becomes 0, bonus kept, one `FAILURE:` entry |
| Evaluation.FairTestEvaluation.Success | src/fair_test/fair_test_evaluation.py:349-360 | score 1 or more turns the success into a bonus; otherwise score grows by 1; one `SUCCESS:` entry |
| Evaluation.FairTestEvaluation.Bonus | src/fair_test/fair_test_evaluation.py:362-364 | bonus grows by 1, score kept, one `SUCCESS:` entry |
| Evaluation.FairTestEvaluation.ScanValues | src/fair_test/fair_test_evaluation.py:156-159 | collects the set of objects of the triples matching one subject and predicate; the log gains exactly `ValueEntries` of those triples (one info entry per triple, in the order visited) and the score is unchanged |
| Evaluation.ValueEntriesNameTriples | src/fair_test/fair_test_evaluation.py:156-159 | the found-value entries are as many as the visited triples, and the n-th names the n-th triple's predicate and object |
| Evaluation.FairTestEvaluation.ScanPredicate | src/fair_test/fair_test_evaluation.py:153-159 | the values of one checked predicate over every subject pattern; the log gains exactly `PredicateEntries`: the found-value entries of each subject pattern in list order, every one naming a visited triple |
| Evaluation.FairTestEvaluation.ScanPredicates | src/fair_test/fair_test_evaluation.py:152-159 | the values of the listed predicates; the log gains exactly `PredicatesEntries`: each predicate's entries, predicate by predicate |
| Evaluation.PredicatesEntriesFound | src/fair_test/fair_test_evaluation.py:152-158 | every entry logged for the checked predicates names a triple with one of them as predicate and a listed subject |
| Evaluation.FairTestEvaluation.ExtractProp | src/fair_test/fair_test_evaluation.py:127-161 | the values, without duplicates, are exactly the objects of triples with a checked predicate and a subject in the list; for some order of the (set-ordered) checked predicates, the log gains exactly their found-value entries, one per visited triple, and every new entry names such a triple |
| Evaluation.FairTestEvaluation.ScanDirect | src/fair_test/fair_test_evaluation.py:193-196 | the loop over triples with the alias as subject computes `Direct` and logs each subject found |
| Evaluation.FairTestEvaluation.ScanLinked | src/fair_test/fair_test_evaluation.py:200-211 | the loop over linking triples computes `Linked` and logs each subject found |
| Evaluation.FairTestEvaluation.SearchAlias | src/fair_test/fair_test_evaluation.py:190-211 | one alias is searched as `AliasStep` says |
| Evaluation.FairTestEvaluation.ExtractMetadataSubject | src/fair_test/fair_test_evaluation.py:163-221 | falls back to the stored aliases when none are given (raising when there are none); returns the search's subject and records its maps |
| Evaluation.FairTestEvaluation.ExtractDataSubject | src/fair_test/fair_test_evaluation.py:223-275 | the data URIs are the values of the data predicates on the subjects (or the aliases); `content_url` becomes exactly this call's download URLs |
| Evaluation.FairTestEvaluation.FindDataUris | src/fair_test/fair_test_evaluation.py:249-269 | the data URIs and the download URLs they give |
| Evaluation.FairTestEvaluation.CollectDownloadUrls | src/fair_test/fair_test_evaluation.py:262-269 | the loop over data URIs computes `DownloadUrls` |
| Legacy.CommentShape | fair_test/fair_test_evaluation.py:363-368 | the comment ends with the message; a truthy prefix comes first, followed by one space; otherwise the comment is the message |
| Legacy.EntryIsStampedComment | fair_test/fair_test_logger.py:22-27 | the later logger's entry is the first generation's comment of the stamped message |
| Legacy.FixEntry | fair_test/fair_test_evaluation.py:222-224 | when it does not raise, the unguarded context fix agrees with the later, guarded one |
| Legacy.FixAllMeaning | fair_test/fair_test_evaluation.py:221-224 | the fix of a list succeeds exactly when no entry raises, and then agrees with the later fix |
| Legacy.FirstRaiseWins | fair_test/fair_test_evaluation.py:221-224 | the error raised is the one of the first entry that raises |
| Legacy.ObjectContextMustBeString | fair_test/fair_test_evaluation.py:223 | an object with `@context` raises exactly when the context is not a string |
| Legacy.FixContexts | fair_test/fair_test_evaluation.py:221-224 | the in-place loop succeeds or fails as `FixAll` says; every entry ends either untouched or rewritten |
| Legacy.Prepare | fair_test/fair_test_evaluation.py:219-228 | only JSON input can raise; JSON input is parsed as `json-ld`; text goes to the parser with the caller's format |
| Legacy.PrepareData | fair_test/fair_test_evaluation.py:219-228 | the in-place fix, expansion and serialisation give what `Prepare` says |
| Legacy.ParseNotes | fair_test/fair_test_evaluation.py:230-235 | `parse_rdf` writes at most one comment, and none exactly when it raises |
| Legacy.JsonParsedAsJsonLd | fair_test/fair_test_evaluation.py:219-237 | JSON input parses exactly when the fix and the expansion succeed, as `json-ld` over the expanded text |
| Legacy.HarvesterAgreesOnJson | fair_test/fair_test_evaluation.py:219-237 | where the first generation parses JSON, the later harvester yields the same graph without role triples |
| Legacy.NoFormatNeverWarns | fair_test/fair_test_evaluation.py:230-235 | with no format, text parses exactly when the parser accepts it with the default format, and any comment written is an `INFO:` one: it never warns |
| Evaluation.HttpCounterpart | src/fair_test/fair_test_evaluation.py:70-71 | an http URL whose rest holds no `http://` has exactly its https form as counterpart |
| Evaluation.HttpsCounterpart | src/fair_test/fair_test_evaluation.py:72-73 | an https URL whose rest holds no `https://` has exactly its http form as counterpart |
| LegacyEvaluation.DoiFormsUnderPrefix | fair_test/fair_test_evaluation.py:74-79 | a subject under a doi.org prefix brings its `http://dx.doi.org/` form and its lower-cased form |
| LegacyEvaluation.NoDoiFormsAcrossSchemes | fair_test/fair_test_evaluation.py:74-79 | an https subject gets nothing from the http doi.org branch, and the other way round |
| LegacyEvaluation.HttpsDoiAliases | fair_test/fair_test_evaluation.py:65-81 | the aliases of `https://doi.org/d` are exactly it, its http form, `http://dx.doi.org/d` and its lower-cased form |
| LegacyEvaluation.HttpDoiAliases | fair_test/fair_test_evaluation.py:65-81 | the aliases of `http://doi.org/d` are exactly it, its https form, `http://dx.doi.org/d` and its lower-cased form |
| LegacyEvaluation.LaterSetPlusLowerCase | fair_test/fair_test_evaluation.py:74-76 | for an https DOI URL, the first-generation set is the later set plus the lower-cased subject |
| LegacyEvaluation.AliasesOfOtherSubjects | fair_test/fair_test_evaluation.py:65-71 | the subject and its counterpart are always aliases; a subject outside doi.org has no others |
| LegacyEvaluation.AddCounterpart | fair_test/fair_test_evaluation.py:67-71 | the scheme step of `__init__` adds exactly the counterpart |
| LegacyEvaluation.AddDoiForms | fair_test/fair_test_evaluation.py:74-79 | one DOI step of `__init__` adds exactly the DOI forms for its prefix |
| LegacyEvaluation.Patterns | fair_test/fair_test_evaluation.py:267-272 | a list gives its IRIs, a truthy single subject one IRI, anything else the wildcard |
| LegacyEvaluation.ValuesOnListedSubjects | fair_test/fair_test_evaluation.py:266-276 | a value found on a list of subjects is the string of an object of a triple with a checked predicate and a listed subject, and every such object is found |
| LegacyEvaluation.HttpForms | fair_test/fair_test_evaluation.py:303 | the http form of each data predicate, in order |
| LegacyEvaluation.DataUriPropsBothSchemes | fair_test/fair_test_evaluation.py:291-305 | every data predicate is checked as given and under its http form |
| LegacyEvaluation.FairTestEvaluation.constructor | fair_test/fair_test_evaluation.py:58-81 | score, bonus and comment start empty; the aliases are the alias set of the subject, without duplicates |
| LegacyEvaluation.FairTestEvaluation.Log | fair_test/fair_test_evaluation.py:363-368 | one comment is appended; counters and aliases unchanged |
| LegacyEvaluation.FairTestEvaluation.Warn | fair_test/fair_test_evaluation.py:371-378 | one `WARN:` comment; counters unchanged |
| LegacyEvaluation.FairTestEvaluation.Info | fair_test/fair_test_evaluation.py:380-387 | one `INFO:` comment; counters unchanged |
| LegacyEvaluation.FairTestEvaluation.Failure | fair_test/fair_test_evaluation.py:389-397 | score becomes 0; one `FAILURE:` comment |
| LegacyEvaluation.FairTestEvaluation.Success | fair_test/fair_test_evaluation.py:399-410 | score 1 or more turns the success into a bonus; otherwise score grows by 1; one `SUCCESS:` comment |
| LegacyEvaluation.FairTestEvaluation.Bonus | fair_test/fair_test_evaluation.py:412-414 | bonus grows by 1, score kept; one `SUCCESS:` comment |
| LegacyEvaluation.FairTestEvaluation.ParseRdf | fair_test/fair_test_evaluation.py:203-237 | returns the graph `Legacy.ParseSpec` describes (or raises) and appends exactly its comment |
| LegacyEvaluation.FairTestEvaluation.ScanValues | fair_test/fair_test_evaluation.py:273-276 | the object strings for one subject pattern and predicate; the comment grows by exactly one found-value line per matching triple, in graph order |
| LegacyEvaluation.FairTestEvaluation.ScanPredicate | fair_test/fair_test_evaluation.py:267-276 | the value strings of one predicate over every subject pattern; the comment grows by that predicate's lines, pattern by pattern |
| LegacyEvaluation.FairTestEvaluation.ScanPredicates | fair_test/fair_test_evaluation.py:266-276 | the value strings of the listed predicates; the comment grows by their lines, predicate by predicate |
| LegacyEvaluation.FoundLinesNameTriples | fair_test/fair_test_evaluation.py:273-275 | there is one found-value line per visited triple, and the n-th names the predicate and the n-th triple's object |
| LegacyEvaluation.FairTestEvaluation.CommentHeader | fair_test/fair_test_evaluation.py:262-264 | the predicate list is commented, then the subjects when truthy |
| LegacyEvaluation.FairTestEvaluation.ExtractProp | fair_test/fair_test_evaluation.py:240-278 | the values, without duplicates, are exactly the strings of objects of triples with a checked predicate and a fitting subject; the comments are the header, then, for some order of the checked predicates, each one's found-value lines |
| LegacyEvaluation.FairTestEvaluation.CommentDataProps | fair_test/fair_test_evaluation.py:304 | one comment names the queried predicates |
| LegacyEvaluation.FairTestEvaluation.SearchDataUri | fair_test/fair_test_evaluation.py:303-305 | the values of the data predicates and their http forms on the stored aliases |
| LegacyEvaluation.FairTestEvaluation.ExtractDataUri | fair_test/fair_test_evaluation.py:281-305 | the values, without duplicates, of the data predicates under both schemes on the stored aliases |
| LegacyFairTest.FairTest.constructor | fair_test/fair_test.py:39-44 | the aliases are exactly `[subject]` |
| LegacyFairTest.FairTest.DoEvaluate | fair_test/fair_test.py:251-255 | an empty subject is rejected with 422 before anything changes; any other is stored |
| LegacyFairTest.StaleAliases | fair_test/fair_test.py:251-255 | a metric built without a subject keeps `[None]` as aliases after `doEvaluate` stores one |
| LegacyFairTest.FairTest.Log | fair_test/fair_test.py:98-104 | one comment is appended |
| LegacyFairTest.FairTest.Warn | fair_test/fair_test.py:106-107 | one `WARN:` comment; counters unchanged |
| LegacyFairTest.FairTest.Info | fair_test/fair_test.py:109-110 | one `INFO:` comment; counters unchanged |
| LegacyFairTest.FairTest.Failure | fair_test/fair_test.py:112-114 | score becomes 0; one `FAILURE:` comment |
| LegacyFairTest.FairTest.Success | fair_test/fair_test.py:116-121 | score 1 or more turns the success into a bonus; otherwise score grows by 1 |
| LegacyFairTest.FairTest.Bonus | fair_test/fair_test.py:123-125 | bonus grows by 1, score kept |
| LegacyFairTest.FairTest.ParseRdf | fair_test/fair_test.py:225-248 | the same parse and comment as the first-generation evaluation |
| MetricsApi.NamesInExactly | src/fair_test/fair_test_api.py:123-129 | a name from a directory is the name of a kept file in it, and every kept file has one |
| MetricsApi.AssessNamesExactly | src/fair_test/fair_test_api.py:120-130 | the names are exactly those of kept files: `__pycache__` paths and `__init__.py` files never give one |
| MetricsApi.AssessNamesInWalkOrder | src/fair_test/fair_test_api.py:122-129 | names follow the walk order, directory by directory |
| MetricsApi.TopLevelName | src/fair_test/fair_test_api.py:125-129 | a file directly in the folder is named by its file name minus 3 characters |
| MetricsApi.NestedName | src/fair_test/fair_test_api.py:125-127 | a file in `folder/sub` is named `sub + "/" + stem` |
| MetricsApi.MetricsTestsFilepaths | src/fair_test/fair_test_api.py:120-130 | the nested loop builds exactly `AssessNames` |
| MetricsApi.ModuleNameIsDotted | src/fair_test/fair_test_api.py:77-84 | a module name holds no `/`, and a dot follows the folder's dotted path |
| MetricsApi.FlatModuleName | src/fair_test/fair_test_api.py:77-84 | a top-level metric's module is the folder's dotted path, a dot and the name |
| MetricsApi.ModuleNamesAreDotted | src/fair_test/fair_test_api.py:83-88 | every imported module is a dotted path under the folder's dotted path |
| MetricsApi.Selected | src/fair_test/fair_test_api.py:179-182 | a case is run exactly when no metric is given or its metric id equals the metric |
| MetricsApi.SelectedInOrder | src/fair_test/fair_test_api.py:179-182 | selection keeps the order of the cases |
| MetricsApi.FilterMetric | src/fair_test/fair_test_api.py:180 | the comprehension keeps exactly the cases of the metric, in order |
| MetricsApi.RunSelected | src/fair_test/fair_test_api.py:179-189 | the cases run (after the in-loop `continue`) are exactly `Selected` |
| LegacyMetricsApi.MetricModules | fair_test/fair_test_api.py:59-79 | the inline walk and import loop give one module per kept file, in walk order, named as the later API names them |

## Left out

- HTTP, `idutils`, `extruct`, `pyld` and `rdflib` parsing/serialisation are functions of the `Web` value; their own behaviour is not modelled.
- The parser's default format when the first-generation `parse_rdf` is given none: the model hands the parser the empty format string.
- Exception texts are the model's own strings; `e.args[0]` and `str(e)` are given by the `Web` value.
- Python's `repr` of strings containing quotes (used in the first-generation `extract_prop` comment) is approximated by single quoting.
- `str.lower` is modelled on ASCII letters only.
- Timestamps (`datetime.now()`) are a parameter, and `date`, `id`, `to_jsonld`, `response`, `openapi_yaml`, FastAPI routing, CORS and `importlib` loading are not modelled; the API models stop at the module names imported.
- The first-generation `retrieve_rdf`/`getRDF` and the metrics' `evaluate` bodies are network plumbing around the modelled parser and are left out.
- Legacy.FixContexts: an entry rewritten before a later one raises is rewritten in the caller's own list too; the model states the array's final contents but not that aliasing.
- MetricsApi.RunSelected: the POST to each test and the assertion on its score are not modelled.
- Harvester.MetadataHarvester.FollowSignposting: the source recurses through Signposting links with no visited set; the model bounds the recursion by a fuel parameter, so it does not claim termination of the source.
- Harvester.MetadataHarvester.FollowLink: states only that aliases and the log grow; what a nested retrieval returns is not tied to its link, because the retrievals are the recursive methods themselves.
- Harvester.MetadataHarvester.Embedded: the context fix rewrites the extractor's lists in place, so the stored extraction and the fallback share them; the model assigns the fixed lists to both by value and does not model that sharing.
- Evaluation.FairTestEvaluation.constructor: builds the corrected alias set and calls `get_url` through a logger of its own; the code as written is `Evaluation.AliasesAsWritten` and `Evaluation.FairTestEvaluation.GetUrlSharedLogger` (Findings).
- Evaluation.AliasList: stores the corrected alias set `Aliases`, not `AliasesAsWritten` (Findings).
- Evaluation.FairTestEvaluation.RetrieveMetadata: the harvester has a logger of its own; as written every harvester shares one, whose whole history is copied (Findings).
- Urls.UrlParse: the leading and trailing C0-control and space stripping of `urlsplit` is not modelled; the core only parses URLs built from a DOI or taken from a reply.
- Urls.UrlParse: the deletion of tab, carriage return and line feed characters anywhere in the URL is not modelled, for the same reason.
- Urls.UrlParse: follows Python 3.9 and later in splitting a scheme followed only by digits (`urn:123`); 3.7 and 3.8 leave such a URL without a scheme. The core only reads the parse for the `doi.org` network-location test, which this cannot change.
- Urls.UrlParse: the `ValueError` raised for an unbalanced `[` or `]` in the network location is not modelled; the model always returns a split.
- Rdf.Truthy: tests that the node's string form is non-empty; rdflib decides a literal's truth by its Python value (an integer literal `0` or a boolean `false` is false), which the model does not capture because it holds no typed values.
- LegacyFairTest.FairTest.Log: the `print` of each comment to standard output is not modelled (I/O).
- The harvester's `alt_urls`, `rdf`, `json` fields and its `asdict` property are never read by the core.
- Evaluation.FairTestEvaluation.RetrieveMetadata: states the log only grows, not its exact entries.
- Evaluation.FairTestEvaluation.FindDataUris: states the log only grows, not its exact entries.
- Evaluation.FairTestEvaluation.ExtractDataSubject: states the log only grows, not its exact entries.
- Evaluation.FairTestEvaluation.CollectDownloadUrls: states the log only grows, not its exact entries (each nested `extract_prop` call's exact log is stated by `ExtractProp`).
- Harvester.MetadataHarvester.FollowSignposting: states the log only grows, not its exact entries.
- Harvester.MetadataHarvester.TryLinks: states the log only grows, not its exact entries.
- Harvester.MetadataHarvester.AfterRequest: states the log only grows, not its exact entries.
- Harvester.MetadataHarvester.FromUrl: states the log only grows, not its exact entries.
- LegacyEvaluation.FairTestEvaluation.ExtractDataUri: states the comment list only grows, not its exact lines.
- LegacyEvaluation.FairTestEvaluation.SearchDataUri: states the comment list only grows, not its exact lines.
- Harvester.MetadataHarvester.ParseRdf: states the log only grows, not the per-format lines.
- Harvester.MetadataHarvester.AskService: states the log only grows, not its exact entries.
- Harvester.MetadataHarvester.FollowRedirect: states the log only grows, not its exact entries.
- Harvester.MetadataHarvester.ParseKind: states the log only grows, not its exact entries.
- Harvester.MetadataHarvester.Embedded: states the log only grows, not its exact entries.
- Harvester.MetadataHarvester.ReadExtracted: states the log only grows, not its exact entries.
- Harvester.MetadataHarvester.Negotiate: states the log only grows, not its exact entries.
- Harvester.MetadataHarvester.Fallback: states the log only grows, not its exact entries.
- Harvester.MetadataHarvester.FirstRequest: states the log only grows, not its exact entries.
- Harvester.MetadataHarvester.LastResorts: states the log only grows, not its exact entries.
- Harvester.MetadataHarvester.HarvestUrl: states the log only grows, not its exact entries.
- Harvester.MetadataHarvester.RetrieveMetadata: states the log only grows, not its exact entries.
- Evaluation.FairTestEvaluation.ExtractDataSubject: the guard tests `"data_url"`, which nothing sets, so `content_url` is reset on every call and ends equal to this call's download URLs; the model states that, and does not treat the guard as a finding.

## Findings

| source | as written | input that shows it | evidently intended | confidence | as-written member | corrected member |
|---|---|---|---|---|---|---|
| fair_test/metadata_harvester.py:21 | `logs: FairTestLogger = FairTestLogger()` is a dataclass default evaluated once, so every harvester shares one logger; `get_url` and `retrieve_metadata` then copy that logger's whole history into the evaluation (src/fair_test/fair_test_evaluation.py:93, :124) | two `get_url` calls logging `e1` then `e2` leave `[e1, e1, e2]` in the evaluation's log | each harvester has its own logger, so each call adds only its own entries | high, not executed | Evaluation.FairTestEvaluation.GetUrlSharedLogger, Evaluation.SharedLoggerRepeatsEntries | Evaluation.FairTestEvaluation.GetUrl |
| src/fair_test/fair_test_evaluation.py:72 | the https branch tests `self.subject.startswith("https://")` instead of `self.subject_url` | the bare DOI `10.5281/zenodo.1` resolves to `https://doi.org/10.5281/zenodo.1`, but `http://doi.org/10.5281/zenodo.1` is not added | the counterpart of an https URL is added whatever form the subject was given in | medium, not executed | Evaluation.AliasesAsWritten, Evaluation.DoiSubjectMissesHttpForm | Evaluation.Aliases, Evaluation.AliasSymmetry |
