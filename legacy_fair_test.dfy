/**
 * The first-generation metric base class `FairTest` of `fair_test/fair_test.py`.
 * A metric is built before any request with the class-level subject (no
 * subject unless the metric declares one), and `doEvaluate` then stores the
 * requested subject, rejecting an empty one with HTTP 422.
 */
module LegacyFairTest {
  import opened Wrappers
  import opened Rdf
  import Ledger
  import Logger
  import Harvester
  import Legacy

  /** The HTTP error `doEvaluate` raises. */
  datatype Rejection = Rejection(status: int, detail: string)

  const MissingSubject := Rejection(422, "Provide a subject URL to evaluate")

  class FairTest {
    var subject: Option<string>
    var score: int
    var scoreBonus: int
    var comment: seq<string>
    /** `data['alternative_uris']`. */
    var alternativeUris: seq<Option<string>>

    function Tally(): Ledger.Tally
      reads this
    {
      Ledger.Tally(score, scoreBonus)
    }

    /** `__init__`: the aliases are exactly the subject the metric has when it is built. */
    constructor(subject: Option<string>)
      ensures this.subject == subject && alternativeUris == [subject]
      ensures Tally() == Ledger.Tally(0, 0) && comment == []
    {
      this.subject := subject;
      score, scoreBonus := 0, 0;
      comment := [];
      alternativeUris := [subject];
    }

    /**
     * `doEvaluate`: an empty subject is rejected before anything changes;
     * any other is stored, and only the subject changes (the metric's own
     * `evaluate` runs afterwards).
     */
    method DoEvaluate(input: string) returns (r: Option<Rejection>)
      modifies this
      ensures input == [] ==> r == Some(MissingSubject) && subject == old(subject)
      ensures input != [] ==> r == None && subject == Some(input)
      ensures Tally() == old(Tally()) && comment == old(comment) && alternativeUris == old(alternativeUris)
    {
      if input == [] {
        return Some(MissingSubject);
      }
      subject := Some(input);
      return None;
    }

    // -------------------------------------------------------------------
    // Logging and scoring

    method Log(msg: string, prefix: Option<string>)
      modifies this
      ensures comment == old(comment) + [Legacy.Comment(msg, prefix)]
      ensures Tally() == old(Tally()) && subject == old(subject) && alternativeUris == old(alternativeUris)
    {
      comment := comment + [Legacy.Comment(msg, prefix)];
    }

    method Warn(msg: string)
      modifies this
      ensures Tally() == Ledger.Apply(old(Tally()), Ledger.Warn)
      ensures comment == old(comment) + [Legacy.Comment(msg, Some(Logger.WarnPrefix))]
      ensures subject == old(subject) && alternativeUris == old(alternativeUris)
    {
      Log(msg, Some(Logger.WarnPrefix));
    }

    method Info(msg: string)
      modifies this
      ensures Tally() == Ledger.Apply(old(Tally()), Ledger.Info)
      ensures comment == old(comment) + [Legacy.Comment(msg, Some(Logger.InfoPrefix))]
      ensures subject == old(subject) && alternativeUris == old(alternativeUris)
    {
      Log(msg, Some(Logger.InfoPrefix));
    }

    method Failure(msg: string)
      modifies this
      ensures Tally() == Ledger.Apply(old(Tally()), Ledger.Failure)
      ensures comment == old(comment) + [Legacy.Comment(msg, Some(Logger.FailurePrefix))]
      ensures subject == old(subject) && alternativeUris == old(alternativeUris)
    {
      score := 0;
      Log(msg, Some(Logger.FailurePrefix));
    }

    method Success(msg: string)
      modifies this
      ensures Tally() == Ledger.Apply(old(Tally()), Ledger.Success)
      ensures comment == old(comment) + [Legacy.Comment(msg, Some(Logger.SuccessPrefix))]
      ensures subject == old(subject) && alternativeUris == old(alternativeUris)
    {
      if score >= 1 {
        Bonus(msg);
      } else {
        score := score + 1;
        Log(msg, Some(Logger.SuccessPrefix));
      }
    }

    method Bonus(msg: string)
      modifies this
      ensures Tally() == Ledger.Apply(old(Tally()), Ledger.Bonus)
      ensures comment == old(comment) + [Legacy.Comment(msg, Some(Logger.SuccessPrefix))]
      ensures subject == old(subject) && alternativeUris == old(alternativeUris)
    {
      scoreBonus := scoreBonus + 1;
      Log(msg, Some(Logger.SuccessPrefix));
    }

    // -------------------------------------------------------------------
    // parseRDF

    /** `parseRDF`: the same front-end as the first-generation evaluation's `parse_rdf`. */
    method ParseRdf(web: Harvester.Web, d: Harvester.RdfData, mime: Option<string>, msg: string)
      returns (r: Result<Graph, string>)
      modifies this
      ensures r == Legacy.ParseSpec(web, d, mime)
      ensures comment == old(comment) + Legacy.ParseNotes(web, d, mime, msg)
      ensures Tally() == old(Tally()) && subject == old(subject) && alternativeUris == old(alternativeUris)
    {
      var at := Legacy.PrepareData(web, d, mime);
      if at.Err? {
        return Err(at.error);
      }
      var format := at.value.format;
      match web.parse(at.value.payload, Legacy.FormatArg(format)) {
        case Parsed(g) =>
          Info(Legacy.ParsedMessage(|g|, format, msg));
          r := Ok(g);
        case Failed(h, e) =>
          if format.None? {
            return Err(Legacy.NoneConcat);
          }
          Warn(Legacy.FailedMessage(format.value, msg, e));
          r := Ok(h);
      }
    }
  }

  /**
   * A metric built without a subject and then asked to evaluate one keeps
   * the subject-less alias list: `doEvaluate` does not refresh it.
   */
  method StaleAliases(input: string) returns (t: FairTest)
    requires input != []
    ensures t.subject == Some(input) && t.alternativeUris == [None]
  {
    t := new FairTest(None);
    var r := t.DoEvaluate(input);
  }
}
