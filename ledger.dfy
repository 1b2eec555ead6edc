/**
 * The score ledger shared by every evaluation class: `failure` resets the
 * score to 0, the first `success` raises it to 1 and every further one is
 * counted as a bonus instead, `bonus` always adds to the bonus, and the
 * plain logging calls leave both counters alone.
 */
module Ledger {

  /** The scoring-relevant calls a metric test makes on its evaluation. */
  datatype Call = Failure | Success | Bonus | Info | Warn

  datatype Tally = Tally(score: int, bonus: int)

  /** One call's effect on the counters. */
  function Apply(t: Tally, c: Call): Tally {
    match c
    case Failure => t.(score := 0)
    case Success => if t.score >= 1 then t.(bonus := t.bonus + 1) else t.(score := t.score + 1)
    case Bonus => t.(bonus := t.bonus + 1)
    case Info => t
    case Warn => t
  }

  /** The counters after a whole sequence of calls, made in order. */
  function Run(t: Tally, calls: seq<Call>): Tally
    decreases |calls|
  {
    if calls == [] then t else Apply(Run(t, calls[..|calls| - 1]), calls[|calls| - 1])
  }

  function Count(calls: seq<Call>, c: Call): nat
    decreases |calls|
  {
    if calls == [] then 0
    else Count(calls[..|calls| - 1], c) + (if calls[|calls| - 1] == c then 1 else 0)
  }

  /** The calls that can change a counter, in order. */
  function Verdicts(calls: seq<Call>): (r: seq<Call>)
    ensures forall c :: c in r <==> c in calls && c != Info && c != Warn
    decreases |calls|
  {
    if calls == [] then []
    else
      var last := calls[|calls| - 1];
      assert calls == calls[..|calls| - 1] + [last];
      var front := Verdicts(calls[..|calls| - 1]);
      if last == Info || last == Warn then front else front + [last]
  }

  /** The success condition: some success is not followed by any failure. */
  ghost predicate SucceededLast(calls: seq<Call>) {
    exists i :: 0 <= i < |calls| && calls[i] == Success &&
      forall j :: i < j < |calls| ==> calls[j] != Failure
  }

  /** A score that starts at 0 or 1 stays 0 or 1: the score is binary. */
  lemma {:induction false} ScoreStaysBinary(t: Tally, calls: seq<Call>)
    requires t.score == 0 || t.score == 1
    ensures Run(t, calls).score == 0 || Run(t, calls).score == 1
    decreases |calls|
  {
    if calls != [] {
      ScoreStaysBinary(t, calls[..|calls| - 1]);
    }
  }

  /**
   * From the initial score 0, the final score is 1 exactly when some
   * success was recorded after the last failure.
   */
  lemma {:induction false} ScoreIsLastVerdict(t: Tally, calls: seq<Call>)
    requires t.score == 0
    ensures Run(t, calls).score == 1 <==> SucceededLast(calls)
    decreases |calls|
  {
    if calls != [] {
      var front := calls[..|calls| - 1];
      var last := calls[|calls| - 1];
      ScoreIsLastVerdict(t, front);
      ScoreStaysBinary(t, front);
      if SucceededLast(front) && last != Failure {
        var i :| 0 <= i < |front| && front[i] == Success &&
          forall j :: i < j < |front| ==> front[j] != Failure;
        assert calls[i] == Success;
        assert forall j :: i < j < |calls| ==> calls[j] != Failure;
      }
      if SucceededLast(calls) && last != Success {
        var i :| 0 <= i < |calls| && calls[i] == Success &&
          forall j :: i < j < |calls| ==> calls[j] != Failure;
        assert i < |front|;
        assert front[i] == Success;
        assert forall j :: i < j < |front| ==> front[j] != Failure;
        assert SucceededLast(front);
      }
      if last == Success {
        assert calls[|calls| - 1] == Success;
      }
    }
  }

  /** The bonus never decreases, whatever the calls. */
  lemma {:induction false} BonusNeverDecreases(t: Tally, calls: seq<Call>)
    ensures Run(t, calls).bonus >= t.bonus
    decreases |calls|
  {
    if calls != [] {
      BonusNeverDecreases(t, calls[..|calls| - 1]);
    }
  }

  /**
   * Without a failure no success is lost: each `success` and each `bonus`
   * adds exactly one point, to the score or to the bonus.
   */
  lemma {:induction false} EverySuccessCounted(t: Tally, calls: seq<Call>)
    requires Failure !in calls
    ensures Run(t, calls).score + Run(t, calls).bonus ==
            t.score + t.bonus + Count(calls, Success) + Count(calls, Bonus)
    decreases |calls|
  {
    if calls != [] {
      assert calls == calls[..|calls| - 1] + [calls[|calls| - 1]];
      EverySuccessCounted(t, calls[..|calls| - 1]);
    }
  }

  /** The logging calls have no effect on the counters. */
  lemma {:induction false} LoggingIsNeutral(t: Tally, calls: seq<Call>)
    ensures Run(t, Verdicts(calls)) == Run(t, calls)
    decreases |calls|
  {
    if calls != [] {
      var front := calls[..|calls| - 1];
      var last := calls[|calls| - 1];
      LoggingIsNeutral(t, front);
      if !(last == Info || last == Warn) {
        var v := Verdicts(front) + [last];
        assert v[..|v| - 1] == Verdicts(front);
      }
    }
  }
}
