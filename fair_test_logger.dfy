/**
 * FairTestLogger: the append-only trace of an evaluation. Every entry is
 * stamped with the time of the call (a parameter here) and, for the
 * levelled calls, prefixed with the level.
 */
module Logger {
  import opened Wrappers
  import opened Strings

  const WarnPrefix := "WARN:"
  const InfoPrefix := "INFO:"
  const FailurePrefix := "FAILURE:"
  const SuccessPrefix := "SUCCESS:"

  /** The text `log` appends for `msg` at time `ts`; an absent or empty prefix is left out. */
  function Entry(msg: string, prefix: Option<string>, ts: string): string {
    var stamped := "[" + ts + "] " + msg;
    if prefix.Some? && prefix.value != [] then prefix.value + " " + stamped else stamped
  }

  /** Reading an entry back: the level word before the first space, or "" when the entry starts with the stamp. */
  function LevelOf(e: string): string {
    if StartsWith(e, "[") then [] else BeforeFirst(e, ' ')
  }

  /** Reading an entry back: the text after the first "] ". */
  function MessageOf(e: string): string {
    Drop(AfterFirst(e, ']'), 1)
  }

  /** A level word that `LevelOf` can read back. */
  predicate ReadableLevel(p: string) {
    p != [] && p[0] != '[' && ' ' !in p && ']' !in p
  }

  /**
   * Entries keep their parts apart: the level and the message are recovered
   * from the entry whenever the level is a single word and the timestamp
   * holds no ']'. This is what makes the two entry shapes (with and without
   * a prefix) distinguishable.
   */
  lemma EntryRoundTrip(msg: string, prefix: Option<string>, ts: string)
    requires prefix.Some? ==> prefix.value == [] || ReadableLevel(prefix.value)
    requires ']' !in ts
    ensures MessageOf(Entry(msg, prefix, ts)) == msg
    ensures LevelOf(Entry(msg, prefix, ts)) == if prefix.Some? then prefix.value else []
  {
    var stamped := "[" + ts + "] " + msg;
    assert stamped == ("[" + ts) + [']'] + (" " + msg);
    assert ']' !in "[" + ts;
    if prefix.Some? && prefix.value != [] {
      var p := prefix.value;
      var e := p + " " + stamped;
      assert e == (p + " [" + ts) + [']'] + (" " + msg);
      assert ']' !in p + " [" + ts;
      AfterFirstAt(p + " [" + ts, " " + msg, ']');
      assert e == p + [' '] + stamped;
      BeforeFirstAt(p, stamped, ' ');
      assert e[0] == p[0];
    } else {
      AfterFirstAt("[" + ts, " " + msg, ']');
      assert StartsWith(stamped, "[");
    }
  }

  /** Every level word used by the logger can be read back. */
  lemma LevelsReadable()
    ensures ReadableLevel(WarnPrefix) && ReadableLevel(InfoPrefix)
    ensures ReadableLevel(FailurePrefix) && ReadableLevel(SuccessPrefix)
  {
  }

  class FairTestLogger {
    var logs: seq<string>
    /** The `score` attribute that `failure` creates on the logger; absent until then. */
    var score: Option<int>

    constructor()
      ensures logs == [] && score == None
    {
      logs := [];
      score := None;
    }

    /** `__repr__`: the entries joined by newlines; newline-free entries are recovered by splitting. */
    function Repr(): (r: string)
      reads this
      ensures |logs| >= 1 && (forall i :: 0 <= i < |logs| ==> '\n' !in logs[i]) ==> Split(r, '\n') == logs
    {
      if |logs| >= 1 && (forall i :: 0 <= i < |logs| ==> '\n' !in logs[i]) then
        SplitJoinRoundTrip(logs, '\n');
        Join("\n", logs)
      else Join("\n", logs)
    }

    /** The `logs` setter: replaces the whole list. */
    method SetLogs(value: seq<string>)
      modifies this
      ensures logs == value && score == old(score)
    {
      logs := value;
    }

    /** Appends exactly one entry; earlier entries are untouched. */
    method Log(msg: string, prefix: Option<string>, ts: string)
      modifies this
      ensures logs == old(logs) + [Entry(msg, prefix, ts)] && score == old(score)
    {
      logs := logs + [Entry(msg, prefix, ts)];
    }

    method Warn(msg: string, ts: string)
      modifies this
      ensures logs == old(logs) + [Entry(msg, Some(WarnPrefix), ts)] && score == old(score)
    {
      Log(msg, Some(WarnPrefix), ts);
    }

    method Info(msg: string, ts: string)
      modifies this
      ensures logs == old(logs) + [Entry(msg, Some(InfoPrefix), ts)] && score == old(score)
    {
      Log(msg, Some(InfoPrefix), ts);
    }

    /** Sets the logger's own `score` attribute to 0, then logs a FAILURE entry. */
    method Failure(msg: string, ts: string)
      modifies this
      ensures logs == old(logs) + [Entry(msg, Some(FailurePrefix), ts)] && score == Some(0)
    {
      score := Some(0);
      Log(msg, Some(FailurePrefix), ts);
    }

    method Success(msg: string, ts: string)
      modifies this
      ensures logs == old(logs) + [Entry(msg, Some(SuccessPrefix), ts)] && score == old(score)
    {
      Log(msg, Some(SuccessPrefix), ts);
    }
  }
}
