/**
 * How the API finds its metric tests (`src/fair_test/fair_test_api.py`):
 * the directory walk under the metrics folder is an input, a sequence of
 * (directory, file names) entries in walk order; every file that is not a
 * package marker and not under a `__pycache__` directory names a metric,
 * relative to the folder and without its last three characters (the `.py`
 * of a Python file; no file is filtered by its extension); the module
 * imported for it is the folder and that name with "/" read as ".".
 * `run_tests` then runs the test cases of one metric, or of all.
 */
module MetricsApi {
  import opened Wrappers
  import opened Strings

  /** One step of `os.walk`: a directory path and the names of the files in it. */
  datatype WalkEntry = WalkEntry(path: string, files: seq<string>)

  /** Cache directories and package markers name no metric. */
  predicate Skipped(path: string, filename: string) {
    EndsWith(path, "__pycache__") || EndsWith(filename, "__init__.py")
  }

  /**
   * The name of a metric file: the directory with every occurrence of the
   * folder removed, its first character dropped, a "/", then the file name
   * without its last three characters; a file directly in the folder is
   * named by the file name alone.
   */
  function AssessName(folder: string, path: string, filename: string): string {
    var rel := ReplaceAll(path, folder, "");
    if rel != [] then Drop(rel, 1) + "/" + DropLast(filename, 3) else DropLast(filename, 3)
  }

  /** The names of the kept files of one directory, in file order. */
  function NamesIn(folder: string, path: string, files: seq<string>): seq<string>
    decreases |files|
  {
    if files == [] then []
    else
      var front := NamesIn(folder, path, files[..|files| - 1]);
      var f := files[|files| - 1];
      if Skipped(path, f) then front else front + [AssessName(folder, path, f)]
  }

  /** `get_metrics_tests_filepaths`: the names of all kept files, directory by directory. */
  function AssessNames(folder: string, walk: seq<WalkEntry>): seq<string>
    decreases |walk|
  {
    if walk == [] then []
    else
      var e := walk[|walk| - 1];
      AssessNames(folder, walk[..|walk| - 1]) + NamesIn(folder, e.path, e.files)
  }

  /** A name of a directory is the name of a kept file in it, and every kept file has its name there. */
  lemma {:induction false} NamesInExactly(folder: string, path: string, files: seq<string>, n: string)
    ensures n in NamesIn(folder, path, files) <==>
      exists f :: f in files && !Skipped(path, f) && n == AssessName(folder, path, f)
    decreases |files|
  {
    if files != [] {
      var front := files[..|files| - 1];
      var f := files[|files| - 1];
      NamesInExactly(folder, path, front, n);
      assert files == front + [f];
      if exists g :: g in files && !Skipped(path, g) && n == AssessName(folder, path, g) {
        var g :| g in files && !Skipped(path, g) && n == AssessName(folder, path, g);
        if g != f {
          assert g in front;
        }
      }
    }
  }

  /** `n` is the name of a kept file of some directory of the walk. */
  ghost predicate NamesKeptFile(folder: string, walk: seq<WalkEntry>, n: string) {
    exists e, f :: e in walk && f in e.files && !Skipped(e.path, f) && n == AssessName(folder, e.path, f)
  }

  /**
   * A metric name is the name of a kept file of some directory of the walk,
   * and every kept file is named: cache directories and package markers
   * never produce a name.
   */
  lemma {:induction false} AssessNamesExactly(folder: string, walk: seq<WalkEntry>, n: string)
    ensures n in AssessNames(folder, walk) <==> NamesKeptFile(folder, walk, n)
    decreases |walk|
  {
    if walk != [] {
      var front := walk[..|walk| - 1];
      var e := walk[|walk| - 1];
      AssessNamesExactly(folder, front, n);
      NamesInExactly(folder, e.path, e.files, n);
      assert walk == front + [e];
      assert AssessNames(folder, walk) == AssessNames(folder, front) + NamesIn(folder, e.path, e.files);
      if n in AssessNames(folder, walk) {
        if n in AssessNames(folder, front) {
          var e', f :| e' in front && f in e'.files && !Skipped(e'.path, f) && n == AssessName(folder, e'.path, f);
          assert e' in walk;
        } else {
          var f :| f in e.files && !Skipped(e.path, f) && n == AssessName(folder, e.path, f);
          assert e in walk;
        }
      }
      if NamesKeptFile(folder, walk, n) {
        var e', f :| e' in walk && f in e'.files && !Skipped(e'.path, f) && n == AssessName(folder, e'.path, f);
        if e' != e {
          assert e' in front;
          assert NamesKeptFile(folder, front, n);
        }
      }
    }
  }

  /** The names follow the walk order: the names of a longer walk extend those of its beginning. */
  lemma {:induction false} AssessNamesInWalkOrder(folder: string, w1: seq<WalkEntry>, w2: seq<WalkEntry>)
    ensures AssessNames(folder, w1 + w2) == AssessNames(folder, w1) + AssessNames(folder, w2)
    decreases |w2|
  {
    if w2 == [] {
      assert w1 + w2 == w1;
    } else {
      var front := w2[..|w2| - 1];
      var e := w2[|w2| - 1];
      assert (w1 + w2)[..|w1 + w2| - 1] == w1 + front;
      assert (w1 + w2)[|w1 + w2| - 1] == e;
      AssessNamesInWalkOrder(folder, w1, front);
    }
  }

  /** A file directly in the folder is named by its file name without the last three characters. */
  lemma TopLevelName(folder: string, filename: string)
    requires folder != []
    ensures AssessName(folder, folder, filename) == DropLast(filename, 3)
  {
    ReplaceAllSelf(folder);
  }

  /**
   * A file in the sub-directory `sub` of the folder is named by that
   * sub-directory, a "/" and its file name without the last three
   * characters, provided the folder does not occur again after it.
   */
  lemma NestedName(folder: string, sub: string, filename: string)
    requires folder != [] && !Contains("/" + sub, folder)
    ensures AssessName(folder, folder + "/" + sub, filename) == sub + "/" + DropLast(filename, 3)
  {
    var rest := "/" + sub;
    var path := folder + rest;
    assert folder + "/" + sub == path;
    assert ReplaceAll(path, folder, "") == rest by {
      StartsWithConcat(folder, rest);
      ReplaceAllAtStart(path, folder, "");
      assert path[|folder|..] == rest;
      ReplaceAllAbsent(rest, folder, "");
    }
    assert Drop(rest, 1) == sub;
  }

  /** The `os.walk` loop of `get_metrics_tests_filepaths`. */
  method MetricsTestsFilepaths(folder: string, walk: seq<WalkEntry>) returns (names: seq<string>)
    ensures names == AssessNames(folder, walk)
  {
    names := [];
    var i := 0;
    while i < |walk|
      invariant 0 <= i <= |walk|
      invariant names == AssessNames(folder, walk[..i])
    {
      var e := walk[i];
      ghost var before := names;
      var j := 0;
      while j < |e.files|
        invariant 0 <= j <= |e.files|
        invariant names == before + NamesIn(folder, e.path, e.files[..j])
      {
        var filename := e.files[j];
        if !EndsWith(e.path, "__pycache__") && !EndsWith(filename, "__init__.py") {
          var filepath := ReplaceAll(e.path, folder, "");
          if filepath != [] {
            names := names + [Drop(filepath, 1) + "/" + DropLast(filename, 3)];
          } else {
            names := names + [DropLast(filename, 3)];
          }
        }
        assert e.files[..j + 1][..j] == e.files[..j];
        j := j + 1;
      }
      assert e.files[..|e.files|] == e.files;
      assert walk[..i + 1][..i] == walk[..i];
      i := i + 1;
    }
    assert walk[..|walk|] == walk;
  }

  // ---------------------------------------------------------------------
  // Module names

  /** The module imported for a metric: the folder and the name, each with "/" read as ".". */
  function ModuleName(folder: string, name: string): string {
    ReplaceAll(folder, "/", ".") + "." + ReplaceAll(name, "/", ".")
  }

  /** A module name is a dotted path: no "/" is left in it. */
  lemma ModuleNameIsDotted(folder: string, name: string)
    ensures '/' !in ModuleName(folder, name)
    ensures ModuleName(folder, name)[|ReplaceAll(folder, "/", ".")|] == '.'
  {
    ReplaceAllRemovesChar(folder, '/', ".");
    ReplaceAllRemovesChar(name, '/', ".");
  }

  /** A name without "/" (a metric directly in the folder) keeps its text after the dot. */
  lemma FlatModuleName(folder: string, name: string)
    requires '/' !in name
    ensures ModuleName(folder, name) == ReplaceAll(folder, "/", ".") + "." + name
  {
    if Contains(name, "/") {
      assert name[0] == '/' || Contains(name[1..], "/");
      NoSlashNoMatch(name);
    }
    ReplaceAllAbsent(name, "/", ".");
  }

  /** A string without the character "/" does not contain the pattern "/". */
  lemma {:induction false} NoSlashNoMatch(s: string)
    requires '/' !in s
    ensures !Contains(s, "/")
    decreases |s|
  {
    if s != [] {
      assert s[0] != '/';
      assert forall c :: c in s[1..] ==> c in s;
      NoSlashNoMatch(s[1..]);
    }
  }

  /** The modules imported, one per metric name, in the order of the names. */
  function ModuleNames(folder: string, names: seq<string>): (r: seq<string>)
    ensures |r| == |names|
    ensures forall i :: 0 <= i < |names| ==> r[i] == ModuleName(folder, names[i])
  {
    seq(|names|, i requires 0 <= i < |names| => ModuleName(folder, names[i]))
  }

  /** Every imported module is a dotted path under the folder's dotted path. */
  lemma ModuleNamesAreDotted(folder: string, names: seq<string>)
    ensures forall m :: m in ModuleNames(folder, names) ==>
      '/' !in m && StartsWith(m, ReplaceAll(folder, "/", ".") + ".")
  {
    forall m | m in ModuleNames(folder, names)
      ensures '/' !in m && StartsWith(m, ReplaceAll(folder, "/", ".") + ".")
    {
      var i :| 0 <= i < |names| && ModuleNames(folder, names)[i] == m;
      ModuleNameIsDotted(folder, names[i]);
      StartsWithConcat(ReplaceAll(folder, "/", ".") + ".", ReplaceAll(names[i], "/", "."));
    }
  }

  // ---------------------------------------------------------------------
  // run_tests

  /** One test case of a metric: the subject, the score it should get, and the metric's path. */
  datatype TestCase = TestCase(subject: string, score: int, metricId: string)

  /** Python truthiness of the `metric` argument. */
  predicate Given(metric: Option<string>) {
    metric.Some? && metric.value != []
  }

  /** The test cases run: those of the given metric, in order, or all of them when no metric is given. */
  function Selected(evals: seq<TestCase>, metric: Option<string>): (r: seq<TestCase>)
    ensures forall c :: c in r <==> c in evals && (Given(metric) ==> c.metricId == metric.value)
    ensures |r| <= |evals|
    decreases |evals|
  {
    if !Given(metric) then evals
    else if evals == [] then []
    else
      var front := Selected(evals[..|evals| - 1], metric);
      var last := evals[|evals| - 1];
      assert evals == evals[..|evals| - 1] + [last];
      if last.metricId == metric.value then front + [last] else front
  }

  /** Selection keeps the order of the cases: selecting from a concatenation concatenates the selections. */
  lemma {:induction false} SelectedInOrder(e1: seq<TestCase>, e2: seq<TestCase>, metric: Option<string>)
    ensures Selected(e1 + e2, metric) == Selected(e1, metric) + Selected(e2, metric)
    decreases |e2|
  {
    if Given(metric) {
      if e2 == [] {
        assert e1 + e2 == e1;
      } else {
        var front := e2[..|e2| - 1];
        assert (e1 + e2)[..|e1 + e2| - 1] == e1 + front;
        assert (e1 + e2)[|e1 + e2| - 1] == e2[|e2| - 1];
        SelectedInOrder(e1, front, metric);
      }
    }
  }

  /**
   * The loop of `run_tests`: its skip test repeats the selection, so every
   * selected case is run.
   */
  method RunSelected(evals: seq<TestCase>, metric: Option<string>) returns (run: seq<TestCase>)
    ensures run == Selected(evals, metric)
  {
    var runEvals := evals;
    if Given(metric) {
      runEvals := FilterMetric(evals, metric.value);
    }
    run := [];
    var i := 0;
    while i < |runEvals|
      invariant 0 <= i <= |runEvals|
      invariant run == runEvals[..i]
    {
      var c := runEvals[i];
      assert c in Selected(evals, metric);
      if !(Given(metric) && metric.value != c.metricId) {
        run := run + [c];
      }
      assert runEvals[..i + 1] == runEvals[..i] + [c];
      i := i + 1;
    }
    assert runEvals[..|runEvals|] == runEvals;
  }

  /** The list comprehension of `run_tests`: the cases of metric `m`, in order. */
  method FilterMetric(evals: seq<TestCase>, m: string) returns (r: seq<TestCase>)
    requires m != []
    ensures r == Selected(evals, Some(m))
  {
    r := [];
    var i := 0;
    while i < |evals|
      invariant 0 <= i <= |evals|
      invariant r == Selected(evals[..i], Some(m))
    {
      assert evals[..i + 1][..i] == evals[..i];
      if evals[i].metricId == m {
        r := r + [evals[i]];
      }
      i := i + 1;
    }
    assert evals[..|evals|] == evals;
  }
}
