/**
 * The first-generation API (`fair_test/fair_test_api.py`) finds its metric
 * tests with the same walk as the later one, written inline in its
 * constructor, and imports one module per name found.
 */
module LegacyMetricsApi {
  import opened Strings
  import MetricsApi

  /**
   * The two loops of `__init__`: the names of the kept files of the walk,
   * then the module imported for each, in walk order.
   */
  method MetricModules(folder: string, walk: seq<MetricsApi.WalkEntry>) returns (modules: seq<string>)
    ensures modules == MetricsApi.ModuleNames(folder, MetricsApi.AssessNames(folder, walk))
  {
    var names := [];
    var i := 0;
    while i < |walk|
      invariant 0 <= i <= |walk|
      invariant names == MetricsApi.AssessNames(folder, walk[..i])
    {
      var e := walk[i];
      ghost var before := names;
      var j := 0;
      while j < |e.files|
        invariant 0 <= j <= |e.files|
        invariant names == before + MetricsApi.NamesIn(folder, e.path, e.files[..j])
      {
        var filename := e.files[j];
        if !EndsWith(e.path, "__pycache__") && !EndsWith(filename, "__init__.py") {
          var filepath := ReplaceAll(e.path, folder, "");
          if filepath != [] {
            names := names + [Drop(filepath, 1) + "/" + DropLast(filename, 3)];
          } else {
            names := names + [DropLast(filename, 3)];
          }
        }
        assert e.files[..j + 1][..j] == e.files[..j];
        j := j + 1;
      }
      assert e.files[..|e.files|] == e.files;
      assert walk[..i + 1][..i] == walk[..i];
      i := i + 1;
    }
    assert walk[..|walk|] == walk;

    var metricsModule := ReplaceAll(folder, "/", ".");
    modules := [];
    var k := 0;
    while k < |names|
      invariant 0 <= k <= |names|
      invariant modules == MetricsApi.ModuleNames(folder, names[..k])
    {
      var assessModule := ReplaceAll(names[k], "/", ".");
      modules := modules + [metricsModule + "." + assessModule];
      k := k + 1;
    }
    assert names[..|names|] == names;
  }
}
