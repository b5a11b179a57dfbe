/** `ResultFiles`: the names of the files Locust writes for one SUT.  The
    deployer has two copies, one keyed by `sut` and one by `sut_name`; they
    behave alike and are modelled once. */
module ResultFiles {
  import opened Wrappers
  import Text

  datatype ResultFiles = ResultFiles(sut: string) {
    function StatsCsv(): string { sut + "_stats.csv" }
    function FailuresCsv(): string { sut + "_failures.csv" }
    function StatsHistoryCsv(): string { sut + "_stats_history.csv" }
    function Report(): string { sut + "_report.html" }
  }

  /** The constructor: an empty SUT name is refused. */
  function New(sut: string): (r: Result<ResultFiles, string>)
    ensures r.Err? <==> sut == []
    ensures r.Ok? ==> r.value.sut == sut
  {
    if sut == [] then Err("SUT name cannot be empty.") else Ok(ResultFiles(sut))
  }

  /** Every name starts with the SUT's name and an underscore. */
  lemma NamesStartWithSut(sut: string)
    requires New(sut).Ok?
    ensures var f := New(sut).value;
            Text.StartsWith(f.StatsCsv(), sut + "_") && Text.StartsWith(f.FailuresCsv(), sut + "_") &&
            Text.StartsWith(f.StatsHistoryCsv(), sut + "_") && Text.StartsWith(f.Report(), sut + "_")
  {
    var f := New(sut).value;
    assert f.StatsCsv() == sut + "_" + "stats.csv";
    assert f.FailuresCsv() == sut + "_" + "failures.csv";
    assert f.StatsHistoryCsv() == sut + "_" + "stats_history.csv";
    assert f.Report() == sut + "_" + "report.html";
  }

  /** The four files of one SUT never collide: their names differ in length. */
  lemma NamesDistinct(f: ResultFiles)
    ensures f.StatsCsv() != f.FailuresCsv() && f.StatsCsv() != f.StatsHistoryCsv() && f.StatsCsv() != f.Report()
    ensures f.FailuresCsv() != f.StatsHistoryCsv() && f.FailuresCsv() != f.Report()
    ensures f.StatsHistoryCsv() != f.Report()
  {
    assert |f.StatsCsv()| == |f.sut| + 10 && |f.FailuresCsv()| == |f.sut| + 13;
    assert |f.StatsHistoryCsv()| == |f.sut| + 18 && |f.Report()| == |f.sut| + 12;
  }

  /** Different SUTs have different statistics files and reports, so the
      results of two SUTs never overwrite each other. */
  lemma NamesIdentifySut(f: ResultFiles, g: ResultFiles)
    requires f.StatsCsv() == g.StatsCsv() || f.Report() == g.Report()
    ensures f.sut == g.sut
  {
    SuffixCancels(f.sut, g.sut, "_stats.csv");
    SuffixCancels(f.sut, g.sut, "_report.html");
  }

  lemma SuffixCancels(a: string, b: string, suffix: string)
    ensures a + suffix == b + suffix ==> a == b
  {
    if a + suffix == b + suffix {
      assert a == (a + suffix)[..|a|];
      assert b == (b + suffix)[..|b|];
    }
  }
}
