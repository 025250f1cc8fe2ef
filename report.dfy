/** `generate_report` of both analyzers. The URLs are ranked by mean request
    time with `heapq.nlargest`; each chosen URL gets a row of statistics;
    the rows are put into HTML. `log_analyzer.py` substitutes them into a
    template at `$TABLE_ROWS`. `homework_01/log_analyzer.py` writes a
    fixed header, the rows and a fixed footer. Reading the template file
    and the `:.Nf` number formatting are parameters. */
module Report {
  import opened Wrappers
  import Text
  import Stats
  import Rank
  import opened Aggregation
  import LogParser

  /** The one exception `generate_report` can raise on a dict of lists. */
  datatype ReportError = ZeroDivisionError

  /** One table row: `count`, `count_percentage`, `time_avg`,
      `time_percentage`, `time_sum`, `time_max` and `time_med`. */
  datatype UrlStats = UrlStats(url: string, count: nat, countPct: real, timeAvg: real,
                               timePct: real, timeSum: real, timeMax: real, timeMed: real)

  /** A format spec `:.Nf`: the value and the number of decimals `N`. */
  type Format = (real, nat) -> string

  /** The placeholder the template's rows replace. */
  const Marker: string := "$TABLE_ROWS"

  /** `heapq.nlargest(report_size, log_data, key=mean)`, over the keys in
      dict order. */
  function Selected(d: LogData, n: int): seq<string> {
    Rank.NLargest(n, d.order, MeanKey(d))
  }

  /** Some URL holds an empty list: its mean divides by zero. */
  predicate HasEmptyList(d: LogData) {
    exists u :: u in d.times && d.times[u] == []
  }

  /** When `generate_report` raises `ZeroDivisionError`. For `n >= 1`
      `nlargest` computes the key of every URL, so any empty list raises;
      for `n <= 0` it computes none. Once a row is produced, `time %`
      divides by the total time over all URLs. */
  predicate Raises(d: LogData, n: int) {
    || (n >= 1 && HasEmptyList(d))
    || (Selected(d, n) != [] && TotalTime(d) == 0.0)
  }

  /** The statistics of URL `u`. `count %` divides by `len(log_data)`,
      the number of distinct URLs, not by the number of requests. */
  function StatsOf(d: LogData, u: string): (st: UrlStats)
    requires u in d.times && d.times[u] != [] && |d.order| > 0 && TotalTime(d) != 0.0
    ensures st.url == u && st.count == |d.times[u]| >= 1
  {
    var ts := d.times[u];
    UrlStats(u, |ts|, Stats.CountPercentage(|ts|, |d.order|), Stats.Mean(ts),
             Stats.TimePercentage(Stats.Sum(ts), TotalTime(d)), Stats.Sum(ts),
             Stats.Max(ts), Stats.Median(ts))
  }

  /** One `<tr>` block: the URL as link target, then `RowRest`. */
  function FormatRow(st: UrlStats, fmt: Format): string {
    RowStart + st.url + RowRest(st, fmt)
  }

  const RowStart: string := "\n            <tr>\n                <td><a href=\""

  /** The rest of the row: the URL as link text and the seven numbers with
      their `:.Nf` precisions, `%` after the two percentages. */
  function RowRest(st: UrlStats, fmt: Format): string {
    Text.ConcatMap([
      "\">", st.url, "</a></td>\n                <td>",
      Text.NatToString(st.count), "</td>\n                <td>",
      fmt(st.countPct, 2), "%</td>\n                <td>",
      fmt(st.timeAvg, 2), "</td>\n                <td>",
      fmt(st.timePct, 2), "%</td>\n                <td>",
      fmt(st.timeSum, 4), "</td>\n                <td>",
      fmt(st.timeMax, 3), "</td>\n                <td>",
      fmt(st.timeMed, 3), "</td>\n            </tr>\n        "], piece => piece)
  }

  /** URL `u` can be given a row: it has times, and the percentages have
      non-zero denominators. */
  predicate RowDefined(d: LogData, u: string) {
    u in d.times && d.times[u] != [] && |d.order| > 0 && TotalTime(d) != 0.0
  }

  /** The row of each URL; only URLs that can be given one are ever asked. */
  function RowOf(d: LogData, fmt: Format): string -> string {
    u => if RowDefined(d, u) then FormatRow(StatsOf(d, u), fmt) else ""
  }

  /** The rows of `us`, in that order. */
  function Rows(d: LogData, us: seq<string>, fmt: Format): string {
    Text.ConcatMap(us, RowOf(d, fmt))
  }

  /** Every URL of `us` can be given a row. */
  predicate RowsDefined(d: LogData, us: seq<string>) {
    forall i :: 0 <= i < |us| ==> RowDefined(d, us[i])
  }

  /** Without the exception every selected URL can be given a row. */
  lemma NoRaiseRowsDefined(d: LogData, n: int)
    requires d.Valid() && !Raises(d, n)
    ensures RowsDefined(d, Selected(d, n))
  {
    var sel := Selected(d, n);
    forall i | 0 <= i < |sel|
      ensures RowDefined(d, sel[i])
    {
      assert sel[i] in sel;
    }
  }

  /** `generate_report` of `log_analyzer.py`: the template with every
      `$TABLE_ROWS` replaced by the rows of the selected URLs. */
  function TemplateReport(d: LogData, n: int, template: string, fmt: Format): Result<string, ReportError>
    requires d.Valid()
  {
    if Raises(d, n) then Failure(ZeroDivisionError)
    else Success(Text.Replace(template, Marker, Rows(d, Selected(d, n), fmt)))
  }

  /** The header of `homework_01/log_analyzer.py`; its title shows the
      report size. */
  function Header(n: int): string {
    HeaderBeforeSize + Text.IntToString(n) + Text.ConcatMap(HeaderLines, line => line)
  }

  const HeaderBeforeSize: string :=
    "\n        <html>\n        <head>\n            <title>Top "

  /** The header after the report size, line by line. */
  const HeaderLines: seq<string> := [
    " URLs</title>\n\n            <style>\n                table {\n",
    "                    border-collapse: collapse;\n",
    "                    width: 100%;\n                }\n",
    "                th, td {\n",
    "                    border: 1px solid black;\n",
    "                    padding: 8px;\n",
    "                    text-align: left;\n",
    "                    overflow: hidden;\n",
    "                    text-overflow: ellipsis;\n",
    "                    max-width: 200px;\n                }\n",
    "                th {\n",
    "                    background-color: #f2f2f2;\n",
    "                }\n            </style>\n        </head>\n",
    "        <script src=\"jquery-3.6.0.min.js\"></script>\n",
    "        <script src=\"jquery.tablesorter.min.js\"></script>\n",
    "        <body>\n            <table class=\"tablesorter\">\n",
    "              <thead>\n                <tr>\n",
    "                   <th class=\"header\">URL</th>\n",
    "                   <th class=\"header\">Count</th>\n",
    "                   <th class=\"header\">Count %</th>\n",
    "                   <th class=\"header\">Time Avg</th>\n",
    "                   <th class=\"header\">Time %</th>\n",
    "                   <th class=\"header\">Time Sum</th>\n",
    "                   <th class=\"header\">Time Max</th>\n",
    "                   <th class=\"header\">Time Med</th>\n",
    "                </tr>\n              </thead>  \n    "]

  /** The footer, line by line. */
  const FooterLines: seq<string> := [
    "\n          </table>\n            <script>\n",
    "                $(document).ready(function() {\n",
    "                    $('.tablesorter').tablesorter();\n",
    "                });\n            </script>  \n      </body>\n",
    "  </html>\n    "]

  const Footer: string := Text.ConcatMap(FooterLines, line => line)

  /** `generate_report` of `homework_01/log_analyzer.py`: header, rows,
      footer. */
  function FixedReport(d: LogData, n: int, fmt: Format): Result<string, ReportError>
    requires d.Valid()
  {
    if Raises(d, n) then Failure(ZeroDivisionError)
    else Success(Header(n) + Rows(d, Selected(d, n), fmt) + Footer)
  }

  // ---------------------------------------------------------------------
  // The two `generate_report` loops.

  /** The key `nlargest` computes for every URL when `n >= 1`: succeeds
      exactly when no list is empty. */
  method MeanKeysDefined(d: LogData) returns (ok: bool)
    requires d.Valid()
    ensures ok <==> !HasEmptyList(d)
  {
    for i := 0 to |d.order|
      invariant forall j :: 0 <= j < i ==> d.times[d.order[j]] != []
    {
      if d.times[d.order[i]] == [] {
        assert HasEmptyList(d);
        return false;
      }
    }
    forall u | u in d.times
      ensures d.times[u] != []
    {
      var j :| 0 <= j < |d.order| && d.order[j] == u;
    }
    return true;
  }

  /** The rows loop shared by both versions: `ZeroDivisionError` as soon
      as a row divides by a zero total, otherwise the rows concatenated
      in ranking order onto `prefix`. */
  method AppendRows(d: LogData, n: int, prefix: string, fmt: Format)
    returns (r: Result<string, ReportError>)
    requires d.Valid() && (n >= 1 ==> !HasEmptyList(d))
    ensures Raises(d, n) ==> r == Failure(ZeroDivisionError)
    ensures !Raises(d, n) ==> r == Success(prefix + Rows(d, Selected(d, n), fmt))
  {
    var sortedUrls := Selected(d, n);
    forall i | 0 <= i < |sortedUrls|
      ensures Listed(d, sortedUrls[i])
    {
      assert sortedUrls[i] in d.order;
    }
    r := AppendRowsOf(d, sortedUrls, prefix, fmt);
  }

  /** URL `u` is a key with times in data that has keys. */
  predicate Listed(d: LogData, u: string) {
    u in d.times && d.times[u] != [] && |d.order| > 0
  }

  /** The loop of `AppendRows` over the URLs `us`. */
  method AppendRowsOf(d: LogData, us: seq<string>, prefix: string, fmt: Format)
    returns (r: Result<string, ReportError>)
    requires forall i :: 0 <= i < |us| ==> Listed(d, us[i])
    ensures us != [] && TotalTime(d) == 0.0 ==> r == Failure(ZeroDivisionError)
    ensures !(us != [] && TotalTime(d) == 0.0) ==> r == Success(prefix + Rows(d, us, fmt))
  {
    var acc := prefix;
    for i := 0 to |us|
      invariant i > 0 ==> TotalTime(d) != 0.0
      invariant acc == prefix + Rows(d, us[..i], fmt)
    {
      var url := us[i];
      assert Listed(d, url);
      var total := TotalTime(d);
      if total == 0.0 {
        return Failure(ZeroDivisionError);
      }
      var row := FormatRow(StatsOf(d, url), fmt);
      RowOfDefined(d, fmt, url);
      Text.ConcatMapStepOnto(prefix, us, i, RowOf(d, fmt), row);
      acc := acc + row;
    }
    assert us[..|us|] == us;
    return Success(acc);
  }

  /** `generate_report` of `log_analyzer.py`. */
  method GenerateReport(d: LogData, n: int, template: string, fmt: Format)
    returns (r: Result<string, ReportError>)
    requires d.Valid()
    ensures r == TemplateReport(d, n, template, fmt)
  {
    if n >= 1 {
      var ok := MeanKeysDefined(d);
      if !ok {
        return Failure(ZeroDivisionError);
      }
    }
    var rows := AppendRows(d, n, "", fmt);
    if rows.Failure? {
      return rows;
    }
    assert "" + Rows(d, Selected(d, n), fmt) == Rows(d, Selected(d, n), fmt);
    return Success(Text.Replace(template, Marker, rows.value));
  }

  /** `generate_report` of `homework_01/log_analyzer.py`. */
  method GenerateFixedReport(d: LogData, n: int, fmt: Format)
    returns (r: Result<string, ReportError>)
    requires d.Valid()
    ensures r == FixedReport(d, n, fmt)
  {
    if n >= 1 {
      var ok := MeanKeysDefined(d);
      if !ok {
        return Failure(ZeroDivisionError);
      }
    }
    var report := AppendRows(d, n, Header(n), fmt);
    if report.Failure? {
      return report;
    }
    return Success(report.value + Footer);
  }

  // ---------------------------------------------------------------------
  // The ranking.

  /** The URLs `generate_report` reports: `min(max(n, 0), len(log_data))`
      distinct keys of the dict, in non-increasing order of mean time; no
      URL left out has a larger mean than one reported; among URLs with
      equal means the reported ones come first in dict order. */
  lemma SelectedRanking(d: LogData, n: int)
    requires d.Valid()
    ensures var sel := Selected(d, n);
      && |sel| == (if n <= 0 then 0 else if n < |d.order| then n else |d.order|)
      && (forall i, j :: 0 <= i < j < |sel| ==> sel[i] != sel[j])
      && (forall u :: u in sel ==> u in d.times)
      && Rank.NonIncreasing(sel, MeanKey(d))
      && (forall u, v :: u in d.order && u !in sel && v in sel ==> MeanKey(d)(u) <= MeanKey(d)(v))
      && (forall m :: Rank.Filter(sel, MeanKey(d), m) <= Rank.Filter(d.order, MeanKey(d), m))
  {
    Rank.NLargestSelects(n, d.order, MeanKey(d));
    Rank.NLargestDistinct(n, d.order, MeanKey(d));
  }

  /** On what `parse_log` returns no list is empty, so the report raises
      exactly when it has a row to show and all request times sum to 0. */
  lemma ParsedReportRaises(lines: seq<string>, matcher: string -> Option<LogParser.Groups>,
                           toFloat: string -> Option<real>, n: int)
    requires LogParser.Parse(lines, matcher, toFloat).Success?
    ensures var d := LogParser.Parse(lines, matcher, toFloat).value;
      Raises(d, n) <==> n >= 1 && d.order != [] && TotalTime(d) == 0.0
  {
    var d := LogParser.Parse(lines, matcher, toFloat).value;
    LogParser.ParseListsNonEmpty(lines, matcher, toFloat);
    assert !HasEmptyList(d);
  }

  // ---------------------------------------------------------------------
  // The statistics of one row.

  /** The average and the median lie between the smallest and the largest
      time, and the maximum is one of the times. */
  lemma StatsBounds(d: LogData, u: string)
    requires u in d.times && d.times[u] != [] && |d.order| > 0 && TotalTime(d) != 0.0
    ensures var st := StatsOf(d, u); var ts := d.times[u];
      && Stats.Min(ts) <= st.timeAvg <= st.timeMax
      && Stats.Min(ts) <= st.timeMed <= st.timeMax
      && st.timeMax in ts
  {
    var ts := d.times[u];
    Stats.MeanBounds(ts);
    Stats.MedianBounds(ts);
  }

  /** `count %` is taken over distinct URLs: a dict with a single URL
      reports its count times 100, so two requests show as 200%. */
  lemma CountPercentOfOnlyUrl(d: LogData, u: string)
    requires d.order == [u] && u in d.times && d.times[u] != [] && TotalTime(d) != 0.0
    ensures StatsOf(d, u).countPct == |d.times[u]| as real * 100.0
  {
    assert u in d.order;
  }

  /** The `time %` column of URL `u`. */
  function TimePctKey(d: LogData): string -> real
    requires TotalTime(d) != 0.0
  {
    u => TimeSumKey(d)(u) / TotalTime(d) * 100.0
  }

  /** The `time %` column of a row is `TimePctKey` of its URL, so
      TimePercentSum is a statement about the rows' own column. */
  lemma TimePctColumn(d: LogData, u: string)
    requires u in d.times && d.times[u] != [] && |d.order| > 0 && TotalTime(d) != 0.0
    ensures StatsOf(d, u).timePct == TimePctKey(d)(u)
    ensures StatsOf(d, u).timePct == StatsOf(d, u).timeSum / TotalTime(d) * 100.0
  {
  }

  lemma {:induction false} SumByScale(s: seq<string>, f: string -> real, g: string -> real, c: real)
    requires c != 0.0
    requires forall x :: g(x) == f(x) / c * 100.0
    ensures Stats.SumBy(s, g) == Stats.SumBy(s, f) / c * 100.0
  {
    if s != [] {
      SumByScale(s[1..], f, g, c);
      var a, b := f(s[0]), Stats.SumBy(s[1..], f);
      assert a / c * 100.0 + b / c * 100.0 == (a + b) / c * 100.0;
    }
  }

  /** With non-negative request times the `time %` column sums to at most
      100 over the reported rows, and to exactly 100 when every URL is
      reported. */
  lemma TimePercentSum(d: LogData, n: int)
    requires d.Valid() && !Raises(d, n) && Selected(d, n) != []
    requires forall u :: u in d.times ==> forall i :: 0 <= i < |d.times[u]| ==> d.times[u][i] >= 0.0
    ensures TotalTime(d) != 0.0
    ensures Stats.SumBy(Selected(d, n), TimePctKey(d)) <= 100.0
    ensures n >= |d.order| ==> Stats.SumBy(Selected(d, n), TimePctKey(d)) == 100.0
  {
    var key := MeanKey(d);
    var f := TimeSumKey(d);
    var total := TotalTime(d);
    var sel := Selected(d, n);
    var k := if n <= 0 then 0 else if n < |d.order| then n else |d.order|;
    var sorted := Rank.SortDesc(d.order, key);
    assert sel == sorted[..k];
    forall u | u in d.times
      ensures f(u) >= 0.0
    {
      Stats.SumNonNegative(d.times[u]);
    }
    forall i | 0 <= i < |sorted|
      ensures f(sorted[i]) >= 0.0
    {
      assert sorted[i] in multiset(d.order);
    }
    Stats.SumByPrefix(sorted, k, f);
    Stats.SumByPermutation(sorted, d.order, f);
    var part := Stats.SumBy(sel, f);
    assert part <= total;
    assert total > 0.0 by {
      Stats.SumByNonNegative(sorted, f);
    }
    SumByScale(sel, f, TimePctKey(d), total);
    if n >= |d.order| {
      assert sel == sorted;
    }
    Stats.ShareAtMost100(part, total);
  }

  // ---------------------------------------------------------------------
  // What the report shows.

  /** The URL appears in its own row. */
  lemma RowContainsUrl(st: UrlStats, fmt: Format)
    ensures Text.Contains(FormatRow(st, fmt), st.url)
  {
    Text.ContainsSelf(st.url);
    Text.ContainsConcat(RowStart, st.url, RowRest(st, fmt), st.url);
  }

  /** Each selected URL occurs in the rows. */
  lemma RowsContainUrl(d: LogData, us: seq<string>, fmt: Format, j: int)
    requires RowsDefined(d, us) && 0 <= j < |us|
    ensures Text.Contains(Rows(d, us, fmt), us[j])
  {
    assert RowDefined(d, us[j]);
    Text.ConcatMapContains(us, j, RowOf(d, fmt));
    RowContainsUrl(StatsOf(d, us[j]), fmt);
    Text.ContainsTrans(Rows(d, us, fmt), FormatRow(StatsOf(d, us[j]), fmt), us[j]);
  }

  /** A template holding `$TABLE_ROWS` yields a report in which every
      selected URL occurs. */
  lemma SelectedUrlsAppear(d: LogData, n: int, template: string, fmt: Format)
    requires d.Valid() && !Raises(d, n) && Text.Contains(template, Marker)
    ensures TemplateReport(d, n, template, fmt).Success?
    ensures forall u :: u in Selected(d, n) ==> Text.Contains(TemplateReport(d, n, template, fmt).value, u)
  {
    var sel := Selected(d, n);
    NoRaiseRowsDefined(d, n);
    var rows := Rows(d, sel, fmt);
    var report := Text.Replace(template, Marker, rows);
    Text.ReplaceInserts(template, Marker, rows);
    forall u | u in sel
      ensures Text.Contains(report, u)
    {
      var j :| 0 <= j < |sel| && sel[j] == u;
      RowsContainUrl(d, sel, fmt, j);
      Text.ContainsTrans(report, rows, u);
    }
  }

  /** A template without `$TABLE_ROWS` comes back unchanged. */
  lemma TemplateWithoutMarker(d: LogData, n: int, template: string, fmt: Format)
    requires d.Valid() && !Raises(d, n) && !Text.Contains(template, Marker)
    ensures TemplateReport(d, n, template, fmt) == Success(template)
  {
    NoRaiseRowsDefined(d, n);
    Text.ReplaceAbsent(template, Marker, Rows(d, Selected(d, n), fmt));
  }

  /** The older report: the header with the report size, then the rows,
      then the footer. */
  lemma FixedReportLayout(d: LogData, n: int, fmt: Format)
    requires d.Valid() && !Raises(d, n)
    ensures FixedReport(d, n, fmt).Success?
    ensures var r := FixedReport(d, n, fmt).value; var rows := Rows(d, Selected(d, n), fmt);
      && |r| == |Header(n)| + |rows| + |Footer|
      && r[..|Header(n)|] == Header(n)
      && r[|Header(n)|..|Header(n)| + |rows|] == rows
      && r[|Header(n)| + |rows|..] == Footer
  {
    var rows := Rows(d, Selected(d, n), fmt);
    Text.ThreeParts(Header(n), rows, Footer);
    Text.MiddleSlice(Header(n), rows, Footer, 0, |rows|);
  }

  /** The row of a URL that can be given one. */
  lemma RowOfDefined(d: LogData, fmt: Format, u: string)
    requires RowDefined(d, u)
    ensures RowOf(d, fmt)(u) == FormatRow(StatsOf(d, u), fmt)
  {
  }

  /** In the rows of `us`, the `j`-th block is the row of `us[j]`, right
      after the rows of the URLs before it. */
  lemma RowsBlockAt(d: LogData, us: seq<string>, fmt: Format, j: int)
    requires RowsDefined(d, us) && 0 <= j < |us|
    ensures RowDefined(d, us[j])
    ensures Text.OccursAt(Rows(d, us, fmt), FormatRow(StatsOf(d, us[j]), fmt), |Rows(d, us[..j], fmt)|)
  {
    assert RowDefined(d, us[j]);
    RowOfDefined(d, fmt, us[j]);
    Text.ConcatMapAtValue(us, j, RowOf(d, fmt), FormatRow(StatsOf(d, us[j]), fmt));
  }

  /** The older report shows every selected URL. */
  lemma FixedSelectedUrlsAppear(d: LogData, n: int, fmt: Format)
    requires d.Valid() && !Raises(d, n)
    ensures FixedReport(d, n, fmt).Success?
    ensures forall u :: u in Selected(d, n) ==> Text.Contains(FixedReport(d, n, fmt).value, u)
  {
    var sel := Selected(d, n);
    NoRaiseRowsDefined(d, n);
    var rows := Rows(d, sel, fmt);
    forall u | u in sel
      ensures Text.Contains(Header(n) + rows + Footer, u)
    {
      var j :| 0 <= j < |sel| && sel[j] == u;
      RowsContainUrl(d, sel, fmt, j);
      Text.ContainsConcat(Header(n), rows, Footer, u);
    }
  }

  /** With empty data there is no row and nothing is divided: the
      template loses its markers, the older report is header and footer. */
  lemma EmptyDataReports(n: int, template: string, fmt: Format)
    ensures Empty.Valid()
    ensures TemplateReport(Empty, n, template, fmt) == Success(Text.Replace(template, Marker, ""))
    ensures FixedReport(Empty, n, fmt) == Success(Header(n) + Footer)
  {
    assert Selected(Empty, n) == [];
    assert !HasEmptyList(Empty);
    Text.EmptyMiddle(Header(n), Footer);
  }

  // ---------------------------------------------------------------------
  // The analyzers' report test.

  /** `{'url1': [1.2, 3.4], 'url2': [5.6, 7.8]}`. */
  const TestData: LogData := LogData(["url1", "url2"], map["url1" := [1.2, 3.4], "url2" := [5.6, 7.8]])

  /** With report size 2 both URLs are reported, `url2` (mean 6.7) before
      `url1` (mean 2.3), and `url1` occurs in the report. */
  lemma TestReport(template: string, fmt: Format)
    requires Text.Contains(template, Marker)
    ensures TestData.Valid()
    ensures Selected(TestData, 2) == ["url2", "url1"]
    ensures TemplateReport(TestData, 2, template, fmt).Success?
    ensures Text.Contains(TemplateReport(TestData, 2, template, fmt).value, "url1")
  {
    TestDataShape();
    TestSelected();
    TestTotalTime();
    SelectedUrlsAppear(TestData, 2, template, fmt);
    assert "url1" in Selected(TestData, 2);
  }

  /** The test data are a well-formed dict with no empty list. */
  lemma TestDataShape()
    ensures TestData.Valid() && !HasEmptyList(TestData)
  {
    var d := TestData;
    assert forall u :: u in d.times ==> u == "url1" || u == "url2";
  }

  /** The URLs of the test data ranked by mean: `url2` (6.7), `url1` (2.3). */
  lemma TestSelected()
    ensures Selected(TestData, 2) == ["url2", "url1"]
  {
    var d := TestData;
    var key := MeanKey(d);
    assert d.times["url1"] == [1.2, 3.4];
    assert d.times["url2"] == [5.6, 7.8];
    assert Stats.Sum([3.4]) == 3.4;
    assert Stats.Sum([1.2, 3.4]) == 4.6;
    assert Stats.Sum([7.8]) == 7.8;
    assert Stats.Sum([5.6, 7.8]) == 13.4;
    assert key("url1") == 2.3;
    assert key("url2") == 6.7;
    assert Rank.SortDesc(["url2"], key) == ["url2"];
    assert Rank.SortDesc(d.order, key) == Rank.InsertDesc("url1", ["url2"], key);
    assert Rank.InsertDesc("url1", ["url2"], key) == ["url2", "url1"];
  }

  /** The test data hold 18.0 seconds in all. */
  lemma TestTotalTime()
    ensures TotalTime(TestData) == 18.0
  {
    var d := TestData;
    assert d.times["url1"] == [1.2, 3.4];
    assert d.times["url2"] == [5.6, 7.8];
    assert Stats.Sum([3.4]) == 3.4;
    assert Stats.Sum([1.2, 3.4]) == 4.6;
    assert Stats.Sum([7.8]) == 7.8;
    assert Stats.Sum([5.6, 7.8]) == 13.4;
    assert d.order[1..] == ["url2"];
    assert Stats.SumBy(d.order, TimeSumKey(d)) == 4.6 + Stats.SumBy(["url2"], TimeSumKey(d));
  }
}
