# nginx log analyzer and decorators — a Dafny model

This project models the core of a small Python course repository:

- two versions of an nginx log analyzer;
- the configuration merge of its command-line front end;
- a set of function decorators.

`log_analyzer.py` and `homework_01/log_analyzer.py` read an nginx access log.

- `parse_log` matches each line against the log format. A matched line contributes its request time to the list of its URL. The URL is the second whitespace-separated token of the request, or `"Empty"`.
- `generate_report` ranks the URLs by mean request time with `heapq.nlargest`. It computes the count, the percentages, the average, the sum, the maximum and the median of each chosen URL, and writes one HTML table row per URL.
- `log_analyzer.py` substitutes the rows into a template at `$TABLE_ROWS`. `homework_01/log_analyzer.py` writes a fixed header, the rows and a fixed footer.
- `merge_config` / `merge_configs` override the default settings with those read from the configuration file.

`homework_01/deco.py` has three decorators:

- `n_ary` makes a binary function variadic;
- `memo` caches results by argument tuple;
- `countcalls` counts calls.

`foo` (sum), `bar` (product) and the memoized `fib` are built from them.

Modules, one per file:

- `Wrappers`: `Option` and `Result`, used in place of `None` and raised exceptions.
- `Text`:
  - Python's `str.split()`, `str.replace()` and `str(int)`;
  - substring occurrence;
  - the string a `+=` loop builds (`ConcatMap`).
- `Config`: `merge_configs` and the defaults.
- `Aggregation`: the `defaultdict(list)` of request times. It is kept as a map together with the order in which keys were inserted (Python dicts keep insertion order).
- `LogParser`: `parse_log`, as a specification function and as the imperative loop, proved against each other. Independent reference definitions state what the matched lines say.
- `Stats`:
  - sum, maximum, mean and median (over Python's `sorted`);
  - the two percentages.
- `Rank`: `heapq.nlargest` as a stable descending sort followed by a slice.
- `Report`: both `generate_report`s. The rows loop is a method proved against the report functions. The lemmas cover the ranking, the exception, the statistics and the layout.
- `Deco`:
  - `n_ary` as a loop proved against a left fold;
  - `memo` and `countcalls` as classes whose fields the calls update;
  - `fib` as a class holding its cache and its counter.

Parameters stand for the behaviour the model does not reimplement:

- the nginx pattern match;
- `float()`;
- the `:.Nf` number formatting;
- the contents of the template file.

On these points the model follows the code as written:

- A matched line whose request time is no number raises `ValueError` out of `parse_log`. It is not counted as a failed line.
- A zero denominator raises `ZeroDivisionError` out of `generate_report`. It does not give `0.0`.
- `count %` divides by the number of distinct URLs, in both versions. It does not divide by the number of requests. `Report.CountPercentOfOnlyUrl` shows it can exceed 100.
- There is no error-rate threshold and no failed-line counter.

## Model

| member | source | states |
|---|---|---|
| Config.MergeConfigs | arg.py:22-25 | the merged keys are the union of the default and file keys; file values win; other defaults are kept (the analyzers' `merge_config` at log_analyzer.py:58-61 and homework_01/log_analyzer.py:41-44 is the same) |
| Config.MergeEmptyFile | arg.py:22-25 | merging an empty file configuration gives the defaults back |
| Config.MergeIdempotent | arg.py:22-25 | merging the same file configuration twice equals merging it once |
| Config.MergeAssociative | arg.py:22-25 | merging two files one after the other equals merging their merge |
| Config.DefaultSettings | arg.py:4-8 | unless the file overrides them, REPORT_SIZE is 1000, REPORT_DIR "./reports" and LOG_DIR "./log", and all three keys are present |
| Text.SplitSpaced | log_analyzer.py:85 | `split()` gives the tokens back whatever non-empty whitespace runs (spaces, tabs, newlines, …) separate them and whatever whitespace surrounds them |
| Text.ReplaceAbsent | log_analyzer.py:130 | `replace` leaves a string without `$TABLE_ROWS` unchanged |
| Text.ReplaceInserts | log_analyzer.py:130 | where `$TABLE_ROWS` occurs, the replacement text occurs in the result |
| Text.NatToStringRoundTrip | homework_01/log_analyzer.py:84 | the decimal digits written for the report size and the counts read back as the same number |
| LogParser.ExtractUrlOfTokens | log_analyzer.py:85-90 | the URL is the second token of the request when it has at least two tokens, otherwise exactly "Empty", for tokens separated by any non-empty whitespace runs and surrounded by any whitespace |
| LogParser.ExtractUrlOddSpacing | homework_01/log_analyzer.py:58-63 | the request `" GET\t/a  X\n"` yields `/a`: tabs, double spaces and surrounding blanks separate tokens as one space does |
| LogParser.ExtractUrlGet | homework_01/log_analyzer.py:58-63 | `GET <path> HTTP/1.1` yields `<path>` |
| LogParser.ParseLog | log_analyzer.py:79-95 | the loop returns the parse of the lines, or the empty data when the file is missing (caught in `log_generator` here, around the loop at homework_01/log_analyzer.py:50-74) |
| LogParser.Parse | log_analyzer.py:80-94 | every successful parse gives well-formed data: distinct keys, exactly the keys of the map (their first-seen order is LogParser.ParseKeysFirstSeen) |
| LogParser.ParseFailsIff | log_analyzer.py:91 | parsing raises exactly when some matched line's request time is not a number |
| LogParser.FailureSticks | homework_01/log_analyzer.py:65-67 | once a prefix of the file raised, the whole file raises the same error |
| LogParser.UnmatchedLinesIgnored | log_analyzer.py:93-94 | lines the pattern does not match change nothing |
| LogParser.ParsePrefixStep | log_analyzer.py:83-94 | reading one more line: an unmatched line changes nothing, a request time that is no number raises `ValueError`, any other line appends its time under its URL |
| LogParser.AppendTime | log_analyzer.py:92 | the `defaultdict` get-or-insert followed by `append` gives `Append`: a new URL goes last in the key order with the one time, a known URL's list gets the time at its end |
| LogParser.ParseLast | log_analyzer.py:81-92 | one more line either adds no record and leaves the data, or appends its time to exactly its URL's list |
| LogParser.ParseCounts | log_analyzer.py:83-92 | the lists hold as many times as there are matched lines |
| LogParser.ParseTimesInFileOrder | log_analyzer.py:83-92 | the keys are exactly the URLs of the matched lines; each list holds that URL's times in file order |
| LogParser.ParseKeysFirstSeen | log_analyzer.py:80-92 | the keys are in the order their URLs were first seen |
| LogParser.ParseListsNonEmpty | log_analyzer.py:92 | every list created holds at least one time |
| LogParser.OneGetLine | log_analyzer.py:82-92 | a single matched GET line gives the one key `path` holding the one time |
| LogParser.SampleLine | tests/test_log_analyzer.py:4-8 | the test's line yields the key `/api/v2/banner/16852664` holding 0.199 |
| Aggregation.Append | log_analyzer.py:92 | `log_data[url].append(t)`: `t` is appended to `url`'s list, which is created empty and inserted last if new; every other list is unchanged |
| Aggregation.AppendCount | log_analyzer.py:92 | one append adds exactly one time over all lists |
| Stats.Max | log_analyzer.py:111 | `max` is one of the times and at least every time |
| Stats.Sorted | log_analyzer.py:112-113 | `sorted` gives a non-decreasing permutation |
| Stats.MeanBetween | log_analyzer.py:109-110 | times all within `[lo, hi]` have their average within `[lo, hi]` |
| Stats.MeanBounds | log_analyzer.py:109-110 | the average lies between the smallest and the largest time |
| Stats.MedianBounds | log_analyzer.py:112-113 | the median lies between the smallest and the largest time |
| Stats.MedianObservedWhenOdd | log_analyzer.py:112 | for an odd count the median is one of the times |
| Stats.MedianOfSorted | homework_01/log_analyzer.py:128-129 | for times already in order, of any non-empty count: an odd count gives the middle time `s[n // 2]`, an even count the mean of `s[n // 2 - 1]` and `s[n // 2]` |
| Stats.MedianOfTwo | homework_01/log_analyzer.py:128-129 | two ordered times have their mean as median |
| Stats.MedianOfThree | homework_01/log_analyzer.py:128 | three ordered times have the middle one as median |
| Stats.MedianExamples | tests/test_log_analyzer.py:13 | the median of the test's list [1.2, 3.4] is 2.3 |
| Stats.SumByPermutation | log_analyzer.py:115 | the total over the dict's values does not depend on their order |
| Rank.SortDesc | log_analyzer.py:100 | the ranking sort is a permutation |
| Rank.SortDescSorted | log_analyzer.py:100 | the ranking sort is non-increasing by key |
| Rank.SortDescStable | log_analyzer.py:100 | among equal keys the ranking keeps the dict order, as `nlargest` does |
| Rank.NLargest | log_analyzer.py:100 | `nlargest(n, …)` returns `min(max(n, 0), len)` elements, all taken from the input |
| Rank.NLargestSelects | homework_01/log_analyzer.py:79 | the selection is non-increasing, no left-out key beats a selected one, it is a sub-multiset, and ties keep the dict order |
| Rank.NLargestDistinct | log_analyzer.py:100 | distinct keys give distinct selected URLs |
| Rank.NLargestAll | log_analyzer.py:100 | with `n` at least the number of URLs, every URL is reported |
| Report.SelectedRanking | log_analyzer.py:99-100 | the reported URLs: how many, distinct, in the data, ranked by mean time, the best means chosen, ties in dict order |
| Report.StatsOf | log_analyzer.py:107-115 | each row's statistics belong to its URL, and its count is the number of its times |
| Report.StatsBounds | homework_01/log_analyzer.py:123-129 | the average and the median lie between the smallest time and the maximum; the maximum is one of the times |
| Report.CountPercentOfOnlyUrl | log_analyzer.py:114 | `count %` divides by the number of distinct URLs: with one URL it is the request count times 100 |
| Report.TimePctColumn | log_analyzer.py:115 | a row's `time %` is its URL's time sum over the total time of all URLs, times 100, the quantity TimePercentSum adds up |
| Report.TimePercentSum | log_analyzer.py:115 | for non-negative times the reported `time %` sum to at most 100, and to exactly 100 when every URL is reported |
| Report.MeanKeysDefined | log_analyzer.py:100 | computing the key of every URL succeeds exactly when no list is empty |
| Report.AppendRows | log_analyzer.py:105-128 | the rows loop raises `ZeroDivisionError` exactly in the raising cases, and otherwise appends the rows of the selected URLs, in ranking order, to the text so far |
| Report.AppendRowsOf | homework_01/log_analyzer.py:122-146 | over any URLs with times, the loop raises on the first row when the total time is zero, and otherwise appends their rows in order |
| Report.GenerateReport | log_analyzer.py:98-132 | the method's result is the template report: rows substituted at every `$TABLE_ROWS`, or `ZeroDivisionError` |
| Report.GenerateFixedReport | homework_01/log_analyzer.py:77-158 | the method's result is header, rows and footer, or `ZeroDivisionError` |
| Report.ParsedReportRaises | log_analyzer.py:100-115 | for parsed data, the report raises exactly when it must show a row and the total time is zero |
| Report.RowContainsUrl | log_analyzer.py:117-119 | a row shows its URL |
| Report.RowsContainUrl | log_analyzer.py:106-128 | the rows show every URL they were built from |
| Report.SelectedUrlsAppear | log_analyzer.py:130 | with a `$TABLE_ROWS` marker in the template, every selected URL appears in the report |
| Report.TemplateWithoutMarker | log_analyzer.py:130 | a template without the marker is returned unchanged |
| Report.FixedReportLayout | homework_01/log_analyzer.py:81-157 | the report is the header with the report size, then exactly the rows, then the footer |
| Report.RowsBlockAt | homework_01/log_analyzer.py:122-146 | the `j`-th block of the rows is the row of the `j`-th URL, right after the rows before it |
| Report.FixedSelectedUrlsAppear | homework_01/log_analyzer.py:134-136 | every selected URL appears in the older report |
| Report.EmptyDataReports | homework_01/log_analyzer.py:77-158 | with no data nothing is divided: the template loses its markers, and the older report is header then footer |
| Report.TestReport | tests/test_log_analyzer.py:11-18 | the test data rank `url2` before `url1`, and `url1` appears in the report |
| Deco.NAryCall | homework_01/deco.py:62-72 | zero arguments raise `ValueError`; one argument is returned without calling `func`; otherwise the left fold, with `func` called once per further argument |
| Deco.NAryNestsRight | homework_01/deco.py:58-61 | for an associative function the left fold equals the docstring's nesting `f(x, f(y, z))` |
| Deco.SubtractionFoldsLeft | homework_01/deco.py:67-71 | for subtraction the wrapper gives `(1 - 2) - 3`, not the docstring's `1 - (2 - 3)` |
| Deco.FooSumsBarMultiplies | homework_01/deco.py:104-115 | `foo` returns the sum of all its arguments, `bar` their product; both raise with none |
| Deco.Memo.constructor | homework_01/deco.py:45 | a new cache is empty |
| Deco.Memo.Call | homework_01/deco.py:47-53 | a hit returns the stored value and leaves the cache; a miss stores and returns `func`'s result; a raising call stores nothing; the result is always `func(args)`; the cache only grows |
| Deco.CountCalls.constructor | homework_01/deco.py:34 | `calls` starts at 0 |
| Deco.CountCalls.Call | homework_01/deco.py:31-33 | `calls` grows by exactly one per call, including hits and calls that raise, and the call is passed on unchanged |
| Deco.FooMain | homework_01/deco.py:127-130 | `foo(4, 3)`, `foo(4, 3, 2)`, `foo(4, 3)` give 7, 9, 7, and `foo.calls` is 3 |
| Deco.BarMain | homework_01/deco.py:132-135 | `bar(4, 3)`, `bar(4, 3, 2)`, `bar(4, 3, 2, 1)` give 12, 24, 24, and `bar.calls` is 3 |
| Deco.Fib.constructor | homework_01/deco.py:45 | the cache is empty and `calls` is 0 |
| Deco.Fib.Call | homework_01/deco.py:118-123 | `fib(n) = 1` for `n <= 1`, else `fib(n - 1) + fib(n - 2)`; hits are counted; from an empty cache `fib(n)` makes `2n - 1` counted calls for `n >= 1`; it leaves exactly the key 1 cached for `n = 1` and the keys 0..n for `n >= 2` |
| Deco.FibMain | homework_01/deco.py:81-91 | `fib(3) == 3` after five counted calls, as the traced docstring shows |

## Left out

- File and OS input/output are not modelled:
  - reading the log file (its lines are a parameter; a missing file is `None`);
  - reading and parsing the JSON configuration file and its `exit(1)` paths;
  - finding the latest log, `extract_gz`, `save_report`, `log_processed_file`;
  - reading `report_template.html` (its contents are a parameter);
  - `logging` and `print`;
  - the `argparse` `main`s.
- The nginx regular expression is a parameter (`matcher`). Its backtracking semantics are not modelled.
- Python's `float()` is a parameter (`toFloat`). Parsing and floating-point rounding are not modelled; request times are exact reals.
- The `:.Nf` formatting is a parameter (`fmt`). Rounding to the given number of decimals is not modelled.
- `trace`, `disable` and `decorator` in `homework_01/deco.py` are not modelled. `trace` only prints; the other two are stubs.
- Keyword arguments of the decorated wrappers are not modelled: `foo`, `bar` and `fib` are only called positionally.
- A `REPORT_SIZE` of a type other than `int` is not modelled.
- `heapq.nlargest` is modelled by its result, `sorted(iterable, key=key, reverse=True)[:max(n, 0)]`, and not by its heap algorithm. The model keeps its `n <= 0` shortcut: an empty result and no key computed, so an empty time list cannot raise then (`Report.Raises` needs `n >= 1` for that).
- Python's unbounded `int` is `int` here.
- Report.RowOf: the empty string it gives for a URL that cannot have a row is never used. Every URL the loop reaches can have one.
- Deco.NAryCall: `applied` counts the calls of `func`. It is instrumentation that makes "never calls `func`" a stated result; the Python wrapper has no such counter.
- Deco.Fib.Call: Python's recursion limit is not modelled. From an empty cache every level of `fib` runs through the `countcalls`, `trace` and `memo` wrappers, so CPython's default limit of 1000 frames raises `RecursionError` near `n = 250`; the model returns `fib(n)` for every `n`.
- Deco.Fib.Call: the exact call count and cached keys are stated only from an empty cache. From a partly filled cache only hits and base cases are stated exactly.
