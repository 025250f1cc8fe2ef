/** `parse_log` of both analyzers: every line of the log file is matched
    against the fixed nginx line pattern; a matching line contributes its
    request time to the list of its URL; a line that does not match is only
    logged. The pattern match and Python's `float()` are parameters: the
    regular expression's backtracking and float parsing are not modelled. */
module LogParser {
  import opened Wrappers
  import Text
  import opened Aggregation

  /** The two named groups of the line pattern the analyzers read. */
  datatype Groups = Groups(request: string, requestTime: string)

  /** `float(request_time)` raised `ValueError`; nothing catches it. */
  datatype ParseError = ValueError(requestTime: string)

  /** The URL of a request line "METHOD PATH PROTOCOL": its second
      whitespace-separated token, or the literal "Empty" when it has fewer
      than two tokens. */
  function ExtractUrl(request: string): string {
    var parts := Text.Split(request);
    if |parts| > 1 then parts[1] else "Empty"
  }

  /** Handling of one line, given the log data so far. */
  function Step(d: LogData, line: string, matcher: string -> Option<Groups>,
                toFloat: string -> Option<real>): Result<LogData, ParseError>
    requires d.Valid()
  {
    match matcher(line)
    case None => Success(d)
    case Some(g) =>
      match toFloat(g.requestTime)
      case None => Failure(ValueError(g.requestTime))
      case Some(t) => Success(Append(d, ExtractUrl(g.request), t))
  }

  /** The result of reading `lines` in file order: the first line whose
      request time is not a number ends the run with its error. */
  function Parse(lines: seq<string>, matcher: string -> Option<Groups>,
                 toFloat: string -> Option<real>): (r: Result<LogData, ParseError>)
    ensures r.Success? ==> r.value.Valid()
  {
    if lines == [] then Success(Empty)
    else
      match Parse(lines[..|lines| - 1], matcher, toFloat)
      case Failure(e) => Failure(e)
      case Success(d) => Step(d, lines[|lines| - 1], matcher, toFloat)
  }

  /** Once a prefix of the file has failed, the whole file fails the same way. */
  lemma {:induction false} FailureSticks(lines: seq<string>, k: nat, matcher: string -> Option<Groups>,
                                         toFloat: string -> Option<real>)
    requires k <= |lines| && Parse(lines[..k], matcher, toFloat).Failure?
    ensures Parse(lines, matcher, toFloat) == Parse(lines[..k], matcher, toFloat)
    decreases |lines| - k
  {
    if k < |lines| {
      assert lines[..k + 1][..k] == lines[..k];
      FailureSticks(lines, k + 1, matcher, toFloat);
    } else {
      assert lines[..k] == lines;
    }
  }

  /** The loop's get-or-insert followed by the append is `Append`. */
  lemma GetOrInsertAppend(d: LogData, url: string, t: real, r: LogData)
    requires d.Valid()
    requires url in d.times ==> r == LogData(d.order, d.times[url := d.times[url] + [t]])
    requires url !in d.times ==> r == LogData(d.order + [url], d.times[url := []][url := [] + [t]])
    ensures r == Append(d, url, t)
  {
    if url !in d.times {
      assert [] + [t] == [t];
      assert d.times[url := []][url := [t]] == d.times[url := [t]];
    }
  }

  /** Reading one more line of the file: a line the pattern does not match
      changes nothing, a request time that is no number fails, and any
      other line appends its time under its URL. */
  lemma ParsePrefixStep(lines: seq<string>, i: int, matcher: string -> Option<Groups>,
                        toFloat: string -> Option<real>)
    requires 0 <= i < |lines| && Parse(lines[..i], matcher, toFloat).Success?
    ensures var d := Parse(lines[..i], matcher, toFloat).value;
      var m := matcher(lines[i]);
      && (m.None? ==> Parse(lines[..i + 1], matcher, toFloat) == Success(d))
      && (m.Some? && toFloat(m.value.requestTime).None? ==>
            Parse(lines[..i + 1], matcher, toFloat) == Failure(ValueError(m.value.requestTime)))
      && (m.Some? && toFloat(m.value.requestTime).Some? ==>
            Parse(lines[..i + 1], matcher, toFloat)
            == Success(Append(d, ExtractUrl(m.value.request), toFloat(m.value.requestTime).value)))
  {
    assert lines[..i + 1][..i] == lines[..i];
  }

  /** `log_data[url].append(request_time)` on a `defaultdict(list)` whose
      keys, in insertion order, are `order`. */
  method AppendTime(order: seq<string>, times: map<string, seq<real>>, url: string, t: real)
    returns (order': seq<string>, times': map<string, seq<real>>)
    requires LogData(order, times).Valid()
    ensures LogData(order', times') == Append(LogData(order, times), url, t)
  {
    order', times' := order, times;
    if url !in times' {
      order' := order' + [url];
      times' := times'[url := []];
    }
    times' := times'[url := times'[url] + [t]];
    GetOrInsertAppend(LogData(order, times), url, t, LogData(order', times'));
  }

  /** `parse_log(file)`. `file` is `None` when the file does not exist: both
      versions catch that `FileNotFoundError`, log it and return the empty
      data. */
  method ParseLog(file: Option<seq<string>>, matcher: string -> Option<Groups>,
                  toFloat: string -> Option<real>) returns (r: Result<LogData, ParseError>)
    ensures file.None? ==> r == Success(Empty)
    ensures file.Some? ==> r == Parse(file.value, matcher, toFloat)
  {
    if file.None? {
      return Success(Empty);
    }
    var lines := file.value;
    var order: seq<string> := [];
    var times: map<string, seq<real>> := map[];
    var i := 0;
    while i < |lines|
      invariant 0 <= i <= |lines|
      invariant Parse(lines[..i], matcher, toFloat) == Success(LogData(order, times))
    {
      var line := lines[i];
      ParsePrefixStep(lines, i, matcher, toFloat);
      var m := matcher(line);
      if m.Some? {
        var g := m.value;
        var url := ExtractUrl(g.request);
        var t := toFloat(g.requestTime);
        if t.None? {
          FailureSticks(lines, i + 1, matcher, toFloat);
          return Failure(ValueError(g.requestTime));
        }
        order, times := AppendTime(order, times, url, t.value);
      }
      // a line that does not match is only logged
      i := i + 1;
    }
    assert lines[..|lines|] == lines;
    return Success(LogData(order, times));
  }

  // ---------------------------------------------------------------------
  // Reference definitions: what the matched lines say, independently of
  // the dictionary.

  datatype Record = Record(url: string, time: real)

  /** A line whose pattern matched but whose request time is no number. */
  predicate BadLine(line: string, matcher: string -> Option<Groups>, toFloat: string -> Option<real>) {
    matcher(line).Some? && toFloat(matcher(line).value.requestTime).None?
  }

  function RecordOf(line: string, matcher: string -> Option<Groups>,
                    toFloat: string -> Option<real>): seq<Record> {
    match matcher(line)
    case None => []
    case Some(g) =>
      match toFloat(g.requestTime)
      case None => []
      case Some(t) => [Record(ExtractUrl(g.request), t)]
  }

  /** The (URL, time) records of the matched lines, in file order. */
  function Records(lines: seq<string>, matcher: string -> Option<Groups>,
                   toFloat: string -> Option<real>): seq<Record> {
    if lines == [] then []
    else Records(lines[..|lines| - 1], matcher, toFloat) + RecordOf(lines[|lines| - 1], matcher, toFloat)
  }

  function Urls(recs: seq<Record>): seq<string> {
    if recs == [] then [] else Urls(recs[..|recs| - 1]) + [recs[|recs| - 1].url]
  }

  /** The times recorded for `u`, in file order. */
  function TimesOf(recs: seq<Record>, u: string): seq<real> {
    if recs == [] then []
    else
      var last := recs[|recs| - 1];
      TimesOf(recs[..|recs| - 1], u) + (if last.url == u then [last.time] else [])
  }

  /** The index of the first occurrence of `x` in `xs`. */
  function FirstIndex(xs: seq<string>, x: string): (k: nat)
    requires x in xs
    ensures k < |xs| && xs[k] == x
    ensures forall i :: 0 <= i < k ==> xs[i] != x
  {
    if xs[0] == x then 0 else FirstIndex(xs[1..], x) + 1
  }

  // ---------------------------------------------------------------------
  // Properties of parse_log.

  /** The URL is the second token of the request, or "Empty" when the
      request has fewer than two tokens, whatever whitespace runs separate
      the tokens and whatever whitespace surrounds them. */
  lemma ExtractUrlOfTokens(lead: string, ws: seq<string>, seps: seq<string>, trail: string)
    requires Text.Tokens(ws) && Text.Separators(seps, |ws|)
    requires Text.AllSpace(lead) && Text.AllSpace(trail)
    ensures ExtractUrl(lead + Text.Spaced(ws, seps) + trail) == if |ws| >= 2 then ws[1] else "Empty"
  {
    Text.SplitSpaced(lead, ws, seps, trail);
  }

  /** Tabs, a double space and a trailing newline separate tokens as a
      single space does. */
  lemma ExtractUrlOddSpacing()
    ensures ExtractUrl(" GET\t/a  X\n") == "/a"
  {
    var ws, seps := ["GET", "/a", "X"], ["\t", "  "];
    assert Text.Spaced(ws[1..], seps[1..]) == "/a" + "  " + "X";
    assert " " + Text.Spaced(ws, seps) + "\n" == " GET\t/a  X\n";
    assert Text.Tokens(ws) && Text.Separators(seps, |ws|);
    ExtractUrlOfTokens(" ", ws, seps, "\n");
  }

  /** A GET request for a path yields that path, as in the analyzers' test
      line "GET /api/v2/banner/16852664 HTTP/1.1". */
  lemma ExtractUrlGet(path: string)
    requires Text.IsToken(path)
    ensures ExtractUrl("GET " + path + " HTTP/1.1") == path
  {
    var ws, seps := ["GET", path, "HTTP/1.1"], [" ", " "];
    assert Text.Spaced(ws[1..], seps[1..]) == path + " " + "HTTP/1.1";
    assert "" + Text.Spaced(ws, seps) + "" == "GET " + path + " HTTP/1.1";
    assert Text.Tokens(ws) && Text.Separators(seps, |ws|);
    ExtractUrlOfTokens("", ws, seps, "");
  }

  /** Parsing fails exactly when some matched line has a request time that
      is not a number. */
  lemma {:induction false} ParseFailsIff(lines: seq<string>, matcher: string -> Option<Groups>,
                                         toFloat: string -> Option<real>)
    ensures Parse(lines, matcher, toFloat).Failure?
        <==> exists i :: 0 <= i < |lines| && BadLine(lines[i], matcher, toFloat)
  {
    if lines != [] {
      var init := lines[..|lines| - 1];
      ParseFailsIff(init, matcher, toFloat);
      assert forall i :: 0 <= i < |init| ==> init[i] == lines[i];
    }
  }

  /** Lines the pattern does not match change nothing. */
  lemma {:induction false} UnmatchedLinesIgnored(lines: seq<string>, extra: seq<string>,
                                                 matcher: string -> Option<Groups>,
                                                 toFloat: string -> Option<real>)
    requires forall i :: 0 <= i < |extra| ==> matcher(extra[i]).None?
    ensures Parse(lines + extra, matcher, toFloat) == Parse(lines, matcher, toFloat)
  {
    if extra != [] {
      var e := extra[..|extra| - 1];
      assert (lines + extra)[..|lines + extra| - 1] == lines + e;
      UnmatchedLinesIgnored(lines, e, matcher, toFloat);
    } else {
      assert lines + extra == lines;
    }
  }

  /** Every list the parse creates holds at least the time that created it. */
  lemma {:induction false} ParseListsNonEmpty(lines: seq<string>, matcher: string -> Option<Groups>,
                                              toFloat: string -> Option<real>)
    requires Parse(lines, matcher, toFloat).Success?
    ensures var d := Parse(lines, matcher, toFloat).value;
      forall u :: u in d.times ==> d.times[u] != []
  {
    if lines != [] {
      ParseListsNonEmpty(lines[..|lines| - 1], matcher, toFloat);
    }
  }

  /** Every matched line adds exactly one request time: the lists hold as
      many times as there are matched lines. */
  lemma {:induction false} ParseCounts(lines: seq<string>, matcher: string -> Option<Groups>,
                                       toFloat: string -> Option<real>)
    requires Parse(lines, matcher, toFloat).Success?
    ensures TotalCount(Parse(lines, matcher, toFloat).value) == |Records(lines, matcher, toFloat)|
  {
    if lines != [] {
      var init := lines[..|lines| - 1];
      ParseCounts(init, matcher, toFloat);
      var d := Parse(init, matcher, toFloat).value;
      var line := lines[|lines| - 1];
      if matcher(line).Some? {
        var g := matcher(line).value;
        AppendCount(d, ExtractUrl(g.request), toFloat(g.requestTime).value);
      }
    }
  }

  lemma {:induction false} UrlsAppend(recs: seq<Record>, more: seq<Record>)
    requires |more| <= 1
    ensures Urls(recs + more) == Urls(recs) + (if more == [] then [] else [more[0].url])
  {
    if more == [] {
      assert recs + more == recs;
    } else {
      assert (recs + more)[..|recs + more| - 1] == recs;
    }
  }

  lemma {:induction false} TimesOfAppend(recs: seq<Record>, more: seq<Record>, u: string)
    requires |more| <= 1
    ensures TimesOf(recs + more, u)
         == TimesOf(recs, u) + (if more != [] && more[0].url == u then [more[0].time] else [])
  {
    if more == [] {
      assert recs + more == recs;
    } else {
      assert (recs + more)[..|recs + more| - 1] == recs;
    }
  }

  /** One more line: either it adds no record and the data stay, or it adds
      the record (u, t) and the data get `t` appended under `u`. */
  lemma ParseLast(lines: seq<string>, matcher: string -> Option<Groups>,
                  toFloat: string -> Option<real>)
    requires lines != [] && Parse(lines, matcher, toFloat).Success?
    ensures var init := lines[..|lines| - 1];
      var more := RecordOf(lines[|lines| - 1], matcher, toFloat);
      && Parse(init, matcher, toFloat).Success?
      && Records(lines, matcher, toFloat) == Records(init, matcher, toFloat) + more
      && |more| <= 1
      && (more == [] ==> Parse(lines, matcher, toFloat) == Parse(init, matcher, toFloat))
      && (more != [] ==> Parse(lines, matcher, toFloat).value
                         == Append(Parse(init, matcher, toFloat).value, more[0].url, more[0].time))
  {
  }

  /** Each URL's list holds the times of exactly its matched lines, in file
      order; the URLs held are exactly those of the matched lines. */
  lemma {:induction false} ParseTimesInFileOrder(lines: seq<string>, matcher: string -> Option<Groups>,
                                                 toFloat: string -> Option<real>)
    requires Parse(lines, matcher, toFloat).Success?
    ensures var d := Parse(lines, matcher, toFloat).value;
      var recs := Records(lines, matcher, toFloat);
      && (forall u :: u in d.times <==> u in Urls(recs))
      && (forall u :: u in d.times ==> d.times[u] == TimesOf(recs, u))
  {
    if lines != [] {
      var init := lines[..|lines| - 1];
      ParseLast(lines, matcher, toFloat);
      ParseTimesInFileOrder(init, matcher, toFloat);
      var more := RecordOf(lines[|lines| - 1], matcher, toFloat);
      var recs0 := Records(init, matcher, toFloat);
      var d0 := Parse(init, matcher, toFloat).value;
      RecordsStep(recs0, more, d0);
    }
  }

  /** The induction step of ParseTimesInFileOrder, on records alone. */
  lemma RecordsStep(recs0: seq<Record>, more: seq<Record>, d0: LogData)
    requires d0.Valid() && |more| <= 1
    requires forall u :: u in d0.times <==> u in Urls(recs0)
    requires forall u :: u in d0.times ==> d0.times[u] == TimesOf(recs0, u)
    ensures var d := if more == [] then d0 else Append(d0, more[0].url, more[0].time);
      && (forall u :: u in d.times <==> u in Urls(recs0 + more))
      && (forall u :: u in d.times ==> d.times[u] == TimesOf(recs0 + more, u))
  {
    if more == [] {
      assert recs0 + more == recs0;
    } else {
      var w, t := more[0].url, more[0].time;
      var d := Append(d0, w, t);
      UrlsAppend(recs0, more);
      if w !in d0.times {
        NoUrlNoTimes(recs0, w);
      }
      forall u
        ensures u in d.times <==> u in Urls(recs0 + more)
        ensures u in d.times ==> d.times[u] == TimesOf(recs0 + more, u)
      {
        TimesOfAppend(recs0, more, u);
        assert u in Urls(recs0 + more) <==> u in Urls(recs0) || u == w;
      }
    }
  }

  lemma {:induction false} NoUrlNoTimes(recs: seq<Record>, u: string)
    requires u !in Urls(recs)
    ensures TimesOf(recs, u) == []
  {
    if recs != [] {
      var init := recs[..|recs| - 1];
      assert Urls(recs) == Urls(init) + [recs[|recs| - 1].url];
      NoUrlNoTimes(init, u);
    }
  }

  /** `xs` is ordered by first appearance in `ys`. */
  predicate FirstSeenOrder(xs: seq<string>, ys: seq<string>)
    requires forall x :: x in xs ==> x in ys
  {
    forall i, j :: 0 <= i < j < |xs| ==> FirstIndex(ys, xs[i]) < FirstIndex(ys, xs[j])
  }

  lemma {:induction false} FirstIndexAppend(ys: seq<string>, y: string, x: string)
    requires x in ys + [y]
    ensures x in ys ==> FirstIndex(ys + [y], x) == FirstIndex(ys, x)
    ensures x !in ys ==> FirstIndex(ys + [y], x) == |ys|
  {
    var k := FirstIndex(ys + [y], x);
    if x in ys {
      var k' := FirstIndex(ys, x);
      assert (ys + [y])[k'] == x;
      assert k < |ys| ==> ys[k] == x;
    }
  }

  /** The dictionary's keys are in the order the URLs were first seen. */
  lemma {:induction false} ParseKeysFirstSeen(lines: seq<string>, matcher: string -> Option<Groups>,
                                              toFloat: string -> Option<real>)
    requires Parse(lines, matcher, toFloat).Success?
    ensures var d := Parse(lines, matcher, toFloat).value;
      var urls := Urls(Records(lines, matcher, toFloat));
      (forall u :: u in d.order ==> u in urls) && FirstSeenOrder(d.order, urls)
  {
    if lines != [] {
      var init := lines[..|lines| - 1];
      ParseLast(lines, matcher, toFloat);
      ParseKeysFirstSeen(init, matcher, toFloat);
      ParseTimesInFileOrder(init, matcher, toFloat);
      var more := RecordOf(lines[|lines| - 1], matcher, toFloat);
      KeysRecordsStep(Parse(init, matcher, toFloat).value, Records(init, matcher, toFloat), more);
    }
  }

  /** The induction step of ParseKeysFirstSeen, on records alone. */
  lemma KeysRecordsStep(d0: LogData, recs0: seq<Record>, more: seq<Record>)
    requires d0.Valid() && |more| <= 1
    requires forall u :: u in d0.times <==> u in Urls(recs0)
    requires forall u :: u in d0.order ==> u in Urls(recs0)
    requires FirstSeenOrder(d0.order, Urls(recs0))
    ensures var d := if more == [] then d0 else Append(d0, more[0].url, more[0].time);
      var urls := Urls(recs0 + more);
      (forall u :: u in d.order ==> u in urls) && FirstSeenOrder(d.order, urls)
  {
    UrlsAppend(recs0, more);
    if more == [] {
      assert recs0 + more == recs0;
    } else {
      var u := more[0].url;
      var order := Append(d0, u, more[0].time).order;
      assert Urls(recs0 + more) == Urls(recs0) + [u];
      if u in d0.times {
        assert order == d0.order;
        KeysStepSeen(d0.order, Urls(recs0), u);
      } else {
        assert order == d0.order + [u];
        KeysStepNew(d0.order, Urls(recs0), u);
      }
    }
  }

  /** Induction step of ParseKeysFirstSeen for a URL seen before: a new
      occurrence at the end moves no first occurrence. */
  lemma KeysStepSeen(order: seq<string>, urls0: seq<string>, u: string)
    requires forall x :: x in order ==> x in urls0
    requires FirstSeenOrder(order, urls0)
    ensures forall x :: x in order ==> x in urls0 + [u]
    ensures FirstSeenOrder(order, urls0 + [u])
  {
    var urls := urls0 + [u];
    forall x | x in order
      ensures x in urls && FirstIndex(urls, x) == FirstIndex(urls0, x)
    {
      FirstIndexAppend(urls0, u, x);
    }
  }

  /** Induction step of ParseKeysFirstSeen for a new URL: it is first seen
      after every key already held. */
  lemma KeysStepNew(order: seq<string>, urls0: seq<string>, u: string)
    requires forall x :: x in order ==> x in urls0
    requires FirstSeenOrder(order, urls0)
    requires u !in urls0
    ensures forall x :: x in order + [u] ==> x in urls0 + [u]
    ensures FirstSeenOrder(order + [u], urls0 + [u])
  {
    var urls := urls0 + [u];
    var order' := order + [u];
    KeysStepSeen(order, urls0, u);
    FirstIndexAppend(urls0, u, u);
    forall i, j | 0 <= i < j < |order'|
      ensures FirstIndex(urls, order'[i]) < FirstIndex(urls, order'[j])
    {
      assert order'[i] == order[i];
      if j < |order| {
        assert order'[j] == order[j];
      } else {
        assert FirstIndex(urls0, order[i]) < |urls0|;
      }
    }
  }

  /** A single matched line `GET <path> HTTP/1.1` with a readable time
      yields exactly the key `path` holding that one time. */
  lemma OneGetLine(line: string, path: string, time: string, t: real,
                   matcher: string -> Option<Groups>, toFloat: string -> Option<real>)
    requires Text.IsToken(path)
    requires matcher(line) == Some(Groups("GET " + path + " HTTP/1.1", time))
    requires toFloat(time) == Some(t)
    ensures Parse([line], matcher, toFloat) == Success(LogData([path], map[path := [t]]))
  {
    ExtractUrlGet(path);
    assert [line][..0] == [];
    assert Parse([line], matcher, toFloat) == Step(Empty, line, matcher, toFloat);
    assert Step(Empty, line, matcher, toFloat) == Success(Append(Empty, path, t));
    assert Append(Empty, path, t) == LogData([] + [path], map[][path := [t]]);
    assert [] + [path] == [path];
    assert map[][path := [t]] == map[path := [t]];
  }

  /** The analyzers' test: a line whose pattern match gives the request
      "GET /api/v2/banner/16852664 HTTP/1.1" and the request time "0.199"
      (as the test's nginx line does) yields the key
      "/api/v2/banner/16852664" holding that one time. */
  lemma SampleLine(line: string, matcher: string -> Option<Groups>, toFloat: string -> Option<real>)
    requires matcher(line) == Some(Groups("GET /api/v2/banner/16852664 HTTP/1.1", "0.199"))
    requires toFloat("0.199") == Some(0.199)
    ensures Parse([line], matcher, toFloat).Success?
    ensures Parse([line], matcher, toFloat).value.times == map["/api/v2/banner/16852664" := [0.199]]
  {
    BannerRequest();
    OneGetLine(line, "/api/v2/banner/16852664", "0.199", 0.199, matcher, toFloat);
  }

  /** The request of the test line, split into method, path and protocol. */
  lemma BannerRequest()
    ensures Text.IsToken("/api/v2/banner/16852664")
    ensures "GET " + "/api/v2/banner/16852664" + " HTTP/1.1" == "GET /api/v2/banner/16852664 HTTP/1.1"
  {
  }
}
