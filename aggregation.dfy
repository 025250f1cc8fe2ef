/** `log_data`, the `defaultdict(list)` both analyzers fill: URL -> list of
    request times. A Python dict iterates in insertion order, and that order
    decides how `nlargest` breaks ties, so the model keeps the keys' order
    beside the map. */
module Aggregation {
  import Stats

  datatype LogData = LogData(order: seq<string>, times: map<string, seq<real>>) {
    /** What every dict satisfies: each key once, in `order` exactly the keys. */
    ghost predicate Valid() {
      && (forall i, j :: 0 <= i < j < |order| ==> order[i] != order[j])
      && (forall u :: u in times <==> u in order)
    }
  }

  /** A fresh `defaultdict(list)`. */
  const Empty := LogData([], map[])

  /** `log_data[url].append(t)`: the URL's list, created empty on first use,
      gets `t` at its end; every other list and the key order stay as they
      were, and a new URL goes to the end of the key order. */
  function Append(d: LogData, url: string, t: real): (r: LogData)
    requires d.Valid()
    ensures r.Valid()
    ensures r.times.Keys == d.times.Keys + {url}
    ensures r.times[url] == (if url in d.times then d.times[url] else []) + [t]
    ensures forall u :: u in d.times && u != url ==> r.times[u] == d.times[u]
    ensures r.order == if url in d.times then d.order else d.order + [url]
  {
    if url in d.times then LogData(d.order, d.times[url := d.times[url] + [t]])
    else LogData(d.order + [url], d.times[url := [t]])
  }

  /** The number of request times held, over all URLs. */
  function CountOver(us: seq<string>, times: map<string, seq<real>>): nat {
    if us == [] then 0
    else (if us[0] in times then |times[us[0]]| else 0) + CountOver(us[1..], times)
  }

  function TotalCount(d: LogData): nat {
    CountOver(d.order, d.times)
  }

  lemma {:induction false} CountOverUnchanged(us: seq<string>, m: map<string, seq<real>>, m': map<string, seq<real>>)
    requires forall u :: u in us ==> (u in m <==> u in m') && (u in m ==> |m[u]| == |m'[u]|)
    ensures CountOver(us, m) == CountOver(us, m')
  {
    if us != [] {
      CountOverUnchanged(us[1..], m, m');
    }
  }

  lemma {:induction false} CountOverGrowOne(us: seq<string>, m: map<string, seq<real>>, url: string, t: real)
    requires url in m
    requires forall i, j :: 0 <= i < j < |us| ==> us[i] != us[j]
    ensures CountOver(us, m[url := m[url] + [t]]) == CountOver(us, m) + (if url in us then 1 else 0)
  {
    if us != [] {
      CountOverGrowOne(us[1..], m, url, t);
      if us[0] == url {
        assert url !in us[1..];
      }
    }
  }

  lemma {:induction false} CountOverAppendKey(us: seq<string>, u: string, m: map<string, seq<real>>)
    ensures CountOver(us + [u], m) == CountOver(us, m) + (if u in m then |m[u]| else 0)
  {
    if us == [] {
      assert [u][1..] == [];
    } else {
      assert (us + [u])[1..] == us[1..] + [u];
      CountOverAppendKey(us[1..], u, m);
    }
  }

  /** Each append adds exactly one request time to the total. */
  lemma AppendCount(d: LogData, url: string, t: real)
    requires d.Valid()
    ensures TotalCount(Append(d, url, t)) == TotalCount(d) + 1
  {
    var r := Append(d, url, t);
    if url in d.times {
      CountOverGrowOne(d.order, d.times, url, t);
    } else {
      CountOverAppendKey(d.order, url, r.times);
      CountOverUnchanged(d.order, r.times, d.times);
    }
  }

  /** The URL's total time, as a key for sums over URLs. */
  function TimeSumKey(d: LogData): string -> real {
    u => if u in d.times then Stats.Sum(d.times[u]) else 0.0
  }

  /** `sum(log_data[u]) / len(log_data[u])`, the ranking key; a URL with an
      empty list has no mean (Python raises there, see `Report`). */
  function MeanKey(d: LogData): string -> real {
    u => if u in d.times && d.times[u] != [] then Stats.Mean(d.times[u]) else 0.0
  }

  /** `sum([sum(times) for times in log_data.values()])`. */
  function TotalTime(d: LogData): real {
    Stats.SumBy(d.order, TimeSumKey(d))
  }
}
