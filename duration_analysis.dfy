/** __calc_mean_duration_per_alertname of analyzing/duration_analyzer.py:
    pools the durations of all series that share an alertname and averages
    them. Reading and writing the JSON files is left out. */
module DurationAnalysis {
  import opened Common
  import opened Payloads

  /** The result dict: its keys in insertion order and the mean per key. */
  datatype Means = Means(order: seq<string>, mean: map<string, real>)

  predicate AllNamed(results: seq<Alert>) {
    forall i :: 0 <= i < |results| ==> "alertname" in results[i].metric
  }

  /** The alertname of every series, in order. */
  function Names(results: seq<Alert>): (names: seq<string>)
    requires AllNamed(results)
    ensures |names| == |results|
  {
    if results == [] then []
    else Names(results[..|results| - 1]) + [results[|results| - 1].metric["alertname"]]
  }

  /** The second component of every value pair. */
  function DurationsOf(values: seq<Range>): (d: seq<int>)
    ensures |d| == |values| && forall i :: 0 <= i < |values| ==> d[i] == values[i].duration
  {
    seq(|values|, i requires 0 <= i < |values| => values[i].duration)
  }

  /** The durations pooled under `name`, series by series. */
  function Pooled(results: seq<Alert>, name: string): seq<int>
    requires AllNamed(results)
  {
    if results == [] then []
    else
      var last := results[|results| - 1];
      Pooled(results[..|results| - 1], name) + if last.metric["alertname"] == name then DurationsOf(last.values) else []
  }

  function Sum(xs: seq<int>): int {
    if xs == [] then 0 else Sum(xs[..|xs| - 1]) + xs[|xs| - 1]
  }

  /** `sum(durations) / len(durations)`. */
  function Mean(xs: seq<int>): real
    requires xs != []
  {
    (Sum(xs) as real) / (|xs| as real)
  }

  lemma {:induction false} SumAppend(xs: seq<int>, ys: seq<int>)
    ensures Sum(xs + ys) == Sum(xs) + Sum(ys)
    decreases |ys|
  {
    if ys == [] {
      assert xs + ys == xs;
    } else {
      var n := |ys| - 1;
      assert (xs + ys)[..|xs + ys| - 1] == xs + ys[..n];
      assert (xs + ys)[|xs + ys| - 1] == ys[n];
      SumAppend(xs, ys[..n]);
    }
  }

  /** The durations pooled from `a + b` are those from `a`, then those from `b`. */
  lemma {:induction false} PooledAppend(a: seq<Alert>, b: seq<Alert>, name: string)
    requires AllNamed(a) && AllNamed(b)
    ensures AllNamed(a + b)
    ensures Pooled(a + b, name) == Pooled(a, name) + Pooled(b, name)
    decreases |b|
  {
    assert forall i :: 0 <= i < |a + b| ==> (a + b)[i] == if i < |a| then a[i] else b[i - |a|];
    if b == [] {
      assert a + b == a;
    } else {
      var n := |b| - 1;
      assert (a + b)[..|a + b| - 1] == a + b[..n];
      assert (a + b)[|a + b| - 1] == b[n];
      assert AllNamed(b[..n]) by {
        assert forall i :: 0 <= i < n ==> b[..n][i] == b[i];
      }
      PooledAppend(a, b[..n], name);
    }
  }

  /** The mean of two groups' means, each weighted by its number of durations. */
  function WeightedMean(xs: seq<int>, ys: seq<int>): real
    requires xs != [] && ys != []
  {
    (Mean(xs) * (|xs| as real) + Mean(ys) * (|ys| as real)) / ((|xs| + |ys|) as real)
  }

  /** The mean of two lists joined is the weighted mean of their means. */
  lemma {:induction false} MeanConcat(xs: seq<int>, ys: seq<int>)
    requires xs != [] && ys != []
    ensures Mean(xs + ys) == WeightedMean(xs, ys)
  {
    SumAppend(xs, ys);
    MeanTimesCount(xs);
    MeanTimesCount(ys);
    var total := (Sum(xs) as real) + (Sum(ys) as real);
    assert Mean(xs + ys) == total / ((|xs| + |ys|) as real);
    assert Mean(xs) * (|xs| as real) + Mean(ys) * (|ys| as real) == total;
  }

  /** Pooling the series of `a` and `b` under one alertname gives the mean of
      the two groups' means, each weighted by its number of durations. */
  lemma {:induction false} MeanPooled(a: seq<Alert>, b: seq<Alert>, name: string)
    requires AllNamed(a) && AllNamed(b)
    requires Pooled(a, name) != [] && Pooled(b, name) != []
    ensures AllNamed(a + b) && Pooled(a + b, name) == Pooled(a, name) + Pooled(b, name)
    ensures Mean(Pooled(a + b, name)) == WeightedMean(Pooled(a, name), Pooled(b, name))
  {
    PooledAppend(a, b, name);
    MeanConcat(Pooled(a, name), Pooled(b, name));
  }

  lemma MeanTimesCount(xs: seq<int>)
    requires xs != []
    ensures Mean(xs) * (|xs| as real) == Sum(xs) as real
  {
  }

  lemma {:induction false} SumBounds(xs: seq<int>, lo: int, hi: int)
    requires forall i :: 0 <= i < |xs| ==> lo <= xs[i] <= hi
    ensures |xs| * lo <= Sum(xs) <= |xs| * hi
  {
    if xs != [] {
      var n := |xs| - 1;
      assert forall i :: 0 <= i < n ==> xs[..n][i] == xs[i];
      SumBounds(xs[..n], lo, hi);
      assert Sum(xs) == Sum(xs[..n]) + xs[n];
      assert |xs| * lo == n * lo + lo && |xs| * hi == n * hi + hi;
    }
  }

  lemma RealDivBounds(s: real, n: real, lo: real, hi: real)
    requires n > 0.0 && lo * n <= s <= hi * n
    ensures lo <= s / n <= hi
  {
    var q := s / n;
    assert q * n == s;
  }

  /** The mean lies between the smallest and the largest duration. */
  lemma MeanBounds(xs: seq<int>, lo: int, hi: int)
    requires xs != [] && forall i :: 0 <= i < |xs| ==> lo <= xs[i] <= hi
    ensures lo as real <= Mean(xs) <= hi as real
  {
    SumBounds(xs, lo, hi);
    var n := |xs| as real;
    var s := Sum(xs) as real;
    assert (lo as real) * n <= s <= (hi as real) * n;
    RealDivBounds(s, n, lo as real, hi as real);
  }

  /** What the first loop has built after `results`: the keys of the dict in
      insertion order, and the dict itself. A new alertname is first given an
      empty list, then the list is extended by the series' durations. */
  function Collect(results: seq<Alert>): (seq<string>, map<string, seq<int>>)
    requires AllNamed(results)
  {
    if results == [] then ([], map[])
    else
      var (order, alerts) := Collect(results[..|results| - 1]);
      var last := results[|results| - 1];
      var name := last.metric["alertname"];
      var order' := if name in alerts then order else order + [name];
      var alerts' := if name in alerts then alerts else alerts[name := []];
      (order', alerts'[name := alerts'[name] + DurationsOf(last.values)])
  }

  lemma {:induction false} PooledAbsent(results: seq<Alert>, name: string)
    requires AllNamed(results) && name !in Names(results)
    ensures Pooled(results, name) == []
  {
    if results != [] {
      var prefix := results[..|results| - 1];
      assert AllNamed(prefix);
      assert Names(results) == Names(prefix) + [results[|results| - 1].metric["alertname"]];
      PooledAbsent(prefix, name);
    }
  }

  /** The dict's keys, in insertion order, are the alertnames in order of
      first appearance, and the dict holds exactly those names. */
  lemma {:induction false} CollectOrder(results: seq<Alert>)
    requires AllNamed(results)
    ensures Collect(results).0 == FirstAppearances(Names(results))
    ensures forall n :: n in Collect(results).1 <==> n in Names(results)
  {
    if results != [] {
      var prefix := results[..|results| - 1];
      var last := results[|results| - 1];
      assert AllNamed(prefix);
      CollectOrder(prefix);
      assert Names(results) == Names(prefix) + [last.metric["alertname"]];
      FirstAppearancesSnoc(Names(prefix), last.metric["alertname"]);
    }
  }

  /** Under each name the dict holds the durations of all series of that
      name, series by series. */
  lemma {:induction false} CollectPools(results: seq<Alert>)
    requires AllNamed(results)
    ensures forall n :: n in Collect(results).1 ==> Collect(results).1[n] == Pooled(results, n)
  {
    if results != [] {
      var prefix := results[..|results| - 1];
      var last := results[|results| - 1];
      var name := last.metric["alertname"];
      assert AllNamed(prefix);
      CollectPools(prefix);
      CollectOrder(prefix);
      var alerts := Collect(prefix).1;
      forall n | n in Collect(results).1 ensures Collect(results).1[n] == Pooled(results, n) {
        if n == name && name !in alerts {
          PooledAbsent(prefix, name);
        }
      }
    }
  }

  /** The first loop: groups the durations by alertname. */
  method CollectDurations(results: seq<Alert>) returns (r: Result<(seq<string>, map<string, seq<int>>), PyError>)
    ensures !AllNamed(results) ==> r == Err(KeyError("alertname"))
    ensures AllNamed(results) ==> r == Ok(Collect(results))
  {
    var alerts: map<string, seq<int>> := map[];
    var order: seq<string> := [];
    var i := 0;
    while i < |results|
      invariant 0 <= i <= |results| && AllNamed(results[..i])
      invariant (order, alerts) == Collect(results[..i])
    {
      var result := results[i];
      if "alertname" !in result.metric {
        return Err(KeyError("alertname"));
      }
      var name := result.metric["alertname"];
      if name !in alerts {
        alerts := alerts[name := []];
        order := order + [name];
      }
      var durations := AppendDurations(alerts[name], result.values);
      alerts := alerts[name := durations];
      assert results[..i + 1][..i] == results[..i];
      i := i + 1;
    }
    assert results[..i] == results;
    r := Ok((order, alerts));
  }

  /** The inner loop of the first: appends the second component of every pair. */
  method AppendDurations(durations: seq<int>, values: seq<Range>) returns (durations': seq<int>)
    ensures durations' == durations + DurationsOf(values)
  {
    durations' := durations;
    var j := 0;
    while j < |values|
      invariant 0 <= j <= |values|
      invariant durations' == durations + DurationsOf(values[..j])
    {
      assert DurationsOf(values[..j + 1]) == DurationsOf(values[..j]) + [values[j].duration];
      durations' := durations' + [values[j].duration];
      j := j + 1;
    }
    assert values[..j] == values;
  }

  /** The second loop: replaces each pooled list by its mean. */
  method AverageDurations(order: seq<string>, alerts: map<string, seq<int>>) returns (r: Result<map<string, real>, PyError>)
    requires forall n :: n in order ==> n in alerts
    ensures r.Err? <==> exists n :: n in order && alerts[n] == []
    ensures r.Err? ==> r == Err(ZeroDivisionError)
    ensures r.Ok? ==> forall n :: n in r.value <==> n in order
    ensures r.Ok? ==> forall n :: n in r.value ==> alerts[n] != [] && r.value[n] == Mean(alerts[n])
  {
    var means: map<string, real> := map[];
    var k := 0;
    while k < |order|
      invariant 0 <= k <= |order|
      invariant forall n :: n in means <==> n in order[..k]
      invariant forall n :: n in means ==> alerts[n] != [] && means[n] == Mean(alerts[n])
    {
      var alertName := order[k];
      var durations := alerts[alertName];
      if |durations| == 0 {
        return Err(ZeroDivisionError);
      }
      means := means[alertName := (Sum(durations) as real) / (|durations| as real)];
      assert order[..k + 1] == order[..k] + [alertName];
      k := k + 1;
    }
    assert order[..k] == order;
    r := Ok(means);
  }

  /** __calc_mean_duration_per_alertname. */
  method CalcMeanDurationPerAlertname(results: seq<Alert>) returns (r: Result<Means, PyError>)
    ensures !AllNamed(results) ==> r == Err(KeyError("alertname"))
    ensures AllNamed(results) && (exists n :: n in Names(results) && Pooled(results, n) == []) ==>
              r == Err(ZeroDivisionError)
    ensures AllNamed(results) && (forall n :: n in Names(results) ==> Pooled(results, n) != []) ==>
              && r.Ok?
              && r.value.order == FirstAppearances(Names(results))
              && (forall n :: n in r.value.mean <==> n in Names(results))
              && (forall n :: n in r.value.mean ==> r.value.mean[n] == Mean(Pooled(results, n)))
  {
    var collected := CollectDurations(results);
    if collected.Err? {
      return Err(collected.error);
    }
    var (order, alerts) := collected.value;
    CollectOrder(results);
    CollectPools(results);
    var means := AverageDurations(order, alerts);
    if means.Err? {
      return Err(means.error);
    }
    r := Ok(Means(order, means.value));
  }
}
