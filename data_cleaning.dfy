/** The result merging of utilities/data_cleaner.py: the series of all chunk
    files of a query are merged by metric key, de-duplicated, sorted and
    compressed into time ranges. A file is its already parsed payload. */
module DataCleaning {
  import opened Common
  import opened Payloads
  import opened DataFilter

  /** A merged series after cleaning: its timestamps as ranges. */
  datatype Cleaned = Cleaned(metric: string, values: seq<Range>)

  /** The staged results and the position of each metric key among them. */
  datatype Store = Store(data: seq<Series>, index: map<string, int>)

  function Metrics(data: seq<Series>): (m: seq<string>)
    ensures |m| == |data| && forall i :: 0 <= i < |data| ==> m[i] == data[i].metric
  {
    seq(|data|, i requires 0 <= i < |data| => data[i].metric)
  }

  // ---------------------------------------------------------------------------
  // Staging the first file

  /** The map the `enumerate` loop builds over the first file: each key maps
      to its last position. */
  function IndexMap(results: seq<Series>): (m: map<string, int>)
    ensures |m| <= |results|
    ensures forall k :: k in m ==> 0 <= m[k] < |results| && results[m[k]].metric == k
    ensures forall i :: 0 <= i < |results| ==> results[i].metric in m
  {
    if results == [] then map[]
    else
      var n := |results| - 1;
      var prefix := IndexMap(results[..n]);
      assert results == results[..n] + [results[n]];
      IndexMapStep(results[..n], results[n], prefix);
      prefix[results[n].metric := n]
  }

  /** A series appended to `prior` takes its key's slot over the map of `prior`. */
  lemma IndexMapStep(prior: seq<Series>, last: Series, prefix: map<string, int>)
    requires |prefix| <= |prior|
    requires forall k :: k in prefix ==> 0 <= prefix[k] < |prior| && prior[prefix[k]].metric == k
    requires forall i :: 0 <= i < |prior| ==> prior[i].metric in prefix
    ensures var results := prior + [last];
      var m := prefix[last.metric := |prior|];
      && |m| <= |results|
      && (forall k :: k in m ==> 0 <= m[k] < |results| && results[m[k]].metric == k)
      && (forall i :: 0 <= i < |results| ==> results[i].metric in m)
  {
    var results := prior + [last];
    var m := prefix[last.metric := |prior|];
    MapSizeUpdate(prefix, last.metric, |prior|);
    forall k | k in m ensures 0 <= m[k] < |results| && results[m[k]].metric == k {
      if k != last.metric {
        assert results[prefix[k]] == prior[prefix[k]];
      }
    }
    forall i | 0 <= i < |results| ensures results[i].metric in m {
      if i < |prior| {
        assert results[i] == prior[i];
      }
    }
  }

  lemma MapSizeUpdate<K, V>(m: map<K, V>, k: K, v: V)
    ensures |m[k := v]| <= |m| + 1
  {
    assert m[k := v].Keys == m.Keys + {k};
  }

  /** Every position holds its own key and the map has one entry per series. */
  ghost predicate Indexed(s: Store) {
    && |s.index| == |s.data|
    && (forall k :: k in s.index ==> 0 <= s.index[k] < |s.data| && s.data[s.index[k]].metric == k)
    && (forall i :: 0 <= i < |s.data| ==> s.data[i].metric in s.index && s.index[s.data[i].metric] == i)
  }

  /** Every key's position holds that key, one entry per series. */
  ghost predicate Keyed(s: Store) {
    && |s.index| == |s.data|
    && (forall k :: k in s.index ==> 0 <= s.index[k] < |s.data| && s.data[s.index[k]].metric == k)
  }

  /** What the index map needs so that no lookup leaves the list. */
  predicate Bounded(s: Store) {
    && |s.index| <= |s.data|
    && forall k :: k in s.index ==> 0 <= s.index[k] < |s.data|
  }

  predicate DistinctMetrics(results: seq<Series>) {
    forall i, j :: 0 <= i < j < |results| ==> results[i].metric != results[j].metric
  }

  /** A first file with distinct metric keys is staged with an exact index. */
  lemma {:induction false} IndexMapIndexed(results: seq<Series>)
    requires DistinctMetrics(results)
    ensures Indexed(Store(results, IndexMap(results)))
  {
    if results != [] {
      var n := |results| - 1;
      IndexMapIndexed(results[..n]);
      var prefix := IndexMap(results[..n]);
      assert results[n].metric !in prefix;
      assert prefix[results[n].metric := n].Keys == prefix.Keys + {results[n].metric};
    }
  }

  // ---------------------------------------------------------------------------
  // __assert_index_to_metrics

  /** One iteration of __assert_index_to_metrics: a known key has its values
      extended, an unknown key is appended at position `len(index)`. */
  function Absorb(s: Store, r: Series): (t: Store)
    requires Bounded(s)
    ensures Bounded(t)
  {
    if r.metric in s.index then
      var i := s.index[r.metric];
      Store(s.data[i := s.data[i].(values := s.data[i].values + r.values)], s.index)
    else
      assert s.index[r.metric := |s.index|].Keys == s.index.Keys + {r.metric};
      Store(s.data + [r], s.index[r.metric := |s.index|])
  }

  /** All iterations of __assert_index_to_metrics over `results`. */
  function AbsorbAll(s: Store, results: seq<Series>): (t: Store)
    requires Bounded(s)
    ensures Bounded(t)
  {
    if results == [] then s
    else Absorb(AbsorbAll(s, results[..|results| - 1]), results[|results| - 1])
  }

  lemma {:induction false} AbsorbAllAppend(s: Store, a: seq<Series>, b: seq<Series>)
    requires Bounded(s)
    ensures AbsorbAll(s, a + b) == AbsorbAll(AbsorbAll(s, a), b)
    decreases |b|
  {
    if b == [] {
      assert a + b == a;
    } else {
      assert (a + b)[..|a + b| - 1] == a + b[..|b| - 1];
      AbsorbAllAppend(s, a, b[..|b| - 1]);
    }
  }

  lemma AbsorbIndexed(s: Store, r: Series)
    requires Bounded(s) && Indexed(s)
    ensures Indexed(Absorb(s, r))
  {
    if r.metric !in s.index {
      var t := Absorb(s, r);
      assert t.index.Keys == s.index.Keys + {r.metric};
      forall i | 0 <= i < |t.data|
        ensures t.data[i].metric in t.index && t.index[t.data[i].metric] == i
      {
        if i < |s.data| {
          assert t.data[i] == s.data[i];
        }
      }
    }
  }

  /** The index stays exact however many results are merged. */
  lemma {:induction false} AbsorbAllIndexed(s: Store, results: seq<Series>)
    requires Bounded(s) && Indexed(s)
    ensures Indexed(AbsorbAll(s, results))
    decreases |results|
  {
    if results != [] {
      AbsorbAllIndexed(s, results[..|results| - 1]);
      AbsorbIndexed(AbsorbAll(s, results[..|results| - 1]), results[|results| - 1]);
    }
  }

  /** The values collected so far under key `k`. */
  function ValuesOf(s: Store, k: string): seq<int>
    requires Bounded(s)
  {
    if k in s.index then s.data[s.index[k]].values else []
  }

  /** The values of every result with key `k`, in order. */
  function ConcatValues(results: seq<Series>, k: string): seq<int> {
    if results == [] then []
    else
      var n := |results| - 1;
      ConcatValues(results[..n], k) + (if results[n].metric == k then results[n].values else [])
  }

  lemma AbsorbKeyed(s: Store, r: Series, k: string)
    requires Bounded(s) && Keyed(s)
    ensures Keyed(Absorb(s, r))
    ensures ValuesOf(Absorb(s, r), k) == ValuesOf(s, k) + (if r.metric == k then r.values else [])
  {
    if r.metric in s.index {
      AbsorbKnown(s, r, k);
    } else {
      AbsorbNew(s, r, k);
    }
  }

  lemma AbsorbKnown(s: Store, r: Series, k: string)
    requires Bounded(s) && Keyed(s) && r.metric in s.index
    ensures Keyed(Absorb(s, r))
    ensures ValuesOf(Absorb(s, r), k) == ValuesOf(s, k) + (if r.metric == k then r.values else [])
  {
    var t := Absorb(s, r);
    var i := s.index[r.metric];
    assert t.index == s.index;
    assert t.data == s.data[i := s.data[i].(values := s.data[i].values + r.values)];
    assert forall x :: x in t.index ==> t.data[t.index[x]].metric == s.data[s.index[x]].metric;
  }

  lemma AbsorbNew(s: Store, r: Series, k: string)
    requires Bounded(s) && Keyed(s) && r.metric !in s.index
    ensures Keyed(Absorb(s, r))
    ensures ValuesOf(Absorb(s, r), k) == ValuesOf(s, k) + (if r.metric == k then r.values else [])
  {
    var t := Absorb(s, r);
    assert t.index == s.index[r.metric := |s.index|];
    assert t.data == s.data + [r];
    assert t.index.Keys == s.index.Keys + {r.metric};
    assert forall x :: x in s.index ==> t.data[t.index[x]] == s.data[s.index[x]];
  }

  /** Merging appends each result's values, in order, to its key's values. */
  lemma {:induction false} AbsorbAllValues(s: Store, results: seq<Series>, k: string)
    requires Bounded(s) && Keyed(s)
    ensures Keyed(AbsorbAll(s, results))
    ensures ValuesOf(AbsorbAll(s, results), k) == ValuesOf(s, k) + ConcatValues(results, k)
    decreases |results|
  {
    if results != [] {
      var n := |results| - 1;
      var prev := AbsorbAll(s, results[..n]);
      assert AbsorbAll(s, results) == Absorb(prev, results[n]);
      assert ConcatValues(results, k)
          == ConcatValues(results[..n], k) + (if results[n].metric == k then results[n].values else []);
      AbsorbAllValues(s, results[..n], k);
      AbsorbKeyed(prev, results[n], k);
    }
  }

  lemma IndexedMembers(t: Store, x: string)
    requires Indexed(t)
    ensures x in t.index <==> x in Metrics(t.data)
  {
    if x in Metrics(t.data) {
      var i :| 0 <= i < |t.data| && Metrics(t.data)[i] == x;
    }
  }

  lemma AbsorbMetrics(t: Store, r: Series)
    requires Bounded(t)
    ensures Metrics(Absorb(t, r).data)
         == if r.metric in t.index then Metrics(t.data) else Metrics(t.data) + [r.metric]
  {
  }

  /** Merged keys appear in the order in which they were first seen. */
  lemma {:induction false} AbsorbAllOrder(s: Store, results: seq<Series>)
    requires Bounded(s) && Indexed(s)
    ensures Metrics(AbsorbAll(s, results).data) == FirstAppearances(Metrics(s.data) + Metrics(results))
    decreases |results|
  {
    if results == [] {
      assert Metrics(s.data) + Metrics(results) == Metrics(s.data);
      FirstAppearancesOfDistinct(Metrics(s.data));
    } else {
      var n := |results| - 1;
      var x := results[n].metric;
      var prev := AbsorbAll(s, results[..n]);
      var shorter := Metrics(s.data) + Metrics(results[..n]);
      assert Metrics(s.data) + Metrics(results) == shorter + [x];
      AbsorbAllOrder(s, results[..n]);
      AbsorbAllIndexed(s, results[..n]);
      FirstAppearancesSnoc(shorter, x);
      FirstAppearancesMembers(shorter, x);
      IndexedMembers(prev, x);
      AbsorbMetrics(prev, results[n]);
    }
  }

  // ---------------------------------------------------------------------------
  // The files after the first

  /** The exception reading one later file raises, if any. */
  function FileError(f: Payload): Option<PyError> {
    if f.status.None? then Some(KeyError("status"))
    else if f.status.value == "error" then None
    else if f.data.None? then Some(KeyError("data"))
    else None
  }

  /** The loop over `files[1:]`: error files are skipped, the others merged,
      and the first exception stops the loop with the store reached so far. */
  function StageRest(s: Store, files: seq<Payload>): (r: (Store, Option<PyError>))
    requires Bounded(s)
    ensures Bounded(r.0)
    decreases |files|
  {
    if files == [] then (s, None)
    else if FileError(files[0]).Some? then (s, FileError(files[0]))
    else if files[0].status.value == "error" then StageRest(s, files[1..])
    else StageRest(AbsorbAll(s, files[0].data.value.result), files[1..])
  }

  /** The results of the later files that are merged: those of every file
      whose status is not "error", in file order. */
  function Contributed(files: seq<Payload>): seq<Series>
    requires forall i :: 0 <= i < |files| ==> FileError(files[i]).None?
  {
    if files == [] then []
    else
      assert FileError(files[0]).None?;
      if files[0].status.value == "error" then Contributed(files[1..])
      else files[0].data.value.result + Contributed(files[1..])
  }

  /** Without an exception, the later files merge exactly their contributed
      results; an error file contributes nothing. */
  lemma {:induction false} StageRestMerges(s: Store, files: seq<Payload>)
    requires Bounded(s)
    requires forall i :: 0 <= i < |files| ==> FileError(files[i]).None?
    ensures StageRest(s, files) == (AbsorbAll(s, Contributed(files)), None)
    decreases |files|
  {
    if files != [] {
      assert FileError(files[0]).None?;
      if files[0].status.value == "error" {
        StageRestMerges(s, files[1..]);
      } else {
        var a := files[0].data.value.result;
        StageRestMerges(AbsorbAll(s, a), files[1..]);
        AbsorbAllAppend(s, a, Contributed(files[1..]));
      }
    }
  }

  /** The first exception among the later files stops the merge there. */
  lemma {:induction false} StageRestStops(s: Store, files: seq<Payload>, k: nat)
    requires Bounded(s)
    requires k < |files| && FileError(files[k]).Some?
    requires forall i :: 0 <= i < k ==> FileError(files[i]).None?
    ensures StageRest(s, files).1 == FileError(files[k])
    ensures StageRest(s, files).0 == AbsorbAll(s, Contributed(files[..k]))
    decreases k
  {
    if k == 0 {
      assert files[..k] == [];
    } else {
      assert files[..k][1..] == files[1..][..k - 1];
      if files[0].status.value == "error" {
        StageRestStops(s, files[1..], k - 1);
      } else {
        var a := files[0].data.value.result;
        StageRestStops(AbsorbAll(s, a), files[1..], k - 1);
        AbsorbAllAppend(s, a, Contributed(files[1..][..k - 1]));
      }
    }
  }

  // ---------------------------------------------------------------------------
  // sorted(set(values)) and compression

  predicate StrictlySorted(s: seq<int>) {
    forall i, j :: 0 <= i < j < |s| ==> s[i] < s[j]
  }

  /** `x` put into its place in a strictly sorted sequence, unless present. */
  function Insert(x: int, s: seq<int>): (r: seq<int>)
    requires StrictlySorted(s)
    ensures StrictlySorted(r)
    ensures forall y :: y in r <==> y == x || y in s
  {
    if s == [] then [x]
    else if x < s[0] then [x] + s
    else if x == s[0] then s
    else
      var rest := Insert(x, s[1..]);
      assert forall j :: 0 <= j < |rest| ==> s[0] < rest[j] by {
        forall j | 0 <= j < |rest| ensures s[0] < rest[j] {
          var y := rest[j];
          assert y in rest;
          if y != x {
            var k :| 0 <= k < |s[1..]| && s[1..][k] == y;
            assert s[k + 1] == y;
          }
        }
      }
      [s[0]] + rest
  }

  /** `sorted(set(values))`: the distinct values in increasing order. */
  function SortedSet(values: seq<int>): (r: seq<int>)
    ensures StrictlySorted(r)
    ensures forall y :: y in r <==> y in values
  {
    if values == [] then [] else Insert(values[0], SortedSet(values[1..]))
  }

  function CleanSeries(s: Series, step: int): Cleaned {
    Cleaned(s.metric, Compress(SortedSet(s.values), step))
  }

  function Clean(data: seq<Series>, step: int): (r: seq<Cleaned>)
    ensures |r| == |data| && forall i :: 0 <= i < |data| ==> r[i] == CleanSeries(data[i], step)
  {
    seq(|data|, i requires 0 <= i < |data| => CleanSeries(data[i], step))
  }

  /** A cleaned series expands to exactly the distinct timestamps of its
      merged values, in increasing order. */
  lemma CleanRoundTrip(s: Series, step: int)
    requires step > 0
    ensures Expand(CleanSeries(s, step).values, step) == SortedSet(s.values)
    ensures StrictlySorted(Expand(CleanSeries(s, step).values, step))
  {
    CompressRoundTrip(SortedSet(s.values), step);
  }

  // ---------------------------------------------------------------------------
  // The cleaner

  /** The staged store of a whole file list, or the exception it raises. */
  function Stage(files: seq<Payload>): (r: (Option<Store>, Option<PyError>))
  {
    if |files| == 0 then (None, Some(IndexError))
    else if files[0].data.None? then (None, Some(KeyError("data")))
    else
      var first := files[0].data.value.result;
      var (s, e) := StageRest(Store(first, IndexMap(first)), files[1..]);
      (Some(s), e)
  }

  /** With a first file of distinct keys and no exception, every key of any
      file is merged, its values are the concatenation of its values in all
      contributing files, and keys keep their order of first appearance. */
  lemma StageMerges(files: seq<Payload>, k: string)
    requires |files| > 0 && files[0].data.Some? && DistinctMetrics(files[0].data.value.result)
    requires forall i :: 1 <= i < |files| ==> FileError(files[i]).None?
    ensures Stage(files).1.None? && Stage(files).0.Some?
    ensures var first := files[0].data.value.result;
            var later := Contributed(files[1..]);
            var s := Stage(files).0.value;
            && Indexed(s)
            && ValuesOf(s, k) == ConcatValues(first + later, k)
            && Metrics(s.data) == FirstAppearances(Metrics(first) + Metrics(later))
  {
    var first := files[0].data.value.result;
    var s0 := Store(first, IndexMap(first));
    IndexMapIndexed(first);
    var rest := files[1..];
    assert forall i :: 0 <= i < |rest| ==> FileError(rest[i]).None? by {
      forall i | 0 <= i < |rest| ensures FileError(rest[i]).None? {
        assert rest[i] == files[i + 1];
      }
    }
    StageRestMerges(s0, rest);
    var later := Contributed(rest);
    AbsorbAllIndexed(s0, later);
    AbsorbAllValues(s0, later, k);
    AbsorbAllOrder(s0, later);
    ConcatValuesFirst(first, k);
    ConcatValuesAppend(first, later, k);
  }

  lemma {:induction false} ConcatValuesAppend(a: seq<Series>, b: seq<Series>, k: string)
    ensures ConcatValues(a + b, k) == ConcatValues(a, k) + ConcatValues(b, k)
    decreases |b|
  {
    if b == [] {
      assert a + b == a;
    } else {
      var n := |b| - 1;
      assert (a + b)[..|a + b| - 1] == a + b[..n];
      ConcatValuesAppend(a, b[..n], k);
    }
  }

  /** In a file of distinct keys the index finds each key's own values. */
  lemma {:induction false} ConcatValuesFirst(first: seq<Series>, k: string)
    requires DistinctMetrics(first)
    ensures ValuesOf(Store(first, IndexMap(first)), k) == ConcatValues(first, k)
  {
    IndexMapIndexed(first);
    if first != [] {
      var n := |first| - 1;
      ConcatValuesFirst(first[..n], k);
      var m := IndexMap(first[..n]);
      if first[n].metric != k && k in m {
        assert first[m[k]] == first[..n][m[k]];
      }
      if first[n].metric == k {
        assert ConcatValues(first[..n], k) == [] by {
          ConcatValuesAbsent(first[..n], k);
        }
      }
    }
  }

  lemma {:induction false} ConcatValuesAbsent(results: seq<Series>, k: string)
    requires forall i :: 0 <= i < |results| ==> results[i].metric != k
    ensures ConcatValues(results, k) == []
  {
    if results != [] {
      ConcatValuesAbsent(results[..|results| - 1], k);
    }
  }

  class DataCleaner {
    var data: Option<seq<Series>>
    var metricIndexMap: map<string, int>

    constructor ()
      ensures data.None? && metricIndexMap == map[]
    {
      data := None;
      metricIndexMap := map[];
    }

    /** __reset: back to the idle state. */
    method Reset()
      modifies this
      ensures data.None? && metricIndexMap == map[]
    {
      data := None;
      metricIndexMap := map[];
    }

    /** __assert_index_to_metrics. */
    method AssertIndexToMetrics(results: seq<Series>)
      requires data.Some? && Bounded(Store(data.value, metricIndexMap))
      modifies this
      ensures data.Some?
      ensures Store(data.value, metricIndexMap) == AbsorbAll(Store(old(data.value), old(metricIndexMap)), results)
    {
      ghost var s0 := Store(data.value, metricIndexMap);
      var j := 0;
      while j < |results|
        invariant 0 <= j <= |results| && data.Some?
        invariant Store(data.value, metricIndexMap) == AbsorbAll(s0, results[..j])
      {
        ghost var prev := Store(data.value, metricIndexMap);
        assert results[..j + 1][..j] == results[..j];
        assert AbsorbAll(s0, results[..j + 1]) == Absorb(prev, results[j]);
        var result := results[j];
        var flattedKey := result.metric;
        var metricIndex := if flattedKey in metricIndexMap then metricIndexMap[flattedKey] else -1;
        if metricIndex == -1 {
          var length := |metricIndexMap|;
          metricIndexMap := metricIndexMap[flattedKey := length];
          data := Some(data.value + [result]);
        } else {
          var d := data.value;
          data := Some(d[metricIndex := d[metricIndex].(values := d[metricIndex].values + result.values)]);
        }
        assert Store(data.value, metricIndexMap) == Absorb(prev, result);
        j := j + 1;
      }
      assert results[..j] == results;
    }

    /** Staging the first file: its results become the data and the
        `enumerate` loop indexes their keys. */
    method StageFirstFile(first: seq<Series>)
      requires metricIndexMap == map[]
      modifies this
      ensures data == Some(first) && metricIndexMap == IndexMap(first)
    {
      data := Some(first);
      var index := 0;
      while index < |first|
        invariant 0 <= index <= |first| && data == Some(first)
        invariant metricIndexMap == IndexMap(first[..index])
      {
        assert first[..index + 1][..index] == first[..index];
        metricIndexMap := metricIndexMap[first[index].metric := index];
        index := index + 1;
      }
      assert first[..index] == first;
    }

    /** The loop over the later files; returns the exception that stops it. */
    method MergeLaterFiles(later: seq<Payload>) returns (e: Option<PyError>)
      requires data.Some? && Bounded(Store(data.value, metricIndexMap))
      modifies this
      ensures data.Some?
      ensures (Store(data.value, metricIndexMap), e) == StageRest(Store(old(data.value), old(metricIndexMap)), later)
    {
      ghost var s0 := Store(data.value, metricIndexMap);
      var i := 0;
      while i < |later|
        invariant 0 <= i <= |later| && data.Some? && Bounded(Store(data.value, metricIndexMap))
        invariant StageRest(s0, later) == StageRest(Store(data.value, metricIndexMap), later[i..])
      {
        assert later[i..][1..] == later[i + 1..];
        var subData := later[i];
        if subData.status.None? {
          return Some(KeyError("status"));
        }
        if subData.status.value != "error" {
          if subData.data.None? {
            return Some(KeyError("data"));
          }
          AssertIndexToMetrics(subData.data.value.result);
        }
        i := i + 1;
      }
      return None;
    }

    /** `result["values"] = sorted(set(result["values"]))` for every result. */
    method SortValues()
      requires data.Some?
      modifies this
      ensures data.Some? && |data.value| == |old(data.value)| && metricIndexMap == old(metricIndexMap)
      ensures forall k :: 0 <= k < |data.value| ==>
                data.value[k] == old(data.value[k]).(values := SortedSet(old(data.value[k]).values))
    {
      ghost var d0 := data.value;
      var j := 0;
      while j < |data.value|
        invariant 0 <= j <= |d0| && data.Some? && |data.value| == |d0|
        invariant metricIndexMap == old(metricIndexMap)
        invariant forall k :: 0 <= k < j ==> data.value[k] == d0[k].(values := SortedSet(d0[k].values))
        invariant forall k :: j <= k < |d0| ==> data.value[k] == d0[k]
      {
        var d := data.value;
        data := Some(d[j := d[j].(values := SortedSet(d[j].values))]);
        j := j + 1;
      }
    }

    /** `result["values"] = create_time_ranges(result["values"], step)` for
        every result; the ranges are returned rather than stored back. */
    method CompressValues(step: int) returns (out: seq<Cleaned>)
      requires data.Some?
      ensures |out| == |data.value|
      ensures forall k :: 0 <= k < |out| ==>
                out[k] == Cleaned(data.value[k].metric, Compress(data.value[k].values, step))
    {
      out := [];
      var j := 0;
      while j < |data.value|
        invariant 0 <= j <= |data.value| && |out| == j
        invariant forall k :: 0 <= k < j ==>
                    out[k] == Cleaned(data.value[k].metric, Compress(data.value[k].values, step))
      {
        var result := data.value[j];
        var ranges := CreateTimeRanges(List(result.values), step);
        out := out + [Cleaned(result.metric, ranges.value)];
        j := j + 1;
      }
    }

    /** clear_query_results over the parsed files of one query directory;
        returns what is written to finalData.json. */
    method ClearQueryResults(files: seq<Payload>, step: int) returns (r: Result<seq<Cleaned>, PyError>)
      requires metricIndexMap == map[]
      modifies this
      ensures Stage(files).0.None? ==> r == Err(Stage(files).1.value) && data == old(data) && metricIndexMap == map[]
      ensures Stage(files).0.Some? && Stage(files).1.Some? ==>
        r == Err(Stage(files).1.value) &&
        data == Some(Stage(files).0.value.data) && metricIndexMap == Stage(files).0.value.index
      ensures Stage(files).0.Some? && Stage(files).1.None? ==>
        r == Ok(Clean(Stage(files).0.value.data, step)) && data.None? && metricIndexMap == map[]
    {
      if |files| == 0 {
        return Err(IndexError);
      }
      if files[0].data.None? {
        return Err(KeyError("data"));
      }
      StageFirstFile(files[0].data.value.result);
      var e := MergeLaterFiles(files[1..]);
      if e.Some? {
        return Err(e.value);
      }
      ghost var merged := data.value;
      SortValues();
      var out := CompressValues(step);
      assert out == Clean(merged, step);
      Reset();
      return Ok(out);
    }
  }
}
