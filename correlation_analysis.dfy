/** The deterministic steps of analyzing/correlation_analyzer.py: the stable
    selection sort of an alert's ranges, the 0/1 sampling of those ranges on
    a grid of `gap` seconds, and the set-up and averaging of the
    coefficient matrix. */
module CorrelationAnalysis {
  import opened Common

  // ---------------------------------------------------------------------------
  // Arithmetic on the sampling grid

  lemma MulAtLeast(m: int, gap: int)
    requires m >= 1 && gap > 0
    ensures m * gap >= gap
  {
  }

  /** Floor division is determined by quotient and remainder. */
  lemma DivUnique(y: int, gap: int, q: int, r: int)
    requires gap > 0 && 0 <= r < gap && y == q * gap + r
    ensures y / gap == q
  {
    var q' := y / gap;
    var r' := y % gap;
    assert y == q' * gap + r';
    assert (q - q') * gap == r' - r;
    if q > q' {
      MulAtLeast(q - q', gap);
    } else if q < q' {
      MulAtLeast(q' - q, gap);
    }
  }

  lemma DivShift(y: int, gap: int)
    requires gap > 0 && y >= gap
    ensures (y - gap) / gap == y / gap - 1
  {
    var q := y / gap;
    var r := y % gap;
    assert y - gap == (q - 1) * gap + r;
    DivUnique(y - gap, gap, q - 1, r);
  }

  /** The number of grid points `lo, lo + gap, ...` that are at most `hi`. */
  ghost function GridPoints(lo: int, hi: int, gap: int): nat
    requires gap > 0
    decreases hi - lo
  {
    if lo > hi then 0 else 1 + GridPoints(lo + gap, hi, gap)
  }

  lemma {:induction false} GridPointsCount(lo: int, hi: int, gap: int)
    requires gap > 0 && lo <= hi
    ensures GridPoints(lo, hi, gap) == (hi - lo) / gap + 1
    decreases hi - lo
  {
    if lo + gap <= hi {
      GridPointsCount(lo + gap, hi, gap);
      DivShift(hi - lo, gap);
    } else {
      assert GridPoints(lo + gap, hi, gap) == 0;
      DivUnique(hi - lo, gap, 0, hi - lo);
    }
  }

  /** `q * gap` never exceeds `y` and is within `gap` of it, for `q = y // gap`. */
  lemma FloorBounds(y: int, gap: int)
    requires gap > 0
    ensures (y / gap) * gap <= y < (y / gap) * gap + gap
  {
  }

  lemma MulMono(a: int, b: int, gap: int)
    requires a <= b && gap > 0
    ensures a * gap <= b * gap
  {
    assert b * gap - a * gap == (b - a) * gap;
  }

  /** Skipping `k` grid points that all lie at or below `hi`. */
  lemma {:induction false} GridPointsSkip(c: int, k: int, hi: int, gap: int)
    requires gap > 0 && k >= 0 && (k == 0 || c + (k - 1) * gap <= hi)
    ensures GridPoints(c, hi, gap) == k + GridPoints(c + k * gap, hi, gap)
    decreases k
  {
    if k > 0 {
      MulMono(0, k - 1, gap);
      assert c + gap + (k - 2) * gap == c + (k - 1) * gap;
      GridPointsSkip(c + gap, k - 1, hi, gap);
      assert c + gap + (k - 1) * gap == c + k * gap;
    }
  }

  /** The points `c, c + gap, ..., c + (k - 1) * gap` all lie in `[lo, hi]`. */
  lemma PointsWithin(c: int, k: int, gap: int, lo: int, hi: int)
    requires gap > 0 && k > 0 && lo <= c && c + (k - 1) * gap <= hi
    ensures forall j :: 0 <= j < k ==> lo <= c + j * gap <= hi
  {
    forall j | 0 <= j < k ensures lo <= c + j * gap <= hi {
      MulMono(0, j, gap);
      MulMono(j, k - 1, gap);
    }
  }

  // ---------------------------------------------------------------------------
  // __sort_data

  /** The index the inner loop of __sort_data settles on after scanning the
      first `j` ranges: the minimum is replaced only by a strictly smaller start. */
  function MinIndexUpTo(s: seq<Range>, j: nat): (m: nat)
    requires 0 < j <= |s|
    ensures m < j
  {
    if j == 1 then 0
    else
      var m := MinIndexUpTo(s, j - 1);
      if s[j - 1].start < s[m].start then j - 1 else m
  }

  /** The first position of a smallest start. */
  function FirstMin(s: seq<Range>): nat
    requires s != []
  {
    MinIndexUpTo(s, |s|)
  }

  lemma {:induction false} MinIndexUpToIsFirstMin(s: seq<Range>, j: nat)
    requires 0 < j <= |s|
    ensures forall k :: 0 <= k < j ==> s[MinIndexUpTo(s, j)].start <= s[k].start
    ensures forall k :: 0 <= k < MinIndexUpTo(s, j) ==> s[MinIndexUpTo(s, j)].start < s[k].start
  {
    if j > 1 {
      MinIndexUpToIsFirstMin(s, j - 1);
    }
  }

  /** `data.pop(i)`. */
  function Remove(s: seq<Range>, i: nat): (r: seq<Range>)
    requires i < |s|
    ensures |r| == |s| - 1
  {
    s[..i] + s[i + 1..]
  }

  /** What __sort_data returns: the first smallest range, then the sort of the rest. */
  function SelectionSort(s: seq<Range>): seq<Range>
    decreases |s|
  {
    if s == [] then [] else [s[FirstMin(s)]] + SelectionSort(Remove(s, FirstMin(s)))
  }

  predicate SortedByStart(s: seq<Range>) {
    forall i, j :: 0 <= i < j < |s| ==> s[i].start <= s[j].start
  }

  /** The ranges that start at `t`, in order. */
  function WithStart(s: seq<Range>, t: int): seq<Range> {
    if s == [] then []
    else (if s[0].start == t then [s[0]] else []) + WithStart(s[1..], t)
  }

  lemma {:induction false} WithStartAppend(a: seq<Range>, b: seq<Range>, t: int)
    ensures WithStart(a + b, t) == WithStart(a, t) + WithStart(b, t)
  {
    if a == [] {
      assert a + b == b;
    } else {
      var head := if a[0].start == t then [a[0]] else [];
      var ab := a + b;
      assert ab[0] == a[0] && ab[1..] == a[1..] + b;
      assert WithStart(ab, t) == head + WithStart(a[1..] + b, t);
      WithStartAppend(a[1..], b, t);
      assert WithStart(a, t) == head + WithStart(a[1..], t);
      assert head + (WithStart(a[1..], t) + WithStart(b, t)) == (head + WithStart(a[1..], t)) + WithStart(b, t);
    }
  }

  lemma RemovePieces(s: seq<Range>, i: nat)
    requires i < |s|
    ensures s == s[..i] + [s[i]] + s[i + 1..]
    ensures multiset(s) == multiset{s[i]} + multiset(Remove(s, i))
    ensures forall r :: r in Remove(s, i) ==> r in s
  {
    assert s == s[..i] + [s[i]] + s[i + 1..];
    forall r | r in Remove(s, i) ensures r in s {
      var k :| 0 <= k < |Remove(s, i)| && Remove(s, i)[k] == r;
      if k < i { assert r == s[k]; } else { assert r == s[k + 1]; }
    }
  }

  /** __sort_data returns a permutation of its input ordered by start. */
  lemma {:induction false} SelectionSortSorts(s: seq<Range>)
    ensures SortedByStart(SelectionSort(s))
    ensures multiset(SelectionSort(s)) == multiset(s)
    decreases |s|
  {
    if s != [] {
      var m := FirstMin(s);
      var rest := Remove(s, m);
      SelectionSortSorts(rest);
      MinIndexUpToIsFirstMin(s, |s|);
      RemovePieces(s, m);
      var tail := SelectionSort(rest);
      assert SelectionSort(s) == [s[m]] + tail;
      assert multiset([s[m]] + tail) == multiset{s[m]} + multiset(tail);
      forall r | r in tail ensures s[m].start <= r.start {
        assert r in multiset(tail);
        assert r in rest;
        var k :| 0 <= k < |s| && s[k] == r;
      }
      PrependSorted(s[m], tail);
    }
  }

  lemma PrependSorted(x: Range, tail: seq<Range>)
    requires SortedByStart(tail)
    requires forall r :: r in tail ==> x.start <= r.start
    ensures SortedByStart([x] + tail)
  {
    var out := [x] + tail;
    forall i, j | 0 <= i < j < |out| ensures out[i].start <= out[j].start {
      assert out[j] == tail[j - 1];
      if i > 0 {
        assert out[i] == tail[i - 1];
      }
    }
  }


  /** Taking out the first smallest range keeps the order of every start. */
  lemma WithStartRemove(s: seq<Range>, t: int)
    requires s != []
    ensures WithStart(s, t) == WithStart([s[FirstMin(s)]], t) + WithStart(Remove(s, FirstMin(s)), t)
  {
    var m := FirstMin(s);
    MinIndexUpToIsFirstMin(s, |s|);
    assert s == s[..m] + ([s[m]] + s[m + 1..]);
    WithStartAppend(s[..m], [s[m]] + s[m + 1..], t);
    WithStartAppend([s[m]], s[m + 1..], t);
    WithStartAppend(s[..m], s[m + 1..], t);
    if s[m].start == t {
      NoneBefore(s[..m], t);
    }
  }

  /** __sort_data is stable: ranges with equal starts keep their order. */
  lemma {:induction false} SelectionSortStable(s: seq<Range>, t: int)
    ensures WithStart(SelectionSort(s), t) == WithStart(s, t)
    decreases |s|
  {
    if s != [] {
      var m := FirstMin(s);
      var rest := Remove(s, m);
      SelectionSortStable(rest, t);
      assert SelectionSort(s) == [s[m]] + SelectionSort(rest);
      WithStartAppend([s[m]], SelectionSort(rest), t);
      WithStartRemove(s, t);
    }
  }

  /** No range of `s` starts at `t`, when all start later. */
  lemma {:induction false} NoneBefore(s: seq<Range>, t: int)
    requires forall k :: 0 <= k < |s| ==> t < s[k].start
    ensures WithStart(s, t) == []
  {
    if s != [] {
      NoneBefore(s[1..], t);
    }
  }

  /** A mutable Python list of ranges. */
  class RangeList {
    var items: seq<Range>

    constructor (items: seq<Range>)
      ensures this.items == items
    {
      this.items := items;
    }
  }

  // ---------------------------------------------------------------------------
  // The coefficient matrix

  /** A cell: `[sum, count]` while accumulating, a number once averaged. */
  datatype Entry = Acc(sum: real, count: int) | Value(v: real)

  /** The average of a cell: 0 without contributions. */
  function Average(e: Entry): (v: real)
    requires e.Acc?
    ensures e.count != 0 ==> v * (e.count as real) == e.sum
    ensures e.count == 0 ==> v == 0.0
  {
    if e.count == 0 then 0.0 else e.sum / (e.count as real)
  }

  predicate Accumulating(m: seq<seq<Entry>>) {
    forall i, j :: 0 <= i < |m| && 0 <= j < |m[i]| ==> m[i][j].Acc?
  }

  function ZeroRow(n: nat): (row: seq<Entry>)
    ensures |row| == n && forall j :: 0 <= j < n ==> row[j] == Acc(0.0, 0)
  {
    seq(n, _ => Acc(0.0, 0))
  }

  /** `count` rows of `n` empty cells. */
  function ZeroRows(count: nat, n: nat): (rows: seq<seq<Entry>>)
    ensures |rows| == count && forall i :: 0 <= i < count ==> rows[i] == ZeroRow(n)
  {
    seq(count, _ => ZeroRow(n))
  }

  /** The instant `t` lies in the range `r`. */
  predicate Covers(r: Range, t: int) {
    r.start <= t <= r.start + r.duration
  }

  /** The samples describe the grid points before `cur`; the ones lie in some range. */
  ghost predicate Progress(data: seq<Range>, start: int, end: int, gap: int, samples: seq<int>, cur: int)
    requires gap > 0
  {
    && cur == start + |samples| * gap
    && |samples| + GridPoints(cur, end, gap) == GridPoints(start, end, gap)
    && (forall i :: 0 <= i < |samples| ==> samples[i] == 0 || samples[i] == 1)
    && (forall i :: 0 <= i < |samples| && samples[i] == 1 ==> Covered(data, start + i * gap))
  }

  /** Appending `k` copies of `value` for the grid points from `cur` on, all
      at most `end`, keeps the samples in step; a one needs its point covered. */
  lemma ExtendProgress(data: seq<Range>, start: int, end: int, gap: int, samples: seq<int>, cur: int, k: nat, value: int)
    requires gap > 0 && Progress(data, start, end, gap, samples, cur)
    requires k > 0 ==> cur + (k - 1) * gap <= end
    requires value == 0 || value == 1
    requires value == 1 ==> forall j :: 0 <= j < k ==> Covered(data, cur + j * gap)
    ensures Progress(data, start, end, gap, samples + seq(k, _ => value), cur + k * gap)
  {
    var n := |samples|;
    var out := samples + seq(k, _ => value);
    GridPointsSkip(cur, k, end, gap);
    assert cur + k * gap == start + (n + k) * gap;
    forall i | n <= i < |out| && out[i] == 1 ensures Covered(data, start + i * gap) {
      assert start + i * gap == cur + (i - n) * gap;
    }
  }

  /** The final zeros loop stops at or beyond `end`. */
  lemma TailReachesEnd(cur: int, next: int, k: nat, count: int, end: int, gap: int)
    requires gap > 0 && count == (end - cur) / gap + 1 && next == cur + k * gap
    requires (end - cur) / gap * gap <= end - cur < (end - cur) / gap * gap + gap
    requires k <= count || k == 0
    requires k < count ==> end + gap <= next + gap
    ensures end <= next
  {
    if k >= count {
      if k == 0 {
        assert count <= 0;
      } else {
        MulMono(count, k, gap);
      }
    }
  }

  /** Once the grid is passed, the samples cover all of it. */
  lemma ProgressDone(data: seq<Range>, start: int, end: int, gap: int, samples: seq<int>, cur: int)
    requires gap > 0 && Progress(data, start, end, gap, samples, cur) && cur > end
    ensures |samples| == GridPoints(start, end, gap)
  {
  }

  /** The instant `t` lies in one of the ranges. */
  ghost predicate Covered(data: seq<Range>, t: int) {
    exists q :: 0 <= q < |data| && Covers(data[q], t)
  }

  /** The first `k` grid points from `cur`, none further than `m` steps, lie
      in the range `data[p]` when `cur` is inside it or at its start. */
  lemma OnesCovered(data: seq<Range>, p: nat, cur: int, k: nat, m: int, gap: int)
    requires gap > 0 && p < |data| && 0 < k <= m + 1
    requires data[p].start <= cur && m * gap <= data[p].start + data[p].duration - cur
    ensures forall j :: 0 <= j < k ==> Covered(data, cur + j * gap)
  {
    MulMono(k - 1, m, gap);
    PointsWithin(cur, k, gap, data[p].start, data[p].start + data[p].duration);
    assert forall j :: 0 <= j < k ==> Covers(data[p], cur + j * gap);
  }

  class CorrelationAnalyzer {
    const gap: int
    var alerts: seq<string>
    var matrix: seq<seq<Entry>>

    constructor (gap: int)
      ensures this.gap == gap && alerts == [] && matrix == []
    {
      this.gap := gap;
      alerts := [];
      matrix := [];
    }

    /** The inner loop of __sort_data: the first index of a smallest start. */
    method FindMinIndex(items: seq<Range>) returns (minIndex: nat)
      requires items != []
      ensures minIndex == FirstMin(items)
    {
      var minValue := items[0].start;
      minIndex := 0;
      var index := 1;
      while index < |items|
        invariant 1 <= index <= |items|
        invariant minIndex == MinIndexUpTo(items, index) && minValue == items[minIndex].start
      {
        if items[index].start < minValue {
          minValue := items[index].start;
          minIndex := index;
        }
        index := index + 1;
      }
    }

    /** __sort_data: returns the ranges sorted by start and leaves the
        caller's list empty. */
    method SortData(data: RangeList) returns (out: seq<Range>)
      modifies data
      ensures data.items == []
      ensures out == SelectionSort(old(data.items))
    {
      var maxLength := |data.items|;
      out := [];
      while |out| < maxLength
        invariant |out| + |data.items| == maxLength
        invariant out + SelectionSort(data.items) == SelectionSort(old(data.items))
        decreases maxLength - |out|
      {
        var items := data.items;
        var minIndex := FindMinIndex(items);
        var smallest := items[minIndex];
        ghost var rest := Remove(items, minIndex);
        assert SelectionSort(items) == [smallest] + SelectionSort(rest);
        assert (out + [smallest]) + SelectionSort(rest) == out + ([smallest] + SelectionSort(rest));
        out := out + [smallest];
        data.items := Remove(items, minIndex);
      }
    }

    /** `for _ in range(count): if not cur + gap < limit: break; append(value);
        cur += gap`, the loop shape all three sampling loops share. */
    method Run(samples: seq<int>, cur: int, count: int, limit: int, value: int)
      returns (out: seq<int>, next: int, k: nat)
      requires gap > 0
      ensures out == samples + seq(k, _ => value)
      ensures next == cur + k * gap
      ensures k <= count || k == 0
      ensures k > 0 ==> cur + gap < limit && next < limit
      ensures k < count ==> limit <= next + gap
    {
      out, next, k := samples, cur, 0;
      while k < count
        invariant k <= count || k == 0
        invariant out == samples + seq(k, _ => value)
        invariant next == cur + k * gap
        invariant k > 0 ==> cur + gap < limit && next < limit
      {
        if !(next + gap < limit) {
          return;
        }
        out := out + [value];
        next := next + gap;
        k := k + 1;
      }
    }

    /** One iteration of the loop over the sorted ranges: zeros up to the
        range's start, then ones up to its end, never reaching `end`. */
    method SampleRange(data: seq<Range>, p: nat, start: int, end: int, samples: seq<int>, cur: int)
      returns (samples': seq<int>, cur': int)
      requires gap > 0 && p < |data| && cur <= end
      requires Progress(data, start, end, gap, samples, cur)
      ensures Progress(data, start, end, gap, samples', cur')
    {
      samples', cur' := samples, cur;
      if cur' <= data[p].start {
        samples', cur' := SampleZeros(data, data[p].start, start, end, samples', cur');
      }
      if data[p].start + data[p].duration * gap >= cur' {
        samples', cur' := SampleOnes(data, p, start, end, samples', cur');
      }
    }

    /** The zeros before a range: enough grid points to reach its start. */
    method SampleZeros(data: seq<Range>, alertStart: int, start: int, end: int, samples: seq<int>, cur: int)
      returns (samples': seq<int>, cur': int)
      requires gap > 0 && cur <= alertStart
      requires Progress(data, start, end, gap, samples, cur)
      ensures Progress(data, start, end, gap, samples', cur')
      ensures alertStart <= cur' || end <= cur' + gap
    {
      var nullSamples := (alertStart - cur) / gap;
      if cur != alertStart && alertStart - nullSamples * gap != cur {
        nullSamples := nullSamples + 1;
      }
      CeilSteps(alertStart - cur, gap);
      var k: nat;
      samples', cur', k := Run(samples, cur, nullSamples, end, 0);
      ExtendProgress(data, start, end, gap, samples, cur, k, 0);
    }

    /** The ones inside a range: the grid points up to its last timestamp. */
    method SampleOnes(data: seq<Range>, p: nat, start: int, end: int, samples: seq<int>, cur: int)
      returns (samples': seq<int>, cur': int)
      requires gap > 0 && p < |data| && data[p].start + data[p].duration * gap >= cur
      requires data[p].start <= cur || end <= cur + gap
      requires Progress(data, start, end, gap, samples, cur)
      ensures Progress(data, start, end, gap, samples', cur')
    {
      var alertStart := data[p].start;
      var alertDuration := data[p].duration;
      var oneSamples := (alertStart + alertDuration - cur) / gap;
      FloorBounds(alertStart + alertDuration - cur, gap);
      oneSamples := oneSamples + 1;
      var k: nat;
      samples', cur', k := Run(samples, cur, oneSamples, end, 1);
      if k > 0 {
        OnesCovered(data, p, cur, k, oneSamples - 1, gap);
      }
      ExtendProgress(data, start, end, gap, samples, cur, k, 1);
    }

    /** __create_time_samples_per_time: one sample per grid point
        `start, start + gap, ...` up to `end`, 1 only inside some range. A
        zero gap raises ZeroDivisionError at the latest in the floor division
        of the tail. */
    method CreateTimeSamplesPerTime(data: seq<Range>, start: int, end: int) returns (r: Result<seq<int>, PyError>)
      requires gap >= 0
      ensures r.Err? <==> gap == 0
      ensures r.Err? ==> r.error == ZeroDivisionError
      ensures r.Ok? ==> forall i :: 0 <= i < |r.value| ==> r.value[i] == 0 || r.value[i] == 1
      ensures r.Ok? && start <= end ==> |r.value| == (end - start) / gap + 1
      ensures r.Ok? && start > end ==> r.value == []
      ensures r.Ok? ==> forall i :: 0 <= i < |r.value| && r.value[i] == 1 ==> Covered(data, start + i * gap)
      ensures r.Ok? && data == [] ==> forall i :: 0 <= i < |r.value| ==> r.value[i] == 0
    {
      if gap == 0 {
        return Err(ZeroDivisionError);
      }
      var samples := [];
      var cur := start;
      var p := 0;
      while p < |data|
        invariant 0 <= p <= |data|
        invariant Progress(data, start, end, gap, samples, cur)
      {
        if cur > end {
          break;
        }
        samples, cur := SampleRange(data, p, start, end, samples, cur);
        p := p + 1;
      }
      samples := SampleTail(data, start, end, samples, cur);
      if start <= end {
        GridPointsCount(start, end, gap);
      }
      r := Ok(samples);
    }

    /** The zeros after the last range, up to and including `end`. */
    method SampleTail(data: seq<Range>, start: int, end: int, samples: seq<int>, cur: int)
      returns (samples': seq<int>)
      requires gap > 0 && Progress(data, start, end, gap, samples, cur)
      ensures |samples'| == GridPoints(start, end, gap)
      ensures forall i :: 0 <= i < |samples'| ==> samples'[i] == 0 || samples'[i] == 1
      ensures forall i :: 0 <= i < |samples'| && samples'[i] == 1 ==> Covered(data, start + i * gap)
      ensures forall i :: |samples| <= i < |samples'| ==> samples'[i] == 0
      ensures samples'[..|samples|] == samples
    {
      var nullSamples := (end - cur) / gap;
      FloorBounds(end - cur, gap);
      nullSamples := nullSamples + 1;
      var cur': int;
      var k: nat;
      samples', cur', k := Run(samples, cur, nullSamples, end + gap, 0);
      TailReachesEnd(cur, cur', k, nullSamples, end, gap);
      ExtendProgress(data, start, end, gap, samples, cur, k, 0);
      ghost var zeros := k;
      if end == cur' {
        ExtendProgress(data, start, end, gap, samples', cur', 1, 0);
        samples' := samples' + [0];
        cur' := cur' + gap;
        zeros := zeros + 1;
      }
      assert samples' == samples + seq(zeros, _ => 0);
      ProgressDone(data, start, end, gap, samples', cur');
    }

    /** The initialisation in __create_coefficient_matrix: one row of `n`
        `[0, 0]` cells per alert, `n = len(alerts)`. */
    method InitCoefficientMatrix()
      modifies this
      ensures alerts == old(alerts)
      ensures matrix == old(matrix) + ZeroRows(|alerts|, |alerts|)
    {
      var i := 0;
      while i < |alerts|
        invariant 0 <= i <= |alerts| && alerts == old(alerts)
        invariant matrix == old(matrix) + ZeroRows(i, |alerts|)
      {
        assert ZeroRows(i + 1, |alerts|) == ZeroRows(i, |alerts|) + [ZeroRow(|alerts|)];
        matrix := matrix + [ZeroRow(|alerts|)];
        i := i + 1;
      }
    }

    /** __calc_matrix_results: every `[sum, count]` cell becomes its average. */
    method CalcMatrixResults()
      requires Accumulating(matrix)
      modifies this
      ensures alerts == old(alerts) && |matrix| == |old(matrix)|
      ensures forall i :: 0 <= i < |matrix| ==> |matrix[i]| == |old(matrix[i])|
      ensures forall i, j :: 0 <= i < |matrix| && 0 <= j < |matrix[i]| ==>
                matrix[i][j] == Value(Average(old(matrix[i][j])))
    {
      var index1 := 0;
      while index1 < |matrix|
        invariant 0 <= index1 <= |matrix| == |old(matrix)| && alerts == old(alerts)
        invariant forall i :: 0 <= i < |matrix| ==> |matrix[i]| == |old(matrix[i])|
        invariant forall i, j :: 0 <= i < index1 && 0 <= j < |matrix[i]| ==>
                    matrix[i][j] == Value(Average(old(matrix[i][j])))
        invariant forall i :: index1 <= i < |matrix| ==> matrix[i] == old(matrix[i])
      {
        var row := matrix[index1];
        var index2 := 0;
        while index2 < |row|
          invariant 0 <= index2 <= |row| == |old(matrix[index1])|
          invariant forall j :: 0 <= j < index2 ==> row[j] == Value(Average(old(matrix[index1][j])))
          invariant forall j :: index2 <= j < |row| ==> row[j] == old(matrix[index1][j])
        {
          var value2 := row[index2];
          if value2.count == 0 {
            row := row[index2 := Value(0.0)];
          } else {
            row := row[index2 := Value(value2.sum / (value2.count as real))];
          }
          index2 := index2 + 1;
        }
        matrix := matrix[index1 := row];
        index1 := index1 + 1;
      }
    }
  }

  /** The zero samples before a range reach its start: `null_samples` is the
      ceiling of the distance over `gap`. */
  lemma CeilSteps(d: int, gap: int)
    requires gap > 0 && d >= 0
    ensures var q := d / gap;
            var n := if d != 0 && d - q * gap != 0 then q + 1 else q;
            n * gap >= d
  {
    var q := d / gap;
    var r := d % gap;
    assert d == q * gap + r;
    assert d - q * gap == r;
    if r != 0 {
      assert (q + 1) * gap == q * gap + gap;
    }
  }
}
