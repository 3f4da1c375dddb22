/** The splitting of a query window in utilities/query_management.py:
    QuerySplitter (fixed-width chunks, and the split at `now - threshold`
    days) and QueryExecutor's bisection of a query whose answer is too large.
    Timestamps are whole seconds; the clock is the parameter `now`. */
module QuerySplitting {
  import opened Common
  import opened QueryRequests

  /** A time window `[start, end]` of a query. */
  datatype Window = Window(start: int, end: int)

  // ---------------------------------------------------------------------------
  // split_by_separator

  /** The windows split_by_separator cuts `[start, end]` into: `separator`
      wide chunks while one still ends before `end`, then the rest. */
  function ChunkBounds(start: int, end: int, separator: int): (w: seq<Window>)
    requires separator > 0
    ensures |w| >= 1
    decreases end - start
  {
    if start + separator < end then [Window(start, start + separator)] + ChunkBounds(start + separator, end, separator)
    else [Window(start, end)]
  }

  /** The chunks tile `[start, end]` without gap or overlap; every chunk but
      the last is exactly `separator` wide, the last at most that; a window
      no wider than `separator` stays whole. */
  lemma {:induction false} ChunkBoundsTile(start: int, end: int, separator: int)
    requires separator > 0
    ensures var w := ChunkBounds(start, end, separator);
      && w[0].start == start && w[|w| - 1].end == end
      && (forall i :: 0 <= i < |w| - 1 ==> w[i].end == w[i + 1].start)
      && (forall i :: 0 <= i < |w| - 1 ==> w[i].end - w[i].start == separator)
      && (start < end ==> 0 < w[|w| - 1].end - w[|w| - 1].start <= separator)
      && (end - start <= separator ==> w == [Window(start, end)])
    decreases end - start
  {
    if start + separator < end {
      var w := ChunkBounds(start, end, separator);
      var rest := ChunkBounds(start + separator, end, separator);
      ChunkBoundsTile(start + separator, end, separator);
      assert w == [Window(start, start + separator)] + rest;
      forall i | 0 <= i < |w| - 1
        ensures w[i].end == w[i + 1].start && w[i].end - w[i].start == separator
      {
        if i > 0 {
          assert w[i] == rest[i - 1] && w[i + 1] == rest[i];
        }
      }
    }
  }

  /** __create_query_copy: a deep copy whose window (and params) is `[start, end]`. */
  method CreateQueryCopy(query: Query, start: int, end: int) returns (q: Query)
    ensures fresh(q)
    ensures q.globalStart == start && q.globalEnd == end
    ensures q.params == if query.params.None? then None else Some(query.params.value.(start := start, end := end))
    ensures q.baseUrl == query.baseUrl && q.kwargs == query.kwargs && q.target == query.target
    ensures q.cert == query.cert && q.timeout == query.timeout
  {
    q := query.DeepCopy();
    q.SetStart(start);
    q.SetEnd(end);
  }

  /** The chunk `q` is a copy of `query` over the window `w`. */
  ghost predicate IsChunk(q: Query, query: Query, w: Window)
    reads q, query
  {
    && q.globalStart == w.start && q.globalEnd == w.end
    && q.params == (if query.params.None? then None else Some(query.params.value.(start := w.start, end := w.end)))
    && q.baseUrl == query.baseUrl && q.kwargs == query.kwargs && q.target == query.target
    && q.cert == query.cert && q.timeout == query.timeout
  }

  /** split_by_separator: chunk `i` of the result covers the `i`-th window of
      ChunkBounds; keys are 0 .. n-1 in chronological order. */
  method SplitBySeparator(query: Query, separator: int) returns (chunks: map<int, Query>)
    requires separator > 0
    ensures var w := ChunkBounds(query.globalStart, query.globalEnd, separator);
      && (forall i :: i in chunks <==> 0 <= i < |w|)
      && (forall i :: 0 <= i < |w| ==> fresh(chunks[i]) && IsChunk(chunks[i], query, w[i]))
  {
    var globalEnd := query.globalEnd;
    ghost var all := ChunkBounds(query.globalStart, globalEnd, separator);
    ghost var done: seq<Window> := [];
    chunks := map[];
    var start := query.globalStart;
    var objectsCounter := 0;
    var end := start + separator;
    while end < globalEnd
      invariant end == start + separator
      invariant objectsCounter == |done|
      invariant done + ChunkBounds(start, globalEnd, separator) == all
      invariant forall i :: i in chunks <==> 0 <= i < objectsCounter
      invariant forall i :: 0 <= i < objectsCounter ==> fresh(chunks[i]) && IsChunk(chunks[i], query, done[i])
      decreases globalEnd - start
    {
      assert ChunkBounds(start, globalEnd, separator) == [Window(start, end)] + ChunkBounds(end, globalEnd, separator);
      var queryCopy := CreateQueryCopy(query, start, end);
      chunks := chunks[objectsCounter := queryCopy];
      done := done + [Window(start, end)];
      start := end;
      end := start + separator;
      objectsCounter := objectsCounter + 1;
    }
    assert ChunkBounds(start, globalEnd, separator) == [Window(start, globalEnd)];
    end := globalEnd;
    var queryCopy := CreateQueryCopy(query, start, end);
    chunks := chunks[objectsCounter := queryCopy];
    done := done + [Window(start, end)];
    assert done == all;
  }

  // ---------------------------------------------------------------------------
  // __split_request_by_half

  /** The midpoint `end - (end - start) / 2`, rounded to a whole second: it
      lies between the two bounds, and the older half is at most one second
      wider than the newer one. */
  function Midpoint(start: int, end: int): (mid: int)
    ensures start <= end ==> start <= mid <= end
    ensures end <= start ==> end <= mid <= start
    ensures 0 <= (mid - start) - (end - mid) <= 1
  {
    end - (end - start) / 2
  }

  /** __split_request_by_half: two deep copies, the first over `[mid, end]`
      and the second over `[start, mid]`; only the global bounds move, the
      copied params keep the original start and end. */
  method SplitRequestByHalf(query: Query) returns (first: Query, second: Query)
    ensures fresh(first) && fresh(second) && first != second
    ensures var mid := Midpoint(query.globalStart, query.globalEnd);
      && first.globalStart == mid && first.globalEnd == query.globalEnd
      && second.globalStart == query.globalStart && second.globalEnd == mid
    ensures first.params == query.params && second.params == query.params
    ensures first.baseUrl == query.baseUrl && first.kwargs == query.kwargs && first.target == query.target
    ensures second.baseUrl == query.baseUrl && second.kwargs == query.kwargs && second.target == query.target
    ensures first.cert == query.cert && first.timeout == query.timeout
    ensures second.cert == query.cert && second.timeout == query.timeout
  {
    var mid := query.globalEnd - (query.globalEnd - query.globalStart) / 2;
    first := query.DeepCopy();
    second := query.DeepCopy();
    first.globalStart := mid;
    second.globalEnd := mid;
  }

  // ---------------------------------------------------------------------------
  // split_by_treshold

  const SecondsPerDay: int := 86400

  /** How a window relates to the split instant. */
  datatype ThresholdCase =
    | Straddles   // [query over [split, end], query over [start, split]]
    | AllOld      // [None, query]: the whole window is older than the split
    | AllRecent   // [query, None]: the whole window is newer than the split
    | Unexpected  // []: the split falls on a bound

  /** Python's `a < b` on strings: lexicographic, a proper prefix is smaller. */
  predicate StrLess(a: string, b: string)
    decreases |a|
  {
    if a == [] then b != []
    else if b == [] then false
    else if a[0] != b[0] then a[0] < b[0]
    else StrLess(a[1..], b[1..])
  }

  /** The branches of split_by_treshold as written: the straddling test is
      numeric, the two fallbacks compare the timestamp STRINGS. */
  function ThresholdCaseAsWritten(start: int, end: int, split: int): ThresholdCase {
    if end > split > start then Straddles
    else if StrLess(Show(end), Show(split)) then AllOld
    else if StrLess(Show(split), Show(start)) then AllRecent
    else Unexpected
  }

  /** The branches with the numeric comparison the code evidently intends. */
  function ThresholdCaseOf(start: int, end: int, split: int): (c: ThresholdCase)
    ensures c == Straddles <==> start < split < end
    ensures start <= end ==> (c == AllOld <==> end < split)
    ensures start <= end ==> (c == AllRecent <==> split < start)
    ensures start <= end ==> (c == Unexpected <==> split == start || split == end)
  {
    if end > split > start then Straddles
    else if split > end then AllOld
    else if start > split then AllRecent
    else Unexpected
  }

  /** The string comparison misfiles a window once the split instant has one
      more digit than the window's bounds: a window entirely older than the
      split is returned as the recent query. */
  lemma ThresholdCaseAsWrittenMisfiles()
    ensures ThresholdCaseOf(900000000, 999999999, 1000000000) == AllOld
    ensures ThresholdCaseAsWritten(900000000, 999999999, 1000000000) == AllRecent
  {
    DigitsOfNines();
    DigitsOfBillion();
    DigitsOfNineHundredMillion();
    assert !StrLess("999999999", "1000000000");
    assert StrLess("1000000000", "900000000");
  }

  lemma DigitsOfNines()
    ensures Show(999999999) == "999999999"
  {
    assert Digits(9) == "9";
    assert Digits(99) == "99";
    assert Digits(999) == "999";
    assert Digits(9999) == "9999";
    assert Digits(99999) == "99999";
    assert Digits(999999) == "999999";
    assert Digits(9999999) == "9999999";
    assert Digits(99999999) == "99999999";
  }

  lemma DigitsOfBillion()
    ensures Show(1000000000) == "1000000000"
  {
    assert Digits(1) == "1";
    assert Digits(10) == "10";
    assert Digits(100) == "100";
    assert Digits(1000) == "1000";
    assert Digits(10000) == "10000";
    assert Digits(100000) == "100000";
    assert Digits(1000000) == "1000000";
    assert Digits(10000000) == "10000000";
    assert Digits(100000000) == "100000000";
  }

  lemma DigitsOfNineHundredMillion()
    ensures Show(900000000) == "900000000"
  {
    assert Digits(9) == "9";
    assert Digits(90) == "90";
    assert Digits(900) == "900";
    assert Digits(9000) == "9000";
    assert Digits(90000) == "90000";
    assert Digits(900000) == "900000";
    assert Digits(9000000) == "9000000";
    assert Digits(90000000) == "90000000";
  }

  lemma {:induction false} StrLessIrreflexive(a: string)
    ensures !StrLess(a, a)
    decreases |a|
  {
    if a != [] {
      StrLessIrreflexive(a[1..]);
    }
  }

  lemma {:induction false} StrLessAsymmetric(a: string, b: string)
    requires StrLess(a, b)
    ensures !StrLess(b, a)
    decreases |a|
  {
    if a != [] && b != [] && a[0] == b[0] {
      StrLessAsymmetric(a[1..], b[1..]);
    }
  }

  /** Comparing two equally long strings that end in one more character. */
  lemma {:induction false} StrLessSnoc(a: string, b: string, c: char, d: char)
    requires |a| == |b|
    ensures StrLess(a + [c], b + [d]) <==> StrLess(a, b) || (a == b && c < d)
    decreases |a|
  {
    if a == [] {
      assert a + [c] == [c] && b + [d] == [d];
    } else {
      assert (a + [c])[1..] == a[1..] + [c] && (b + [d])[1..] == b[1..] + [d];
      StrLessSnoc(a[1..], b[1..], c, d);
      if a[0] == b[0] && a[1..] == b[1..] {
        assert a == b;
      }
    }
  }

  /** Numbers with the same count of digits compare as their strings do. */
  lemma {:induction false} StrLessDigits(a: nat, b: nat)
    requires |Digits(a)| == |Digits(b)|
    ensures StrLess(Digits(a), Digits(b)) <==> a < b
    decreases a
  {
    if a < 10 && b < 10 {
    } else if a < 10 || b < 10 {
      assert false;
    } else {
      StrLessSnoc(Digits(a / 10), Digits(b / 10), DigitChar(a % 10), DigitChar(b % 10));
      StrLessDigits(a / 10, b / 10);
      if a / 10 == b / 10 {
        StrLessIrreflexive(Digits(a / 10));
      } else if b / 10 < a / 10 {
        StrLessDigits(b / 10, a / 10);
        StrLessIrreflexive(Digits(b / 10));
        StrLessAsymmetric(Digits(b / 10), Digits(a / 10));
      }
    }
  }

  /** While all three instants have the same number of digits (every date
      from 2001-09-09 to 2286-11-20), the code as written agrees with the
      numeric comparison. */
  lemma ThresholdCaseAgrees(start: nat, end: nat, split: nat)
    requires |Digits(start)| == |Digits(end)| == |Digits(split)|
    ensures ThresholdCaseAsWritten(start, end, split) == ThresholdCaseOf(start, end, split)
  {
    StrLessDigits(end, split);
    StrLessDigits(split, start);
  }

  /** split_by_treshold as written: the straddling test is numeric, the two
      fallbacks compare decimal strings (see ThresholdCaseAsWritten; while the
      three instants have equally many digits, ThresholdCaseAgrees makes this
      the numeric reading). A falsy threshold (None or 0) returns the query
      itself as the recent part. */
  method SplitByThreshold(query: Query, threshold: Option<int>, now: int) returns (queries: seq<Option<Query>>)
    ensures threshold.None? || threshold == Some(0) ==> queries == [Some(query), None]
    ensures threshold.Some? && threshold.value != 0 ==>
      var split := now - threshold.value * SecondsPerDay;
      match ThresholdCaseAsWritten(query.globalStart, query.globalEnd, split)
      case Straddles =>
        && |queries| == 2 && queries[0].Some? && queries[1].Some?
        && fresh(queries[0].value) && fresh(queries[1].value)
        && queries[0].value.globalStart == split && queries[0].value.globalEnd == query.globalEnd
        && queries[0].value.kwargs == query.kwargs
        && queries[1].value.globalStart == query.globalStart && queries[1].value.globalEnd == split
        && queries[1].value.kwargs == HourlyKwargs(query.kwargs)
        && queries[0].value.params == Some(RequestParams(split, query.globalEnd, query.kwargs.params))
        && queries[1].value.params == Some(RequestParams(query.globalStart, split, HourlyKwargs(query.kwargs).params))
        && queries[0].value.baseUrl == query.baseUrl && queries[1].value.baseUrl == query.baseUrl
        && queries[0].value.cert.None? && queries[0].value.timeout.None?
        && queries[1].value.cert.None? && queries[1].value.timeout.None?
        && queries[0].value.target == Some(RequestTarget(query.kwargs))
        && queries[1].value.target == Some(RequestTarget(HourlyKwargs(query.kwargs)))
      case AllOld => queries == [None, Some(query)]
      case AllRecent => queries == [Some(query), None]
      case Unexpected => queries == []
  {
    if threshold.None? || threshold.value == 0 {
      return [Some(query), None];
    }
    var baseUrl := query.baseUrl;
    var start := query.globalStart;
    var end := query.globalEnd;
    var kwargs := query.kwargs;
    var split := now - threshold.value * SecondsPerDay;
    match ThresholdCaseAsWritten(start, end, split) {
      case Straddles =>
        var recent := new Query(baseUrl, Some(split), Some(end), kwargs, now, start);
        var older := new Query(baseUrl, Some(start), Some(split), HourlyKwargs(kwargs), now, start);
        queries := [Some(recent), Some(older)];
      case AllOld =>
        queries := [None, Some(query)];
      case AllRecent =>
        queries := [Some(query), None];
      case Unexpected =>
        queries := [];
    }
  }
}
