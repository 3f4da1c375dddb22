/** The timestamp codec of utilities/data_filter.py: stripping the state from
    `[timestamp, state]` samples, and run-length compressing evenly spaced
    timestamps into `(start, duration)` ranges. */
module DataFilter {
  import opened Common

  /** A Python argument that should be a list: either a list or any other object. */
  datatype PyList<+T> = List(items: seq<T>) | NotAList

  /** The first component of a sample: a float timestamp (whole seconds) or
      something else (a string, an int, ...). */
  datatype Cell = FloatCell(seconds: int) | OtherCell

  // ---------------------------------------------------------------------------
  // remove_state_from_timestamp_value

  /** A sample the loop accepts: a list whose first component is a float. */
  predicate IsSample(v: PyList<Cell>) {
    v.List? && |v.items| > 0 && v.items[0].FloatCell?
  }

  /** The exception the loop raises on a sample it does not accept. */
  function SampleError(v: PyList<Cell>): PyError
    requires !IsSample(v)
  {
    if v.NotAList? then TypeError
    else if |v.items| == 0 then IndexError  // value[0] on an empty list
    else TypeError
  }

  method RemoveStateFromTimestampValue(data: PyList<PyList<Cell>>) returns (r: Result<seq<int>, PyError>)
    ensures data.NotAList? ==> r == Err(TypeError)
    ensures r.Ok? <==> data.List? && forall i :: 0 <= i < |data.items| ==> IsSample(data.items[i])
    ensures r.Ok? ==> |r.value| == |data.items| &&
                      forall i :: 0 <= i < |r.value| ==> r.value[i] == data.items[i].items[0].seconds
    ensures data.List? && r.Err? ==>
              exists k :: 0 <= k < |data.items| && !IsSample(data.items[k]) &&
                          (forall i :: 0 <= i < k ==> IsSample(data.items[i])) &&
                          r.error == SampleError(data.items[k])
  {
    if data.NotAList? {
      return Err(TypeError);
    }
    var out: seq<int> := [];
    var i := 0;
    while i < |data.items|
      invariant 0 <= i <= |data.items|
      invariant forall j :: 0 <= j < i ==> IsSample(data.items[j])
      invariant |out| == i
      invariant forall j :: 0 <= j < i ==> out[j] == data.items[j].items[0].seconds
    {
      var value := data.items[i];
      if !IsSample(value) {
        return Err(SampleError(value));
      }
      out := out + [value.items[0].seconds];
      i := i + 1;
    }
    return Ok(out);
  }

  // ---------------------------------------------------------------------------
  // create_time_ranges

  /** The ranges of `xs`: a new range starts at every value that is not its
      predecessor plus `step`. */
  function Compress(xs: seq<int>, step: int): (r: seq<Range>)
    ensures xs == [] <==> r == []
    ensures |r| <= |xs|
  {
    if xs == [] then [] else CompressFrom(xs[0], xs[0], xs[1..], step)
  }

  /** The ranges of `rest`, given that the current run began at `start` and
      its last value so far is `prev`. */
  function CompressFrom(start: int, prev: int, rest: seq<int>, step: int): (r: seq<Range>)
    ensures 1 <= |r| <= |rest| + 1
    ensures r[0].start == start
    decreases |rest|
  {
    if rest == [] then [Range(start, prev - start)]
    else if rest[0] == prev + step then CompressFrom(start, rest[0], rest[1..], step)
    else [Range(start, prev - start)] + CompressFrom(rest[0], rest[0], rest[1..], step)
  }

  method CreateTimeRanges(data: PyList<int>, step: int) returns (r: Result<seq<Range>, PyError>)
    ensures data.NotAList? ==> r == Err(TypeError)
    ensures data.List? ==> r == Ok(Compress(data.items, step))
    ensures data == List([]) ==> r == Ok([])
    ensures data.List? && |data.items| == 1 ==> r == Ok([Range(data.items[0], 0)])
  {
    if data.NotAList? {
      return Err(TypeError);
    }
    var xs := data.items;
    var out: seq<Range> := [];
    var start: Option<int> := None;
    var prev := 0;
    if |xs| == 0 {
      return Ok(out);
    }
    var i := 0;
    while i < |xs| - 1
      invariant 0 <= i <= |xs| - 1
      invariant start.None? <==> i == 0
      invariant i == 0 ==> out == []
      invariant i > 0 ==> out + CompressFrom(start.value, prev, xs[i..], step) == Compress(xs, step)
    {
      var value := xs[i];
      assert xs[i..][1..] == xs[i + 1..];
      if start.None? {
        start, prev := Some(value), value;
      } else if value != prev + step {
        out := out + [Range(start.value, prev - start.value)];
        start, prev := Some(value), value;
      } else {
        prev := value;
      }
      i := i + 1;
    }
    var value := xs[|xs| - 1];
    assert xs[i..] == [value];
    ghost var done := out;
    if start.None? {
      out := out + [Range(value, 0)];
      assert out == Compress(xs, step);
    } else if value != prev + step {
      assert CompressFrom(start.value, prev, [value], step)
          == [Range(start.value, prev - start.value)] + CompressFrom(value, value, [], step);
      out := out + [Range(start.value, prev - start.value), Range(value, 0)];
      assert out == done + CompressFrom(start.value, prev, [value], step);
    } else {
      assert CompressFrom(start.value, prev, [value], step) == CompressFrom(start.value, value, [], step);
      out := out + [Range(start.value, value - start.value)];
      assert out == done + CompressFrom(start.value, prev, [value], step);
    }
    return Ok(out);
  }

  // ---------------------------------------------------------------------------
  // Expansion: the inverse of Compress

  /** `d` is a non-negative multiple of `step`. */
  predicate OnGrid(d: int, step: int)
    requires step > 0
    decreases d
  {
    if d <= 0 then d == 0 else OnGrid(d - step, step)
  }

  /** The timestamps `s, s + step, ..., s + d` of one range. */
  function Span(s: int, d: int, step: int): seq<int>
    requires step > 0
    decreases d
  {
    if d <= 0 then [s] else [s] + Span(s + step, d - step, step)
  }

  /** All timestamps described by a sequence of ranges, in order. */
  function Expand(rs: seq<Range>, step: int): seq<int>
    requires step > 0
  {
    if rs == [] then [] else Span(rs[0].start, rs[0].duration, step) + Expand(rs[1..], step)
  }

  /** No two neighbouring ranges could have been one run. */
  predicate Maximal(rs: seq<Range>, step: int) {
    forall i :: 0 <= i < |rs| - 1 ==> rs[i + 1].start != rs[i].start + rs[i].duration + step
  }

  lemma {:induction false} SpanExtend(s: int, d: int, step: int)
    requires step > 0 && OnGrid(d, step)
    ensures OnGrid(d + step, step)
    ensures Span(s, d + step, step) == Span(s, d, step) + [s + d + step]
    decreases d
  {
    if d <= 0 {
      assert d == 0;
      assert OnGrid(d + step - step, step);
      assert Span(s + step, 0, step) == [s + step];
    } else {
      SpanExtend(s + step, d - step, step);
      assert d - step + step == d;
    }
  }

  lemma ExpandCons(r: Range, tail: seq<Range>, step: int)
    requires step > 0
    ensures Expand([r] + tail, step) == Span(r.start, r.duration, step) + Expand(tail, step)
  {
    assert ([r] + tail)[1..] == tail;
  }

  lemma {:induction false} CompressFromExpand(start: int, prev: int, rest: seq<int>, step: int)
    requires step > 0 && OnGrid(prev - start, step)
    ensures Expand(CompressFrom(start, prev, rest, step), step) == Span(start, prev - start, step) + rest
    decreases |rest|, 1
  {
    if rest == [] {
      ExpandCons(Range(start, prev - start), [], step);
    } else if rest[0] == prev + step {
      ExtendExpand(start, prev, rest, step);
    } else {
      BreakExpand(start, prev, rest, step);
    }
  }

  /** The next timestamp continues the current run. */
  lemma {:induction false} ExtendExpand(start: int, prev: int, rest: seq<int>, step: int)
    requires step > 0 && OnGrid(prev - start, step) && rest != [] && rest[0] == prev + step
    ensures Expand(CompressFrom(start, prev, rest, step), step) == Span(start, prev - start, step) + rest
    decreases |rest|, 0
  {
    SpanExtend(start, prev - start, step);
    assert rest[0] - start == prev - start + step;
    CompressFromExpand(start, rest[0], rest[1..], step);
    assert [rest[0]] + rest[1..] == rest;
  }

  /** The next timestamp starts a new run. */
  lemma {:induction false} BreakExpand(start: int, prev: int, rest: seq<int>, step: int)
    requires step > 0 && OnGrid(prev - start, step) && rest != [] && rest[0] != prev + step
    ensures Expand(CompressFrom(start, prev, rest, step), step) == Span(start, prev - start, step) + rest
    decreases |rest|, 0
  {
    var tail := CompressFrom(rest[0], rest[0], rest[1..], step);
    assert CompressFrom(start, prev, rest, step) == [Range(start, prev - start)] + tail;
    assert OnGrid(0, step);
    CompressFromExpand(rest[0], rest[0], rest[1..], step);
    assert Expand(tail, step) == rest by {
      assert Span(rest[0], 0, step) == [rest[0]];
      assert [rest[0]] + rest[1..] == rest;
    }
    ExpandCons(Range(start, prev - start), tail, step);
  }

  lemma {:induction false} CompressFromGrid(start: int, prev: int, rest: seq<int>, step: int)
    requires step > 0 && OnGrid(prev - start, step)
    ensures forall r :: r in CompressFrom(start, prev, rest, step) ==> OnGrid(r.duration, step)
    decreases |rest|
  {
    if rest == [] {
    } else if rest[0] == prev + step {
      SpanExtend(start, prev - start, step);
      assert rest[0] - start == prev - start + step;
      CompressFromGrid(start, rest[0], rest[1..], step);
    } else {
      var tail := CompressFrom(rest[0], rest[0], rest[1..], step);
      assert CompressFrom(start, prev, rest, step) == [Range(start, prev - start)] + tail;
      assert OnGrid(0, step);
      CompressFromGrid(rest[0], rest[0], rest[1..], step);
    }
  }

  /** Expanding the compressed timestamps gives back exactly the input, and
      every duration is a non-negative multiple of the step. */
  lemma {:induction false} CompressRoundTrip(xs: seq<int>, step: int)
    requires step > 0
    ensures Expand(Compress(xs, step), step) == xs
    ensures forall r :: r in Compress(xs, step) ==> OnGrid(r.duration, step)
  {
    if xs != [] {
      assert OnGrid(0, step);
      CompressFromExpand(xs[0], xs[0], xs[1..], step);
      CompressFromGrid(xs[0], xs[0], xs[1..], step);
      assert Span(xs[0], 0, step) == [xs[0]];
      assert [xs[0]] + xs[1..] == xs;
    }
  }

  lemma {:induction false} CompressFromMaximal(start: int, prev: int, rest: seq<int>, step: int)
    ensures Maximal(CompressFrom(start, prev, rest, step), step)
    decreases |rest|
  {
    if rest == [] {
    } else if rest[0] == prev + step {
      CompressFromMaximal(start, rest[0], rest[1..], step);
    } else {
      var tail := CompressFrom(rest[0], rest[0], rest[1..], step);
      CompressFromMaximal(rest[0], rest[0], rest[1..], step);
      var rs := [Range(start, prev - start)] + tail;
      forall i | 0 <= i < |rs| - 1
        ensures rs[i + 1].start != rs[i].start + rs[i].duration + step
      {
        if i > 0 {
          assert rs[i] == tail[i - 1] && rs[i + 1] == tail[i];
        }
      }
    }
  }

  /** Runs are maximal: a range never starts one step after its predecessor ends. */
  lemma CompressMaximal(xs: seq<int>, step: int)
    ensures Maximal(Compress(xs, step), step)
  {
    if xs != [] {
      CompressFromMaximal(xs[0], xs[0], xs[1..], step);
    }
  }
}
