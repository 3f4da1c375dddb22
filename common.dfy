/** Values shared by the whole model: optional values, results carrying the
    exception the Python code raises, and small facts about sequences. */
module Common {

  datatype Option<+T> = None | Some(value: T)

  /** The exceptions of the modelled code that are not caught internally. */
  datatype PyError =
    | TypeError
    | IndexError
    | KeyError(key: string)
    | ZeroDivisionError
    | ValueError(text: string)

  datatype Result<+T, +E> = Ok(value: T) | Err(error: E)

  /** A run of timestamps `(start, duration)` as produced by create_time_ranges. */
  datatype Range = Range(start: int, duration: int)

  /** The elements of `s` in order of first appearance, each once. */
  function FirstAppearances<T(==)>(s: seq<T>): (r: seq<T>)
    ensures forall i :: 0 <= i < |s| ==> s[i] in r
    ensures forall i :: 0 <= i < |r| ==> r[i] in s
    ensures forall i, j :: 0 <= i < j < |r| ==> r[i] != r[j]
    ensures |r| <= |s|
  {
    if s == [] then []
    else
      var prefix := FirstAppearances(s[..|s| - 1]);
      if s[|s| - 1] in s[..|s| - 1] then prefix else prefix + [s[|s| - 1]]
  }

  /** A sequence without repeats is its own order of first appearance. */
  lemma {:induction false} FirstAppearancesOfDistinct<T>(m: seq<T>)
    requires forall i, j :: 0 <= i < j < |m| ==> m[i] != m[j]
    ensures FirstAppearances(m) == m
  {
    if m != [] {
      var n := |m| - 1;
      FirstAppearancesOfDistinct(m[..n]);
      assert m[..n] + [m[n]] == m;
    }
  }

  /** One more element is appended exactly when it is new. */
  lemma FirstAppearancesSnoc<T>(u: seq<T>, x: T)
    ensures FirstAppearances(u + [x]) == if x in u then FirstAppearances(u) else FirstAppearances(u) + [x]
  {
    assert (u + [x])[..|u|] == u;
  }

  lemma FirstAppearancesMembers<T>(u: seq<T>, x: T)
    ensures x in FirstAppearances(u) <==> x in u
  {
    if x in u {
      var i :| 0 <= i < |u| && u[i] == x;
    }
    if x in FirstAppearances(u) {
      var i :| 0 <= i < |FirstAppearances(u)| && FirstAppearances(u)[i] == x;
    }
  }

  /** The decimal digits of a natural number, most significant first. */
  function Digits(n: nat): (s: string)
    ensures |s| >= 1
    ensures n < 10 <==> |s| == 1
    decreases n
  {
    if n < 10 then [DigitChar(n)] else Digits(n / 10) + [DigitChar(n % 10)]
  }

  function DigitChar(d: nat): char
    requires d < 10
  {
    (48 + d) as char
  }

  /** `str(t)` of an integer. */
  function Show(t: int): string {
    if t < 0 then "-" + Digits(-t) else Digits(t)
  }
}
