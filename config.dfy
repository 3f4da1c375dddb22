/** __parse_config of utilities/config.py: the `[AlertMagnet]` section, read
    as a dict of strings, is rewritten in place field by field, in a fixed
    order: empty values get their defaults, numbers are converted, the log
    switches are decoded, and the first problem raises. Reading the file is
    left out. */
module Config {
  import opened Common

  /** A value of the configuration dict: ConfigParser delivers strings, the
      parser replaces them by ints, floats, None or booleans. */
  datatype ConfValue = Text(s: string) | Int(i: int) | Float(f: real) | NoValue | Flag(b: bool)

  datatype ConfigError =
    | RequiredConfigKeyNotFound              // an empty api_endpoint
    | InvalidConfigValue(value: string)      // a log_level outside the five names
    | MissingParameter(key: string)          // the KeyError re-raised with its message
    | NotANumber(text: string)               // the ValueError of int() or float()

  /** How one field is treated. */
  datatype Rule =
    | Required                      // must not be empty; kept as is
    | IntOr(intDefault: ConfValue)  // empty: the default; otherwise int()
    | FloatOr(floatDefault: real)   // empty: the default; otherwise float()
    | TextOr(textDefault: string)   // empty: the default; otherwise kept
    | Switch                        // True iff the lowercased value is "true"
    | Level                         // one of the five logging levels

  /** The fields, in the order the parser visits them. */
  const Rules: seq<(string, Rule)> := [
    ("api_endpoint", Required),
    ("timeout", IntOr(Int(30))),
    ("threshold", IntOr(NoValue)),
    ("delay", FloatOr(0.25)),
    ("cores", IntOr(Int(12))),
    ("max_long_term_storage", TextOr("1y")),
    ("prometheus_port", IntOr(Int(8123))),
    ("naptime_seconds", IntOr(Int(86400))),
    ("log_to_file", Switch),
    ("log_level", Level)
  ]

  /** The numeric values of logging.DEBUG ... logging.CRITICAL. */
  const LogLevels: map<string, int> :=
    map["DEBUG" := 10, "INFO" := 20, "WARNING" := 30, "ERROR" := 40, "CRITICAL" := 50]

  // ---------------------------------------------------------------------------
  // int(), float() and str.lower() on the values

  predicate IsDigit(c: char) {
    '0' <= c <= '9'
  }

  predicate AllDigits(s: string) {
    forall i :: 0 <= i < |s| ==> IsDigit(s[i])
  }

  /** The number a run of decimal digits denotes. */
  function DigitsValue(s: string): nat
    requires AllDigits(s)
  {
    if s == [] then 0 else 10 * DigitsValue(s[..|s| - 1]) + (s[|s| - 1] as int - '0' as int)
  }

  /** `int(s)`: an optional sign followed by at least one decimal digit. */
  function ParseInt(s: string): (r: Option<int>)
    ensures r.Some? ==> s != []
  {
    if s != [] && (s[0] == '-' || s[0] == '+') then
      var body := s[1..];
      if body != [] && AllDigits(body) then
        Some(if s[0] == '-' then -(DigitsValue(body) as int) else DigitsValue(body))
      else None
    else if s != [] && AllDigits(s) then Some(DigitsValue(s))
    else None
  }

  /** `float(s)`: an optional sign, digits, and an optional fractional part
      after a point, with at least one digit in all. */
  function ParseFloat(s: string): (r: Option<real>)
    ensures r.Some? ==> s != []
  {
    if s != [] && (s[0] == '-' || s[0] == '+') then
      match Unsigned(s[1..])
      case Some(v) => Some(if s[0] == '-' then -v else v)
      case None => None
    else Unsigned(s)
  }

  /** The unsigned part of a float literal. */
  function Unsigned(s: string): Option<real> {
    var p := PointIndex(s);
    var whole := s[..p];
    var frac := if p < |s| then s[p + 1..] else [];
    if AllDigits(whole) && AllDigits(frac) && |whole| + |frac| > 0 then
      Some(DigitsValue(whole) as real + DigitsValue(frac) as real / Power10(|frac|) as real)
    else None
  }

  /** The index of the first '.', or `|s|` when there is none. */
  function PointIndex(s: string): (p: nat)
    ensures p <= |s|
    ensures p < |s| ==> s[p] == '.'
    ensures forall i :: 0 <= i < p ==> s[i] != '.'
  {
    if s == [] then 0
    else if s[0] == '.' then 0
    else 1 + PointIndex(s[1..])
  }

  function Power10(n: nat): (p: nat)
    ensures p >= 1
  {
    if n == 0 then 1 else 10 * Power10(n - 1)
  }

  /** `str.lower()` on ASCII letters; other characters are kept. */
  function Lower(s: string): (r: string)
    ensures |r| == |s|
  {
    seq(|s|, i requires 0 <= i < |s| => if 'A' <= s[i] <= 'Z' then (s[i] as int + 32) as char else s[i])
  }

  /** The digits of a number read back give the number. */
  lemma {:induction false} DigitsRoundTrip(n: nat)
    ensures AllDigits(Digits(n)) && DigitsValue(Digits(n)) == n
    decreases n
  {
    if n >= 10 {
      DigitsRoundTrip(n / 10);
      var d := Digits(n);
      assert d[..|d| - 1] == Digits(n / 10);
    }
  }

  /** `int(str(n)) == n`. */
  lemma ParseIntShow(n: int)
    ensures ParseInt(Show(n)) == Some(n)
  {
    if n < 0 {
      var d := Digits(-n);
      DigitsRoundTrip(-n);
      assert Show(n) == "-" + d;
      assert ("-" + d)[0] == '-' && ("-" + d)[1..] == d;
    } else {
      ParseIntDigits(n);
    }
  }

  lemma ParseIntDigits(m: nat)
    ensures ParseInt(Digits(m)) == Some(m)
  {
    var d := Digits(m);
    DigitsRoundTrip(m);
    assert IsDigit(d[0]);
  }

  /** `float(str(n)) == n` for a natural number `n` ... */
  lemma ParseFloatShow(n: nat)
    ensures ParseFloat(Show(n)) == Some(n as real)
  {
    var d := Digits(n);
    assert Show(n) == d;
    UnsignedDigits(n);
    DigitsRoundTrip(n);
    assert ParseFloat(d) == Unsigned(d) by {
      assert IsDigit(d[0]);
    }
  }

  /** ... and a minus sign in front of digits negates the value. */
  lemma ParseFloatNegate(d: string)
    requires d != [] && IsDigit(d[0]) && ParseFloat(d).Some?
    ensures ParseFloat("-" + d) == Some(-ParseFloat(d).value)
  {
    assert ("-" + d)[1..] == d;
  }

  lemma UnsignedDigits(m: nat)
    ensures Unsigned(Digits(m)) == Some(m as real)
  {
    var d := Digits(m);
    DigitsRoundTrip(m);
    PointIndexAbsent(d);
    assert d[..|d|] == d;
  }

  lemma {:induction false} PointIndexAbsent(s: string)
    requires forall i :: 0 <= i < |s| ==> s[i] != '.'
    ensures PointIndex(s) == |s|
  {
    if s != [] {
      PointIndexAbsent(s[1..]);
    }
  }

  /** A value without any digit is no int. */
  lemma ParseIntNeedsDigit(s: string)
    requires forall i :: 0 <= i < |s| ==> !IsDigit(s[i])
    ensures ParseInt(s) == None
  {
    if s != [] && (s[0] == '-' || s[0] == '+') && s[1..] != [] {
      assert !IsDigit(s[1..][0]);
    }
  }

  /** The value counts as true exactly when it spells "true" in any mix of cases. */
  lemma LowerIsTrue(s: string)
    ensures Lower(s) == "true" <==>
              |s| == 4 && (s[0] == 't' || s[0] == 'T') && (s[1] == 'r' || s[1] == 'R')
                       && (s[2] == 'u' || s[2] == 'U') && (s[3] == 'e' || s[3] == 'E')
  {
    if |s| == 4 && (s[0] == 't' || s[0] == 'T') && (s[1] == 'r' || s[1] == 'R')
                && (s[2] == 'u' || s[2] == 'U') && (s[3] == 'e' || s[3] == 'E') {
      assert Lower(s) == "true";
    }
    if Lower(s) == "true" {
      assert Lower(s)[0] == 't' && Lower(s)[1] == 'r' && Lower(s)[2] == 'u' && Lower(s)[3] == 'e';
    }
  }

  // ---------------------------------------------------------------------------
  // The specification of the parser

  /** The value a field holds once its step has succeeded. */
  predicate Fits(v: ConfValue, rule: Rule) {
    match rule
    case Required => v.Text? && v.s != ""
    case IntOr(default) => v.Int? || v == default
    case FloatOr(_) => v.Float?
    case TextOr(_) => v.Text?
    case Switch => v.Flag?
    case Level => v.Int? && v.i in LogLevels.Values
  }

  /** The new value of a field read as `s`, or the error its block raises. */
  function Convert(s: string, rule: Rule): (r: Result<ConfValue, ConfigError>)
    ensures r.Ok? ==> Fits(r.value, rule)
    ensures r.Err? <==> match rule
      case Required => s == ""
      case IntOr(_) => s != "" && ParseInt(s).None?
      case FloatOr(_) => s != "" && ParseFloat(s).None?
      case Level => s !in LogLevels
      case _ => false
    ensures s == "" && rule.IntOr? ==> r == Ok(rule.intDefault)
    ensures s == "" && rule.FloatOr? ==> r == Ok(Float(rule.floatDefault))
    ensures s == "" && rule.TextOr? ==> r == Ok(Text(rule.textDefault))
  {
    match rule
    case Required =>
      if s == "" then Err(RequiredConfigKeyNotFound) else Ok(Text(s))
    case IntOr(default) =>
      if s == "" then Ok(default)
      else (match ParseInt(s)
            case Some(v) => Ok(Int(v))
            case None => Err(NotANumber(s)))
    case FloatOr(default) =>
      if s == "" then Ok(Float(default))
      else (match ParseFloat(s)
            case Some(v) => Ok(Float(v))
            case None => Err(NotANumber(s)))
    case TextOr(default) =>
      if s == "" then Ok(Text(default)) else Ok(Text(s))
    case Switch =>
      Ok(Flag(Lower(s) == "true"))
    case Level =>
      if s in LogLevels then Ok(Int(LogLevels[s])) else Err(InvalidConfigValue(s))
  }

  /** What the parser does to one field: the rewritten dict or the error. A
      missing field is the KeyError of the lookup. */
  function Step(conf: map<string, ConfValue>, key: string, rule: Rule): (r: Result<map<string, ConfValue>, ConfigError>)
    requires key in conf ==> conf[key].Text?
    ensures r.Ok? ==> r.value.Keys == conf.Keys && key in conf && Fits(r.value[key], rule)
    ensures r.Ok? ==> forall k :: k in conf && k != key ==> r.value[k] == conf[k]
    ensures key !in conf ==> r == Err(MissingParameter(key))
  {
    if key !in conf then Err(MissingParameter(key))
    else
      match Convert(conf[key].s, rule)
      case Ok(v) => Ok(conf[key := v])
      case Err(e) => Err(e)
  }

  /** The keys of a list of rules. */
  function KeysOf(rules: seq<(string, Rule)>): set<string> {
    set i | 0 <= i < |rules| :: rules[i].0
  }

  predicate DistinctKeys(rules: seq<(string, Rule)>) {
    forall i, j :: 0 <= i < j < |rules| ==> rules[i].0 != rules[j].0
  }

  /** Every field still to be visited holds the string ConfigParser read. */
  predicate Unparsed(conf: map<string, ConfValue>, rules: seq<(string, Rule)>) {
    forall i :: 0 <= i < |rules| && rules[i].0 in conf ==> conf[rules[i].0].Text?
  }

  /** The fields visited in order: the dict as left behind, with the first
      error if one is raised (the fields before it stay rewritten). */
  function ParseAll(conf: map<string, ConfValue>, rules: seq<(string, Rule)>): (r: (map<string, ConfValue>, Option<ConfigError>))
    requires DistinctKeys(rules) && Unparsed(conf, rules)
    ensures r.0.Keys == conf.Keys
    ensures forall k :: k in conf && k !in KeysOf(rules) ==> r.0[k] == conf[k]
  {
    if rules == [] then (conf, None)
    else
      var (key, rule) := rules[0];
      assert rules[0].0 == key && forall i :: 0 <= i < |rules[1..]| ==> rules[1..][i] == rules[i + 1];
      match Step(conf, key, rule)
      case Err(e) => (conf, Some(e))
      case Ok(next) => ParseAll(next, rules[1..])
  }

  // ---------------------------------------------------------------------------
  // Properties of the specification

  /** A field's step looks at that field only. */
  lemma StepFrame(c1: map<string, ConfValue>, c2: map<string, ConfValue>, key: string, rule: Rule)
    requires (key in c1 <==> key in c2) && (key in c1 ==> c1[key] == c2[key] && c1[key].Text?)
    ensures Step(c1, key, rule).Ok? <==> Step(c2, key, rule).Ok?
    ensures Step(c1, key, rule).Err? ==> Step(c1, key, rule) == Step(c2, key, rule)
    ensures Step(c1, key, rule).Ok? ==> Step(c1, key, rule).value[key] == Step(c2, key, rule).value[key]
  {
  }

  /** The tail of the rules, seen from the dict one step further on. */
  lemma UnparsedTail(conf: map<string, ConfValue>, next: map<string, ConfValue>, rules: seq<(string, Rule)>)
    requires DistinctKeys(rules) && Unparsed(conf, rules) && rules != []
    requires next.Keys == conf.Keys && forall k :: k in conf && k != rules[0].0 ==> next[k] == conf[k]
    ensures DistinctKeys(rules[1..]) && Unparsed(next, rules[1..])
  {
    var tail := rules[1..];
    forall i | 0 <= i < |tail| && tail[i].0 in next ensures next[tail[i].0].Text? {
      assert tail[i] == rules[i + 1];
    }
  }

  /** The index of the first field whose step fails on the dict as read, or
      `|rules|` when none does. */
  function FirstFailure(conf: map<string, ConfValue>, rules: seq<(string, Rule)>): (n: nat)
    requires Unparsed(conf, rules)
    ensures n <= |rules|
    ensures forall i :: 0 <= i < n ==> Step(conf, rules[i].0, rules[i].1).Ok?
    ensures n < |rules| ==> Step(conf, rules[n].0, rules[n].1).Err?
  {
    if rules == [] then 0
    else if Step(conf, rules[0].0, rules[0].1).Err? then 0
    else
      assert Unparsed(conf, rules[1..]) by {
        forall i | 0 <= i < |rules[1..]| && rules[1..][i].0 in conf ensures conf[rules[1..][i].0].Text? {
          assert rules[1..][i] == rules[i + 1];
        }
      }
      var n := FirstFailure(conf, rules[1..]);
      assert forall i :: 1 <= i < n + 1 ==> rules[i] == rules[1..][i - 1];
      1 + n
  }

  /** The whole outcome of the parser. With `n` the first field whose step
      fails on the dict as read, the parser raises that step's error; each
      field before it holds its converted value, and it and all later fields
      are unchanged. When no step fails, nothing is raised. */
  lemma ParseAllSpec(conf: map<string, ConfValue>, rules: seq<(string, Rule)>)
    requires DistinctKeys(rules) && Unparsed(conf, rules)
    ensures var n := FirstFailure(conf, rules);
      && ParseAll(conf, rules).1 == (if n < |rules| then Some(Step(conf, rules[n].0, rules[n].1).error) else None)
      && (forall i :: 0 <= i < n ==>
            rules[i].0 in conf && ParseAll(conf, rules).0[rules[i].0] == Step(conf, rules[i].0, rules[i].1).value[rules[i].0])
      && (forall i :: n <= i < |rules| && rules[i].0 in conf ==> ParseAll(conf, rules).0[rules[i].0] == conf[rules[i].0])
  {
    ParseAllRaises(conf, rules);
    ParseAllConverted(conf, rules);
    ParseAllUnchanged(conf, rules);
  }

  lemma {:induction false} ParseAllRaises(conf: map<string, ConfValue>, rules: seq<(string, Rule)>)
    requires DistinctKeys(rules) && Unparsed(conf, rules)
    ensures var n := FirstFailure(conf, rules);
      ParseAll(conf, rules).1 == (if n < |rules| then Some(Step(conf, rules[n].0, rules[n].1).error) else None)
  {
    if rules != [] && Step(conf, rules[0].0, rules[0].1).Ok? {
      var next := Step(conf, rules[0].0, rules[0].1).value;
      var tail := rules[1..];
      UnparsedTail(conf, next, rules);
      TailSteps(conf, next, rules);
      SameFailure(conf, next, rules);
      ParseAllRaises(next, tail);
      var n := FirstFailure(conf, rules);
      if n < |rules| {
        assert tail[n - 1] == rules[n];
      }
    }
  }

  lemma {:induction false} ParseAllConverted(conf: map<string, ConfValue>, rules: seq<(string, Rule)>)
    requires DistinctKeys(rules) && Unparsed(conf, rules)
    ensures forall i :: 0 <= i < FirstFailure(conf, rules) ==>
      rules[i].0 in conf && ParseAll(conf, rules).0[rules[i].0] == Step(conf, rules[i].0, rules[i].1).value[rules[i].0]
  {
    if rules != [] && Step(conf, rules[0].0, rules[0].1).Ok? {
      var (key, rule) := rules[0];
      var next := Step(conf, key, rule).value;
      var tail := rules[1..];
      UnparsedTail(conf, next, rules);
      TailSteps(conf, next, rules);
      SameFailure(conf, next, rules);
      ParseAllConverted(next, tail);
      assert key !in KeysOf(tail) by {
        forall i | 0 <= i < |tail| ensures tail[i].0 != key {
          assert tail[i] == rules[i + 1];
        }
      }
      var result := ParseAll(conf, rules).0;
      assert result == ParseAll(next, tail).0;
      forall i | 0 <= i < FirstFailure(conf, rules)
        ensures rules[i].0 in conf && result[rules[i].0] == Step(conf, rules[i].0, rules[i].1).value[rules[i].0]
      {
        if i > 0 {
          assert tail[i - 1] == rules[i];
        }
      }
    }
  }

  lemma {:induction false} ParseAllUnchanged(conf: map<string, ConfValue>, rules: seq<(string, Rule)>)
    requires DistinctKeys(rules) && Unparsed(conf, rules)
    ensures forall i :: FirstFailure(conf, rules) <= i < |rules| && rules[i].0 in conf ==>
      ParseAll(conf, rules).0[rules[i].0] == conf[rules[i].0]
  {
    if rules != [] && Step(conf, rules[0].0, rules[0].1).Ok? {
      var (key, rule) := rules[0];
      var next := Step(conf, key, rule).value;
      var tail := rules[1..];
      UnparsedTail(conf, next, rules);
      TailSteps(conf, next, rules);
      SameFailure(conf, next, rules);
      ParseAllUnchanged(next, tail);
      var result := ParseAll(conf, rules).0;
      assert result == ParseAll(next, tail).0;
      forall i | FirstFailure(conf, rules) <= i < |rules| && rules[i].0 in conf
        ensures result[rules[i].0] == conf[rules[i].0]
      {
        assert tail[i - 1] == rules[i];
      }
    }
  }

  /** The steps of the later fields give the same outcome on the dict one
      step further on. */
  lemma TailSteps(conf: map<string, ConfValue>, next: map<string, ConfValue>, rules: seq<(string, Rule)>)
    requires DistinctKeys(rules) && Unparsed(conf, rules) && rules != []
    requires next.Keys == conf.Keys && forall k :: k in conf && k != rules[0].0 ==> next[k] == conf[k]
    ensures Unparsed(next, rules[1..])
    ensures forall i :: 0 <= i < |rules[1..]| ==>
      && rules[1..][i] == rules[i + 1]
      && (Step(next, rules[1..][i].0, rules[1..][i].1).Ok? <==> Step(conf, rules[1..][i].0, rules[1..][i].1).Ok?)
      && (Step(next, rules[1..][i].0, rules[1..][i].1).Err? ==>
            Step(next, rules[1..][i].0, rules[1..][i].1) == Step(conf, rules[1..][i].0, rules[1..][i].1))
      && (Step(next, rules[1..][i].0, rules[1..][i].1).Ok? ==>
            Step(next, rules[1..][i].0, rules[1..][i].1).value[rules[1..][i].0]
              == Step(conf, rules[1..][i].0, rules[1..][i].1).value[rules[1..][i].0])
  {
    UnparsedTail(conf, next, rules);
    var tail := rules[1..];
    forall i | 0 <= i < |tail|
      ensures tail[i] == rules[i + 1]
      ensures Step(next, tail[i].0, tail[i].1).Ok? <==> Step(conf, tail[i].0, tail[i].1).Ok?
      ensures Step(next, tail[i].0, tail[i].1).Err? ==> Step(next, tail[i].0, tail[i].1) == Step(conf, tail[i].0, tail[i].1)
      ensures Step(next, tail[i].0, tail[i].1).Ok? ==>
                Step(next, tail[i].0, tail[i].1).value[tail[i].0] == Step(conf, tail[i].0, tail[i].1).value[tail[i].0]
    {
      assert tail[i] == rules[i + 1];
      StepFrame(next, conf, tail[i].0, tail[i].1);
    }
  }

  /** After a successful first step the remaining fields fail at the same place. */
  lemma SameFailure(conf: map<string, ConfValue>, next: map<string, ConfValue>, rules: seq<(string, Rule)>)
    requires DistinctKeys(rules) && Unparsed(conf, rules) && rules != []
    requires Step(conf, rules[0].0, rules[0].1) == Ok(next)
    requires DistinctKeys(rules[1..]) && Unparsed(next, rules[1..])
    requires forall i :: 0 <= i < |rules[1..]| ==>
               (Step(next, rules[1..][i].0, rules[1..][i].1).Ok? <==> Step(conf, rules[1..][i].0, rules[1..][i].1).Ok?)
    ensures FirstFailure(conf, rules) == 1 + FirstFailure(next, rules[1..])
  {
    var tail := rules[1..];
    assert Unparsed(conf, tail) by {
      forall i | 0 <= i < |tail| && tail[i].0 in conf ensures conf[tail[i].0].Text? {
        assert tail[i] == rules[i + 1];
      }
    }
    FailureAgrees(conf, next, tail);
  }

  lemma {:induction false} FailureAgrees(c1: map<string, ConfValue>, c2: map<string, ConfValue>, rules: seq<(string, Rule)>)
    requires Unparsed(c1, rules) && Unparsed(c2, rules)
    requires forall i :: 0 <= i < |rules| ==> (Step(c1, rules[i].0, rules[i].1).Ok? <==> Step(c2, rules[i].0, rules[i].1).Ok?)
    ensures FirstFailure(c1, rules) == FirstFailure(c2, rules)
  {
    if rules != [] && Step(c1, rules[0].0, rules[0].1).Ok? {
      var tail := rules[1..];
      assert Unparsed(c1, tail) && Unparsed(c2, tail) by {
        forall i | 0 <= i < |tail| ensures tail[i] == rules[i + 1] {
        }
      }
      forall i | 0 <= i < |tail| ensures tail[i] == rules[i + 1] {
      }
      FailureAgrees(c1, c2, tail);
    }
  }

  lemma RulesDistinct()
    ensures DistinctKeys(Rules)
  {
  }

  /** An empty api_endpoint raises before any field is converted. */
  lemma EmptyEndpoint(conf: map<string, ConfValue>)
    requires Unparsed(conf, Rules) && "api_endpoint" in conf && conf["api_endpoint"] == Text("")
    ensures ParseAll(conf, Rules) == (conf, Some(RequiredConfigKeyNotFound))
  {
  }

  /** A field missing from the dict makes the parser raise: its own KeyError,
      or an error of a field visited before it. */
  lemma MissingFieldRaises(conf: map<string, ConfValue>, rules: seq<(string, Rule)>, m: nat)
    requires DistinctKeys(rules) && Unparsed(conf, rules) && m < |rules| && rules[m].0 !in conf
    ensures FirstFailure(conf, rules) <= m && ParseAll(conf, rules).1.Some?
    ensures FirstFailure(conf, rules) == m ==> ParseAll(conf, rules).1 == Some(MissingParameter(rules[m].0))
  {
    ParseAllRaises(conf, rules);
  }

  /** After a successful parse every field is present and holds a value of
      its converted kind: a non-empty endpoint, an int or the default, a
      float, a string, a boolean, one of the five level numbers. */
  lemma ParseAllFits(conf: map<string, ConfValue>, rules: seq<(string, Rule)>)
    requires DistinctKeys(rules) && Unparsed(conf, rules) && ParseAll(conf, rules).1.None?
    ensures forall i :: 0 <= i < |rules| ==>
              rules[i].0 in ParseAll(conf, rules).0 && Fits(ParseAll(conf, rules).0[rules[i].0], rules[i].1)
  {
    ParseAllSpec(conf, rules);
    forall i | 0 <= i < |rules|
      ensures rules[i].0 in ParseAll(conf, rules).0 && Fits(ParseAll(conf, rules).0[rules[i].0], rules[i].1)
    {
    }
  }

  /** The dict as ConfigParser returns it: every value a string. */
  predicate AllText(conf: map<string, ConfValue>) {
    forall k :: k in conf ==> conf[k].Text?
  }

  lemma AllTextUnparsed(conf: map<string, ConfValue>, rules: seq<(string, Rule)>)
    requires AllText(conf)
    ensures Unparsed(conf, rules)
  {
  }

  // ---------------------------------------------------------------------------
  // The parser

  /** The `conf` dict of load_config, rewritten in place by __parse_config. */
  class ConfigDict {
    var entries: map<string, ConfValue>

    constructor (entries: map<string, ConfValue>)
      ensures this.entries == entries
    {
      this.entries := entries;
    }

    /** __parse_config: the fields in their fixed order, one block each; the
        first failure is returned, the fields rewritten before it stay
        rewritten. */
    method ParseConfig() returns (err: Option<ConfigError>)
      requires AllText(entries)
      modifies this
      ensures (entries, err) == ParseAll(old(entries), Rules)
    {
      RulesDistinct();
      AllTextUnparsed(entries, Rules);
      var k := 0;
      while k < |Rules|
        invariant 0 <= k <= |Rules| && DistinctKeys(Rules[k..]) && Unparsed(entries, Rules[k..])
        invariant ParseAll(old(entries), Rules) == ParseAll(entries, Rules[k..])
      {
        ghost var before := entries;
        ghost var rest := Rules[k..];
        assert rest[0] == Rules[k];
        err := ParseField(Rules[k].0, Rules[k].1);
        if err.Some? {
          return;
        }
        UnparsedTail(before, entries, rest);
        assert rest[1..] == Rules[k + 1..];
        k := k + 1;
      }
      err := None;
    }

    /** One block of __parse_config: look the field up (a KeyError when it
        is missing), then convert it or raise. */
    method ParseField(key: string, rule: Rule) returns (err: Option<ConfigError>)
      requires key in entries ==> entries[key].Text?
      modifies this
      ensures err.None? ==> Step(old(entries), key, rule) == Ok(entries)
      ensures err.Some? ==> Step(old(entries), key, rule) == Err(err.value) && entries == old(entries)
    {
      if key !in entries {
        return Some(MissingParameter(key));
      }
      var s := entries[key].s;
      err := None;
      match rule {
        case Required =>
          if s == "" {
            return Some(RequiredConfigKeyNotFound);
          }
          assert entries[key := Text(s)] == entries;
        case IntOr(default) =>
          if s == "" {
            entries := entries[key := default];
          } else {
            var v := ParseInt(s);
            if v.None? {
              return Some(NotANumber(s));
            }
            entries := entries[key := Int(v.value)];
          }
        case FloatOr(default) =>
          if s == "" {
            entries := entries[key := Float(default)];
          } else {
            var v := ParseFloat(s);
            if v.None? {
              return Some(NotANumber(s));
            }
            entries := entries[key := Float(v.value)];
          }
        case TextOr(default) =>
          if s == "" {
            entries := entries[key := Text(default)];
          } else {
            assert entries[key := Text(s)] == entries;
          }
        case Switch =>
          entries := entries[key := Flag(Lower(s) == "true")];
        case Level =>
          if s !in LogLevels {
            return Some(InvalidConfigValue(s));
          }
          entries := entries[key := Int(LogLevels[s])];
      }
    }
  }
}
