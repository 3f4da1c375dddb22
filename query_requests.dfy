/** The `Query` class of utilities/query_management.py: its request
    parameters, the retry loop around the HTTP call and the classification of
    the answer. The network is replaced by the outcome of each attempt. */
module QueryRequests {
  import opened Common
  import opened Payloads

  /** The keyword arguments of a query: an optional `target` and an optional
      `params` dict of user-chosen request options. */
  datatype Kwargs = Kwargs(target: Option<string>, params: Option<map<string, string>>)

  /** The `params` dict sent with a range query: its nine keys as fields. */
  datatype Params = Params(query: string, dedup: string, partialResponse: string,
                           start: int, end: int, step: string, maxSourceResolution: string,
                           engine: string, analyze: string)

  /** The seven options a caller may override; start and end are not among them. */
  const Whitelist: set<string> :=
    {"query", "dedup", "partial_response", "step", "max_source_resolution", "engine", "analyze"}

  const DefaultTarget: string := "query_range"

  /** `params[key] = value` for a whitelisted key; any other key is ignored. */
  function Override(p: Params, key: string, value: string): (r: Params)
    ensures r.start == p.start && r.end == p.end
    ensures key !in Whitelist ==> r == p
  {
    if key == "query" then p.(query := value)
    else if key == "dedup" then p.(dedup := value)
    else if key == "partial_response" then p.(partialResponse := value)
    else if key == "step" then p.(step := value)
    else if key == "max_source_resolution" then p.(maxSourceResolution := value)
    else if key == "engine" then p.(engine := value)
    else if key == "analyze" then p.(analyze := value)
    else p
  }

  /** The user's value for `key`, or the default. */
  function Choose(user: Option<map<string, string>>, key: string, default: string): string {
    if user.Some? && key in user.value then user.value[key] else default
  }

  /** The params of a query over `[start, end]` with the user options `user`:
      every option is the user's value if given and the default otherwise. */
  function RequestParams(start: int, end: int, user: Option<map<string, string>>): Params {
    Params(Choose(user, "query", "ALERTS"), Choose(user, "dedup", "true"),
           Choose(user, "partial_response", "false"), start, end, Choose(user, "step", "60"),
           Choose(user, "max_source_resolution", "0s"), Choose(user, "engine", "thanos"),
           Choose(user, "analyze", "false"))
  }

  function RequestTarget(kwargs: Kwargs): string {
    match kwargs.target
    case Some(t) => t
    case None => DefaultTarget
  }

  /** The user options whose keys are in `done`. */
  function Restrict(user: map<string, string>, done: set<string>): (r: map<string, string>)
    ensures r.Keys == user.Keys * done
  {
    map k | k in user.Keys && k in done :: user[k]
  }

  /** Applying the user options one key at a time, in any order, builds the params. */
  lemma OverrideStep(start: int, end: int, user: map<string, string>, done: set<string>, k: string)
    requires k in user && k !in done
    ensures Override(RequestParams(start, end, Some(Restrict(user, done))), k, user[k])
         == RequestParams(start, end, Some(Restrict(user, done + {k})))
  {
    var before := Restrict(user, done);
    var after := Restrict(user, done + {k});
    assert after == before[k := user[k]];
    OverrideUpdate(start, end, before, k, user[k]);
  }

  /** Overriding one key of the params is giving the user that one option more. */
  lemma OverrideUpdate(start: int, end: int, m: map<string, string>, k: string, v: string)
    ensures Override(RequestParams(start, end, Some(m)), k, v) == RequestParams(start, end, Some(m[k := v]))
  {
    ChooseUpdate(m, k, v, "query", "ALERTS");
    ChooseUpdate(m, k, v, "dedup", "true");
    ChooseUpdate(m, k, v, "partial_response", "false");
    ChooseUpdate(m, k, v, "step", "60");
    ChooseUpdate(m, k, v, "max_source_resolution", "0s");
    ChooseUpdate(m, k, v, "engine", "thanos");
    ChooseUpdate(m, k, v, "analyze", "false");
  }

  lemma ChooseUpdate(m: map<string, string>, k: string, v: string, key: string, default: string)
    ensures Choose(Some(m[k := v]), key, default) == if key == k then v else Choose(Some(m), key, default)
  {
  }

  /** The kwargs of the coarse half of a threshold split: a deep copy whose
      `params` get step "3600" and max_source_resolution "1h". */
  function HourlyKwargs(kwargs: Kwargs): (r: Kwargs)
    ensures r.target == kwargs.target && r.params.Some?
    ensures "step" in r.params.value && r.params.value["step"] == "3600"
    ensures "max_source_resolution" in r.params.value && r.params.value["max_source_resolution"] == "1h"
    ensures kwargs.params.Some? ==> r.params.value.Keys == kwargs.params.value.Keys + {"step", "max_source_resolution"}
    ensures kwargs.params.Some? ==>
              forall k :: k in kwargs.params.value && k != "step" && k != "max_source_resolution" ==>
                r.params.value[k] == kwargs.params.value[k]
  {
    var hourly := map["step" := "3600", "max_source_resolution" := "1h"];
    match kwargs.params
    case Some(p) => kwargs.(params := Some(p + hourly))
    case None => kwargs.(params := Some(hourly))
  }

  class Query {
    var baseUrl: string
    var globalStart: int
    var globalEnd: int
    var kwargs: Kwargs
    var cert: Option<string>
    var timeout: Option<int>
    var params: Option<Params>
    var target: Option<string>

    /** Query(base_url, start, end, kwargs) followed by initialize(): a
        missing end becomes `now`, a missing start the oldest instant kept by
        long-term storage (`maxPast`, computed outside this model), and the
        request data is derived from them. */
    constructor (baseUrl: string, start: Option<int>, end: Option<int>, kwargs: Kwargs, now: int, maxPast: int)
      ensures this.baseUrl == baseUrl && this.kwargs == kwargs
      ensures globalEnd == (if end.Some? then end.value else now)
      ensures globalStart == (if start.Some? then start.value else maxPast)
      ensures cert.None? && timeout.None?
      ensures params == Some(RequestParams(globalStart, globalEnd, kwargs.params))
      ensures target == Some(RequestTarget(kwargs))
    {
      this.baseUrl := baseUrl;
      this.kwargs := kwargs;
      globalEnd := if end.Some? then end.value else now;
      globalStart := if start.Some? then start.value else maxPast;
      cert, timeout := None, None;
      params, target := None, None;
      new;
      ParseRequestData();
    }

    /** __parse_request_data: the defaults, then every whitelisted user option. */
    method ParseRequestData()
      modifies this
      ensures params == Some(RequestParams(globalStart, globalEnd, kwargs.params))
      ensures target == Some(RequestTarget(kwargs))
      ensures baseUrl == old(baseUrl) && globalStart == old(globalStart) && globalEnd == old(globalEnd)
      ensures kwargs == old(kwargs) && cert == old(cert) && timeout == old(timeout)
    {
      var t := if kwargs.target.Some? then kwargs.target.value else DefaultTarget;
      var p := Params("ALERTS", "true", "false", globalStart, globalEnd, "60", "0s", "thanos", "false");
      if kwargs.params.Some? {
        var user := kwargs.params.value;
        var keys := user.Keys;
        assert Restrict(user, {}) == map[];
        while keys != {}
          invariant keys <= user.Keys
          invariant p == RequestParams(globalStart, globalEnd, Some(Restrict(user, user.Keys - keys)))
          modifies {}
          decreases keys
        {
          var k :| k in keys;
          OverrideStep(globalStart, globalEnd, user, user.Keys - keys, k);
          p := Override(p, k, user[k]);
          assert user.Keys - (keys - {k}) == (user.Keys - keys) + {k};
          keys := keys - {k};
        }
        assert Restrict(user, user.Keys - keys) == user;
      }
      params := Some(p);
      target := Some(t);
    }

    method SetRequestParameters(cert: Option<string>, timeout: Option<int>)
      modifies this
      ensures this.cert == cert && this.timeout == timeout
      ensures baseUrl == old(baseUrl) && globalStart == old(globalStart) && globalEnd == old(globalEnd)
      ensures kwargs == old(kwargs) && params == old(params) && target == old(target)
    {
      this.cert := cert;
      this.timeout := timeout;
    }

    /** set_start: the window start, mirrored into `params` when they exist. */
    method SetStart(start: int)
      modifies this
      ensures globalStart == start
      ensures params == if old(params).None? then None else Some(old(params).value.(start := start))
      ensures baseUrl == old(baseUrl) && globalEnd == old(globalEnd) && kwargs == old(kwargs)
      ensures cert == old(cert) && timeout == old(timeout) && target == old(target)
    {
      globalStart := start;
      if params.None? {
        return;
      }
      params := Some(params.value.(start := start));
    }

    /** set_end: the window end, mirrored into `params` when they exist. */
    method SetEnd(end: int)
      modifies this
      ensures globalEnd == end
      ensures params == if old(params).None? then None else Some(old(params).value.(end := end))
      ensures baseUrl == old(baseUrl) && globalStart == old(globalStart) && kwargs == old(kwargs)
      ensures cert == old(cert) && timeout == old(timeout) && target == old(target)
    {
      globalEnd := end;
      if params.None? {
        return;
      }
      params := Some(params.value.(end := end));
    }

    /** copy.deepcopy(query): every field is a value, so a copy is a fresh
        object with equal fields. */
    method DeepCopy() returns (q: Query)
      ensures fresh(q)
      ensures q.baseUrl == baseUrl && q.globalStart == globalStart && q.globalEnd == globalEnd
      ensures q.kwargs == kwargs && q.cert == cert && q.timeout == timeout
      ensures q.params == params && q.target == target
    {
      q := new Query.Blank();
      q.baseUrl, q.globalStart, q.globalEnd := baseUrl, globalStart, globalEnd;
      q.kwargs, q.cert, q.timeout := kwargs, cert, timeout;
      q.params, q.target := params, target;
    }

    /** An object whose fields are all about to be assigned (the copy target). */
    constructor Blank()
    {
    }
  }

  // ---------------------------------------------------------------------------
  // __parse_request_result

  /** What the HTTP layer hands back: the outcome of `response.json()`, where
      `None` is a body that does not decode. */
  datatype Response = Response(json: Option<Payload>)

  /** The payloads the query passes on unchanged: they carry a status, and an
      error status only with errorType "bad_data". */
  predicate Accepted(p: Payload) {
    p.status.Some? && (p.status.value == "error" ==> p.errorType == Some("bad_data"))
  }

  function ParseRequestResult(response: Option<Response>): (r: Payload)
    ensures response.Some? && response.value.json.Some? && Accepted(response.value.json.value) ==>
              r == response.value.json.value
    ensures !(response.Some? && response.value.json.Some? && Accepted(response.value.json.value)) ==>
              r == EmptyResults
  {
    match response
    case None => EmptyResults
    case Some(res) =>
      match res.json
      case None => EmptyResults  // the body is not JSON
      case Some(data) =>
        match data.status
        case None => EmptyResults  // KeyError on "status"
        case Some(status) =>
          if status != "error" then data
          else match data.errorType
            case None => EmptyResults  // KeyError on "errorType"
            case Some(errorType) => if errorType != "bad_data" then EmptyResults else data
  }

  /** Whatever arrives, the parsed result is never an error other than bad_data. */
  lemma ParsedResultIsAccepted(response: Option<Response>)
    ensures Accepted(ParseRequestResult(response))
  {
    assert Accepted(EmptyResults);
  }

  // ---------------------------------------------------------------------------
  // __execute_request

  /** The outcome of one `requests.get`: an answer, or the exception it raised. */
  datatype Attempt =
    | Answered(response: Response)
    | ConnectTimeout
    | ReadTimeout
    | SSLError
    | ConnectionError
    | ChunkedEncodingError
    | OtherException(name: string)

  const MaxAttempts: nat := 3

  /** The exceptions after which the loop tries again. */
  predicate Retryable(a: Attempt) {
    a.ConnectTimeout? || a.SSLError? || a.ConnectionError?
  }

  /** What an attempt that ends the loop returns; `Err` is an exception that propagates. */
  function Final(a: Attempt): Result<Response, string>
    requires !Retryable(a)
  {
    match a
    case Answered(res) => Ok(res)
    case ReadTimeout => Ok(Response(Some(ExceededMaximum)))
    case ChunkedEncodingError => Ok(Response(Some(ExceededMaximum)))
    case OtherException(name) => Err(name)
  }

  /** What the retry loop returns from attempt `i` on: the first outcome that
      is not retried decides, and when every attempt is retried the loop gives
      up with the empty result. */
  function DecideFrom(outcomes: seq<Attempt>, i: nat): Result<Response, string>
    requires i <= MaxAttempts <= |outcomes|
    decreases MaxAttempts - i
  {
    if i == MaxAttempts then Ok(Response(Some(EmptyResults)))
    else if Retryable(outcomes[i]) then DecideFrom(outcomes, i + 1)
    else Final(outcomes[i])
  }

  function Decide(outcomes: seq<Attempt>): Result<Response, string>
    requires MaxAttempts <= |outcomes|
  {
    DecideFrom(outcomes, 0)
  }

  /** From attempt `i` on, the first outcome within the three attempts that
      is not retried decides, wherever it falls. */
  lemma {:induction false} DecideFromFinal(outcomes: seq<Attempt>, i: nat, k: nat)
    requires MaxAttempts <= |outcomes| && i <= k < MaxAttempts && !Retryable(outcomes[k])
    requires forall j :: i <= j < k ==> Retryable(outcomes[j])
    ensures DecideFrom(outcomes, i) == Final(outcomes[k])
    decreases k - i
  {
    if i < k {
      DecideFromFinal(outcomes, i + 1, k);
    }
  }

  /** The retry loop; `outcomes[i]` is what attempt `i` would meet, and
      `attempts` is how many requests were made. */
  method ExecuteRequest(outcomes: seq<Attempt>) returns (r: Result<Response, string>, attempts: nat)
    requires |outcomes| >= MaxAttempts
    ensures r == Decide(outcomes)
    ensures 1 <= attempts <= MaxAttempts
    ensures forall i :: 0 <= i < attempts - 1 ==> Retryable(outcomes[i])
    ensures !Retryable(outcomes[attempts - 1]) ==> r == Final(outcomes[attempts - 1])
    ensures Retryable(outcomes[attempts - 1]) ==> attempts == MaxAttempts && r == Ok(Response(Some(EmptyResults)))
  {
    attempts := 0;
    while attempts < MaxAttempts
      invariant 0 <= attempts <= MaxAttempts
      invariant forall i :: 0 <= i < attempts ==> Retryable(outcomes[i])
      invariant Decide(outcomes) == DecideFrom(outcomes, attempts)
    {
      var outcome := outcomes[attempts];
      attempts := attempts + 1;
      match outcome {
        case Answered(res) =>
          return Ok(res), attempts;
        case ConnectTimeout =>
          continue;
        case ReadTimeout =>
          return Ok(Response(Some(ExceededMaximum))), attempts;
        case SSLError =>
          continue;
        case ConnectionError =>
          continue;
        case ChunkedEncodingError =>
          return Ok(Response(Some(ExceededMaximum))), attempts;
        case OtherException(name) =>
          return Err(name), attempts;
      }
    }
    r := Ok(Response(Some(EmptyResults)));
  }

  /** Query.execute: the retry loop followed by the classification. */
  method Execute(outcomes: seq<Attempt>) returns (r: Result<Payload, string>)
    requires |outcomes| >= MaxAttempts
    ensures r == match Decide(outcomes)
                 case Ok(res) => Ok(ParseRequestResult(Some(res)))
                 case Err(e) => Err(e)
    ensures r.Ok? ==> Accepted(r.value)
    ensures (forall i :: 0 <= i < MaxAttempts ==> Retryable(outcomes[i])) ==> r == Ok(EmptyResults)
    ensures outcomes[0].ReadTimeout? || outcomes[0].ChunkedEncodingError? ==> r == Ok(ExceededMaximum)
    ensures outcomes[0].OtherException? ==> r == Err(outcomes[0].name)
  {
    var response, attempts := ExecuteRequest(outcomes);
    if response.Err? {
      return Err(response.error);
    }
    ParsedResultIsAccepted(Some(response.value));
    r := Ok(ParseRequestResult(Some(response.value)));
  }

  /** tests/test_query.py: a user `step` overrides the default and the target
      defaults to "query_range". */
  lemma ParamsOfTestQuery(start: int, end: int)
    ensures RequestParams(start, end, Some(map["step" := "3600"]))
         == Params("ALERTS", "true", "false", start, end, "3600", "0s", "thanos", "false")
    ensures RequestTarget(Kwargs(None, Some(map["step" := "3600"]))) == "query_range"
  {
  }
}
