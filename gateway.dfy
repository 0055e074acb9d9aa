/** `main.py`: the `/a2a/sniff` JSON-RPC endpoint in front of the agent.
    A request is screened in a fixed order — parse, envelope, method — then
    counted against a per-identifier sliding-window rate limit, then its
    parameters are validated and the agent is called.

    Time is an integer number of microseconds (the resolution of Python's
    `datetime`); the window is one minute. */
module Gateway {
  import opened Wrappers
  import opened Text
  import opened A2A
  import Review
  import Agent

  // ---------------------------------------------------------------------
  // The sliding-window rate limiter
  // ---------------------------------------------------------------------

  const Second: int := 1000000
  /** `RATE_WINDOW = timedelta(minutes=1)`. */
  const Window: int := 60 * Second
  /** `RATE_LIMIT_PER_MINUTE` when the environment does not set it. */
  const DefaultLimit: int := 10

  /** `[t for t in timestamps if now - t < RATE_WINDOW]`: the timestamps
      still inside the window, in their order. */
  function Unexpired(ts: seq<int>, now: int): (r: seq<int>)
    ensures |r| <= |ts|
    ensures forall k | 0 <= k < |r| :: now - r[k] < Window
  {
    if ts == [] then []
    else
      var last := ts[|ts| - 1];
      Unexpired(ts[..|ts| - 1], now) + (if now - last < Window then [last] else [])
  }

  /** The pruning is a filter: each timestamp inside the window is kept
      as often as it occurs, every other one is dropped. */
  lemma {:induction false} UnexpiredIsFilter(ts: seq<int>, now: int)
    ensures forall t :: multiset(Unexpired(ts, now))[t] == if now - t < Window then multiset(ts)[t] else 0
  {
    if ts != [] {
      var init, last := ts[..|ts| - 1], ts[|ts| - 1];
      UnexpiredIsFilter(init, now);
      assert ts == init + [last];
    }
  }

  /** What `is_rate_limited` returns: `False` (admitted), the whole seconds
      until the oldest timestamp leaves the window, plus one; or the
      `IndexError` of `valid[0]` on an empty log, which a limit of zero or
      less provokes. */
  datatype RateCheck = Admitted | Limited(resetIn: int) | EmptyLogIndexError

  /** `int((RATE_WINDOW - (now - oldest)).total_seconds()) + 1`; the
      remaining time is positive for an unexpired timestamp, so `int()`'s
      truncation is a floor. */
  function ResetIn(oldest: int, now: int): int
    requires now - oldest < Window
  {
    (Window - (now - oldest)) / Second + 1
  }

  /** The answer of `is_rate_limited` for an identifier whose log is `ts`. */
  function RateDecision(limit: int, ts: seq<int>, now: int): RateCheck {
    var valid := Unexpired(ts, now);
    if |valid| < limit then Admitted
    else if valid == [] then EmptyLogIndexError
    else Limited(ResetIn(valid[0], now))
  }

  /** The identifier's log afterwards: the unexpired timestamps, plus `now`
      when the request was admitted. */
  function LogAfter(limit: int, ts: seq<int>, now: int): seq<int> {
    Unexpired(ts, now) + (if RateDecision(limit, ts, now) == Admitted then [now] else [])
  }

  /** The most timestamps a log may hold: the limit, or none when the limit
      admits nothing. */
  function Cap(limit: int): nat {
    if limit < 0 then 0 else limit
  }

  /** The log of an identifier, `[]` when it has none (`defaultdict(list)`). */
  function LogOf(log: map<string, seq<int>>, identifier: string): seq<int> {
    if identifier in log then log[identifier] else []
  }

  /** A request is admitted exactly when fewer than `limit` earlier requests
      of the identifier fall inside the window; a refused request records
      nothing, an admitted one records `now`. */
  lemma AdmittedIffUnderLimit(limit: int, ts: seq<int>, now: int)
    ensures RateDecision(limit, ts, now) == Admitted <==> |Unexpired(ts, now)| < limit
    ensures RateDecision(limit, ts, now) != Admitted ==> LogAfter(limit, ts, now) == Unexpired(ts, now)
    ensures RateDecision(limit, ts, now) == Admitted ==>
      LogAfter(limit, ts, now) == Unexpired(ts, now) + [now] && |LogAfter(limit, ts, now)| <= limit
  {
  }

  /** A limited answer is at least one second, so the endpoint's truthiness
      test always blocks it; with no timestamp in the future it is at most
      sixty-one. */
  lemma ResetInBounds(limit: int, ts: seq<int>, now: int)
    ensures RateDecision(limit, ts, now).Limited? ==> RateDecision(limit, ts, now).resetIn >= 1
    ensures (forall k | 0 <= k < |ts| :: ts[k] <= now) && RateDecision(limit, ts, now).Limited? ==>
      RateDecision(limit, ts, now).resetIn <= 61
  {
    var valid := Unexpired(ts, now);
    if RateDecision(limit, ts, now).Limited? && (forall k | 0 <= k < |ts| :: ts[k] <= now) {
      UnexpiredIsFilter(ts, now);
      assert valid[0] in multiset(valid);
      assert valid[0] in multiset(ts);
      var k :| 0 <= k < |ts| && ts[k] == valid[0];
    }
  }

  /** The log of an identifier never holds more than `Cap(limit)`
      timestamps. */
  lemma LogStaysBounded(limit: int, ts: seq<int>, now: int)
    requires |ts| <= Cap(limit)
    ensures |LogAfter(limit, ts, now)| <= Cap(limit)
  {
  }

  /** The log after `n` requests at the same instant, starting from `ts`. */
  function Burst(limit: int, ts: seq<int>, now: int, n: nat): seq<int> {
    if n == 0 then ts else LogAfter(limit, Burst(limit, ts, now, n - 1), now)
  }

  /** `n` requests at one instant from an identifier with no log: the first
      `limit` are admitted and recorded, every later one is refused. */
  lemma {:induction false} BurstAdmitsLimit(limit: int, now: int, n: nat)
    ensures |Burst(limit, [], now, n)| == if n < Cap(limit) then n else Cap(limit)
    ensures forall k | 0 <= k < |Burst(limit, [], now, n)| :: Burst(limit, [], now, n)[k] == now
    ensures RateDecision(limit, Burst(limit, [], now, n), now) == Admitted <==> n < limit
  {
    if n > 0 {
      BurstAdmitsLimit(limit, now, n - 1);
      SameInstantStep(limit, Burst(limit, [], now, n - 1), now);
    }
    SameInstantStep(limit, Burst(limit, [], now, n), now);
  }

  /** One more request at the instant of every logged one: admitted while
      the log is shorter than the limit, and then appended. */
  lemma SameInstantStep(limit: int, ts: seq<int>, now: int)
    requires forall k | 0 <= k < |ts| :: ts[k] == now
    ensures RateDecision(limit, ts, now) == Admitted <==> |ts| < limit
    ensures LogAfter(limit, ts, now) == ts + (if |ts| < limit then [now] else [])
  {
    AllFresh(ts, now);
  }

  /** Timestamps at `now` are all unexpired. */
  lemma {:induction false} AllFresh(ts: seq<int>, now: int)
    requires forall k | 0 <= k < |ts| :: ts[k] == now
    ensures Unexpired(ts, now) == ts
  {
    if ts != [] {
      AllFresh(ts[..|ts| - 1], now);
      assert ts == ts[..|ts| - 1] + [ts[|ts| - 1]];
    }
  }

  /** `_request_log` together with `is_rate_limited`. */
  class RateLimiter {
    const limit: int
    var log: map<string, seq<int>>

    /** No identifier's log exceeds the limit. */
    ghost predicate Valid()
      reads this
    {
      forall identifier | identifier in log :: |log[identifier]| <= Cap(limit)
    }

    constructor(limit: int)
      ensures this.limit == limit && log == map[] && Valid()
    {
      this.limit := limit;
      log := map[];
    }

    /** `is_rate_limited(identifier)` at time `now`. The pruned list is
        stored before the check, and `now` is appended to that same stored
        list, so it is recorded exactly when the request is admitted. */
    method IsRateLimited(identifier: string, now: int) returns (r: RateCheck)
      requires Valid()
      modifies this
      ensures Valid()
      ensures r == RateDecision(limit, LogOf(old(log), identifier), now)
      ensures log == old(log)[identifier := LogAfter(limit, LogOf(old(log), identifier), now)]
    {
      var timestamps := LogOf(log, identifier);
      LogStaysBounded(limit, timestamps, now);
      var valid: seq<int> := [];
      var i := 0;
      while i < |timestamps|
        invariant 0 <= i <= |timestamps|
        invariant valid == Unexpired(timestamps[..i], now)
      {
        assert timestamps[..i + 1][..i] == timestamps[..i];
        if now - timestamps[i] < Window {
          valid := valid + [timestamps[i]];
        }
        i := i + 1;
      }
      assert timestamps[..i] == timestamps;
      log := log[identifier := valid];
      if |valid| >= limit {
        assert LogAfter(limit, timestamps, now) == valid;
        if valid == [] {
          return EmptyLogIndexError;
        }
        return Limited(ResetIn(valid[0], now));
      }
      log := log[identifier := valid + [now]];
      r := Admitted;
    }
  }

  // ---------------------------------------------------------------------
  // JSON-RPC responses
  // ---------------------------------------------------------------------

  /** A JSON value as far as the endpoint looks at it: a string, another
      scalar (number, boolean, `null`) or an array or object, the last two
      kept as their JSON text so that an echoed id is the one received. */
  datatype Value = Str(s: string) | Scalar(json: string) | Container(json: string)

  datatype ErrorObject = ErrorObject(code: int, message: string, data: Option<map<string, Value>>)

  /** A JSON-RPC reply: an error, whose id is `None` when the request's id
      could not be read, or a result. */
  datatype Payload = ErrorReply(replyTo: Option<Value>, error: ErrorObject) | ResultReply(id: Value, result: TaskResult)

  /** An HTTP response of the endpoint, or the plain 500 the framework sends
      when the endpoint raises an exception it does not catch. */
  datatype Response =
    | Response(status: int, retryAfter: Option<int>, payload: Payload)
    | Unhandled

  /** `jsonrpc_error(req_id, code, message, data)`: status 400 for the
      codes from -32768 to -32600, 500 otherwise; `data` only when given
      and non-empty. */
  function JsonRpcError(reqId: Option<Value>, code: int, message: string, data: Option<map<string, Value>>): (r: Response)
    ensures r.Response? && r.retryAfter.None? && r.payload.ErrorReply?
    ensures r.status == 400 <==> -32768 <= code <= -32600
    ensures r.status == 400 || r.status == 500
    ensures r.payload.replyTo == reqId && r.payload.error.code == code && r.payload.error.message == message
    ensures r.payload.error.data.Some? <==> data.Some? && data.value != map[]
    ensures r.payload.error.data.Some? ==> r.payload.error.data == data
  {
    var status := if -32768 <= code <= -32600 then 400 else 500;
    var kept := if data.Some? && data.value != map[] then data else None;
    Response(status, None, ErrorReply(reqId, ErrorObject(code, message, kept)))
  }

  const ParseError: int := -32700
  const InvalidRequest: int := -32600
  const MethodNotFound: int := -32601
  const InvalidParams: int := -32602
  const ServerError: int := -32000

  /** The codes of the JSON-RPC 2.0 Specification, section 5.1, that the
      endpoint answers with 400; its server error is a 500. */
  lemma ErrorCodeStatuses(reqId: Option<Value>, message: string, data: Option<map<string, Value>>)
    ensures JsonRpcError(reqId, ParseError, message, data).status == 400
    ensures JsonRpcError(reqId, InvalidRequest, message, data).status == 400
    ensures JsonRpcError(reqId, MethodNotFound, message, data).status == 400
    ensures JsonRpcError(reqId, InvalidParams, message, data).status == 400
    ensures JsonRpcError(reqId, ServerError, message, data).status == 500
  {
  }

  /** The decimal text of an integer, as `str(n)` prints it. */
  function IntText(n: int): (r: string)
    ensures r != []
  {
    if n < 0 then "-" + NatToString(-n) else NatToString(n)
  }

  /** The 429 answer to a refused request. */
  function RateLimitedResponse(id: Value, limit: int, resetIn: int): Response {
    Response(429, Some(resetIn),
      ErrorReply(Some(id), ErrorObject(ServerError, "Rate limited: " + IntText(limit) + " requests per minute per user",
                                       Some(map["retry_after_seconds" := Scalar(IntText(resetIn))]))))
  }

  // ---------------------------------------------------------------------
  // The endpoint
  // ---------------------------------------------------------------------

  /** The request body: not JSON, JSON that is not an object (its `.get`
      raises), or an object. */
  datatype Body = Unparsable | NotObject | Object(fields: map<string, Value>)

  /** What the first three checks make of a body: an early response, or
      the id, the method and the `params` member, if any. */
  datatype Screened = Rejected(response: Response) | Accepted(id: Value, methodName: string, params: Option<Value>)

  /** `body.get(key)`. */
  function Get(fields: map<string, Value>, key: string): Option<Value> {
    if key in fields then Some(fields[key]) else None
  }

  /** Steps 1 to 3 of `a2a_endpoint`: a parse error, then a bad envelope
      (version not `"2.0"`, no id or no method), then an unknown method. A
      method that is an array or object cannot be looked up in a set, and
      the `TypeError` escapes. */
  function Screen(body: Body): Screened {
    match body
    case Unparsable => Rejected(JsonRpcError(None, ParseError, "Parse error", None))
    case NotObject => Rejected(Unhandled)
    case Object(fields) =>
      if Get(fields, "jsonrpc") != Some(Str("2.0")) || "id" !in fields || "method" !in fields then
        Rejected(JsonRpcError(Get(fields, "id"), InvalidRequest, "Invalid Request", None))
      else if fields["method"].Container? then Rejected(Unhandled)
      else if fields["method"] != Str("message/send") && fields["method"] != Str("execute") then
        Rejected(JsonRpcError(Some(fields["id"]), MethodNotFound, "Method not found", None))
      else Accepted(fields["id"], fields["method"].s, Get(fields, "params"))
  }

  /** The screening in the source's order: each check answers only when the
      ones before it passed, every early answer is a 400 or an escaped
      exception, and an accepted request names one of the two methods. */
  lemma ScreenOrder(body: Body)
    ensures body.Unparsable? <==> Screen(body) == Rejected(JsonRpcError(None, ParseError, "Parse error", None))
    ensures Screen(body).Rejected? && Screen(body).response.Response? ==>
      && Screen(body).response.status == 400
      && Screen(body).response.payload.error.code in {ParseError, InvalidRequest, MethodNotFound}
    ensures Screen(body).Rejected? && Screen(body).response.Response?
            && Screen(body).response.payload.error.code == MethodNotFound ==>
      && body.Object? && Get(body.fields, "jsonrpc") == Some(Str("2.0"))
      && "id" in body.fields && Screen(body).response.payload.replyTo == Some(body.fields["id"])
    ensures Screen(body).Accepted? ==>
      && body.Object? && Get(body.fields, "jsonrpc") == Some(Str("2.0"))
      && Screen(body).methodName in {"message/send", "execute"}
      && Screen(body).id == body.fields["id"]
  {
  }

  /** What each kind of body gets: a body that is not an object escapes;
      an object with a bad envelope gets -32600 under whatever id it has; a
      good envelope with a method that is an array or object escapes, with
      any other unknown method gets -32601 under its id, and with one of the
      two methods goes on with its id, method and parameters. */
  lemma ScreenDecides(body: Body)
    ensures body.NotObject? ==> Screen(body) == Rejected(Unhandled)
    ensures body.Object? && (Get(body.fields, "jsonrpc") != Some(Str("2.0")) || "id" !in body.fields || "method" !in body.fields) ==>
      Screen(body) == Rejected(JsonRpcError(Get(body.fields, "id"), InvalidRequest, "Invalid Request", None))
    ensures body.Object? && Get(body.fields, "jsonrpc") == Some(Str("2.0")) && "id" in body.fields && "method" in body.fields ==>
      var m := body.fields["method"];
      && (m.Container? ==> Screen(body) == Rejected(Unhandled))
      && (!m.Container? && m != Str("message/send") && m != Str("execute") ==>
            Screen(body) == Rejected(JsonRpcError(Some(body.fields["id"]), MethodNotFound, "Method not found", None)))
      && (m == Str("message/send") || m == Str("execute") ==>
            Screen(body) == Accepted(body.fields["id"], m.s, Get(body.fields, "params")))
  {
  }

  const UserHeader: string := "x-telex-user-id"
  const ChannelHeader: string := "x-telex-channel-id"
  const ForwardedHeader: string := "x-forwarded-for"

  /** `headers.get(name, default)`. */
  function Header(headers: map<string, string>, name: string, fallback: string): string {
    if name in headers then headers[name] else fallback
  }

  /** Step 4: `user_id or channel_id or ip_fallback`, the channel and the
      forwarded address defaulting to `"unknown"`. */
  function Identifier(headers: map<string, string>): string {
    var user := Header(headers, UserHeader, "");
    var channel := Header(headers, ChannelHeader, "unknown");
    if user != "" then user
    else if channel != "" then channel
    else Header(headers, ForwardedHeader, "unknown")
  }

  /** The user id wins when present and non-empty; otherwise the channel,
      which is `"unknown"` when absent, so the forwarded address is used
      only when the channel header is present and empty; the identifier is
      empty only when all three headers are present and empty (the user
      header possibly absent). */
  lemma IdentifierChoice(headers: map<string, string>)
    ensures UserHeader in headers && headers[UserHeader] != "" ==> Identifier(headers) == headers[UserHeader]
    ensures Header(headers, UserHeader, "") == "" && ChannelHeader !in headers ==> Identifier(headers) == "unknown"
    ensures Header(headers, UserHeader, "") == "" && ChannelHeader in headers && headers[ChannelHeader] != "" ==>
      Identifier(headers) == headers[ChannelHeader]
    ensures Header(headers, UserHeader, "") == "" && ChannelHeader in headers && headers[ChannelHeader] == "" ==>
      Identifier(headers) == Header(headers, ForwardedHeader, "unknown")
    ensures Identifier(headers) == Header(headers, ForwardedHeader, "unknown") && Identifier(headers) != "unknown" ==>
      (UserHeader in headers && headers[UserHeader] == Identifier(headers))
      || (ChannelHeader in headers && headers[ChannelHeader] in {"", Identifier(headers)})
    ensures Identifier(headers) == "" <==>
      && Header(headers, UserHeader, "") == ""
      && ChannelHeader in headers && headers[ChannelHeader] == ""
      && ForwardedHeader in headers && headers[ForwardedHeader] == ""
  {
  }

  /** The result of Pydantic validation of `params`: the parsed value or
      the text of the error. */
  datatype Parsed<T> = ParsedOk(value: T) | ValidationFailed(details: string)

  /** The fields of `ExecuteParams` the endpoint reads. */
  datatype ExecuteParams = ExecuteParams(messages: seq<Message>, contextId: Option<string>, taskId: Option<string>)

  /** The two parameter models, `MessageParams(**params)` (of which only the
      message is read) and `ExecuteParams(**params)`, as given functions. */
  datatype Validators = Validators(send: Value -> Parsed<Message>, execute: Value -> Parsed<ExecuteParams>)

  /** The request: its body and its headers, names in lower case. */
  datatype Request = Request(body: Body, headers: map<string, string>)

  /** The ids `str(uuid.uuid4())` would supply: the gateway's context and
      task ids for `execute`, and the agent's own (never used, since the
      gateway passes both). */
  datatype Fresh = Fresh(context: string, task: string, agentContext: string, agentTask: string)

  /** The message of the `UnboundLocalError` raised when `task_id` is read
      on the `message/send` path. */
  const UnboundTaskId: string := "cannot access local variable 'task_id' where it is not associated with a value"

  /** What the endpoint answers, with the rate-limit log and the conversation
      memory it leaves. */
  datatype Exchange = Exchange(response: Response, log: map<string, seq<int>>, memory: map<string, seq<Message>>)

  /** What steps 1 to 5 make of a request: an answer, or the request passed
      on to the parameter checks; either way with the rate-limit log they
      leave. */
  datatype Gated =
    | Answered(response: Response, log: map<string, seq<int>>)
    | Forwarded(id: Value, methodName: string, params: Option<Value>, log: map<string, seq<int>>)

  /** Steps 1 to 5 of `a2a_endpoint`: the three checks, then the rate limit
      on the identifier the headers give. */
  function Gate(limit: int, log: map<string, seq<int>>, req: Request, now: int): Gated {
    match Screen(req.body)
    case Rejected(response) => Answered(response, log)
    case Accepted(id, methodName, params) =>
      var identifier := Identifier(req.headers);
      var ts := LogOf(log, identifier);
      var log' := log[identifier := LogAfter(limit, ts, now)];
      match RateDecision(limit, ts, now)
      case EmptyLogIndexError => Answered(Unhandled, log')
      case Limited(resetIn) => Answered(RateLimitedResponse(id, limit, resetIn), log')
      case Admitted => Forwarded(id, methodName, params, log')
  }

  /** The invalid-params error with the exception's text as details. */
  function InvalidParamsError(id: Value, details: string): Response {
    JsonRpcError(Some(id), InvalidParams, "Invalid params", Some(map["details" := Str(details)]))
  }

  /** The server error with the exception's text as details. */
  function ServerFailure(id: Value, details: string): Response {
    JsonRpcError(Some(id), ServerError, "Server error", Some(map["details" := Str(details)]))
  }

  /** Steps 6 and 7 for `message/send`: a missing `params` member raises
      `KeyError`, an invalid one fails validation; a valid one reaches the
      call, which reads `task_id` — assigned only on the `execute` path —
      and so raises before the agent runs. */
  function SendCall(id: Value, params: Option<Value>, v: Validators): Response {
    if params.None? then InvalidParamsError(id, "'params'")
    else
      match v.send(params.value)
      case ValidationFailed(details) => InvalidParamsError(id, details)
      case ParsedOk(_) => ServerFailure(id, UnboundTaskId)
  }

  /** Steps 6 to 8 for `execute`: validate, fill in missing ids, call the
      agent, and wrap its result, or report the `KeyError` it raised. */
  function ExecuteCall(id: Value, params: Option<Value>, v: Validators, minted: Fresh,
                       memory: map<string, seq<Message>>, apiKey: Option<string>, env: Review.Env): (Response, map<string, seq<Message>>)
  {
    if params.None? then (InvalidParamsError(id, "'params'"), memory)
    else
      match v.execute(params.value)
      case ValidationFailed(details) => (InvalidParamsError(id, details), memory)
      case ParsedOk(p) =>
        var t := Agent.Dispatch(memory, p.messages, GatewayIds(p, minted), apiKey, env);
        match t.reply
        case Raised(key) => (ServerFailure(id, "'" + key + "'"), t.memory)
        case Finished(result) => (Response(200, None, ResultReply(id, result)), t.memory)
  }

  /** The ids the endpoint hands the agent: `params.contextId or uuid4()`
      and `params.taskId or uuid4()`. */
  function GatewayIds(p: ExecuteParams, minted: Fresh): Agent.Ids {
    Agent.Ids(Some(Agent.OrFresh(p.contextId, minted.context)), Some(Agent.OrFresh(p.taskId, minted.task)),
              minted.agentContext, minted.agentTask)
  }

  /** `a2a_endpoint(request)` at time `now`. */
  function Endpoint(limit: int, log: map<string, seq<int>>, memory: map<string, seq<Message>>, apiKey: Option<string>,
                    req: Request, now: int, v: Validators, minted: Fresh, env: Review.Env): Exchange
  {
    match Gate(limit, log, req, now)
    case Answered(response, log') => Exchange(response, log', memory)
    case Forwarded(id, methodName, params, log') =>
      if methodName == "message/send" then Exchange(SendCall(id, params, v), log', memory)
      else
        var (response, memory') := ExecuteCall(id, params, v, minted, memory, apiKey, env);
        Exchange(response, log', memory')
  }

  // ---------------------------------------------------------------------
  // Properties of the endpoint
  // ---------------------------------------------------------------------

  /** The three early checks come before the rate limiter: a rejected
      request is answered with a 400 (or escapes) and is not counted. */
  lemma RejectedBeforeRateLimit(limit: int, log: map<string, seq<int>>, req: Request, now: int)
    requires Screen(req.body).Rejected?
    ensures Gate(limit, log, req, now).Answered? && Gate(limit, log, req, now).log == log
    ensures Gate(limit, log, req, now).response.Response? ==> Gate(limit, log, req, now).response.status == 400
  {
    ScreenOrder(req.body);
  }

  /** Every screened request is counted against its identifier, whatever
      happens next: that log keeps only timestamps inside the window and ends
      with `now` exactly when the request goes on, which happens exactly
      when fewer than `limit` of its earlier timestamps are inside the
      window. Other identifiers' logs are untouched. */
  lemma AcceptedIsCounted(limit: int, log: map<string, seq<int>>, req: Request, now: int)
    requires Screen(req.body).Accepted?
    ensures var g := Gate(limit, log, req, now);
      var identifier := Identifier(req.headers);
      var recent := Unexpired(LogOf(log, identifier), now);
      && identifier in g.log
      && (forall k | 0 <= k < |g.log[identifier]| :: now - g.log[identifier][k] < Window)
      && (g.Forwarded? <==> |recent| < limit)
      && g.log[identifier] == recent + (if g.Forwarded? then [now] else [])
      && forall other | other != identifier :: (other in g.log <==> other in log) && (other in log ==> g.log[other] == log[other])
  {
    AdmittedIffUnderLimit(limit, LogOf(log, Identifier(req.headers)), now);
  }

  /** A refused request gets a 429 whose wait is at least a second. */
  lemma LimitedGets429(limit: int, log: map<string, seq<int>>, req: Request, now: int)
    requires Screen(req.body).Accepted?
    requires RateDecision(limit, LogOf(log, Identifier(req.headers)), now).Limited?
    ensures var g := Gate(limit, log, req, now);
      && g.Answered? && g.response.Response? && g.response.status == 429
      && g.response.retryAfter.Some? && g.response.retryAfter.value >= 1
      && g.response.payload.ErrorReply? && g.response.payload.error.code == ServerError
      && g.response.payload.replyTo == Some(Screen(req.body).id)
  {
    ResetInBounds(limit, LogOf(log, Identifier(req.headers)), now);
  }

  /** `message/send` never succeeds: a request whose parameters validate
      still ends in a server error, one whose parameters do not in the
      invalid-params error. */
  lemma SendNeverSucceeds(id: Value, params: Option<Value>, v: Validators)
    ensures var r := SendCall(id, params, v);
      && r.Response? && r.status != 200 && r.payload.ErrorReply? && r.payload.replyTo == Some(id)
      && (r.payload.error.code == ServerError <==> params.Some? && v.send(params.value).ParsedOk?)
      && (r.payload.error.code != ServerError ==> r.payload.error.code == InvalidParams && r.status == 400)
  {
  }

  /** Only an admitted, validated `execute` can change the conversation
      memory; every other request leaves it as it was. */
  lemma OnlyExecuteReachesAgent(limit: int, log: map<string, seq<int>>, memory: map<string, seq<Message>>,
                                apiKey: Option<string>, req: Request, now: int, v: Validators, minted: Fresh, env: Review.Env)
    requires var g := Gate(limit, log, req, now);
      !(g.Forwarded? && g.methodName == "execute" && g.params.Some? && v.execute(g.params.value).ParsedOk?)
    ensures Endpoint(limit, log, memory, apiKey, req, now, v, minted, env).memory == memory
  {
    ScreenOrder(req.body);
  }

  /** The rate-limit log the endpoint leaves is the one the gate left. */
  lemma EndpointLogIsGateLog(limit: int, log: map<string, seq<int>>, memory: map<string, seq<Message>>,
                             apiKey: Option<string>, req: Request, now: int, v: Validators, minted: Fresh, env: Review.Env)
    ensures Endpoint(limit, log, memory, apiKey, req, now, v, minted, env).log == Gate(limit, log, req, now).log
  {
  }

  /** A validated `execute` is answered by the agent: with a 200 holding the
      agent's result under the request's id, whose task id is the one given
      or a fresh one, or with the server error for the field the analysis
      lacked. */
  lemma ExecuteAnswers(id: Value, params: Option<Value>, v: Validators, minted: Fresh,
                       memory: map<string, seq<Message>>, apiKey: Option<string>, env: Review.Env)
    requires params.Some? && v.execute(params.value).ParsedOk?
    ensures var r := ExecuteCall(id, params, v, minted, memory, apiKey, env).0;
      var p := v.execute(params.value).value;
      var taskId := Agent.OrFresh(p.taskId, minted.task);
      && r.Response?
      && (r.status == 200 <==> r.payload.ResultReply?)
      && (r.status == 200 ==> r.payload.id == id && (taskId != "" ==> r.payload.result.id == taskId))
      && (r.status != 200 ==> r.status == 500 && r.payload.error.code == ServerError)
  {
    var p := v.execute(params.value).value;
    Agent.DispatchResult(memory, p.messages, GatewayIds(p, minted), apiKey, env);
  }

  // ---------------------------------------------------------------------
  // The endpoint with its state
  // ---------------------------------------------------------------------

  /** The module-level state of `main.py`: the request log, the agent and
      the conversation memory it uses. */
  class Gateway {
    const limiter: RateLimiter
    const bot: Agent.SniffBot
    const memory: Agent.ConversationMemory

    constructor(limit: int, bot: Agent.SniffBot, memory: Agent.ConversationMemory)
      ensures this.bot == bot && this.memory == memory
      ensures fresh(limiter) && limiter.limit == limit && limiter.log == map[] && limiter.Valid()
    {
      this.bot := bot;
      this.memory := memory;
      limiter := new RateLimiter(limit);
    }

    /** Steps 1 to 5: screen the request, then count it against the rate
        limit of its identifier. */
    method Admit(req: Request, now: int) returns (gated: Gated)
      requires limiter.Valid()
      modifies limiter
      ensures limiter.Valid()
      ensures gated == Gate(limiter.limit, old(limiter.log), req, now) && limiter.log == gated.log
    {
      var screened := Screen(req.body);
      if screened.Rejected? {
        return Answered(screened.response, limiter.log);
      }
      var id := screened.id;
      var identifier := Identifier(req.headers);
      var check := limiter.IsRateLimited(identifier, now);
      match check {
        case EmptyLogIndexError =>
          gated := Answered(Unhandled, limiter.log);
        case Limited(resetIn) =>
          gated := Answered(RateLimitedResponse(id, limiter.limit, resetIn), limiter.log);
        case Admitted =>
          gated := Forwarded(id, screened.methodName, screened.params, limiter.log);
      }
    }

    /** Steps 6 to 8 of an admitted `execute`: validate, call the agent,
        wrap its answer. */
    method CallAgent(id: Value, params: Option<Value>, v: Validators, minted: Fresh, env: Review.Env) returns (response: Response)
      modifies memory
      ensures (response, memory.conversations) == ExecuteCall(id, params, v, minted, old(memory.conversations), bot.groqApiKey, env)
    {
      if params.None? {
        return InvalidParamsError(id, "'params'");
      }
      var parsed := v.execute(params.value);
      if parsed.ValidationFailed? {
        return InvalidParamsError(id, parsed.details);
      }
      var reply := bot.ProcessMessages(memory, parsed.value.messages, GatewayIds(parsed.value, minted), env);
      match reply {
        case Raised(key) =>
          response := ServerFailure(id, "'" + key + "'");
        case Finished(result) =>
          response := Response(200, None, ResultReply(id, result));
      }
    }

    /** `a2a_endpoint(request)` at time `now`. */
    method Handle(req: Request, now: int, v: Validators, minted: Fresh, env: Review.Env) returns (response: Response)
      requires limiter.Valid()
      modifies limiter, memory
      ensures limiter.Valid()
      ensures Exchange(response, limiter.log, memory.conversations)
           == Endpoint(limiter.limit, old(limiter.log), old(memory.conversations), bot.groqApiKey, req, now, v, minted, env)
    {
      var gated := Admit(req, now);
      if gated.Answered? {
        return gated.response;
      }
      if gated.methodName == "message/send" {
        return SendCall(gated.id, gated.params, v);
      }
      response := CallAgent(gated.id, gated.params, v, minted, env);
    }
  }
}
