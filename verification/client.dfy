/**
 * The client configuration and the transport core of client.go: constructor
 * defaulting, the retry loop over HTTP attempts and the handling of the final
 * status.  The network is abstracted as a function that gives the outcome of
 * attempt i for a prepared request; sleeping is recorded as a list of waits.
 */
module Client {
  import opened Types

  const Endpoint := "https://api.mistral.ai"
  const CodestralEndpoint := "https://codestral.mistral.ai"
  const DefaultMaxRetries := 5
  /** Durations are in nanoseconds, as Go's time.Duration. */
  const Second := 1_000_000_000
  const DefaultTimeout := 120 * Second
  /** The statuses after which an attempt is repeated. */
  const RetryStatusCodes: set<int> := {429, 500, 502, 503, 504}

  /** The immutable configuration every request of one client shares. */
  datatype MistralClient = MistralClient(apiKey: string, endpoint: string, maxRetries: int, timeout: int)

  /** os.Getenv: the empty string for an unset variable. */
  function Getenv(env: map<string, string>, name: string): string
  {
    if name in env then env[name] else ""
  }

  /** NewMistralClient: every zero-valued argument is replaced by its default. */
  function NewMistralClient(apiKey: string, endpoint: string, maxRetries: int, timeout: int,
                            env: map<string, string>): (c: MistralClient)
    ensures apiKey != "" ==> c.apiKey == apiKey
    ensures apiKey == "" ==> c.apiKey == Getenv(env, "MISTRAL_API_KEY")
    ensures c.endpoint != "" && (endpoint != "" ==> c.endpoint == endpoint)
    ensures endpoint == "" ==> c.endpoint == Endpoint
    ensures c.maxRetries != 0 && (maxRetries != 0 ==> c.maxRetries == maxRetries)
    ensures maxRetries == 0 ==> c.maxRetries == DefaultMaxRetries
    ensures c.timeout != 0 && (timeout != 0 ==> c.timeout == timeout)
    ensures timeout == 0 ==> c.timeout == DefaultTimeout
  {
    var key := if apiKey == "" then Getenv(env, "MISTRAL_API_KEY") else apiKey;
    var url := if endpoint == "" then Endpoint else endpoint;
    var retries := if maxRetries == 0 then DefaultMaxRetries else maxRetries;
    var limit := if timeout == 0 then DefaultTimeout else timeout;
    MistralClient(key, url, retries, limit)
  }

  /** Constructing again from a client's own settings changes nothing. */
  lemma NewMistralClientIdempotent(apiKey: string, endpoint: string, maxRetries: int, timeout: int,
                                   env: map<string, string>)
    ensures var c := NewMistralClient(apiKey, endpoint, maxRetries, timeout, env);
            NewMistralClient(c.apiKey, c.endpoint, c.maxRetries, c.timeout, env) == c
  {
  }

  function NewMistralClientDefault(apiKey: string, env: map<string, string>): (c: MistralClient)
    ensures c.endpoint == Endpoint && c.maxRetries == DefaultMaxRetries && c.timeout == DefaultTimeout
    ensures apiKey != "" ==> c.apiKey == apiKey
    ensures apiKey == "" ==> c.apiKey == Getenv(env, "MISTRAL_API_KEY")
  {
    var key := if apiKey == "" then Getenv(env, "MISTRAL_API_KEY") else apiKey;
    NewMistralClient(key, Endpoint, DefaultMaxRetries, DefaultTimeout, env)
  }

  /**
   * The Codestral client reads CODESTRAL_API_KEY; when that is unset too, the
   * constructor it delegates to falls back to MISTRAL_API_KEY.
   */
  function NewCodestralClientDefault(apiKey: string, env: map<string, string>): (c: MistralClient)
    ensures c.endpoint == CodestralEndpoint && c.maxRetries == DefaultMaxRetries && c.timeout == DefaultTimeout
    ensures apiKey != "" ==> c.apiKey == apiKey
    ensures apiKey == "" && Getenv(env, "CODESTRAL_API_KEY") != "" ==> c.apiKey == Getenv(env, "CODESTRAL_API_KEY")
    ensures apiKey == "" && Getenv(env, "CODESTRAL_API_KEY") == "" ==> c.apiKey == Getenv(env, "MISTRAL_API_KEY")
  {
    var key := if apiKey == "" then Getenv(env, "CODESTRAL_API_KEY") else apiKey;
    NewMistralClient(key, CodestralEndpoint, DefaultMaxRetries, DefaultTimeout, env)
  }

  // ---------------------------------------------------------------------------
  // Requests, responses and the outcome of one attempt

  /** What a typed method asks the transport for. */
  datatype Call = Call(verb: string, path: string, data: RequestData, stream: bool)

  /** The request sent on every attempt, headers included. */
  datatype HttpRequest = HttpRequest(verb: string, endpoint: string, path: string,
                                     headers: map<string, string>, data: RequestData, timeout: int)

  /**
   * How reading a body ends: at end of input, after a final fragment that has
   * no line break, or with a read error after some partial data.
   */
  datatype StreamEnd = Eof(fragment: string) | ReadFailure(partial: string, cause: string)

  /** A response body, as the successive complete lines a line reader returns and how it ends. */
  datatype ResponseBody = ResponseBody(lines: seq<string>, end: StreamEnd)

  datatype Response = Response(status: int, body: ResponseBody)

  /** The outcome of one attempt: the transport failed, or a response arrived. */
  datatype Outcome = ConnErr(cause: string) | Responded(resp: Response)

  /** The transport's answer to a typed method. */
  datatype Reply = Failed(error: Error) | StreamBody(body: ResponseBody) | Parsed(obj: JsonObject)

  function Prepare(c: MistralClient, call: Call): (req: HttpRequest)
    ensures req.headers.Keys == {"Authorization", "Content-Type"}
    ensures req.headers["Authorization"] == "Bearer " + c.apiKey
    ensures req.headers["Content-Type"] == "application/json"
    ensures req.verb == call.verb && req.endpoint == c.endpoint && req.path == call.path
    ensures req.data == call.data && req.timeout == c.timeout
  {
    HttpRequest(call.verb, c.endpoint, call.path,
                map["Authorization" := "Bearer " + c.apiKey, "Content-Type" := "application/json"],
                call.data, c.timeout)
  }

  function Concat(lines: seq<string>): string
  {
    if lines == [] then "" else lines[0] + Concat(lines[1..])
  }

  /** io.ReadAll: all text read, and the read error if reading stopped on one. */
  function ReadAll(body: ResponseBody): (string, Option<string>)
  {
    match body.end
    case Eof(fragment) => (Concat(body.lines) + fragment, None)
    case ReadFailure(partial, cause) => (Concat(body.lines) + partial, Some(cause))
  }

  // ---------------------------------------------------------------------------
  // The retry policy, as a specification

  /** The wait, in milliseconds, after a retryable status on attempt i (counted from 0). */
  function BackoffMs(i: nat): (ms: nat)
    ensures ms >= 500 && ms % 500 == 0
  {
    (i + 1) * 500
  }

  /** True when the loop goes on after this outcome. */
  predicate Retried(o: Outcome)
  {
    o.ConnErr? || o.resp.status in RetryStatusCodes
  }

  /** How the loop ended: a connection error on the last attempt, or with `resp` (possibly nil). */
  datatype LoopEnd = GaveUp(cause: string) | Settled(resp: Option<Response>)

  /** Attempts made, waits slept (in order) and how the loop ended. */
  datatype Trace = Trace(attempts: nat, waits: seq<nat>, end: LoopEnd)

  function Delayed(w: seq<nat>, t: Trace): Trace
  {
    t.(waits := w + t.waits)
  }

  /**
   * The retry loop from attempt i on, with `last` the current value of `resp`.
   * A connection error leaves `resp` nil and is retried at once; a retryable
   * status waits and is retried; anything else stops the loop.
   */
  function RetryFrom(n: int, req: HttpRequest, server: (HttpRequest, nat) -> Outcome,
                     i: nat, last: Option<Response>): Trace
    decreases n - i
  {
    if n <= i then Trace(i, [], Settled(last))
    else match server(req, i)
      case ConnErr(e) =>
        if i == n - 1 then Trace(i + 1, [], GaveUp(e))
        else RetryFrom(n, req, server, i + 1, None)
      case Responded(r) =>
        if r.status in RetryStatusCodes then Delayed([BackoffMs(i)], RetryFrom(n, req, server, i + 1, Some(r)))
        else Trace(i + 1, [], Settled(Some(r)))
  }

  /** The status handling after the loop. */
  function Dispatch(end: LoopEnd, stream: bool, parse: string -> Option<JsonObject>): Reply
  {
    match end
    case GaveUp(e) => Failed(ConnectionError(e))
    case Settled(None) => Failed(NilResponse)
    case Settled(Some(r)) =>
      var (text, readErr) := ReadAll(r.body);
      if r.status >= 400 then Failed(HttpError(r.status, text))
      else if stream then StreamBody(r.body)
      else if readErr.Some? then Failed(ReadError(readErr.value))
      else match parse(text)
        case None => Failed(JsonError)
        case Some(obj) => Parsed(obj)
  }

  datatype Exchange = Exchange(attempts: nat, waits: seq<nat>, reply: Reply)

  /** What one call of `request` does, as a function of its inputs. */
  function Perform(c: MistralClient, call: Call, server: (HttpRequest, nat) -> Outcome,
                   parse: string -> Option<JsonObject>): Exchange
  {
    var t := RetryFrom(c.maxRetries, Prepare(c, call), server, 0, None);
    Exchange(t.attempts, t.waits, Dispatch(t.end, call.stream, parse))
  }

  // ---------------------------------------------------------------------------
  // The transport core

  /**
   * request: at most maxRetries attempts of the same prepared request, then
   * the status handling.  `waits` records each sleep in milliseconds.
   */
  method Request(c: MistralClient, call: Call, server: (HttpRequest, nat) -> Outcome,
                 parse: string -> Option<JsonObject>)
    returns (attempts: nat, waits: seq<nat>, reply: Reply)
    ensures Exchange(attempts, waits, reply) == Perform(c, call, server, parse)
  {
    var req := Prepare(c, call);
    ghost var whole := RetryFrom(c.maxRetries, req, server, 0, None);
    var resp: Option<Response> := None;
    attempts, waits := 0, [];
    var i: nat := 0;
    while i < c.maxRetries
      invariant attempts == i
      invariant whole == Delayed(waits, RetryFrom(c.maxRetries, req, server, i, resp))
      decreases c.maxRetries - i
    {
      var outcome := server(req, i);
      attempts := i + 1;
      if outcome.ConnErr? {
        resp := None;
        if i == c.maxRetries - 1 {
          reply := Failed(ConnectionError(outcome.cause));
          return;
        }
        i := i + 1;
        continue;
      }
      resp := Some(outcome.resp);
      if outcome.resp.status in RetryStatusCodes {
        waits := waits + [BackoffMs(i)];
        i := i + 1;
        continue;
      }
      break;
    }
    assert whole == Trace(attempts, waits, Settled(resp));

    if resp.None? {
      reply := Failed(NilResponse);
      return;
    }
    var r := resp.value;
    var (text, readErr) := ReadAll(r.body);
    if r.status >= 400 {
      reply := Failed(HttpError(r.status, text));
      return;
    }
    if call.stream {
      reply := StreamBody(r.body);
      return;
    }
    if readErr.Some? {
      reply := Failed(ReadError(readErr.value));
      return;
    }
    match parse(text)
    case None => reply := Failed(JsonError);
    case Some(obj) => reply := Parsed(obj);
  }
  // ---------------------------------------------------------------------------
  // Properties of the retry policy

  /** The waits for attempts i..k-1: one per retryable status, none per connection error. */
  function Backoffs(req: HttpRequest, server: (HttpRequest, nat) -> Outcome, i: nat, k: nat): seq<nat>
    decreases k - i
  {
    if k <= i then []
    else
      var o := server(req, i);
      (if o.Responded? && o.resp.status in RetryStatusCodes then [BackoffMs(i)] else [])
      + Backoffs(req, server, i + 1, k)
  }

  /** The loop from attempt i on: where it stops, why, and what it waits. */
  lemma {:induction false} RetryFromShape(n: int, req: HttpRequest, server: (HttpRequest, nat) -> Outcome,
                                          i: nat, last: Option<Response>)
    requires i < n
    ensures var t := RetryFrom(n, req, server, i, last);
            && i < t.attempts <= n
            && t.waits == Backoffs(req, server, i, t.attempts)
            && (forall j | i <= j < t.attempts - 1 :: Retried(server(req, j)))
            && (t.attempts < n ==> !Retried(server(req, t.attempts - 1)))
            && (t.end.GaveUp? ==> t.attempts == n && server(req, n - 1) == ConnErr(t.end.cause))
            && (t.end.Settled? ==> t.end.resp.Some? && server(req, t.attempts - 1) == Responded(t.end.resp.value))
    decreases n - i
  {
    match server(req, i)
    case ConnErr(e) =>
      if i < n - 1 {
        RetryFromShape(n, req, server, i + 1, None);
      }
    case Responded(r) =>
      if r.status in RetryStatusCodes && i < n - 1 {
        RetryFromShape(n, req, server, i + 1, Some(r));
      }
  }

  /**
   * With at least one attempt allowed: at most maxRetries attempts; every
   * attempt but the last failed to connect or got a retryable status; the
   * loop stops early only at a status that is not retryable; the waits are
   * exactly those after retryable statuses; and the reply follows from the
   * last outcome alone, a retryable status left when attempts run out
   * included.
   */
  lemma RetryPolicy(c: MistralClient, call: Call, server: (HttpRequest, nat) -> Outcome,
                    parse: string -> Option<JsonObject>)
    requires c.maxRetries >= 1
    ensures var x := Perform(c, call, server, parse);
            var req := Prepare(c, call);
            && 1 <= x.attempts <= c.maxRetries
            && x.waits == Backoffs(req, server, 0, x.attempts)
            && (forall j | 0 <= j < x.attempts - 1 :: Retried(server(req, j)))
            && (x.attempts < c.maxRetries ==> !Retried(server(req, x.attempts - 1)))
            && x.reply != Failed(NilResponse)
            && var last := server(req, x.attempts - 1);
               && (last.ConnErr? ==> x.attempts == c.maxRetries && x.reply == Failed(ConnectionError(last.cause)))
               && (last.Responded? && last.resp.status >= 400 ==>
                     x.reply == Failed(HttpError(last.resp.status, ReadAll(last.resp.body).0)))
               && (last.Responded? && last.resp.status < 400 && call.stream ==>
                     x.reply == StreamBody(last.resp.body))
               && (last.Responded? && last.resp.status < 400 && !call.stream ==>
                     x.reply == Dispatch(Settled(Some(last.resp)), false, parse))
  {
    RetryFromShape(c.maxRetries, Prepare(c, call), server, 0, None);
  }

  /** The nil-pointer panic happens exactly when no attempt is allowed. */
  lemma NilResponseIffNoAttempts(c: MistralClient, call: Call, server: (HttpRequest, nat) -> Outcome,
                                 parse: string -> Option<JsonObject>)
    ensures Perform(c, call, server, parse).reply == Failed(NilResponse) <==> c.maxRetries <= 0
    ensures c.maxRetries <= 0 ==> Perform(c, call, server, parse) == Exchange(0, [], Failed(NilResponse))
  {
    if c.maxRetries >= 1 {
      RetryPolicy(c, call, server, parse);
    }
  }

  /** Every wait lies between lo and hi. */
  predicate Within(w: seq<nat>, lo: int, hi: int)
  {
    forall a | 0 <= a < |w| :: lo <= w[a] <= hi
  }

  predicate StrictlyIncreasing(w: seq<nat>)
  {
    forall a, b | 0 <= a < b < |w| :: w[a] < w[b]
  }

  lemma {:induction false} BackoffsIncrease(req: HttpRequest, server: (HttpRequest, nat) -> Outcome, i: nat, k: nat)
    ensures Within(Backoffs(req, server, i, k), BackoffMs(i), 500 * k)
    ensures StrictlyIncreasing(Backoffs(req, server, i, k))
    decreases k - i
  {
    if i < k {
      BackoffsIncrease(req, server, i + 1, k);
      var rest := Backoffs(req, server, i + 1, k);
      assert Within(rest, BackoffMs(i + 1), 500 * k);
      var o := server(req, i);
      if o.Responded? && o.resp.status in RetryStatusCodes {
        var w := [BackoffMs(i)] + rest;
        assert Backoffs(req, server, i, k) == w;
        forall a, b | 0 <= a < b < |w| ensures w[a] < w[b] {
          assert w[b] == rest[b - 1] && BackoffMs(i + 1) <= rest[b - 1];
          if a > 0 {
            assert w[a] == rest[a - 1];
          }
        }
      } else {
        assert Backoffs(req, server, i, k) == rest;
      }
    }
  }

  /** The waits strictly increase, each a multiple of 500 ms and none above maxRetries x 500 ms. */
  lemma WaitsIncrease(c: MistralClient, call: Call, server: (HttpRequest, nat) -> Outcome,
                      parse: string -> Option<JsonObject>)
    ensures var w := Perform(c, call, server, parse).waits;
            && (forall a | 0 <= a < |w| :: w[a] % 500 == 0)
            && Within(w, 500, 500 * c.maxRetries)
            && StrictlyIncreasing(w)
  {
    var x := Perform(c, call, server, parse);
    if c.maxRetries >= 1 {
      RetryPolicy(c, call, server, parse);
      BackoffsIncrease(Prepare(c, call), server, 0, x.attempts);
      BackoffsMultiples(Prepare(c, call), server, 0, x.attempts);
      forall a | 0 <= a < |x.waits| ensures x.waits[a] % 500 == 0 && x.waits[a] <= 500 * c.maxRetries {
        assert x.waits[a] in x.waits;
      }
    }
  }

  lemma {:induction false} BackoffsMultiples(req: HttpRequest, server: (HttpRequest, nat) -> Outcome, i: nat, k: nat)
    ensures forall w | w in Backoffs(req, server, i, k) :: w % 500 == 0
    decreases k - i
  {
    if i < k {
      BackoffsMultiples(req, server, i + 1, k);
    }
  }

  lemma {:induction false} BackoffsAllRetryable(req: HttpRequest, server: (HttpRequest, nat) -> Outcome, i: nat, k: nat)
    requires i <= k
    requires forall j | i <= j < k :: server(req, j).Responded? && server(req, j).resp.status in RetryStatusCodes
    ensures Backoffs(req, server, i, k) == seq(k - i, j requires 0 <= j < k - i => BackoffMs(i + j))
    decreases k - i
  {
    if i < k {
      BackoffsAllRetryable(req, server, i + 1, k);
    }
  }

  lemma {:induction false} BackoffsNoneRetryable(req: HttpRequest, server: (HttpRequest, nat) -> Outcome, i: nat, k: nat)
    requires forall j | i <= j < k :: server(req, j).ConnErr?
    ensures Backoffs(req, server, i, k) == []
    decreases k - i
  {
    if i < k {
      BackoffsNoneRetryable(req, server, i + 1, k);
    }
  }

  /**
   * Retryable statuses on every attempt: all maxRetries attempts are made,
   * the waits are 500, 1000, ... ms (one after the last attempt too), and the
   * result is an HTTP error with the last status, not a connection error.
   */
  lemma ExhaustedRetryableIsHttpError(c: MistralClient, call: Call, server: (HttpRequest, nat) -> Outcome,
                                      parse: string -> Option<JsonObject>)
    requires c.maxRetries >= 1
    requires forall j | 0 <= j < c.maxRetries ::
               server(Prepare(c, call), j).Responded? && server(Prepare(c, call), j).resp.status in RetryStatusCodes
    ensures var x := Perform(c, call, server, parse);
            var r := server(Prepare(c, call), c.maxRetries - 1).resp;
            && x.attempts == c.maxRetries
            && x.waits == seq(c.maxRetries, j requires 0 <= j < c.maxRetries => BackoffMs(j))
            && x.reply == Failed(HttpError(r.status, ReadAll(r.body).0))
  {
    var x := Perform(c, call, server, parse);
    RetryPolicy(c, call, server, parse);
    BackoffsAllRetryable(Prepare(c, call), server, 0, c.maxRetries);
  }

  /**
   * Connection errors on attempts 0..k-1, then a status that is not
   * retryable: k + 1 attempts and no wait at all.
   */
  lemma ConnectionErrorsRetryWithoutWait(c: MistralClient, call: Call, server: (HttpRequest, nat) -> Outcome,
                                         parse: string -> Option<JsonObject>, k: nat)
    requires k < c.maxRetries
    requires forall j | 0 <= j < k :: server(Prepare(c, call), j).ConnErr?
    requires server(Prepare(c, call), k).Responded? && server(Prepare(c, call), k).resp.status !in RetryStatusCodes
    ensures var x := Perform(c, call, server, parse);
            x.attempts == k + 1 && x.waits == []
  {
    var req := Prepare(c, call);
    var x := Perform(c, call, server, parse);
    RetryPolicy(c, call, server, parse);
    assert x.attempts == k + 1;
    BackoffsNoneRetryable(req, server, 0, k);
    assert Backoffs(req, server, 0, k + 1) == Backoffs(req, server, 0, k) by {
      BackoffsSplit(req, server, 0, k);
    }
  }

  lemma {:induction false} BackoffsSplit(req: HttpRequest, server: (HttpRequest, nat) -> Outcome, i: nat, k: nat)
    requires i <= k
    ensures Backoffs(req, server, i, k + 1) ==
            Backoffs(req, server, i, k)
            + (if server(req, k).Responded? && server(req, k).resp.status in RetryStatusCodes then [BackoffMs(k)] else [])
    decreases k - i
  {
    if i < k {
      BackoffsSplit(req, server, i + 1, k);
    }
  }

  /** A final status of 400 or more that is not retryable on the first attempt: one attempt, no wait. */
  lemma TerminalStatusNotRetried(c: MistralClient, call: Call, server: (HttpRequest, nat) -> Outcome,
                                 parse: string -> Option<JsonObject>)
    requires c.maxRetries >= 1
    requires server(Prepare(c, call), 0).Responded?
    requires var r := server(Prepare(c, call), 0).resp; r.status >= 400 && r.status !in RetryStatusCodes
    ensures var r := server(Prepare(c, call), 0).resp;
            Perform(c, call, server, parse) == Exchange(1, [], Failed(HttpError(r.status, ReadAll(r.body).0)))
  {
  }

  /** A buffered call never gets the raw body back; a streaming call never a parsed object. */
  lemma ReplyMatchesMode(c: MistralClient, call: Call, server: (HttpRequest, nat) -> Outcome,
                         parse: string -> Option<JsonObject>)
    ensures !call.stream ==> !Perform(c, call, server, parse).reply.StreamBody?
    ensures call.stream ==> !Perform(c, call, server, parse).reply.Parsed?
    ensures Perform(c, call, server, parse).reply != Failed(InvalidResponseType)
    ensures Perform(c, call, server, parse).reply != Failed(MappingError)
  {
  }
}
