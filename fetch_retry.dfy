/**
 * `fetchWithRetry` of templates/js/utils.js: one logical request, retried on
 * network failures, unparsable bodies and 5xx responses while the retry budget
 * lasts. `fetch`, the abort controller and the timers are replaced by a
 * transport function that gives the outcome of each attempt, and by a trace of
 * the fetch calls and waits the request performs.
 */
module FetchRetry {
  import opened Base
  import opened Strings

  /** What one `fetch` call, followed by `response.json()` when the response is ok, yields. */
  datatype Outcome =
    | Response(status: int, json: Option<string>)  // `json` is None when `response.json()` rejects
    | NetworkFailure                               // `fetch` rejects with a TypeError
    | Aborted                                      // the controller fired: the per-attempt timeout

  /** The error object an attempt throws. */
  datatype FetchError =
    | HttpStatus(status: int)  // `new Error("HTTP ...")` with `error.status` set
    | BadJson                  // SyntaxError from `response.json()`
    | Network                  // TypeError from `fetch`
    | AbortError               // DOMException named AbortError
    | ApiUndefined             // TypeError from reading `CONFIG.API.RETRY_COUNT` for the retry warning

  function ErrorName(e: FetchError): string
  {
    match e
    case HttpStatus(_) => "Error"
    case BadJson => "SyntaxError"
    case Network => "TypeError"
    case AbortError => "AbortError"
    case ApiUndefined => "TypeError"
  }

  /** `error.status`: only the HTTP error carries one. */
  function ErrorStatus(e: FetchError): Option<int>
  {
    if e.HttpStatus? then Some(e.status) else None
  }

  /** `response.ok`. */
  predicate IsOk(status: int)
  {
    200 <= status <= 299
  }

  /** How a single attempt ends: the parsed body, or the error it throws. */
  function Settle(o: Outcome): Result<string, FetchError>
  {
    match o
    case Response(status, json) =>
      if !IsOk(status) then Failure(HttpStatus(status))
      else if json.Some? then Success(json.value)
      else Failure(BadJson)
    case NetworkFailure => Failure(Network)
    case Aborted => Failure(AbortError)
  }

  /** The retry test without its budget term: `!error.name?.includes('Abort') && (!error.status || error.status >= 500)`. */
  predicate RetryableError(e: FetchError)
  {
    var status := ErrorStatus(e);
    !Contains(ErrorName(e), "Abort") && (status.None? || status.value == 0 || status.value >= 500)
  }

  /** `shouldRetry`. */
  predicate ShouldRetry(retries: int, e: FetchError)
  {
    retries > 0 && RetryableError(e)
  }

  /** An attempt outcome after which the request is tried again if budget remains. */
  predicate RetryableOutcome(o: Outcome)
  {
    var settled := Settle(o);
    settled.Failure? && RetryableError(settled.error)
  }

  /** Which thrown errors the rule retries: transport errors without a status, unparsable bodies,
      status 0 and 5xx and above; never an abort and never a status from 1 to 499. */
  lemma RetryableErrorClasses(e: FetchError)
    ensures RetryableError(e) <==>
      match e
      case HttpStatus(s) => s == 0 || s >= 500
      case BadJson => true
      case Network => true
      case AbortError => false
      case ApiUndefined => true
  {
    match e
    case HttpStatus(_) => AbsentCharNotContained("Error", "Abort", 0);
    case BadJson => AbsentCharNotContained("SyntaxError", "Abort", 0);
    case Network => AbsentCharNotContained("TypeError", "Abort", 0);
    case AbortError => assert OccursAt("AbortError", "Abort", 0);
    case ApiUndefined => AbsentCharNotContained("TypeError", "Abort", 0);
  }

  /** Which attempt outcomes are retried: a network failure, an ok response whose body is not JSON,
      or a non-ok response with status 0 or at least 500. */
  lemma RetryableOutcomeClasses(o: Outcome)
    ensures RetryableOutcome(o) <==>
      o.NetworkFailure? ||
      (o.Response? && IsOk(o.status) && o.json.None?) ||
      (o.Response? && !IsOk(o.status) && (o.status == 0 || o.status >= 500))
  {
    var settled := Settle(o);
    if settled.Failure? {
      RetryableErrorClasses(settled.error);
    }
  }

  /** The number of fetch calls a request may make with `retries` retries left. */
  function MaxAttempts(retries: int): nat
  {
    if retries > 0 then retries + 1 else 1
  }

  datatype Signal = CallerSignal(id: nat) | ControllerSignal

  /** The `options` object of a `fetch` call: the fields the wrapper reads or writes. */
  datatype RequestInit = RequestInit(
    httpMethod: Option<string>,
    body: Option<string>,
    headers: map<string, string>,
    signal: Option<Signal>)

  /** The options actually sent: the caller's, with the controller's signal and a
      JSON content type the caller's headers may override. */
  function SentInit(options: RequestInit): (r: RequestInit)
    ensures r.httpMethod == options.httpMethod && r.body == options.body
    ensures r.signal == Some(ControllerSignal)
    ensures r.headers.Keys == options.headers.Keys + {"Content-Type"}
    ensures forall h :: h in options.headers ==> r.headers[h] == options.headers[h]
    ensures "Content-Type" !in options.headers ==> r.headers["Content-Type"] == "application/json"
  {
    options.(signal := Some(ControllerSignal),
             headers := map["Content-Type" := "application/json"] + options.headers)
  }

  /** An observable step of one request: a fetch call armed with its timeout, or the wait before a retry. */
  datatype Event = Fetch(url: string, init: RequestInit, timeoutMs: int) | Wait(ms: int)

  /** A finished request: its result, what it did, and how many fetch calls it made. */
  datatype Run = Run(result: Result<string, FetchError>, trace: seq<Event>, attempts: nat)

  /** The number of fetch calls a run made. */
  function AttemptsMade(r: Run): nat
  {
    r.attempts
  }

  /** The trace alternates fetch calls and waits, starting and ending with a fetch call. */
  ghost predicate Alternates(trace: seq<Event>, fetch: Event, wait: Event)
  {
    |trace| % 2 == 1 &&
    forall i :: 0 <= i < |trace| ==> trace[i] == if i % 2 == 0 then fetch else wait
  }

  lemma AlternatesPrepend(trace: seq<Event>, fetch: Event, wait: Event)
    requires Alternates(trace, fetch, wait)
    ensures Alternates([fetch, wait] + trace, fetch, wait)
  {
    var t := [fetch, wait] + trace;
    forall i | 2 <= i < |t| ensures t[i] == if i % 2 == 0 then fetch else wait {
      assert t[i] == trace[i - 2];
    }
  }

  /**
   * One call `fetchWithRetry(url, options, retries)` whose first attempt is attempt
   * number `k` of the transport. Fetch calls and waits alternate, and at most
   * `retries + 1` fetch calls are made. When `CONFIG.API` is undefined (`apiDefined`
   * false), the warning written before a retry reads `CONFIG.API.RETRY_COUNT` and throws
   * a TypeError instead, so no retry happens.
   */
  function Attempts(url: string, options: RequestInit, retries: int, delay: int, timeout: int,
                    apiDefined: bool, transport: nat -> Outcome, k: nat): (r: Run)
    ensures Alternates(r.trace, Fetch(url, SentInit(options), timeout), Wait(delay))
    ensures |r.trace| == 2 * AttemptsMade(r) - 1
    ensures 1 <= AttemptsMade(r) <= MaxAttempts(retries)
    decreases if retries > 0 then retries else 0
  {
    var sent := Fetch(url, SentInit(options), timeout);
    var settled := Settle(transport(k));
    if settled.Failure? && ShouldRetry(retries, settled.error) then
      if !apiDefined then
        Run(Failure(ApiUndefined), [sent], 1)
      else
        var rest := Attempts(url, options, retries - 1, delay, timeout, apiDefined, transport, k + 1);
        AlternatesPrepend(rest.trace, sent, Wait(delay));
        Run(rest.result, [sent, Wait(delay)] + rest.trace, rest.attempts + 1)
    else
      Run(settled, [sent], 1)
  }

  /** With `CONFIG.API` defined, the result of a call is what its last attempt produced; every
      earlier error is dropped. */
  lemma {:induction false} AttemptsResult(url: string, options: RequestInit, retries: int, delay: int,
                                          timeout: int, apiDefined: bool, transport: nat -> Outcome, k: nat)
    ensures var r := Attempts(url, options, retries, delay, timeout, apiDefined, transport, k);
      apiDefined ==> r.result == Settle(transport(k + AttemptsMade(r) - 1))
    decreases if retries > 0 then retries else 0
  {
    var settled := Settle(transport(k));
    if settled.Failure? && ShouldRetry(retries, settled.error) && apiDefined {
      AttemptsResult(url, options, retries - 1, delay, timeout, apiDefined, transport, k + 1);
    }
  }

  /** Every attempt before the last one had an outcome the rule retries. */
  lemma {:induction false} AttemptsRetried(url: string, options: RequestInit, retries: int, delay: int,
                                           timeout: int, apiDefined: bool, transport: nat -> Outcome, k: nat)
    ensures var r := Attempts(url, options, retries, delay, timeout, apiDefined, transport, k);
      forall i :: k <= i < k + AttemptsMade(r) - 1 ==> RetryableOutcome(transport(i))
    decreases if retries > 0 then retries else 0
  {
    var settled := Settle(transport(k));
    if settled.Failure? && ShouldRetry(retries, settled.error) && apiDefined {
      AttemptsRetried(url, options, retries - 1, delay, timeout, apiDefined, transport, k + 1);
      assert RetryableOutcome(transport(k));
    }
  }

  /** With `CONFIG.API` defined, a call that stops before spending its whole budget `retries + 1`
      stops at an attempt whose outcome the rule does not retry. */
  lemma {:induction false} AttemptsStopped(url: string, options: RequestInit, retries: int, delay: int,
                                           timeout: int, apiDefined: bool, transport: nat -> Outcome, k: nat)
    ensures var r := Attempts(url, options, retries, delay, timeout, apiDefined, transport, k);
      apiDefined && AttemptsMade(r) < MaxAttempts(retries) ==> !RetryableOutcome(transport(k + AttemptsMade(r) - 1))
    decreases if retries > 0 then retries else 0
  {
    var settled := Settle(transport(k));
    if settled.Failure? && ShouldRetry(retries, settled.error) && apiDefined {
      AttemptsStopped(url, options, retries - 1, delay, timeout, apiDefined, transport, k + 1);
    }
  }

  /** With `CONFIG.API` undefined, one attempt is made, and an outcome the rule would retry
      ends the call with the TypeError of the warning instead. */
  lemma AttemptsWithoutApi(url: string, options: RequestInit, retries: int, delay: int,
                           timeout: int, apiDefined: bool, transport: nat -> Outcome, k: nat)
    ensures var r := Attempts(url, options, retries, delay, timeout, apiDefined, transport, k);
      !apiDefined ==>
        AttemptsMade(r) == 1 &&
        r.result == if RetryableOutcome(transport(k)) && retries > 0 then Failure(ApiUndefined) else Settle(transport(k))
  {
  }

  /** The fields of a defined `CONFIG.API` object the wrapper reads; a field is None when undefined. */
  datatype ApiSettings = ApiSettings(timeout: Option<int>, retryCount: Option<int>, retryDelay: Option<int>)

  /** What `CONFIG?.API?.<field>` reads: every field is undefined when `CONFIG.API` is (None). */
  function Fields(api: Option<ApiSettings>): ApiSettings
  {
    if api.Some? then api.value else ApiSettings(None, None, None)
  }

  /** JavaScript `setting || fallback` on a number: undefined and 0 fall back. */
  function OrDefault(setting: Option<int>, fallback: int): (v: int)
    ensures setting.Some? && setting.value != 0 ==> v == setting.value
    ensures setting.None? || setting.value == 0 ==> v == fallback
  {
    if setting.Some? && setting.value != 0 then setting.value else fallback
  }

  /** The retry count in effect: the explicit argument, or the configured count with 3 as fallback. */
  function EffectiveRetries(retries: Option<int>, api: ApiSettings): int
  {
    if retries.Some? then retries.value else OrDefault(api.retryCount, 3)
  }

  /** `fetchWithRetry(url, options, retries)`, where `retries` is None when the argument is omitted
      and `api` is None when `CONFIG.API` is undefined. */
  function FetchWithRetry(url: string, options: RequestInit, retries: Option<int>, api: Option<ApiSettings>,
                          transport: nat -> Outcome): (r: Run)
    ensures Alternates(r.trace, Fetch(url, SentInit(options), OrDefault(Fields(api).timeout, 10000)),
                       Wait(OrDefault(Fields(api).retryDelay, 1000)))
    ensures |r.trace| == 2 * AttemptsMade(r) - 1
    ensures 1 <= AttemptsMade(r) <= MaxAttempts(EffectiveRetries(retries, Fields(api)))
    ensures forall i :: 0 <= i < AttemptsMade(r) - 1 ==> RetryableOutcome(transport(i))
    ensures api.Some? && AttemptsMade(r) < MaxAttempts(EffectiveRetries(retries, Fields(api))) ==>
              !RetryableOutcome(transport(AttemptsMade(r) - 1))
    ensures api.Some? ==> r.result == Settle(transport(AttemptsMade(r) - 1))
    ensures api.None? ==> AttemptsMade(r) == 1
    ensures api.None? ==>
      r.result == if RetryableOutcome(transport(0)) && EffectiveRetries(retries, Fields(api)) > 0
                  then Failure(ApiUndefined) else Settle(transport(0))
  {
    var settings := Fields(api);
    var budget, delay, timeout := EffectiveRetries(retries, settings), OrDefault(settings.retryDelay, 1000), OrDefault(settings.timeout, 10000);
    AttemptsResult(url, options, budget, delay, timeout, api.Some?, transport, 0);
    AttemptsRetried(url, options, budget, delay, timeout, api.Some?, transport, 0);
    AttemptsStopped(url, options, budget, delay, timeout, api.Some?, transport, 0);
    AttemptsWithoutApi(url, options, budget, delay, timeout, api.Some?, transport, 0);
    Attempts(url, options, budget, delay, timeout, api.Some?, transport, 0)
  }

  /** The wait events of a trace. */
  function WaitsIn(trace: seq<Event>): nat
  {
    if trace == [] then 0 else (if trace[0].Wait? then 1 else 0) + WaitsIn(trace[1..])
  }

  /** In an alternating trace there is exactly one wait between consecutive fetch calls and
      none after the last: one wait fewer than fetch calls, and the trace ends with a fetch. */
  lemma {:induction false} WaitsBetweenAttempts(trace: seq<Event>, url: string, init: RequestInit, timeout: int, delay: int)
    requires Alternates(trace, Fetch(url, init, timeout), Wait(delay))
    ensures WaitsIn(trace) == (|trace| + 1) / 2 - 1
    ensures trace[|trace| - 1] == Fetch(url, init, timeout)
  {
    if |trace| > 1 {
      var rest := trace[2..];
      assert Alternates(rest, Fetch(url, init, timeout), Wait(delay)) by {
        forall i | 0 <= i < |rest| ensures rest[i] == if i % 2 == 0 then Fetch(url, init, timeout) else Wait(delay) {
          assert rest[i] == trace[i + 2];
        }
      }
      WaitsBetweenAttempts(rest, url, init, timeout, delay);
      assert trace[1..][1..] == rest;
    }
  }

  /** A response with status 1..499 that is not ok is thrown after that single fetch call. */
  lemma ClientErrorNotRetried(url: string, options: RequestInit, retries: Option<int>, api: Option<ApiSettings>,
                              transport: nat -> Outcome)
    requires transport(0).Response? && !IsOk(transport(0).status) && 0 < transport(0).status < 500
    ensures var r := FetchWithRetry(url, options, retries, api, transport);
      AttemptsMade(r) == 1 && r.result == Failure(HttpStatus(transport(0).status))
  {
    RetryableOutcomeClasses(transport(0));
  }

  /** An aborted attempt, such as one cut off by the per-attempt timeout, ends the request with
      the AbortError, however many retries are left. */
  lemma AbortEndsRequest(url: string, options: RequestInit, retries: Option<int>, api: Option<ApiSettings>,
                         transport: nat -> Outcome, j: nat)
    requires transport(j) == Aborted
    ensures var r := FetchWithRetry(url, options, retries, api, transport);
      AttemptsMade(r) <= j + 1 &&
      (AttemptsMade(r) == j + 1 ==> r.result == Failure(AbortError))
  {
    var r := FetchWithRetry(url, options, retries, api, transport);
    RetryableOutcomeClasses(transport(j));
    assert Settle(transport(j)) == Failure(AbortError) && !RetryableOutcome(transport(j));
    if api.None? {
      assert AttemptsMade(r) == 1;
    } else if AttemptsMade(r) == j + 1 {
      assert r.result == Settle(transport(j));
    }
  }

  /** A server that keeps answering with the same 5xx status consumes the whole budget, and that
      status is what the caller sees. */
  lemma PersistentServerErrorExhaustsBudget(url: string, options: RequestInit, retries: Option<int>,
                                            api: ApiSettings, transport: nat -> Outcome, status: int)
    requires status >= 500
    requires forall i :: transport(i).Response? && transport(i).status == status
    ensures var r := FetchWithRetry(url, options, retries, Some(api), transport);
      AttemptsMade(r) == MaxAttempts(EffectiveRetries(retries, api)) &&
      r.result == Failure(HttpStatus(status))
  {
    var r := FetchWithRetry(url, options, retries, Some(api), transport);
    RetryableOutcomeClasses(transport(AttemptsMade(r) - 1));
  }

  /** After `m` network failures, a request with at least `m` retries returns the first ok body. */
  lemma RecoversAfterNetworkFailures(url: string, options: RequestInit, retries: Option<int>,
                                     api: ApiSettings, transport: nat -> Outcome, m: nat, body: string)
    requires EffectiveRetries(retries, api) >= m
    requires forall i :: 0 <= i < m ==> transport(i) == NetworkFailure
    requires transport(m) == Response(200, Some(body))
    ensures var r := FetchWithRetry(url, options, retries, Some(api), transport);
      AttemptsMade(r) == m + 1 && r.result == Success(body)
  {
    var r := FetchWithRetry(url, options, retries, Some(api), transport);
    var n := AttemptsMade(r);
    if n - 1 < m {
      RetryableOutcomeClasses(transport(n - 1));
    }
    RetryableOutcomeClasses(transport(m));
  }

  /** An ok response whose body is not JSON is retried while retries remain. */
  lemma BadJsonRetried(url: string, options: RequestInit, retries: Option<int>, api: ApiSettings,
                       transport: nat -> Outcome)
    requires EffectiveRetries(retries, api) > 0
    requires transport(0).Response? && IsOk(transport(0).status) && transport(0).json.None?
    ensures AttemptsMade(FetchWithRetry(url, options, retries, Some(api), transport)) >= 2
  {
    RetryableOutcomeClasses(transport(0));
  }

  /** A successful run returns the body of the first ok, parsable response: every earlier attempt failed. */
  lemma SuccessIsFirstOkResponse(url: string, options: RequestInit, retries: Option<int>, api: Option<ApiSettings>,
                                 transport: nat -> Outcome)
    ensures var r := FetchWithRetry(url, options, retries, api, transport);
      r.result.Success? ==>
        (forall i :: 0 <= i < AttemptsMade(r) - 1 ==> Settle(transport(i)).Failure?) &&
        transport(AttemptsMade(r) - 1).Response? &&
        IsOk(transport(AttemptsMade(r) - 1).status) &&
        transport(AttemptsMade(r) - 1).json == Some(r.result.value)
  {
  }

  /** An explicit `retries` of 0 (or less) makes exactly one fetch call and no wait. */
  lemma NoRetriesOneAttempt(url: string, options: RequestInit, retries: int, api: Option<ApiSettings>,
                            transport: nat -> Outcome)
    requires retries <= 0
    ensures var r := FetchWithRetry(url, options, Some(retries), api, transport);
      |r.trace| == 1 && r.trace[0].Fetch? && r.result == Settle(transport(0))
  {
  }

  /** With `CONFIG.API` undefined the settings take their defaults, but the first outcome the
      rule would retry makes the retry warning throw: the call fails with that TypeError after a
      single fetch call, without waiting. */
  lemma MissingApiFailsOnFirstRetry(url: string, options: RequestInit, retries: Option<int>,
                                    transport: nat -> Outcome)
    requires retries.None? || retries.value > 0
    requires RetryableOutcome(transport(0))
    ensures var r := FetchWithRetry(url, options, retries, None, transport);
      r.trace == [Fetch(url, SentInit(options), 10000)] && r.result == Failure(ApiUndefined)
  {
    var r := FetchWithRetry(url, options, retries, None, transport);
    assert r.trace[0] == Fetch(url, SentInit(options), 10000);
  }

  /** The default argument goes through `||`: a configured retry count of 0 falls back to 3,
      so an omitted argument allows four fetch calls. */
  lemma ConfiguredZeroRetriesFallsBack(api: ApiSettings)
    requires api.retryCount == Some(0)
    ensures MaxAttempts(EffectiveRetries(None, api)) == 4
  {
  }
}
