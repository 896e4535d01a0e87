/**
 * The client's backend access of frontend/src/lib/api.ts: the base URL chosen
 * by the build environment, the error message of `apiCall`, the bounded
 * retry loop with linear back-off of `fetchWithRetry`, and the health check
 * built on it. `fetch` is an oracle from a URL and the attempt number to a
 * response or a thrown error; the waits are recorded, not slept.
 */
module Api {
  import opened Wrappers
  import opened Text

  // ---------------------------------------------------------------- base URL

  /** What the build sees: `VITE_API_BASE_URL`, if defined, and the `PROD` flag. */
  datatype Env = Env(apiBaseUrl: Option<string>, prod: bool)

  const ProductionUrl: string := "https://myformatterfriend.onrender.com/api"
  const DevelopmentUrl: string := "http://localhost:5000/api"

  /** A configured URL counts only when it is a non-empty string (JavaScript truthiness). */
  predicate Configured(env: Env) {
    env.apiBaseUrl.Some? && env.apiBaseUrl.value != ""
  }

  /** `getBaseUrl`: the configured URL, else the production URL in production builds, else the local one. */
  function GetBaseUrl(env: Env): (url: string)
    ensures Configured(env) ==> url == env.apiBaseUrl.value
    ensures !Configured(env) && env.prod ==> url == ProductionUrl
    ensures !Configured(env) && !env.prod ==> url == DevelopmentUrl
  {
    if Configured(env) then env.apiBaseUrl.value
    else if env.prod then ProductionUrl
    else DevelopmentUrl
  }

  /** The base URL is never empty, and ignores `PROD` whenever an address is configured. */
  lemma BaseUrlNeverEmpty(env: Env)
    ensures GetBaseUrl(env) != ""
    ensures Configured(env) ==> GetBaseUrl(env) == GetBaseUrl(env.(prod := !env.prod))
  {
  }

  // ------------------------------------------------------------------ fetch

  /** A response: its status, status text, and the `error` field of its JSON body, if it has one. */
  datatype HttpResponse = HttpResponse(status: nat, statusText: string, errorField: Option<string>)
  {
    /** `response.ok`: a 2xx status. */
    predicate Ok() {
      200 <= status <= 299
    }
  }

  /** What a call of `fetch` ends with: a response, or a thrown error with its message. */
  datatype FetchOutcome = Responded(response: HttpResponse) | Threw(message: string)

  /** `fetch`: the outcome of the attempt numbered by the second argument for the URL. */
  type Fetcher = (string, nat) -> FetchOutcome

  // ---------------------------------------------------------------- apiCall

  /** The message `apiCall` throws for a failed response: the body's `error` when truthy, else the status line. */
  function ErrorMessage(response: HttpResponse): string {
    if response.errorField.Some? && response.errorField.value != "" then response.errorField.value
    else "HTTP " + NatToString(response.status) + ": " + response.statusText
  }

  /** `apiCall`: one fetch of the base URL followed by the endpoint; a failed response becomes a thrown error. */
  function ApiCall(baseUrl: string, endpoint: string, fetch: Fetcher): (r: FetchOutcome)
    ensures r.Responded? ==> r.response.Ok() && r == fetch(baseUrl + endpoint, 0)
    ensures fetch(baseUrl + endpoint, 0).Threw? ==> r == fetch(baseUrl + endpoint, 0)
    ensures fetch(baseUrl + endpoint, 0).Responded? && !fetch(baseUrl + endpoint, 0).response.Ok() ==>
      r == Threw(ErrorMessage(fetch(baseUrl + endpoint, 0).response))
  {
    match fetch(baseUrl + endpoint, 0)
    case Threw(message) => Threw(message)
    case Responded(response) => if response.Ok() then Responded(response) else Threw(ErrorMessage(response))
  }

  predicate AllDigits(s: string) {
    forall i :: 0 <= i < |s| ==> '0' <= s[i] <= '9'
  }

  /** In digits followed by ": ", the first ':' comes right after the digits. */
  lemma ColonAfterDigits(d: string, t: string)
    requires AllDigits(d)
    ensures (d + (": " + t))[|d|] == ':'
    ensures forall k :: 0 <= k < |d| ==> (d + (": " + t))[k] != ':'
  {
  }

  /** Digits followed by ": " can be split at the first ':' only one way. */
  lemma DigitsBeforeColon(d1: string, t1: string, d2: string, t2: string)
    requires AllDigits(d1) && AllDigits(d2)
    requires d1 + (": " + t1) == d2 + (": " + t2)
    ensures d1 == d2
  {
    ColonAfterDigits(d1, t1);
    ColonAfterDigits(d2, t2);
    var m := d1 + (": " + t1);
    assert |d1| == |d2|;
    assert d1 == m[..|d1|];
  }

  /** Without an `error` field, the message tells the statuses apart: the digits end where ": " begins. */
  lemma StatusLineNamesStatus(r1: HttpResponse, r2: HttpResponse)
    requires r1.errorField.None? && r2.errorField.None?
    requires ErrorMessage(r1) == ErrorMessage(r2)
    ensures r1.status == r2.status
  {
    var d1, d2 := NatToString(r1.status), NatToString(r2.status);
    AppendAssoc("HTTP " + d1, ": ", r1.statusText);
    AppendAssoc("HTTP ", d1, ": " + r1.statusText);
    AppendAssoc("HTTP " + d2, ": ", r2.statusText);
    AppendAssoc("HTTP ", d2, ": " + r2.statusText);
    var m1, m2 := d1 + (": " + r1.statusText), d2 + (": " + r2.statusText);
    assert m1 == ("HTTP " + m1)[5..] && m2 == ("HTTP " + m2)[5..];
    DigitsBeforeColon(d1, r1.statusText, d2, r2.statusText);
    NatToStringRoundTrip(r1.status);
    NatToStringRoundTrip(r2.status);
  }

  // --------------------------------------------------------- fetchWithRetry

  const MaxRetriesExceeded: string := "Max retries exceeded"

  /** The wait after attempt `i` fails in a way worth retrying: (i + 1) seconds times two, in milliseconds. */
  function Backoff(i: nat): nat {
    (i + 1) * 2000
  }

  /** The outcomes worth another attempt: a thrown error, or a 502 or 503 from a backend still waking up. */
  predicate Retryable(outcome: FetchOutcome) {
    outcome.Threw? || outcome.response.status == 502 || outcome.response.status == 503
  }

  /** The end of a run of attempts: its outcome, how many fetches it made, and the waits, in order. */
  datatype Retrying = Retrying(result: FetchOutcome, fetches: nat, delays: seq<nat>)

  /**
   * The attempts from number `i` on: an ok response, or a failed one other
   * than 502 and 503, is returned; a 502 or 503 waits and tries again; a
   * thrown error is rethrown on the last attempt and otherwise waits and
   * tries again; past the last attempt the run throws `Max retries exceeded`.
   */
  function RetryFrom(url: string, retries: int, fetch: Fetcher, i: nat): Retrying
    decreases retries - i
  {
    if i >= retries then Retrying(Threw(MaxRetriesExceeded), 0, [])
    else
      var outcome := fetch(url, i);
      if outcome.Responded? && outcome.response.Ok() then Retrying(outcome, 1, [])
      else if !Retryable(outcome) then Retrying(outcome, 1, [])
      else if outcome.Threw? && i == retries - 1 then Retrying(outcome, 1, [])
      else
        var rest := RetryFrom(url, retries, fetch, i + 1);
        Retrying(rest.result, 1 + rest.fetches, [Backoff(i)] + rest.delays)
  }

  /** A run of attempts after `fetches` earlier fetches that waited `delays`. */
  function After(fetches: nat, delays: seq<nat>, rest: Retrying): Retrying {
    Retrying(rest.result, fetches + rest.fetches, delays + rest.delays)
  }

  /** The number of attempts when the caller gives none. */
  const DefaultRetries: int := 3

  /** `fetchWithRetry(url, options, retries = 3)`. */
  method FetchWithRetry(url: string, fetch: Fetcher, retries: int := DefaultRetries)
    returns (result: FetchOutcome, fetches: nat, delays: seq<nat>)
    ensures Retrying(result, fetches, delays) == RetryFrom(url, retries, fetch, 0)
  {
    var i: nat := 0;
    delays := [];
    while i < retries
      invariant |delays| == i
      invariant After(i, delays, RetryFrom(url, retries, fetch, i)) == RetryFrom(url, retries, fetch, 0)
      decreases retries - i
    {
      var outcome := fetch(url, i);
      if outcome.Responded? {
        if outcome.response.Ok() {
          return outcome, i + 1, delays;
        }
        if outcome.response.status != 502 && outcome.response.status != 503 {
          return outcome, i + 1, delays;
        }
      } else if i == retries - 1 {
        return outcome, i + 1, delays;
      }
      ghost var rest := RetryFrom(url, retries, fetch, i + 1);
      assert delays + ([Backoff(i)] + rest.delays) == delays + [Backoff(i)] + rest.delays;
      delays := delays + [Backoff(i)];
      i := i + 1;
    }
    return Threw(MaxRetriesExceeded), i, delays;
  }

  /** The `n` waits of the linear back-off from attempt `i` on: 2000 (i + 1), 2000 (i + 2), … milliseconds. */
  function Backoffs(i: nat, n: nat): (ds: seq<nat>)
    ensures |ds| == n
    decreases n
  {
    if n == 0 then [] else [Backoff(i)] + Backoffs(i + 1, n - 1)
  }

  lemma {:induction false} BackoffsAt(i: nat, n: nat, k: nat)
    requires k < n
    ensures Backoffs(i, n)[k] == Backoff(i + k)
    decreases k
  {
    if k > 0 {
      BackoffsAt(i + 1, n - 1, k - 1);
    }
  }

  /** Attempts from `i` on fetch at most once per remaining attempt, wait (k + 1) · 2 s after attempt k, and wait only after a fetch. */
  lemma {:induction false} RetryBounds(url: string, retries: int, fetch: Fetcher, i: nat)
    ensures RetryFrom(url, retries, fetch, i).fetches <= (if i < retries then retries - i else 0)
    ensures RetryFrom(url, retries, fetch, i).delays == Backoffs(i, |RetryFrom(url, retries, fetch, i).delays|)
    ensures |RetryFrom(url, retries, fetch, i).delays| <= RetryFrom(url, retries, fetch, i).fetches
    decreases retries - i
  {
    if i < retries {
      var outcome := fetch(url, i);
      if !(outcome.Responded? && outcome.response.Ok()) && Retryable(outcome) && !(outcome.Threw? && i == retries - 1) {
        RetryBounds(url, retries, fetch, i + 1);
      }
    }
  }

  /** A call with the default count fetches at most three times and waits at most 2 s, 4 s and 6 s. */
  lemma DefaultAttemptsBounded(url: string, fetch: Fetcher)
    ensures RetryFrom(url, DefaultRetries, fetch, 0).fetches <= 3
    ensures |RetryFrom(url, DefaultRetries, fetch, 0).delays| <= 3
    ensures forall k :: 0 <= k < |RetryFrom(url, DefaultRetries, fetch, 0).delays| ==>
      RetryFrom(url, DefaultRetries, fetch, 0).delays[k] == (k + 1) * 2000
  {
    RetryBounds(url, DefaultRetries, fetch, 0);
    AttemptsBounded(url, DefaultRetries, fetch);
  }

  /** `fetchWithRetry` makes at most `retries` fetches (none when `retries` is not positive), and waits 2 s, 4 s, 6 s, … */
  lemma AttemptsBounded(url: string, retries: int, fetch: Fetcher)
    ensures RetryFrom(url, retries, fetch, 0).fetches <= (if retries > 0 then retries else 0)
    ensures forall k :: 0 <= k < |RetryFrom(url, retries, fetch, 0).delays| ==>
      RetryFrom(url, retries, fetch, 0).delays[k] == (k + 1) * 2000
  {
    RetryBounds(url, retries, fetch, 0);
    var delays := RetryFrom(url, retries, fetch, 0).delays;
    forall k | 0 <= k < |delays|
      ensures delays[k] == (k + 1) * 2000
    {
      BackoffsAt(0, |delays|, k);
    }
  }

  /**
   * When the attempts before `j` all failed in a retryable way (and none of
   * them was the last), the first attempt `j` whose outcome is an ok
   * response or a failed response other than 502 and 503 is what the run
   * returns, after j + 1 fetches and the waits of the j attempts before it.
   */
  lemma {:induction false} FirstDecisiveAnswerReturned(url: string, retries: int, fetch: Fetcher, j: nat, i: nat)
    requires i <= j < retries
    requires forall k :: i <= k < j ==> Retryable(fetch(url, k))
    requires fetch(url, j).Responded? && (fetch(url, j).response.Ok() || !Retryable(fetch(url, j)))
    ensures RetryFrom(url, retries, fetch, i) == Retrying(fetch(url, j), j - i + 1, Backoffs(i, j - i))
    decreases j - i
  {
    if i < j {
      FirstDecisiveAnswerReturned(url, retries, fetch, j, i + 1);
      var rest := RetryFrom(url, retries, fetch, i + 1);
      assert [Backoff(i)] + rest.delays == Backoffs(i, j - i);
    }
  }

  /** An error thrown by the last attempt, after retryable failures only, is rethrown as it is. */
  lemma {:induction false} LastErrorRethrown(url: string, retries: int, fetch: Fetcher, i: nat)
    requires i < retries
    requires forall k :: i <= k < retries - 1 ==> Retryable(fetch(url, k))
    requires fetch(url, retries - 1).Threw?
    ensures RetryFrom(url, retries, fetch, i) == Retrying(fetch(url, retries - 1), retries - i, Backoffs(i, retries - 1 - i))
    decreases retries - i
  {
    if i < retries - 1 {
      LastErrorRethrown(url, retries, fetch, i + 1);
      var rest := RetryFrom(url, retries, fetch, i + 1);
      assert [Backoff(i)] + rest.delays == Backoffs(i, retries - 1 - i);
    }
  }

  /**
   * When every attempt from `i` on answers 502 or 503, the run waits after
   * each, the last one included, and throws `Max retries exceeded`; with no
   * attempts left it throws at once without a fetch.
   */
  lemma {:induction false} WakingBackendExhaustsRetries(url: string, retries: int, fetch: Fetcher, i: nat)
    requires forall k :: i <= k < retries ==> fetch(url, k).Responded? && fetch(url, k).response.status in {502, 503}
    ensures RetryFrom(url, retries, fetch, i)
         == Retrying(Threw(MaxRetriesExceeded), if i < retries then retries - i else 0,
                     Backoffs(i, if i < retries then retries - i else 0))
    decreases retries - i
  {
    if i < retries {
      WakingBackendExhaustsRetries(url, retries, fetch, i + 1);
      var rest := RetryFrom(url, retries, fetch, i + 1);
      assert [Backoff(i)] + rest.delays == Backoffs(i, retries - i);
    }
  }

  // ----------------------------------------------------- checkBackendHealth

  const HealthEndpoint: string := "/health"

  /** `checkBackendHealth`: two attempts at the health endpoint; true for an ok response, false for any other end, a throw included. */
  function CheckBackendHealth(baseUrl: string, fetch: Fetcher): bool {
    var run := RetryFrom(baseUrl + HealthEndpoint, 2, fetch, 0);
    run.result.Responded? && run.result.response.Ok()
  }

  /** The backend is healthy exactly when the first health fetch is ok, or it fails retryably and the second is ok. */
  lemma HealthyIffOkWithinTwo(baseUrl: string, fetch: Fetcher)
    ensures var url := baseUrl + HealthEndpoint;
      CheckBackendHealth(baseUrl, fetch) <==>
        (fetch(url, 0).Responded? && fetch(url, 0).response.Ok())
        || (Retryable(fetch(url, 0)) && fetch(url, 1).Responded? && fetch(url, 1).response.Ok())
  {
    var url := baseUrl + HealthEndpoint;
    assert RetryFrom(url, 2, fetch, 2).result == Threw(MaxRetriesExceeded);
  }
}
