/**
 * The error path of the enhanced legacy service
 * (manga-reader/src/services/mangadx-enhanced.ts): a response interceptor
 * that hands a failed request, once, to `handleApiError`, which retries a
 * CORS or network failure through public CORS proxies before giving up with
 * a user-facing message. The proxy requests themselves are network I/O; their
 * outcomes are inputs here. The service's catalog helpers are those of
 * MangadxService.
 */
module EnhancedService {
  import opened Js

  const ApiOrigin := "https://api.mangadex.org"
  const CorsProxies: seq<string> := ["https://api.allorigins.win/raw?url=", "https://thingproxy.freeboard.io/fetch/"]
  const MaxRetries := 2
  const ConnectivityMessage :=
    "Unable to connect to the manga API. This may be due to network restrictions on your hosting provider."

  /** Build-time environment: `NODE_ENV === 'production'` and the Vercel detection. */
  datatype Env = Env(production: bool, vercel: bool)

  /** The error looks like a blocked cross-origin or network failure. */
  predicate ConnectivityError(message: string) {
    Includes(message, "CORS") || Includes(message, "Network Error")
  }

  /** The guard in front of the proxy fallback. */
  predicate ProxyEligible(message: string, retryCount: nat, env: Env) {
    ConnectivityError(message) && retryCount < MaxRetries && env.production && !env.vercel
  }

  /** A relative request path is resolved against the API origin before proxying. */
  function AbsoluteUrl(url: string): (r: string)
    ensures StartsWith(r, "http")
    ensures StartsWith(url, "http") ==> r == url
    ensures !StartsWith(url, "http") ==> r == ApiOrigin + url
  {
    if StartsWith(url, "http") then url else ApiOrigin + url
  }

  /** The proxy request of attempt `k`: proxy prefix followed by the encoded absolute URL. */
  function ProxyRequest(k: nat, url: string, encode: string -> string): string
    requires k < |CorsProxies|
  {
    CorsProxies[k] + encode(AbsoluteUrl(url))
  }

  datatype Outcome = Recovered(proxyIndex: nat) | Thrown(message: string)

  /** The proxy requests issued, in order, and how the error handling ends. */
  datatype Recovery = Recovery(requests: seq<string>, outcome: Outcome)

  /** Whether the request through proxy `k` succeeded (a missing answer counts as a failure). */
  predicate ProxySucceeds(answers: seq<bool>, k: nat) {
    k < |answers| && answers[k]
  }

  /** The message thrown when no proxy succeeded or none was tried. */
  function FinalMessage(message: string): string {
    if ConnectivityError(message) then ConnectivityMessage else "API request failed: " + message
  }

  /**
   * `handleApiError(error, originalConfig, retryCount)`: while eligible, try
   * proxy `retryCount`; on its failure recurse with `retryCount + 1`; when
   * no longer eligible, throw the final message.
   */
  function HandleApiError(message: string, url: string, env: Env, encode: string -> string,
                          answers: seq<bool>, retryCount: nat := 0): (r: Recovery)
    requires retryCount <= MaxRetries
    decreases MaxRetries - retryCount
    ensures retryCount + |r.requests| <= MaxRetries
    ensures forall k :: 0 <= k < |r.requests| ==> r.requests[k] == ProxyRequest(retryCount + k, url, encode)
    ensures forall k :: retryCount <= k < retryCount + |r.requests| - 1 ==> !ProxySucceeds(answers, k)
    ensures !ProxyEligible(message, retryCount, env) ==> r == Recovery([], Thrown(FinalMessage(message)))
    ensures ProxyEligible(message, retryCount, env) ==> |r.requests| >= 1
    ensures ProxyEligible(message, retryCount, env) && r.outcome.Thrown? ==> retryCount + |r.requests| == MaxRetries
    ensures r.outcome.Recovered? ==> |r.requests| > 0 && r.outcome.proxyIndex == retryCount + |r.requests| - 1
                                     && ProxySucceeds(answers, r.outcome.proxyIndex)
    ensures r.outcome.Thrown? ==> r.outcome.message == FinalMessage(message)
                                  && forall k :: retryCount <= k < retryCount + |r.requests| ==> !ProxySucceeds(answers, k)
  {
    if ProxyEligible(message, retryCount, env) && retryCount < |CorsProxies| then
      var request := ProxyRequest(retryCount, url, encode);
      if ProxySucceeds(answers, retryCount) then
        Recovery([request], Recovered(retryCount))
      else
        var rest := HandleApiError(message, url, env, encode, answers, retryCount + 1);
        Recovery([request] + rest.requests, rest.outcome)
    else
      Recovery([], Thrown(FinalMessage(message)))
  }

  /**
   * Starting from the interceptor's first call, at most two proxy requests
   * are made, through the two proxies in list order, and the original URL
   * stays the target of each.
   */
  lemma AtMostTwoProxyAttempts(message: string, url: string, env: Env, encode: string -> string, answers: seq<bool>)
    ensures var r := HandleApiError(message, url, env, encode, answers);
            |r.requests| <= 2
            && (|r.requests| >= 1 ==> r.requests[0] == CorsProxies[0] + encode(AbsoluteUrl(url)))
            && (|r.requests| == 2 ==> r.requests[1] == CorsProxies[1] + encode(AbsoluteUrl(url)))
  {
  }

  /**
   * During a CORS failure in a production build outside Vercel, with every
   * proxy down, both proxies are tried in order and the connectivity message
   * is thrown.
   */
  lemma AllProxiesDown(url: string, encode: string -> string, answers: seq<bool>)
    requires forall k :: 0 <= k < |answers| ==> !answers[k]
    ensures HandleApiError("CORS", url, Env(true, false), encode, answers)
            == Recovery([CorsProxies[0] + encode(AbsoluteUrl(url)), CorsProxies[1] + encode(AbsoluteUrl(url))],
                        Thrown(ConnectivityMessage))
  {
    assert Includes("CORS", "CORS");
  }

  /** When the second proxy answers after the first failed, it is the one recovered through. */
  lemma SecondProxyRecovers(message: string, url: string, env: Env, encode: string -> string, answers: seq<bool>)
    requires ProxyEligible(message, 0, env)
    requires |answers| >= 2 && !answers[0] && answers[1]
    ensures HandleApiError(message, url, env, encode, answers).outcome == Recovered(1)
  {
  }

  /** A request configuration; `_retry` marks one already handed to the error handler. */
  class RequestConfig {
    const url: string
    var retried: bool

    constructor (url: string)
      ensures this.url == url && !retried
    {
      this.url := url;
      retried := false;
    }
  }

  datatype Rejection = Handled(recovery: Recovery) | PassedOn

  /**
   * The response interceptor's error branch: the first failure of a request
   * goes to `handleApiError` and marks the request; any later one is
   * rejected unchanged.
   */
  method OnResponseError(config: RequestConfig, message: string, env: Env, encode: string -> string, answers: seq<bool>)
    returns (r: Rejection)
    modifies config
    ensures config.retried
    ensures old(config.retried) ==> r == PassedOn
    ensures !old(config.retried) ==> r == Handled(HandleApiError(message, config.url, env, encode, answers))
  {
    if !config.retried {
      config.retried := true;
      r := Handled(HandleApiError(message, config.url, env, encode, answers));
    } else {
      r := PassedOn;
    }
  }

  /** Two failures of one request: only the first reaches the error handler. */
  method FailTwice(config: RequestConfig, message: string, env: Env, encode: string -> string, answers: seq<bool>)
    returns (first: Rejection, second: Rejection)
    requires !config.retried
    modifies config
    ensures first.Handled? && second == PassedOn
  {
    first := OnResponseError(config, message, env, encode, answers);
    second := OnResponseError(config, message, env, encode, answers);
  }
}
