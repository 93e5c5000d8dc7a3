/**
  The request gates of internal/middlewares/security.go: the body-size
  limit, the production origin check, the per-client fixed-window rate
  limiter and the security response headers.

  `env` is the value of the ENV variable and `flutterURL` that of
  FLUTTER_URL; both are read per request in the source and are parameters
  here. Store faults of the rate limiter are parameters as well.
 */
module Security {
  import opened Wrappers
  import opened KeyValue

  /** What a middleware does with a request: hand it on, or answer it with an error status. */
  datatype Verdict = Next | Reject(status: nat, message: string)

  const Production := "production"

  // ---------------------------------------------------------------------
  // Request size

  /** 10 MiB. */
  const MaxRequestSize: int := 10 * 1024 * 1024

  /** HTTP 413 Content Too Large (section 15.5.14 of RFC 9110). */
  const StatusContentTooLarge: nat := 413

  /**
    Requests with a body-carrying method (POST, PUT, PATCH, matched
    case-sensitively) whose declared length exceeds 10 MiB are refused;
    `contentLength` is -1 when the length is unknown.
   */
  function RequestSizeLimit(verb: string, contentLength: int): (v: Verdict)
    ensures v.Reject? <==> (verb in {"POST", "PUT", "PATCH"} && contentLength > MaxRequestSize)
    ensures v.Reject? ==> v.status == StatusContentTooLarge
  {
    if (verb == "POST" || verb == "PUT" || verb == "PATCH") && contentLength > MaxRequestSize
    then Reject(StatusContentTooLarge, "Request body too large")
    else Next
  }

  /** The boundaries: exactly 10 MiB, an unknown length, another method and a lower-case method all pass. */
  lemma RequestSizeBoundaries()
    ensures RequestSizeLimit("POST", 10_485_760) == Next
    ensures RequestSizeLimit("POST", 10_485_761).Reject?
    ensures RequestSizeLimit("PUT", -1) == Next
    ensures RequestSizeLimit("GET", 20_000_000) == Next
    ensures RequestSizeLimit("post", 20_000_000) == Next
  {
  }

  // ---------------------------------------------------------------------
  // Production origin check

  /** HTTP 403 Forbidden. */
  const StatusForbidden: nat := 403

  /**
    Outside production every request passes. In production a request passes
    when its Origin or its Referer header equals FLUTTER_URL; an absent
    header reads as "".
   */
  function ProductionURL(env: string, origin: string, referer: string, flutterURL: string): (v: Verdict)
    ensures v == Next <==> (env != Production || origin == flutterURL || referer == flutterURL)
    ensures v != Next ==> v == Reject(StatusForbidden, "Access denied")
  {
    if env == Production && origin != flutterURL && referer != flutterURL
    then Reject(StatusForbidden, "Access denied")
    else Next
  }

  /** With FLUTTER_URL unset, a production request without an Origin header passes. */
  lemma UnsetFlutterURLAdmitsMissingOrigin(referer: string)
    ensures ProductionURL(Production, "", referer, "") == Next
  {
  }

  // ---------------------------------------------------------------------
  // Rate limiting

  /** HTTP 429 Too Many Requests (section 4 of RFC 6585). */
  const StatusTooManyRequests: nat := 429

  const RateLimitPrefix := "rate_limit:"

  /** The lifetime the first request of a window gives its counter. */
  const RateWindowMs: nat := 500

  /** The counter key of a client: the X-Forwarded-For header when non-empty, else the remote address. */
  function ClientKey(remoteAddr: string, forwardedFor: string): string
  {
    RateLimitPrefix + (if forwardedFor != "" then forwardedFor else remoteAddr)
  }

  /**
    One production request against the counters. A failed read lets the
    request through (fail-open). An absent key is set to 1 with a 500 ms
    lifetime and the request passes; a stored value of at least 1 rejects
    it and leaves the counter alone; a smaller value is incremented, keeping
    its lifetime, and the request passes. The results of the Set and Incr
    writes are not checked: a failed write (`writeFails`) leaves the
    counters as they were and the request still passes.
   */
  function RateStep(counters: map<string, Counter>, key: string, readFails: bool, writeFails: bool): (r: (Verdict, map<string, Counter>))
    ensures r.0.Reject? <==> !readFails && key in counters && counters[key].value >= 1
    ensures r.0.Reject? ==> r.0.status == StatusTooManyRequests && r.1 == counters
    ensures readFails || writeFails ==> r.1 == counters
    ensures !readFails && !writeFails && key !in counters ==> r.1 == counters[key := Counter(1, Some(RateWindowMs))]
    ensures key in counters ==> key in r.1 && r.1[key].lifetimeMs == counters[key].lifetimeMs && r.1[key].value >= counters[key].value
    ensures key in counters && counters[key].value >= 1 ==> r.1 == counters
    ensures forall k :: k != key ==> (k in r.1 <==> k in counters) && (k in counters ==> r.1[k] == counters[k])
  {
    if readFails then (Next, counters)
    else if key !in counters then
      (Next, if writeFails then counters else counters[key := Counter(1, Some(RateWindowMs))])
    else if counters[key].value >= 1 then (Reject(StatusTooManyRequests, "Rate limit exceeded"), counters)
    else (Next, if writeFails then counters else counters[key := counters[key].(value := counters[key].value + 1)])
  }

  /** Every stored counter is at least 1, as the limiter itself leaves them. */
  ghost predicate AllPositive(counters: map<string, Counter>)
  {
    forall k :: k in counters ==> counters[k].value >= 1
  }

  /** The counters after fault-free production requests from the clients `keys`, in order. */
  function Replay(counters: map<string, Counter>, keys: seq<string>): map<string, Counter>
    decreases |keys|
  {
    if keys == [] then counters else Replay(RateStep(counters, keys[0], false, false).1, keys[1..])
  }

  /** How many of those requests from client key `k` pass. */
  function Passes(counters: map<string, Counter>, keys: seq<string>, k: string): nat
    decreases |keys|
  {
    if keys == [] then 0
    else
      var step := RateStep(counters, keys[0], false, false);
      (if keys[0] == k && step.0 == Next then 1 else 0) + Passes(step.1, keys[1..], k)
  }

  /**
    Within one window (no counter expires in between) and without store
    faults, at most one request per client passes: one if the client had no
    counter, none if it had.
   */
  lemma {:induction false} AtMostOnePerWindow(counters: map<string, Counter>, keys: seq<string>, k: string)
    requires AllPositive(counters)
    ensures Passes(counters, keys, k) <= (if k in counters then 0 else 1)
    decreases |keys|
  {
    if keys != [] {
      var next := RateStep(counters, keys[0], false, false).1;
      assert AllPositive(next);
      AtMostOnePerWindow(next, keys[1..], k);
      if keys[0] == k && k !in counters {
        assert k in next;
      }
    }
  }

  /**
    Rejected requests do not extend the window: a client's counter that is
    present stays exactly as it was, lifetime included, however many
    requests follow.
   */
  lemma {:induction false} WindowNotExtended(counters: map<string, Counter>, keys: seq<string>, k: string)
    requires AllPositive(counters) && k in counters
    ensures k in Replay(counters, keys) && Replay(counters, keys)[k] == counters[k]
    decreases |keys|
  {
    if keys != [] {
      var next := RateStep(counters, keys[0], false, false).1;
      assert AllPositive(next);
      WindowNotExtended(next, keys[1..], k);
    }
  }

  /** The rate limiter's view of the store: one counter per client key. */
  class RateLimiter {
    var counters: map<string, Counter>

    constructor()
      ensures counters == map[]
    {
      counters := map[];
    }

    /**
      RateLimitMiddleware for one request. Outside production every request
      passes and the store is not consulted.
     */
    method Handle(env: string, remoteAddr: string, forwardedFor: string, readFails: bool, writeFails: bool) returns (v: Verdict)
      modifies this
      ensures env != Production ==> v == Next && counters == old(counters)
      ensures env == Production ==> (v, counters) == RateStep(old(counters), ClientKey(remoteAddr, forwardedFor), readFails, writeFails)
    {
      if env != Production {
        return Next;
      }
      var key := ClientKey(remoteAddr, forwardedFor);
      if readFails {
        return Next;
      }
      if key !in counters {
        if !writeFails {
          counters := counters[key := Counter(1, Some(RateWindowMs))];
        }
        return Next;
      }
      var val := counters[key].value;
      if val >= 1 {
        return Reject(StatusTooManyRequests, "Rate limit exceeded");
      }
      if !writeFails {
        counters := counters[key := counters[key].(value := val + 1)];
      }
      v := Next;
    }

    /** The lifetime of a client's counter runs out: the key disappears. */
    method Expire(key: string)
      modifies this
      ensures counters == old(counters) - {key}
    {
      counters := counters - {key};
    }
  }

  // ---------------------------------------------------------------------
  // Security headers

  /** A header key as `http.Header` accepts it: ASCII letters, digits and hyphens. */
  predicate HeaderToken(key: string)
  {
    forall i :: 0 <= i < |key| ==> ('a' <= key[i] <= 'z' || 'A' <= key[i] <= 'Z' || '0' <= key[i] <= '9' || key[i] == '-')
  }

  /**
    Go's `textproto.CanonicalMIMEHeaderKey` on such a key: the first letter
    and every letter after a hyphen upper-cased, all others lower-cased.
    `Header().Set` stores a header under this form.
   */
  function CanonicalKey(key: string): (r: string)
    requires HeaderToken(key)
    ensures |r| == |key|
  {
    seq(|key|, i requires 0 <= i < |key| =>
      if i == 0 || key[i - 1] == '-' then
        (if 'a' <= key[i] <= 'z' then (key[i] as int - 32) as char else key[i])
      else
        (if 'A' <= key[i] <= 'Z' then (key[i] as int + 32) as char else key[i]))
  }

  /** The keys of a response's headers, all in canonical form, as `http.Header` keeps them when written through `Set`. */
  const FrameOptions := "X-Frame-Options"
  const XSSProtection := "X-Xss-Protection"
  const ContentTypeOptions := "X-Content-Type-Options"
  const TransportSecurity := "Strict-Transport-Security"
  const ContentSecurityPolicy := "Content-Security-Policy"

  const CSPValue := "default-src 'self'; script-src 'self' 'unsafe-inline' 'unsafe-eval'; style-src 'self' 'unsafe-inline';"
  const HSTSValue := "max-age=31536000; includeSubDomains"

  /** "X-XSS-Protection", as the middleware spells it, is stored under "X-Xss-Protection". */
  lemma XSSKeyCanonical()
    ensures CanonicalKey("X-XSS-Protection") == XSSProtection
  {
    var k, c := "X-XSS-Protection", CanonicalKey("X-XSS-Protection");
    assert c[3] == 's' && c[4] == 's';
    assert c[0] == 'X' && c[1] == '-' && c[2] == 'X';
  }

  /** The middleware's other header names are already in canonical form, one lemma per name. */
  lemma FrameOptionsCanonical()
    ensures CanonicalKey(FrameOptions) == FrameOptions
  {
  }

  lemma ContentTypeOptionsCanonical()
    ensures CanonicalKey(ContentTypeOptions) == ContentTypeOptions
  {
  }

  lemma TransportSecurityCanonical()
    ensures CanonicalKey(TransportSecurity) == TransportSecurity
  {
  }

  lemma ContentSecurityPolicyCanonical()
    ensures CanonicalKey(ContentSecurityPolicy) == ContentSecurityPolicy
  {
  }

  /**
    The response headers after SecurityHeadersMiddleware, keyed canonically: four headers are
    always set, Strict-Transport-Security (RFC 6797) only in production, and
    every other header is left as it was.
   */
  function SecurityHeaders(headers: map<string, string>, env: string): (h: map<string, string>)
    ensures FrameOptions in h && h[FrameOptions] == "DENY"
    ensures XSSProtection in h && h[XSSProtection] == "1; mode=block"
    ensures ContentTypeOptions in h && h[ContentTypeOptions] == "nosniff"
    ensures ContentSecurityPolicy in h && h[ContentSecurityPolicy] == CSPValue
    ensures env == Production ==> TransportSecurity in h && h[TransportSecurity] == HSTSValue
    ensures env != Production ==> (TransportSecurity in h <==> TransportSecurity in headers)
    ensures forall k :: (k in headers && k != FrameOptions && k != XSSProtection && k != ContentTypeOptions && k != ContentSecurityPolicy
      && (k != TransportSecurity || env != Production)) ==> k in h && h[k] == headers[k]
    ensures forall k :: k in h ==> k in headers || k in {FrameOptions, XSSProtection, ContentTypeOptions, ContentSecurityPolicy, TransportSecurity}
  {
    var h := headers[FrameOptions := "DENY"][XSSProtection := "1; mode=block"][ContentTypeOptions := "nosniff"];
    var h := if env == Production then h[TransportSecurity := HSTSValue] else h;
    h[ContentSecurityPolicy := CSPValue]
  }
}
