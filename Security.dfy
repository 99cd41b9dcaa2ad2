/**
 * The API guards: bearer-token authentication and a fixed-window rate
 * limiter keyed by client address and token. The environment variables
 * and the request headers are parameters.
 */
module Security {
  import opened Common
  import opened Text

  // ---------------------------------------------------------------- requireAuth

  /** `AUTH_DISABLED`: no setting means disabled; otherwise "1" or "true" in any case. */
  function AuthDisabled(raw: Option<string>): (r: bool)
    ensures r <==> raw.None? || raw.value == "1" ||
                   (|raw.value| == 4 && forall k :: 0 <= k < 4 ==> LowerChar(raw.value[k]) == "true"[k])
  {
    raw.None? || Lower(raw.value) == "1" || Lower(raw.value) == "true"
  }

  /** `a ?? b ?? c` over the three token variables: the first that is set, even when empty. */
  function ConfiguredToken(a: Option<string>, b: Option<string>, c: Option<string>): Option<string>
  {
    if a.Some? then a else if b.Some? then b else c
  }

  datatype AuthOutcome = Pass | Reject(status: int, error: string)

  const NotConfigured := "Server auth token is not configured"
  const Unauthorized := "Unauthorized"
  const Bearer := "Bearer "

  /** `s.replace(t, u)` with a string pattern: only the first occurrence is replaced. */
  function ReplaceFirst(s: string, t: string, u: string): string
  {
    var i := IndexOf(s, t);
    if i < 0 then s else s[..i] + u + s[i + |t|..]
  }

  lemma ReplacePrefix(s: string, t: string)
    requires StartsWith(s, t)
    ensures ReplaceFirst(s, t, "") == s[|t|..]
  {
    assert OccursAt(s, t, 0);
  }

  /**
   * `requireAuth`: `disabled` is `AUTH_DISABLED`, `token` is `AUTH_TOKEN`
   * and `header` the `authorization` header.
   */
  function RequireAuth(disabled: bool, token: Option<string>, header: Option<string>): AuthOutcome
  {
    if disabled then Pass
    else if token.None? || token.value == "" then Reject(500, NotConfigured)
    else
      var h := header.GetOr("");
      if !StartsWith(h, Bearer) then Reject(401, Unauthorized)
      else if Trim(ReplaceFirst(h, Bearer, "")) != token.value then Reject(401, Unauthorized)
      else Pass
  }

  /**
   * A request passes exactly when authentication is disabled, or a token
   * is configured and the header is `Bearer ` followed by that token
   * (blanks around it ignored); an unconfigured token is a 500, anything
   * else a 401.
   */
  lemma RequireAuthCases(disabled: bool, token: Option<string>, header: Option<string>)
    ensures var r := RequireAuth(disabled, token, header);
            (r == Pass <==> disabled ||
                            (token.Some? && token.value != "" && header.Some? &&
                             StartsWith(header.value, Bearer) && Trim(header.value[|Bearer|..]) == token.value)) &&
            (r == Reject(500, NotConfigured) <==> !disabled && (token.None? || token.value == "")) &&
            (r.Reject? && r.status != 500 ==> r == Reject(401, Unauthorized))
  {
    var h := header.GetOr("");
    if StartsWith(h, Bearer) {
      ReplacePrefix(h, Bearer);
    }
  }

  /** The configured token itself, sent as a bearer token, is accepted. */
  lemma BearerAccepted(token: string)
    requires token != "" && IsTrimmed(token)
    ensures RequireAuth(false, Some(token), Some(Bearer + token)) == Pass
  {
    var h := Bearer + token;
    assert h[..|Bearer|] == Bearer && h[|Bearer|..] == token;
    ReplacePrefix(h, Bearer);
    TrimFixed(token);
  }

  // ---------------------------------------------------------------- the rate limiter

  /** `clientKey`: the first forwarded address (or "unknown") and the first 32 characters of the authorization header. */
  function ClientKey(forwarded: Option<string>, authorization: Option<string>): string
  {
    var ip := if forwarded.Some? then Trim(Split(forwarded.value, {','})[0]) else "";
    var auth := authorization.GetOr("");
    var token := if |auth| <= 32 then auth else auth[..32];
    (if ip != "" then ip else "unknown") + "|" + token
  }

  datatype RateEntry = RateEntry(count: int, resetTime: int)

  datatype Decision = Allow | Limited(retryAfterMs: int, retryAfterSeconds: int)

  /** `Math.ceil(d / 1000)` for a positive number of milliseconds. */
  function CeilSeconds(d: int): (r: int)
    requires d > 0
    ensures (r - 1) * 1000 < d <= r * 1000
  {
    (d + 999) / 1000
  }

  /** One request with key `key` at time `now`: the new store and the decision. */
  function Step(store: map<string, RateEntry>, key: string, now: int, windowMs: int, max: int): (map<string, RateEntry>, Decision)
  {
    if key in store && now < store[key].resetTime then
      var existing := store[key];
      if existing.count >= max then (store, Limited(existing.resetTime - now, CeilSeconds(existing.resetTime - now)))
      else (store[key := existing.(count := existing.count + 1)], Allow)
    else (store[key := RateEntry(1, now + windowMs)], Allow)
  }

  /** Only the requesting key's entry changes, and the decision depends on that entry alone. */
  lemma StepIsolated(store: map<string, RateEntry>, other: map<string, RateEntry>, key: string, now: int, windowMs: int, max: int)
    requires (key in store <==> key in other) && (key in store ==> store[key] == other[key])
    ensures var s := Step(store, key, now, windowMs, max).0;
            forall k :: k != key ==> (k in s <==> k in store) && (k in store ==> s[k] == store[k])
    ensures Step(store, key, now, windowMs, max).1 == Step(other, key, now, windowMs, max).1
  {
  }

  /** The first request of a new window is allowed and starts the count at 1. */
  lemma NewWindow(store: map<string, RateEntry>, key: string, now: int, windowMs: int, max: int)
    requires key !in store || now >= store[key].resetTime
    ensures Step(store, key, now, windowMs, max) == (store[key := RateEntry(1, now + windowMs)], Allow)
  {
  }

  /** Within a window a request is allowed exactly while fewer than `max` have been counted, and then the count grows by one. */
  lemma InWindow(store: map<string, RateEntry>, key: string, now: int, windowMs: int, max: int)
    requires key in store && now < store[key].resetTime
    ensures var (s, d) := Step(store, key, now, windowMs, max);
            (d == Allow <==> store[key].count < max) &&
            key in s && s[key].resetTime == store[key].resetTime &&
            s[key].count == store[key].count + (if d == Allow then 1 else 0) &&
            (d.Limited? ==> d.retryAfterMs == store[key].resetTime - now && d.retryAfterSeconds >= 1)
  {
  }

  /** A run of requests with one key: the final store and how many were allowed. */
  function Run(store: map<string, RateEntry>, key: string, nows: seq<int>, windowMs: int, max: int): (map<string, RateEntry>, nat)
  {
    if |nows| == 0 then (store, 0)
    else
      var (s, n) := Run(store, key, nows[..|nows| - 1], windowMs, max);
      var (s2, d) := Step(s, key, nows[|nows| - 1], windowMs, max);
      (s2, n + (if d == Allow then 1 else 0))
  }

  /**
   * While a key's window lasts, every allowed request adds one to its
   * count and the count never passes `max` (or its value when the run
   * began, if that was already higher): so a run allows at most `max`
   * minus what was already counted.
   */
  lemma {:induction false} WindowLimit(store: map<string, RateEntry>, key: string, nows: seq<int>, windowMs: int, max: int)
    requires key in store
    requires forall k :: 0 <= k < |nows| ==> nows[k] < store[key].resetTime
    ensures var (s, n) := Run(store, key, nows, windowMs, max);
            key in s && s[key].resetTime == store[key].resetTime &&
            s[key].count == store[key].count + n &&
            s[key].count <= MaxInt(store[key].count, max) &&
            n <= MaxInt(max - store[key].count, 0)
  {
    if |nows| > 0 {
      var init := nows[..|nows| - 1];
      WindowLimit(store, key, init, windowMs, max);
      var (s, n) := Run(store, key, init, windowMs, max);
      InWindow(s, key, nows[|nows| - 1], windowMs, max);
    }
  }

  /** From the first request of a window until it ends, at most `max` requests (and always the first) are allowed. */
  lemma AtMostMaxPerWindow(store: map<string, RateEntry>, key: string, first: int, nows: seq<int>, windowMs: int, max: int)
    requires key !in store || first >= store[key].resetTime
    requires forall k :: 0 <= k < |nows| ==> nows[k] < first + windowMs
    ensures 1 + Run(Step(store, key, first, windowMs, max).0, key, nows, windowMs, max).1 <= MaxInt(max, 1)
  {
    NewWindow(store, key, first, windowMs, max);
    WindowLimit(Step(store, key, first, windowMs, max).0, key, nows, windowMs, max);
  }

  /** The limiter `createRateLimiter` returns, with its store. */
  class RateLimiter {
    const windowMs: int
    const max: int
    var store: map<string, RateEntry>

    constructor(windowMs: int, max: int)
      ensures this.windowMs == windowMs && this.max == max && store == map[]
    {
      this.windowMs := windowMs;
      this.max := max;
      store := map[];
    }

    /** One request; `now` is `Date.now()`. */
    method Check(forwarded: Option<string>, authorization: Option<string>, now: int) returns (d: Decision)
      modifies this
      ensures (store, d) == Step(old(store), ClientKey(forwarded, authorization), now, windowMs, max)
    {
      var key := ClientKey(forwarded, authorization);
      if key in store && now < store[key].resetTime {
        var existing := store[key];
        if existing.count >= max {
          return Limited(existing.resetTime - now, CeilSeconds(existing.resetTime - now));
        }
        store := store[key := existing.(count := existing.count + 1)];
        return Allow;
      }
      store := store[key := RateEntry(1, now + windowMs)];
      return Allow;
    }
  }
}
