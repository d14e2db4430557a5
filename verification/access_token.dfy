/**
 The access-token cache: the module-level `cachedToken` and `tokenExpiry`
 become an explicit state, and one call of `getAccessToken` becomes a
 transition that takes the clock reading `now` and the token endpoint's
 reply. The reply is consulted only when the cache misses.
 */
module AccessToken {
  import opened JsValue
  import opened Errors

  /** `tokenExpiry`: `null` before the first fetch, then a number of
      milliseconds, or `NaN` when `expires_in` was not a number. */
  datatype Expiry = Unset | At(ms: int) | NotANumber

  predicate ExpiryTruthy(e: Expiry) {
    e.At? && e.ms != 0
  }

  datatype Cache = Cache(token: Json, expiry: Expiry)

  /** Both variables start as `null`. */
  const Initial: Cache := Cache(Null, Unset)

  const DefaultLifetimeSeconds: int := 3600

  /** The token endpoint's reply: the response `data`, or a thrown error with
      `error.response?.data` (`Undefined` when no response arrived) and
      `error.message`. */
  datatype Reply = Granted(data: Json) | Rejected(responseData: Json, message: string)

  /** One call's outcome; `requested` says whether the endpoint was asked. */
  datatype Step = Step(result: Result<Json>, cache: Cache, requested: bool)

  /** The cache-hit condition `cachedToken && tokenExpiry && now < tokenExpiry`. */
  predicate Fresh(c: Cache, now: int)
    ensures Fresh(c, now) ==> Truthy(c.token) && c.expiry.At? && c.expiry.ms != 0 && now < c.expiry.ms
    ensures c.expiry.At? && c.expiry.ms <= now ==> !Fresh(c, now)
    ensures !c.expiry.At? ==> !Fresh(c, now)
  {
    Truthy(c.token) && ExpiryTruthy(c.expiry) && now < c.expiry.ms
  }

  /** `now + (expires_in || 3600) * 1000`. `true` multiplies as 1; any other
      non-number makes the product `NaN`. */
  function ExpiryAfter(now: int, expiresIn: Json): (e: Expiry)
    ensures !Truthy(expiresIn) ==> e == At(now + DefaultLifetimeSeconds * 1000)
    ensures expiresIn.Num? && expiresIn.n != 0 ==> e == At(now + expiresIn.n * 1000)
  {
    if !Truthy(expiresIn) then At(now + DefaultLifetimeSeconds * 1000)
    else match expiresIn
      case Num(n) => At(now + n * 1000)
      case Bool(_) => At(now + 1000)
      case _ => NotANumber
  }

  /** The text after "Failed to retrieve access token: ":
      `(error.response?.data || error.message)?.error_description || 'Unknown error'`. */
  function FailureDescription(responseData: Json, message: string): (description: string)
    ensures !Truthy(responseData) ==> description == "Unknown error"
    ensures responseData.Obj? && "error_description" in responseData.fields
            && responseData.fields["error_description"].Str?
            && responseData.fields["error_description"].s != ""
            ==> description == responseData.fields["error_description"].s
    ensures Truthy(responseData) && Nullish(Get(responseData, "error_description")) ==> description == "Unknown error"
  {
    var errData := if Truthy(responseData) then responseData else Str(message);
    var description := OptGet(errData, "error_description");
    if Truthy(description) then Display(description) else "Unknown error"
  }

  /** `getAccessToken`. A fresh cache answers without a request. Otherwise the
      endpoint is asked: a usable reply replaces both variables, with the
      expiry counted from `now` as read before the request; a failure leaves
      the cache as it was and throws. */
  function GetAccessToken(c: Cache, now: int, reply: Reply): (s: Step)
    ensures !s.requested <==> Fresh(c, now)
    ensures !s.requested ==> s.result == Ok(c.token) && s.cache == c
    ensures s.result.Err? ==> s.cache == c && s.result.error.AccessTokenFailed?
    ensures s.result.Ok? ==> s.result.value == s.cache.token
  {
    if Fresh(c, now) then Step(Ok(c.token), c, false)
    else
      match reply
      case Granted(data) =>
        if Nullish(data) then
          // reading `data.access_token` throws a TypeError with no
          // `response`; a string message has no `error_description`, so the
          // description is "Unknown error" whatever the text says
          Step(Err(AccessTokenFailed(FailureDescription(Undefined, "Cannot read properties of " + Display(data) + " (reading 'access_token')"))), c, true)
        else
          var token := Get(data, "access_token");
          Step(Ok(token), Cache(token, ExpiryAfter(now, Get(data, "expires_in"))), true)
      case Rejected(responseData, message) =>
        Step(Err(AccessTokenFailed(FailureDescription(responseData, message))), c, true)
  }

  /** One call: the clock reading and what the endpoint would reply. */
  datatype Call = Call(now: int, reply: Reply)

  /** Successive calls, each starting from the cache the previous one left. */
  function Calls(c: Cache, calls: seq<Call>): (steps: seq<Step>)
    ensures |steps| == |calls|
    ensures |calls| > 0 ==> steps[0] == GetAccessToken(c, calls[0].now, calls[0].reply)
    ensures forall i :: 0 < i < |calls| ==>
      steps[i] == GetAccessToken(steps[i - 1].cache, calls[i].now, calls[i].reply)
    decreases |calls|
  {
    if |calls| == 0 then []
    else
      var s := GetAccessToken(c, calls[0].now, calls[0].reply);
      [s] + Calls(s.cache, calls[1..])
  }

  /** While every clock reading is before a truthy expiry of a truthy token,
      no call reaches the endpoint: each returns the cached token and leaves
      the cache as it was. */
  lemma {:induction false} FreshCacheServesAll(c: Cache, calls: seq<Call>)
    requires Truthy(c.token) && ExpiryTruthy(c.expiry)
    requires forall i :: 0 <= i < |calls| ==> calls[i].now < c.expiry.ms
    ensures forall i :: 0 <= i < |calls| ==> Calls(c, calls)[i] == Step(Ok(c.token), c, false)
    decreases |calls|
  {
    if |calls| > 0 {
      FreshCacheServesAll(c, calls[1..]);
      var steps := Calls(c, calls);
      assert steps[0] == Step(Ok(c.token), c, false);
      forall i | 1 <= i < |calls|
        ensures steps[i] == Step(Ok(c.token), c, false)
      {
        assert steps[i] == Calls(c, calls[1..])[i - 1];
      }
    }
  }

  /** Expiry is strict: at `now == tokenExpiry` the token is fetched again. */
  lemma ExpiryIsStrict(c: Cache, reply: Reply)
    requires c.expiry.At?
    ensures GetAccessToken(c, c.expiry.ms, reply).requested
  {
  }

  /** A successful refresh stores the new token and an expiry of
      `now + expires_in * 1000`, defaulting to 3600 seconds when `expires_in`
      is missing or zero, and returns that token. */
  lemma RefreshStoresToken(c: Cache, now: int, data: Json)
    requires !Fresh(c, now) && !Nullish(data)
    ensures var s := GetAccessToken(c, now, Granted(data));
      && s.requested
      && s.result == Ok(Get(data, "access_token"))
      && s.cache.token == Get(data, "access_token")
      && (Get(data, "expires_in").Num? && Get(data, "expires_in").n != 0 ==>
            s.cache.expiry == At(now + Get(data, "expires_in").n * 1000))
      && (Get(data, "expires_in") in {Undefined, Null, Num(0)} ==>
            s.cache.expiry == At(now + 3600000))
  {
  }

  /** A failed request leaves both variables unchanged and throws. */
  lemma FailureKeepsCache(c: Cache, now: int, responseData: Json, message: string)
    requires !Fresh(c, now)
    ensures GetAccessToken(c, now, Rejected(responseData, message))
         == Step(Err(AccessTokenFailed(FailureDescription(responseData, message))), c, true)
  {
  }

  /** After a refresh at a clock reading `now` (a non-negative
      `Date.now()`) that delivered a truthy token with a positive lifetime
      of `seconds`, every call before `now + seconds * 1000` answers from the
      cache with that same token, whatever the endpoint would say. */
  lemma {:induction false} RefreshedTokenIsReused(c: Cache, now: int, data: Json, later: int, reply: Reply)
    requires 0 <= now
    requires !Fresh(c, now) && !Nullish(data)
    requires Truthy(Get(data, "access_token"))
    requires Get(data, "expires_in").Num? && Get(data, "expires_in").n > 0
    requires later < now + Get(data, "expires_in").n * 1000
    ensures var first := GetAccessToken(c, now, Granted(data));
      GetAccessToken(first.cache, later, reply) == Step(Ok(Get(data, "access_token")), first.cache, false)
  {
    var first := GetAccessToken(c, now, Granted(data));
    assert first.cache.expiry == At(now + Get(data, "expires_in").n * 1000);
    assert Fresh(first.cache, later);
  }

  /** A refresh with a truthy token and a positive lifetime covers a whole
      run of later calls inside the lifetime: none of them makes a request. */
  lemma {:induction false} RefreshCoversLaterCalls(c: Cache, now: int, data: Json, later: seq<Call>)
    requires 0 <= now
    requires !Fresh(c, now) && !Nullish(data)
    requires Truthy(Get(data, "access_token"))
    requires Get(data, "expires_in").Num? && Get(data, "expires_in").n > 0
    requires forall i :: 0 <= i < |later| ==> later[i].now < now + Get(data, "expires_in").n * 1000
    ensures var first := GetAccessToken(c, now, Granted(data));
      forall i :: 0 <= i < |later| ==>
        Calls(first.cache, later)[i] == Step(Ok(Get(data, "access_token")), first.cache, false)
  {
    var first := GetAccessToken(c, now, Granted(data));
    assert first.cache.expiry == At(now + Get(data, "expires_in").n * 1000);
    FreshCacheServesAll(first.cache, later);
  }

  /** Once the clock reaches the stored expiry the token is fetched again. */
  lemma RefreshedTokenExpires(c: Cache, now: int, data: Json, later: int, reply: Reply)
    requires !Fresh(c, now) && !Nullish(data)
    requires Get(data, "expires_in").Num? && Get(data, "expires_in").n != 0
    requires later >= now + Get(data, "expires_in").n * 1000
    ensures GetAccessToken(GetAccessToken(c, now, Granted(data)).cache, later, reply).requested
  {
  }

  /** A falsy token is never served from the cache: every call asks the
      endpoint again. */
  lemma FalsyTokenNeverCached(c: Cache, now: int, reply: Reply)
    requires !Truthy(c.token)
    ensures GetAccessToken(c, now, reply).requested
  {
  }

  /** The first call after start-up always asks the endpoint. */
  lemma InitialCallRequests(now: int, reply: Reply)
    ensures GetAccessToken(Initial, now, reply).requested
  {
  }
}
