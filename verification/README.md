# Polling, record-type lookup and token cache of a CRM REST API wrapper

A Dafny model of the three pieces of real control flow in a thin JavaScript
client for a CRM platform's REST API:

- **`retry`**: the bounded retry loop. It calls a unit of work `fn` up to
  `maxRetries` times and returns the first truthy result. A falsy result
  and a thrown error both count as misses. It waits `interval` ms between
  attempts but never after the last one. When the attempts run out it throws
  `❌ Failed after ${maxRetries} retries`.
- **The helpers built on it**: `waitForRecordField`,
  `waitForRecordFieldByQuery` and `verifyLeadCountByMobile` each wire one
  predicate over a fetched response into `retry`. `getRecordTypeId` is a
  one-shot first-match search over the `RecordType` rows.
- **`getAccessToken`**: the module-level `cachedToken`/`tokenExpiry` cache.

Modules, one per source file plus shared pieces:

- `JsValue` (`js_value.dfy`): JavaScript values as the helpers see them.
  It covers truthiness, nullishness, property and index reads, optional
  chaining, ASCII `toLowerCase`, and `String(v)`.
- `Errors` (`errors.dfy`): the thrown errors, each carrying what its
  message names, and the message text.
- `RetryEngine` (`retry.dfy`): `fn` is an oracle, so `fn(k)` is what the
  k-th call (from 0) returns or that it throws. A run yields the result and
  a trace of `Invoke(k)` and `Sleep(ms)` events. The trace makes call counts
  and waits exact. There are two forms of the loop. `Retry` is a recursive
  function. `RetryLoop` is the `while` loop as written, and it is proved to
  compute the same run.
- `SalesforceHelper` (`salesforce_helper.dfy`): the record-type lookup and
  the three pollers. The server calls are parameters: `getRecord(objectType,
  recordId, k)` and `runQuery(soql, k)` give what the k-th call delivers.
- `AccessToken` (`access_token.dfy`): the cache as an explicit state. One
  call of `getAccessToken` becomes a transition taking the clock reading
  `now` and the token endpoint's reply.
- `Scenarios` (`scenarios.dfy`): concrete runs on scripted server
  behaviour.

Behaviour that follows the code rather than its doc comments or the
intuitive design:

- `verifyLeadCountByMobile` does not raise a count-mismatch error of its own
  when attempts run out. Its `if (!result)` branch is unreachable, because
  `retry` only ever returns truthy values. So the retry error itself
  propagates (`VerifyLeadCountErrorIsRetryError`).
- `waitForRecordField` defaults to 15 attempts and 3500 ms. Its doc comment
  says 10 and 2000. `waitForRecordFieldByQuery` defaults to 10 attempts and
  3500 ms. Its doc comment says 2000 ms.
- `waitForRecordFieldByQuery` returns the `records` array, not the field
  value its doc comment announces. With an empty `records` array the read
  `record?.[0][fieldName]` throws a TypeError. `retry` absorbs it as a miss.
- `maxRetries <= 0` makes no call at all and throws the exhaustion error.
- `getRecordTypeId` returns `undefined` both when no row matches and when
  the matching row has no `Id`. A row that is `null`, or whose
  `SobjectType` is not a string, makes the search throw if the search
  reaches it. That throw, like a failed query, is rethrown as
  `Failed to fetch RecordTypeId for ${objectType}`.
- `verifyLeadCountByMobile` with `expectedCount` 0 returns the body only if
  the body is truthy. A `null` body with no rows therefore counts as a miss
  (`LeadCountAttempt`).

## Model

| member | source | states |
|---|---|---|
| RetryEngine.Retry | src/utils/retry.js:9-10 | a non-positive budget makes no call and throws the exhaustion error naming it; a positive budget starts by calling `fn` for attempt 0 |
| RetryEngine.RetryFrom | src/utils/retry.js:10-26 | the loop from a given attempt only ever fails with the exhaustion error naming `maxRetries`; with attempts left its trace is non-empty and shorter than twice the remaining attempts; with none left it does nothing |
| RetryEngine.RetryLoop | src/utils/retry.js:9-27 | the `while` loop as written, with its early return and its wait only when another attempt follows, yields exactly the result and call/wait trace of the recursive `Retry` |
| RetryEngine.SpacedCounts | src/utils/retry.js:19-23 | a trace of `count` calls with one wait between consecutive calls and none after the last has `count` calls, `count - 1` waits and a total delay of `interval` times the waits |
| RetryEngine.RetryFromStopsAtHit | src/utils/retry.js:11-23 | from any attempt, the loop stops at the first truthy result, returns that value, and has called `fn` once per attempt up to it with one wait between calls |
| RetryEngine.RetryFromExhausts | src/utils/retry.js:11-26 | from any attempt, if no later attempt is truthy, the loop makes every remaining call with waits only between them and throws the exhaustion error |
| RetryEngine.RetryFromOkIsHit | src/utils/retry.js:13-14 | a successful run returns the value of a truthy attempt and every earlier attempt missed |
| RetryEngine.RetryReturnsFirstHit | src/utils/retry.js:11-23 | if attempt k is the first truthy one, `retry` returns exactly its value after k + 1 calls, k waits and a total delay of `interval * k` |
| RetryEngine.RetryExhausts | src/utils/retry.js:10-26 | if no attempt is truthy (falsy results and throws alike), `retry` calls `fn` exactly `maxRetries` times (none if `maxRetries <= 0`), waits `maxRetries - 1` times, and throws the exhaustion error |
| RetryEngine.RetrySucceedsIffSomeHit | src/utils/retry.js:11-17 | `retry` succeeds if and only if some attempt within the budget is truthy, and then returns the first truthy value |
| RetryEngine.RetryBounds | src/utils/retry.js:10-23 | every run calls `fn` at most `maxRetries` times (at least once when positive) and waits one time fewer than it calls, whatever the interval; with a non-negative interval it waits at most `interval * (maxRetries - 1)` ms in all |
| RetryEngine.RetryDefaultBounds | src/utils/retry.js:9 | with the defaults of 5 attempts and 1000 ms a run makes at most 5 calls and waits at most 4000 ms |
| SalesforceHelper.CheckRecordType | src/helpers/salesforceHelper.js:22-24 | the `find` callback throws exactly when the row is `null`/`undefined` or its `SobjectType` is not a string, and matches exactly when the object types agree after lower-casing and the developer names agree exactly |
| SalesforceHelper.RecordsOrEmpty | src/helpers/salesforceHelper.js:19 | the destructuring default replaces only a missing `records` by the empty array: `null` stays `null` and an array is kept |
| SalesforceHelper.FindFrom | src/helpers/salesforceHelper.js:21-25 | `find` with a callback that may throw: the result is the first matching row with all earlier rows differing, or not-found if and only if every row differs, or a throw at a row where all earlier rows differ |
| SalesforceHelper.GetRecordTypeId | src/helpers/salesforceHelper.js:14-38 | a failed query, and any other failure, surfaces as the lookup error naming the object type |
| SalesforceHelper.RecordTypeIdIsFirstMatch | src/helpers/salesforceHelper.js:21-30 | the first row whose object type matches ignoring case and whose developer name matches exactly decides the answer: its `Id`; that row is an object, so the `if (match)` test always passes |
| SalesforceHelper.RecordTypeIdNotFound | src/helpers/salesforceHelper.js:21-33 | when every row differs the answer is `undefined`, not an error |
| SalesforceHelper.RecordTypeIdSearchThrows | src/helpers/salesforceHelper.js:21-37 | a row on which the callback throws, reached before any match, turns the whole lookup into the error naming the object type |
| SalesforceHelper.RecordTypeIdMissingRecords | src/helpers/salesforceHelper.js:19-33 | a body without `records` is searched as the empty list and answers `undefined` |
| SalesforceHelper.RecordTypeIdComesFromFirstMatch | src/helpers/salesforceHelper.js:21-30 | a defined answer is always the `Id` of the first matching row |
| SalesforceHelper.RecordTypeIdIgnoresObjectTypeCase | src/helpers/salesforceHelper.js:23 | two object-type spellings that fold to the same lower case find the same record type |
| SalesforceHelper.RecordFieldAttempt | src/helpers/salesforceHelper.js:65-82 | one attempt is truthy exactly when the field is neither `null` nor `undefined` (so 0, false and "" count as present), returns the record body then, and throws only when the fetch throws |
| SalesforceHelper.WaitForRecordField | src/helpers/salesforceHelper.js:61-87 | the only error is the one naming the field, the object type and the record id |
| SalesforceHelper.WaitForRecordFieldFirstPopulated | src/helpers/salesforceHelper.js:62-83 | the first fetch that shows the field decides: its body is returned after exactly k + 1 fetches and k waits |
| SalesforceHelper.WaitForRecordFieldExhausts | src/helpers/salesforceHelper.js:84-87 | when the field never shows, all attempts are used and the error names the field, the object type and the record id |
| SalesforceHelper.WaitForRecordFieldDefaultBounds | src/helpers/salesforceHelper.js:58-59 | with the defaults of 15 attempts and 3500 ms the poll makes at most 15 fetches and waits at most 49000 ms |
| SalesforceHelper.QueryFieldAttempt | src/helpers/salesforceHelper.js:111-125 | one attempt inspects only row 0: truthy exactly when row 0's field is neither `null` nor `undefined`, returning the `records` array; a missing `records` is a plain miss; an empty `records` throws |
| SalesforceHelper.WaitForRecordFieldByQuery | src/helpers/salesforceHelper.js:107-132 | the only error is the one naming the field and the query |
| SalesforceHelper.WaitForRecordFieldByQueryFirstPopulated | src/helpers/salesforceHelper.js:108-128 | the first query whose row 0 shows the field decides: its `records` are returned after exactly k + 1 queries and k waits, whatever earlier attempts threw |
| SalesforceHelper.WaitForRecordFieldByQueryExhausts | src/helpers/salesforceHelper.js:129-132 | when row 0 never shows the field, all attempts are used and the error names the field and the query |
| SalesforceHelper.WaitForRecordFieldByQueryDefaultBounds | src/helpers/salesforceHelper.js:104-105 | with the defaults of 10 attempts and 3500 ms the poll makes at most 10 queries and waits at most 31500 ms |
| SalesforceHelper.LeadCountQuery | src/helpers/salesforceHelper.js:153 | the query is the fixed prefix, then the mobile number character for character, then the fixed suffix, and nothing else |
| SalesforceHelper.LeadCountQueryRoundTrip | src/helpers/salesforceHelper.js:153 | the mobile number is interpolated verbatim, quotes included, between the fixed `SELECT ... MobilePhone = '` prefix and `' limit 10`, and can be read back unchanged |
| SalesforceHelper.RecordCount | src/helpers/salesforceHelper.js:160 | the row count is never nullish: a missing or `null` `records` counts as 0 and an array counts its elements |
| SalesforceHelper.LeadCountAttempt | src/helpers/salesforceHelper.js:158-171 | one attempt is truthy exactly when the row count (missing `records` counting as 0) strictly equals `expectedCount` and the body is truthy; it returns the body then, and throws only when the query throws |
| SalesforceHelper.LeadCountHitWhenNonZero | src/helpers/salesforceHelper.js:160-165 | for a non-zero expected count the count match alone decides the attempt |
| SalesforceHelper.VerifyLeadCountByMobile | src/helpers/salesforceHelper.js:155-180 | a successful check returns a truthy body |
| SalesforceHelper.VerifyLeadCountErrorIsRetryError | src/helpers/salesforceHelper.js:174-178 | the `!result` branch is never taken: the only error is the retry exhaustion error, unchanged |
| SalesforceHelper.VerifyLeadCountFirstMatch | src/helpers/salesforceHelper.js:155-172 | the first query whose row count matches decides: its body is returned after exactly k + 1 queries and k waits |
| SalesforceHelper.VerifyLeadCountExhausts | src/helpers/salesforceHelper.js:155-178 | when the count never matches, all attempts are used and the retry error naming `maxRetries` is thrown |
| SalesforceHelper.VerifyLeadCountDefaultBounds | src/helpers/salesforceHelper.js:150-151 | with the defaults of 5 attempts and 2000 ms the check makes at most 5 queries and waits at most 8000 ms |
| AccessToken.Fresh | src/auth/getAccessToken.js:11 | the cache is served only with a truthy token and a numeric, non-zero expiry strictly after `now`; an expiry at or before `now`, a missing one or `NaN` never serves |
| AccessToken.FailureDescription | src/auth/getAccessToken.js:32-35 | a falsy response body gives `Unknown error` (the error message string has no `error_description`); an object body with a non-empty `error_description` string gives that string; a nullish `error_description` gives `Unknown error` |
| AccessToken.ExpiryAfter | src/auth/getAccessToken.js:29 | a missing, null, zero or false `expires_in` gives an expiry of `now + 3600 * 1000`; a non-zero number n gives `now + n * 1000` |
| AccessToken.GetAccessToken | src/auth/getAccessToken.js:8-37 | no request is made exactly when the cached token is truthy, the expiry is truthy and `now` is before it, and then the cached token is returned with the cache unchanged; a failure leaves the cache unchanged; a success returns the token it stores |
| AccessToken.ExpiryIsStrict | src/auth/getAccessToken.js:11 | at `now == tokenExpiry` a fresh token is requested |
| AccessToken.RefreshStoresToken | src/auth/getAccessToken.js:25-30 | a successful request stores and returns `access_token`, with an expiry counted from the `now` read before the request, defaulting to 3600 s when `expires_in` is missing or zero |
| AccessToken.FailureKeepsCache | src/auth/getAccessToken.js:31-36 | a failed request leaves both cache variables unchanged and throws the token error with the server's `error_description` or `Unknown error` |
| AccessToken.RefreshedTokenIsReused | src/auth/getAccessToken.js:9-30 | after a refresh with a truthy token and a positive lifetime, every call whose clock reading is before the expiry answers from the cache with that token, whatever the endpoint would say |
| AccessToken.RefreshedTokenExpires | src/auth/getAccessToken.js:11-29 | once the clock reaches the stored expiry the next call requests a new token |
| AccessToken.FalsyTokenNeverCached | src/auth/getAccessToken.js:11 | a falsy cached token is never served: every call requests |
| AccessToken.Calls | src/auth/getAccessToken.js:5-6 | the module-level variables persist between calls: each call of a run starts from the cache the previous call left, and the first from the initial cache |
| AccessToken.FreshCacheServesAll | src/auth/getAccessToken.js:8-13 | over any run of successive calls whose clock readings are all before the expiry of a truthy cached token, every call returns that token without a request and leaves the cache unchanged |
| AccessToken.RefreshCoversLaterCalls | src/auth/getAccessToken.js:8-30 | after a refresh with a truthy token and a positive lifetime, no later call inside the lifetime makes a request, and each returns the refreshed token |
| AccessToken.InitialCallRequests | src/auth/getAccessToken.js:5-13 | with both variables at their initial `null` the first call requests |
| Errors.Message | src/utils/retry.js:26 | each thrown message starts with its fixed text and carries what it names: the exhaustion message has exactly the decimal `maxRetries` between `❌ Failed after ` and ` retries`; the lead-count message starts with the expected count and the mobile number and ends with `maxRetries`; the others end with the object type, record id, query or description (the same shape holds for the messages at src/helpers/salesforceHelper.js:36, 86, 131, 176 and src/auth/getAccessToken.js:35) |
| Scenarios.RetryMissThrowHit | src/utils/retry.js:11-23 | a falsy result, a throw and a truthy result give three calls, two waits of 1000 ms and the third value |
| Scenarios.RetryZeroAttempts | src/utils/retry.js:10-26 | zero attempts make no call and throw |
| Scenarios.RetryExhaustedMessage | src/utils/retry.js:26 | the exhaustion message for 5 attempts is `❌ Failed after 5 retries` |
| Scenarios.RecordFieldSetOnThirdFetch | src/helpers/salesforceHelper.js:62-83 | a field that is `null` on two fetches and set on the third yields the third body after three fetches |
| Scenarios.QueryFieldAfterEmptyRows | src/helpers/salesforceHelper.js:108-125 | two empty row sets (each throwing inside the attempt) and then a populated row yield that row set after three queries |
| Scenarios.LeadCountReachedOnThirdQuery | src/helpers/salesforceHelper.js:155-172 | row counts 0, 1 and 2 with 2 expected yield the third body after three queries |
| Scenarios.LeadCountNeverReached | src/helpers/salesforceHelper.js:155-180 | three rows forever with 2 expected use all five queries and throw the retry error |
| Scenarios.RecordTypeLookups | src/helpers/salesforceHelper.js:21-33 | `Lead` finds a `lead` row with developer name `Partner`, while developer name `partner` finds nothing |

## Left out

- The HTTP transport (axios), URL building, `encodeURIComponent` and the
  request headers. `getRecord`, `runQuery` and the token endpoint are
  parameters that give the body, or a failure, of each call.
- Logging: the `console.*` calls and `logError`. The message of an error
  thrown inside `fn` is not kept. Logging changes a result only in the
  throwing cases listed under the four members below.
- RetryEngine.RetryExhausts: `Threw` stands for a rejection with an `Error`
  object. A rejection with `undefined` or `null` makes `err.message` at
  src/utils/retry.js:16 throw inside the `catch`, so `retry` rejects with a
  TypeError after that one call. The model treats it as a miss. The
  `getRecord` and `runQuery` wrappers throw only `Error` objects, so the
  pollers never see this case.
- SalesforceHelper.RecordFieldAttempt: the template literals at
  src/helpers/salesforceHelper.js:73 and 76 convert `value` with
  `String()`. That throws for an object with its own non-function
  `toString` key, or an array holding one. The attempt then becomes a miss
  where the model finds the field.
- SalesforceHelper.QueryFieldAttempt: the same `String()` conversion of
  `value` at src/helpers/salesforceHelper.js:119 can throw in the same way,
  turning a hit into a miss.
- SalesforceHelper.RecordTypeIdIsFirstMatch: logging `${match.Id}` at
  src/helpers/salesforceHelper.js:28 can throw in the same way. The lookup
  then fails with the error naming the object type where the model returns
  the `Id`.
- Real time. Waits are `Sleep(interval)` events holding the requested
  delay. How `setTimeout` clamps a negative or oversized delay is not
  modelled. The clock is the parameter `now`.
- Floating point. Numbers are integers, so a fractional `maxRetries` or
  `interval` and precision loss above 2^53 are not modelled. `NaN` appears
  only as a token expiry.
- Full Unicode `toLowerCase`. The object-type comparison folds ASCII
  letters only.
- Property reads on primitive values. Only an array's `length` is
  modelled. Every other property of a string, number or boolean reads as
  `undefined`, and so do prototype members and numeric-string keys on
  arrays.
- AccessToken.GetAccessToken: an `expires_in` that JavaScript cannot turn
  into a primitive, such as an object with its own non-function `toString`
  (or an array holding one), makes the `* 1000` at
  src/auth/getAccessToken.js:29 throw after line 28 has already stored the
  new token. The source then fails with `Unknown error`. The cache is left
  half-written: the new token with the old expiry. The model instead
  succeeds with a `NaN` expiry.
- AccessToken.FailureDescription: an `error_description` object with its
  own non-function `toString` makes the template at
  src/auth/getAccessToken.js:35 throw a TypeError instead of the token
  error. The model shows it as `[object Object]`.
- AccessToken.ExpiryAfter: a numeric string or an array in `expires_in`
  is coerced to a number by JavaScript. The model treats every `expires_in`
  that is not a number or a boolean as producing `NaN`.
- AccessToken.RefreshedTokenIsReused: assumes a non-negative clock reading.
  An expiry that comes out as exactly 0 is falsy and would not be reused.
- SalesforceHelper.VerifyLeadCountFirstMatch: stated for a non-zero
  expected count. With 0 expected, the body must also be truthy, as
  `LeadCountAttempt` states.
- Concurrency. The freshness check (src/auth/getAccessToken.js:11) and
  the write (lines 28-29) are separated by the `await axios.post` at line
  25. Overlapping calls can therefore both miss the cache and both request.
  The last reply to arrive wins, possibly with an expiry computed from an
  earlier `now`. `GetAccessToken` is one call that finishes before the next
  starts, and `Calls` folds such calls in sequence. The process-wide
  variables become an explicit `Cache` value.
- The CRUD and Apex wrappers (`createRecord`, `getRecord`, `updateRecord`,
  `deleteRecord`, `processLeadOpportunity`), `runQuery`, configuration, the
  re-export module and the task registry. These are request plumbing.
