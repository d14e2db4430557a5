/**
 The record-type lookup and the three condition pollers. The collaborators
 that talk to the server are parameters: `getRecord(objectType, recordId, k)`
 and `runQuery(soql, k)` are what the k-th call (from 0) delivers.
 */
module SalesforceHelper {
  import opened JsValue
  import opened Errors
  import opened RetryEngine

  /** What a `getRecord` or `runQuery` call delivers to the helper: the
      response body, or a thrown error. */
  datatype Fetched = Body(body: Json) | RequestFailed

  datatype Option<T> = None | Some(value: T)

  const RecordFieldMaxRetries: int := 15
  const RecordFieldInterval: int := 3500
  const QueryFieldMaxRetries: int := 10
  const QueryFieldInterval: int := 3500
  const LeadCountMaxRetries: int := 5
  const LeadCountInterval: int := 2000

  // ---------------------------------------------------------------------------
  // getRecordTypeId

  /** Outcome of the `find` callback on one row. */
  datatype Check = Matches | Differs | Throws

  /** The `find` callback: `r.SobjectType.toLowerCase() === objectType.toLowerCase()
      && r.DeveloperName === developerName`. It throws when the row is nullish
      or its `SobjectType` is not a string (so has no `toLowerCase`). */
  function CheckRecordType(r: Json, objectType: string, developerName: string): (c: Check)
    ensures c == Throws <==> Nullish(r) || !Get(r, "SobjectType").Str?
    ensures c == Matches <==>
      && !Nullish(r)
      && Get(r, "SobjectType").Str?
      && ToLowerAscii(Get(r, "SobjectType").s) == ToLowerAscii(objectType)
      && Get(r, "DeveloperName") == Str(developerName)
  {
    if Nullish(r) then Throws
    else
      var sobjectType := Get(r, "SobjectType");
      if !sobjectType.Str? then Throws
      else if ToLowerAscii(sobjectType.s) != ToLowerAscii(objectType) then Differs
      else if Get(r, "DeveloperName") == Str(developerName) then Matches
      else Differs
  }

  datatype Search = Found(index: nat) | NotFound | SearchThrew

  /** `Array.prototype.find` from `start` on, with a callback that may throw. */
  function FindFrom(items: seq<Json>, objectType: string, developerName: string, start: nat): (f: Search)
    requires start <= |items|
    ensures f.Found? ==>
      && start <= f.index < |items|
      && CheckRecordType(items[f.index], objectType, developerName) == Matches
      && forall j :: start <= j < f.index ==> CheckRecordType(items[j], objectType, developerName) == Differs
    ensures f.NotFound? <==>
      forall j :: start <= j < |items| ==> CheckRecordType(items[j], objectType, developerName) == Differs
    ensures f.SearchThrew? ==>
      exists j :: && start <= j < |items|
                  && CheckRecordType(items[j], objectType, developerName) == Throws
                  && forall i :: start <= i < j ==> CheckRecordType(items[i], objectType, developerName) == Differs
    decreases |items| - start
  {
    if start == |items| then NotFound
    else
      match CheckRecordType(items[start], objectType, developerName)
      case Matches => Found(start)
      case Throws => SearchThrew
      case Differs => FindFrom(items, objectType, developerName, start + 1)
  }

  /** `const { records = [] } = body`: the default applies only to `undefined`. */
  function RecordsOrEmpty(body: Json): (records: Json)
    requires !Nullish(body)
    ensures records != Undefined
    ensures Get(body, "records") == Undefined ==> records == Arr([])
    ensures Get(body, "records") == Null ==> records == Null
    ensures Get(body, "records").Arr? ==> records == Get(body, "records")
  {
    var records := Get(body, "records");
    if records == Undefined then Arr([]) else records
  }

  /** `getRecordTypeId`: the `Id` of the first record type whose object type
      matches ignoring case and whose developer name matches exactly;
      `undefined` when none does. Any failure, of the query or of the search,
      is rethrown as a lookup failure naming the object type. */
  function GetRecordTypeId(reply: Fetched, objectType: string, developerName: string): (r: Result<Json>)
    ensures reply.RequestFailed? ==> r == Err(RecordTypeLookupFailed(objectType))
    ensures r.Err? ==> r.error == RecordTypeLookupFailed(objectType)
  {
    match reply
    case RequestFailed => Err(RecordTypeLookupFailed(objectType))
    case Body(body) =>
      if Nullish(body) then Err(RecordTypeLookupFailed(objectType))
      else
        var records := RecordsOrEmpty(body);
        if !records.Arr? then Err(RecordTypeLookupFailed(objectType))
        else
          match FindFrom(records.items, objectType, developerName, 0)
          case Found(i) =>
            if Truthy(records.items[i]) then Ok(Get(records.items[i], "Id")) else Ok(Undefined)
          case NotFound => Ok(Undefined)
          case SearchThrew => Err(RecordTypeLookupFailed(objectType))
  }

  /** The rows a successful lookup searched. */
  ghost predicate HasRows(reply: Fetched, items: seq<Json>) {
    reply.Body? && !Nullish(reply.body) && RecordsOrEmpty(reply.body) == Arr(items)
  }

  /** The first matching row, when every row before it is well formed and
      differs, decides the answer: its `Id`, which may itself be `undefined`. */
  lemma RecordTypeIdIsFirstMatch(reply: Fetched, items: seq<Json>, objectType: string, developerName: string, i: nat)
    requires HasRows(reply, items)
    requires i < |items| && CheckRecordType(items[i], objectType, developerName) == Matches
    requires forall j :: 0 <= j < i ==> CheckRecordType(items[j], objectType, developerName) == Differs
    ensures items[i].Obj?
    ensures GetRecordTypeId(reply, objectType, developerName) == Ok(Get(items[i], "Id"))
  {
  }

  /** When no row matches and none throws, the answer is `undefined` rather
      than an error; a body without `records` searches the empty list. */
  lemma RecordTypeIdNotFound(reply: Fetched, items: seq<Json>, objectType: string, developerName: string)
    requires HasRows(reply, items)
    requires forall j :: 0 <= j < |items| ==> CheckRecordType(items[j], objectType, developerName) == Differs
    ensures GetRecordTypeId(reply, objectType, developerName) == Ok(Undefined)
  {
  }

  /** A row that makes the callback throw, reached before any match, makes
      the whole lookup fail with the error naming the object type. */
  lemma RecordTypeIdSearchThrows(reply: Fetched, items: seq<Json>, objectType: string, developerName: string, j: nat)
    requires HasRows(reply, items)
    requires j < |items| && CheckRecordType(items[j], objectType, developerName) == Throws
    requires forall i :: 0 <= i < j ==> CheckRecordType(items[i], objectType, developerName) == Differs
    ensures GetRecordTypeId(reply, objectType, developerName) == Err(RecordTypeLookupFailed(objectType))
  {
  }

  lemma RecordTypeIdMissingRecords(body: Json, objectType: string, developerName: string)
    requires !Nullish(body) && Get(body, "records") == Undefined
    ensures GetRecordTypeId(Body(body), objectType, developerName) == Ok(Undefined)
  {
    assert HasRows(Body(body), []);
  }

  /** A defined answer always comes from the first matching row. */
  lemma RecordTypeIdComesFromFirstMatch(reply: Fetched, objectType: string, developerName: string)
    requires GetRecordTypeId(reply, objectType, developerName).Ok?
    requires GetRecordTypeId(reply, objectType, developerName).value != Undefined
    ensures exists items: seq<Json>, i: nat ::
      && HasRows(reply, items)
      && i < |items|
      && CheckRecordType(items[i], objectType, developerName) == Matches
      && (forall j :: 0 <= j < i ==> CheckRecordType(items[j], objectType, developerName) == Differs)
      && GetRecordTypeId(reply, objectType, developerName).value == Get(items[i], "Id")
  {
    var items := RecordsOrEmpty(reply.body).items;
    var f := FindFrom(items, objectType, developerName, 0);
    assert HasRows(reply, items);
    assert f.Found?;
  }

  /** The object type is compared ignoring (ASCII) case: two spellings that
      fold to the same text find the same record type. */
  lemma RecordTypeIdIgnoresObjectTypeCase(reply: Fetched, objectType1: string, objectType2: string, developerName: string)
    requires ToLowerAscii(objectType1) == ToLowerAscii(objectType2)
    ensures GetRecordTypeId(reply, objectType1, developerName).Ok?
        <==> GetRecordTypeId(reply, objectType2, developerName).Ok?
    ensures GetRecordTypeId(reply, objectType1, developerName).Ok? ==>
      GetRecordTypeId(reply, objectType1, developerName).value
        == GetRecordTypeId(reply, objectType2, developerName).value
  {
    if reply.Body? && !Nullish(reply.body) && RecordsOrEmpty(reply.body).Arr? {
      var items := RecordsOrEmpty(reply.body).items;
      forall j | 0 <= j < |items|
        ensures CheckRecordType(items[j], objectType1, developerName)
             == CheckRecordType(items[j], objectType2, developerName)
      {
      }
      SameChecksSameSearch(items, objectType1, objectType2, developerName, 0);
    }
  }

  lemma {:induction false} SameChecksSameSearch(items: seq<Json>, objectType1: string, objectType2: string, developerName: string, start: nat)
    requires start <= |items|
    requires forall j :: 0 <= j < |items| ==>
      CheckRecordType(items[j], objectType1, developerName) == CheckRecordType(items[j], objectType2, developerName)
    ensures FindFrom(items, objectType1, developerName, start) == FindFrom(items, objectType2, developerName, start)
    decreases |items| - start
  {
    if start < |items| {
      SameChecksSameSearch(items, objectType1, objectType2, developerName, start + 1);
    }
  }

  // ---------------------------------------------------------------------------
  // waitForRecordField

  /** The field is neither `null` nor `undefined`; `0`, `false` and `""` count
      as present. */
  predicate FieldPopulated(f: Fetched, fieldName: string) {
    f.Body? && !Nullish(OptGet(f.body, fieldName))
  }

  /** One attempt of `waitForRecordField`: the body when the field is
      present, `null` otherwise. */
  function RecordFieldAttempt(f: Fetched, fieldName: string): (a: Attempt)
    ensures Hit(a) <==> FieldPopulated(f, fieldName)
    ensures Hit(a) ==> a.value == f.body
    ensures a.Threw? <==> f.RequestFailed?
  {
    match f
    case RequestFailed => Threw
    case Body(body) =>
      var value := OptGet(body, fieldName);
      if !Nullish(value) then Returned(body) else Returned(Null)
  }

  function WaitForRecordField(getRecord: (string, string, nat) -> Fetched,
                              objectType: string, recordId: string, fieldName: string,
                              maxRetries: int, interval: int): (p: Run)
    ensures p.result.Err? ==> p.result.error == RecordFieldUnavailable(fieldName, objectType, recordId)
  {
    var run := Retry((k: nat) => RecordFieldAttempt(getRecord(objectType, recordId, k), fieldName),
                     maxRetries, interval);
    if run.result.Ok? then run
    else Run(Err(RecordFieldUnavailable(fieldName, objectType, recordId)), run.trace)
  }

  /** The first fetch that shows the field decides: its body is returned
      after exactly `k + 1` fetches and `k` waits. */
  lemma WaitForRecordFieldFirstPopulated(getRecord: (string, string, nat) -> Fetched,
                                         objectType: string, recordId: string, fieldName: string,
                                         maxRetries: int, interval: int, k: nat)
    requires k < maxRetries
    requires FieldPopulated(getRecord(objectType, recordId, k), fieldName)
    requires forall j: nat :: j < k ==> !FieldPopulated(getRecord(objectType, recordId, j), fieldName)
    ensures var p := WaitForRecordField(getRecord, objectType, recordId, fieldName, maxRetries, interval);
      && p.result == Ok(getRecord(objectType, recordId, k).body)
      && Invocations(p.trace) == k + 1
      && Sleeps(p.trace) == k
  {
    var fn := (j: nat) => RecordFieldAttempt(getRecord(objectType, recordId, j), fieldName);
    assert FirstHit(fn, maxRetries, k);
    RetryReturnsFirstHit(fn, maxRetries, interval, k);
  }

  /** When the field never shows, every attempt is used and the error names
      the field, the object type and the record id. */
  lemma WaitForRecordFieldExhausts(getRecord: (string, string, nat) -> Fetched,
                                   objectType: string, recordId: string, fieldName: string,
                                   maxRetries: int, interval: int)
    requires forall j: nat :: j < maxRetries ==> !FieldPopulated(getRecord(objectType, recordId, j), fieldName)
    ensures var p := WaitForRecordField(getRecord, objectType, recordId, fieldName, maxRetries, interval);
      && p.result == Err(RecordFieldUnavailable(fieldName, objectType, recordId))
      && Invocations(p.trace) == (if maxRetries > 0 then maxRetries else 0)
  {
    var fn := (j: nat) => RecordFieldAttempt(getRecord(objectType, recordId, j), fieldName);
    assert NoHit(fn, maxRetries);
    RetryExhausts(fn, maxRetries, interval);
  }

  /** With the defaults (15 attempts, 3500 ms) the poll makes at most 15
      fetches and waits at most 49000 ms. */
  lemma WaitForRecordFieldDefaultBounds(getRecord: (string, string, nat) -> Fetched,
                                        objectType: string, recordId: string, fieldName: string)
    ensures var p := WaitForRecordField(getRecord, objectType, recordId, fieldName,
                                        RecordFieldMaxRetries, RecordFieldInterval);
      Invocations(p.trace) <= 15 && TotalDelay(p.trace) <= 49000
  {
    var fn := (j: nat) => RecordFieldAttempt(getRecord(objectType, recordId, j), fieldName);
    RetryBounds(fn, RecordFieldMaxRetries, RecordFieldInterval);
  }

  // ---------------------------------------------------------------------------
  // waitForRecordFieldByQuery

  /** The field of row 0 of `records` is neither `null` nor `undefined`. */
  predicate RowFieldPopulated(f: Fetched, fieldName: string) {
    && f.Body?
    && var records := OptGet(f.body, "records");
    && !Nullish(records)
    && !Nullish(At(records, 0))
    && !Nullish(Get(At(records, 0), fieldName))
  }

  /** One attempt of `waitForRecordFieldByQuery`: `records?.[0][fieldName]`.
      A missing `records` short-circuits to `undefined` (a miss); a present
      `records` without a row 0, such as the empty array, makes the read
      throw. */
  function QueryFieldAttempt(f: Fetched, fieldName: string): (a: Attempt)
    ensures Hit(a) <==> RowFieldPopulated(f, fieldName)
    ensures Hit(a) ==> a.value == OptGet(f.body, "records")
    ensures f.Body? && OptGet(f.body, "records") == Arr([]) ==> a == Threw
    ensures f.Body? && Nullish(OptGet(f.body, "records")) ==> a == Returned(Null)
  {
    match f
    case RequestFailed => Threw
    case Body(body) =>
      var records := OptGet(body, "records");
      if Nullish(records) then Returned(Null)
      else
        var row := At(records, 0);
        if Nullish(row) then Threw
        else if !Nullish(Get(row, fieldName)) then Returned(records)
        else Returned(Null)
  }

  function WaitForRecordFieldByQuery(runQuery: (string, nat) -> Fetched, soql: string, fieldName: string,
                                     maxRetries: int, interval: int): (p: Run)
    ensures p.result.Err? ==> p.result.error == QueryFieldUnavailable(fieldName, soql)
  {
    var run := Retry((k: nat) => QueryFieldAttempt(runQuery(soql, k), fieldName), maxRetries, interval);
    if run.result.Ok? then run
    else Run(Err(QueryFieldUnavailable(fieldName, soql)), run.trace)
  }

  /** The first query whose row 0 shows the field decides: its `records` are
      returned after exactly `k + 1` queries. Earlier attempts may have
      thrown (an empty row set) without ending the poll. */
  lemma WaitForRecordFieldByQueryFirstPopulated(runQuery: (string, nat) -> Fetched, soql: string, fieldName: string,
                                                maxRetries: int, interval: int, k: nat)
    requires k < maxRetries
    requires RowFieldPopulated(runQuery(soql, k), fieldName)
    requires forall j: nat :: j < k ==> !RowFieldPopulated(runQuery(soql, j), fieldName)
    ensures var p := WaitForRecordFieldByQuery(runQuery, soql, fieldName, maxRetries, interval);
      && p.result == Ok(OptGet(runQuery(soql, k).body, "records"))
      && Invocations(p.trace) == k + 1
      && Sleeps(p.trace) == k
  {
    var fn := (j: nat) => QueryFieldAttempt(runQuery(soql, j), fieldName);
    assert FirstHit(fn, maxRetries, k);
    RetryReturnsFirstHit(fn, maxRetries, interval, k);
  }

  lemma WaitForRecordFieldByQueryExhausts(runQuery: (string, nat) -> Fetched, soql: string, fieldName: string,
                                          maxRetries: int, interval: int)
    requires forall j: nat :: j < maxRetries ==> !RowFieldPopulated(runQuery(soql, j), fieldName)
    ensures var p := WaitForRecordFieldByQuery(runQuery, soql, fieldName, maxRetries, interval);
      && p.result == Err(QueryFieldUnavailable(fieldName, soql))
      && Invocations(p.trace) == (if maxRetries > 0 then maxRetries else 0)
  {
    var fn := (j: nat) => QueryFieldAttempt(runQuery(soql, j), fieldName);
    assert NoHit(fn, maxRetries);
    RetryExhausts(fn, maxRetries, interval);
  }

  /** With the defaults (10 attempts, 3500 ms) the poll makes at most 10
      queries and waits at most 31500 ms. */
  lemma WaitForRecordFieldByQueryDefaultBounds(runQuery: (string, nat) -> Fetched, soql: string, fieldName: string)
    ensures var p := WaitForRecordFieldByQuery(runQuery, soql, fieldName, QueryFieldMaxRetries, QueryFieldInterval);
      Invocations(p.trace) <= 10 && TotalDelay(p.trace) <= 31500
  {
    var fn := (j: nat) => QueryFieldAttempt(runQuery(soql, j), fieldName);
    RetryBounds(fn, QueryFieldMaxRetries, QueryFieldInterval);
  }

  // ---------------------------------------------------------------------------
  // verifyLeadCountByMobile

  const LeadQueryPrefix: string := "SELECT fields(all) FROM Lead WHERE MobilePhone = '"
  const LeadQuerySuffix: string := "' limit 10"

  /** The query, built by plain interpolation of `mobile` (no escaping). */
  function LeadCountQuery(mobile: string): (soql: string)
    ensures |soql| == |LeadQueryPrefix| + |mobile| + |LeadQuerySuffix|
    ensures soql[..|LeadQueryPrefix|] == LeadQueryPrefix
    ensures soql[|LeadQueryPrefix|..|LeadQueryPrefix| + |mobile|] == mobile
    ensures soql[|soql| - |LeadQuerySuffix|..] == LeadQuerySuffix
  {
    LeadQueryPrefix + mobile + LeadQuerySuffix
  }

  /** Recovers the interpolated text from a lead-count query. */
  function ParseLeadCountQuery(q: string): Option<string> {
    if |q| >= |LeadQueryPrefix| + |LeadQuerySuffix|
       && q[..|LeadQueryPrefix|] == LeadQueryPrefix
       && q[|q| - |LeadQuerySuffix|..] == LeadQuerySuffix
    then Some(q[|LeadQueryPrefix|..|q| - |LeadQuerySuffix|])
    else None
  }

  /** Whatever `mobile` holds, quotes included, it lands in the query
      verbatim between the fixed prefix and ` limit 10`. */
  lemma LeadCountQueryRoundTrip(mobile: string)
    ensures ParseLeadCountQuery(LeadCountQuery(mobile)) == Some(mobile)
  {
    var q := LeadCountQuery(mobile);
    assert q[..|LeadQueryPrefix|] == LeadQueryPrefix;
    assert q[|q| - |LeadQuerySuffix|..] == LeadQuerySuffix;
    assert q[|LeadQueryPrefix|..|q| - |LeadQuerySuffix|] == mobile;
  }

  /** `response?.body?.records?.length ?? 0` */
  function RecordCount(body: Json): (count: Json)
    ensures !Nullish(count)
    ensures Nullish(OptGet(body, "records")) ==> count == Num(0)
    ensures OptGet(body, "records").Arr? ==> count == Num(|OptGet(body, "records").items|)
  {
    var length := OptGet(OptGet(body, "records"), "length");
    if Nullish(length) then Num(0) else length
  }

  /** The count of rows equals `expectedCount` exactly (strict equality). */
  predicate CountMatches(f: Fetched, expectedCount: int) {
    f.Body? && RecordCount(f.body) == Num(expectedCount)
  }

  /** One attempt of `verifyLeadCountByMobile`: the body when the count
      matches, `null` otherwise. */
  function LeadCountAttempt(f: Fetched, expectedCount: int): (a: Attempt)
    ensures Hit(a) <==> CountMatches(f, expectedCount) && Truthy(f.body)
    ensures Hit(a) ==> a.value == f.body
    ensures a.Threw? <==> f.RequestFailed?
  {
    match f
    case RequestFailed => Threw
    case Body(body) =>
      if RecordCount(body) == Num(expectedCount) then Returned(body) else Returned(Null)
  }

  /** A matching count with a non-zero expectation always comes with a truthy
      body, so the match alone decides the attempt. */
  lemma LeadCountHitWhenNonZero(f: Fetched, expectedCount: int)
    requires expectedCount != 0
    ensures Hit(LeadCountAttempt(f, expectedCount)) <==> CountMatches(f, expectedCount)
  {
    if CountMatches(f, expectedCount) {
      assert !Nullish(f.body);
    }
  }

  function VerifyLeadCountByMobile(runQuery: (string, nat) -> Fetched, mobile: string, expectedCount: int,
                                   maxRetries: int, interval: int): (p: Run)
    ensures p.result.Ok? ==> Truthy(p.result.value)
  {
    var soql := LeadCountQuery(mobile);
    var run := Retry((k: nat) => LeadCountAttempt(runQuery(soql, k), expectedCount), maxRetries, interval);
    match run.result
    case Ok(v) =>
      if !Truthy(v) then Run(Err(LeadCountMismatch(expectedCount, mobile, maxRetries)), run.trace)
      else run
    case Err(_) => run
  }

  /** The `!result` branch is dead: `retry` only ever returns a truthy value,
      so exhaustion surfaces as the retry error itself, unchanged. */
  lemma VerifyLeadCountErrorIsRetryError(runQuery: (string, nat) -> Fetched, mobile: string, expectedCount: int,
                                         maxRetries: int, interval: int)
    ensures var p := VerifyLeadCountByMobile(runQuery, mobile, expectedCount, maxRetries, interval);
      p.result.Err? ==> p.result.error == RetriesExhausted(maxRetries)
  {
    var fn := (j: nat) => LeadCountAttempt(runQuery(LeadCountQuery(mobile), j), expectedCount);
    RetrySucceedsIffSomeHit(fn, maxRetries, interval);
  }

  /** The first query whose row count matches decides: its body is returned
      after exactly `k + 1` queries and `k` waits. */
  lemma VerifyLeadCountFirstMatch(runQuery: (string, nat) -> Fetched, mobile: string, expectedCount: int,
                                  maxRetries: int, interval: int, k: nat)
    requires expectedCount != 0
    requires k < maxRetries
    requires CountMatches(runQuery(LeadCountQuery(mobile), k), expectedCount)
    requires forall j: nat :: j < k ==> !CountMatches(runQuery(LeadCountQuery(mobile), j), expectedCount)
    ensures var p := VerifyLeadCountByMobile(runQuery, mobile, expectedCount, maxRetries, interval);
      && p.result == Ok(runQuery(LeadCountQuery(mobile), k).body)
      && Invocations(p.trace) == k + 1
      && Sleeps(p.trace) == k
  {
    var soql := LeadCountQuery(mobile);
    var fn := (j: nat) => LeadCountAttempt(runQuery(soql, j), expectedCount);
    forall j: nat | j <= k
      ensures Hit(fn(j)) <==> CountMatches(runQuery(soql, j), expectedCount)
    {
      LeadCountHitWhenNonZero(runQuery(soql, j), expectedCount);
    }
    assert FirstHit(fn, maxRetries, k);
    RetryReturnsFirstHit(fn, maxRetries, interval, k);
  }

  /** When the count never matches, every attempt is used and the retry
      error propagates. */
  lemma VerifyLeadCountExhausts(runQuery: (string, nat) -> Fetched, mobile: string, expectedCount: int,
                                maxRetries: int, interval: int)
    requires forall j: nat :: j < maxRetries ==> !CountMatches(runQuery(LeadCountQuery(mobile), j), expectedCount)
    ensures var p := VerifyLeadCountByMobile(runQuery, mobile, expectedCount, maxRetries, interval);
      && p.result == Err(RetriesExhausted(maxRetries))
      && Invocations(p.trace) == (if maxRetries > 0 then maxRetries else 0)
  {
    var fn := (j: nat) => LeadCountAttempt(runQuery(LeadCountQuery(mobile), j), expectedCount);
    assert NoHit(fn, maxRetries);
    RetryExhausts(fn, maxRetries, interval);
  }

  /** With the defaults (5 attempts, 2000 ms) the check makes at most 5
      queries and waits at most 8000 ms. */
  lemma VerifyLeadCountDefaultBounds(runQuery: (string, nat) -> Fetched, mobile: string, expectedCount: int)
    ensures var p := VerifyLeadCountByMobile(runQuery, mobile, expectedCount, LeadCountMaxRetries, LeadCountInterval);
      Invocations(p.trace) <= 5 && TotalDelay(p.trace) <= 8000
  {
    var fn := (j: nat) => LeadCountAttempt(runQuery(LeadCountQuery(mobile), j), expectedCount);
    RetryBounds(fn, LeadCountMaxRetries, LeadCountInterval);
  }
}
