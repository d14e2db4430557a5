/**
 Concrete runs of the helpers on small scripted server behaviours.
 */
module Scenarios {
  import opened JsValue
  import opened Errors
  import opened RetryEngine
  import opened SalesforceHelper

  /** A falsy value, then a throw, then a truthy value: three calls, two
      waits of the interval, and the third value is returned. */
  lemma RetryMissThrowHit()
    ensures var r := Retry((k: nat) => if k == 0 then Returned(Num(0)) else if k == 1 then Threw else Returned(Str("ok")),
                           DefaultMaxRetries, DefaultInterval);
      && r.result == Ok(Str("ok"))
      && r.trace == [Invoke(0), Sleep(1000), Invoke(1), Sleep(1000), Invoke(2)]
  {
  }

  /** Zero attempts: no call at all, and the exhaustion error. */
  lemma RetryZeroAttempts(fn: nat -> Attempt)
    ensures Retry(fn, 0, DefaultInterval) == Run(Err(RetriesExhausted(0)), [])
  {
  }

  lemma RetryExhaustedMessage()
    ensures Message(RetriesExhausted(5)) == "\U{274C} Failed after 5 retries"
  {
  }

  /** A status that is still `null` on the first two fetches and set on the
      third: the body of the third fetch after three fetches. */
  lemma RecordFieldSetOnThirdFetch(objectType: string, recordId: string)
    ensures var getRecord := (t: string, id: string, k: nat) =>
              if k < 2 then Body(Obj(map["Status" := Null])) else Body(Obj(map["Status" := Str("Done")]));
      var p := WaitForRecordField(getRecord, objectType, recordId, "Status", RecordFieldMaxRetries, RecordFieldInterval);
      && p.result == Ok(Obj(map["Status" := Str("Done")]))
      && Invocations(p.trace) == 3
  {
    var getRecord := (t: string, id: string, k: nat) =>
      if k < 2 then Body(Obj(map["Status" := Null])) else Body(Obj(map["Status" := Str("Done")]));
    WaitForRecordFieldFirstPopulated(getRecord, objectType, recordId, "Status",
                                     RecordFieldMaxRetries, RecordFieldInterval, 2);
  }

  /** Empty row sets on the first two queries (the read of row 0 throws and
      is absorbed) and a populated row on the third. */
  lemma QueryFieldAfterEmptyRows(soql: string)
    ensures var row := Obj(map["Id" := Str("00Q1")]);
      var runQuery := (q: string, k: nat) =>
        if k < 2 then Body(Obj(map["records" := Arr([])])) else Body(Obj(map["records" := Arr([row])]));
      var p := WaitForRecordFieldByQuery(runQuery, soql, "Id", QueryFieldMaxRetries, QueryFieldInterval);
      && p.result == Ok(Arr([row]))
      && Invocations(p.trace) == 3
  {
    var row := Obj(map["Id" := Str("00Q1")]);
    var runQuery := (q: string, k: nat) =>
      if k < 2 then Body(Obj(map["records" := Arr([])])) else Body(Obj(map["records" := Arr([row])]));
    assert QueryFieldAttempt(runQuery(soql, 0), "Id") == Threw;
    WaitForRecordFieldByQueryFirstPopulated(runQuery, soql, "Id", QueryFieldMaxRetries, QueryFieldInterval, 2);
  }

  function Leads(n: nat): Json {
    Obj(map["records" := Arr(seq(n, i => Obj(map["Id" := Num(i)])))])
  }

  lemma LeadsCount(n: nat)
    ensures RecordCount(Leads(n)) == Num(n)
  {
    assert OptGet(Leads(n), "records") == Arr(seq(n, i => Obj(map["Id" := Num(i)])));
  }

  /** Row counts 0, 1, 2 on successive queries with 2 expected: the third
      body after three queries. */
  lemma LeadCountReachedOnThirdQuery()
    ensures var runQuery := (q: string, k: nat) => Body(Leads(if k < 2 then k else 2));
      var p := VerifyLeadCountByMobile(runQuery, "+15551234567", 2, LeadCountMaxRetries, LeadCountInterval);
      && p.result == Ok(Leads(2))
      && Invocations(p.trace) == 3
  {
    var runQuery := (q: string, k: nat) => Body(Leads(if k < 2 then k else 2));
    LeadsCount(0);
    LeadsCount(1);
    LeadsCount(2);
    VerifyLeadCountFirstMatch(runQuery, "+15551234567", 2, LeadCountMaxRetries, LeadCountInterval, 2);
  }

  /** Three rows forever with 2 expected: all five queries are made and the
      retry error itself is thrown. */
  lemma LeadCountNeverReached()
    ensures var runQuery := (q: string, k: nat) => Body(Leads(3));
      var p := VerifyLeadCountByMobile(runQuery, "+15551234567", 2, LeadCountMaxRetries, LeadCountInterval);
      && p.result == Err(RetriesExhausted(5))
      && Invocations(p.trace) == 5
  {
    var runQuery := (q: string, k: nat) => Body(Leads(3));
    LeadsCount(3);
    VerifyLeadCountExhausts(runQuery, "+15551234567", 2, LeadCountMaxRetries, LeadCountInterval);
  }

  function RecordTypes(): Fetched {
    Body(Obj(map["records" := Arr([
      Obj(map["SobjectType" := Str("Account"), "DeveloperName" := Str("Partner"), "Id" := Str("012A")]),
      Obj(map["SobjectType" := Str("lead"), "DeveloperName" := Str("Partner"), "Id" := Str("012L")])
    ])]))
  }

  /** The object type matches ignoring case; the developer name must match
      exactly. */
  lemma RecordTypeLookups()
    ensures GetRecordTypeId(RecordTypes(), "Lead", "Partner") == Ok(Str("012L"))
    ensures GetRecordTypeId(RecordTypes(), "Lead", "partner") == Ok(Undefined)
  {
    assert CheckRecordType(RecordTypes().body.fields["records"].items[0], "Lead", "Partner") == Differs;
    assert CheckRecordType(RecordTypes().body.fields["records"].items[1], "Lead", "Partner") == Matches;
  }
}
