/**
 The errors the core throws, each carrying what its message names, and the
 message text itself.
 */
module Errors {
  import opened JsValue

  datatype Error =
      /** `retry` ran out of attempts. */
    | RetriesExhausted(maxRetries: int)
      /** `getRecordTypeId` failed: the query or the search threw. */
    | RecordTypeLookupFailed(objectType: string)
      /** `waitForRecordField` ran out of attempts. */
    | RecordFieldUnavailable(fieldName: string, objectType: string, recordId: string)
      /** `waitForRecordFieldByQuery` ran out of attempts. */
    | QueryFieldUnavailable(fieldName: string, soql: string)
      /** The `!result` branch of `verifyLeadCountByMobile`. */
    | LeadCountMismatch(expectedCount: int, mobile: string, maxRetries: int)
      /** The token request failed; `description` is what the message shows. */
    | AccessTokenFailed(description: string)

  datatype Result<T> = Ok(value: T) | Err(error: Error)

  predicate StartsWith(s: string, prefix: string) {
    |prefix| <= |s| && s[..|prefix|] == prefix
  }

  predicate EndsWith(s: string, suffix: string) {
    |suffix| <= |s| && s[|s| - |suffix|..] == suffix
  }

  /** The `message` of the thrown `Error`: each names what its error
      carries, the object type, record id, field, query or description
      standing at a fixed place in the text. */
  function Message(e: Error): (m: string)
    ensures e.RetriesExhausted? ==>
      StartsWith(m, "\U{274C} Failed after ") && EndsWith(m, " retries")
      && |"\U{274C} Failed after "| + |" retries"| <= |m|
      && m[|"\U{274C} Failed after "|..|m| - |" retries"|] == IntToString(e.maxRetries)
    ensures e.RecordTypeLookupFailed? ==>
      StartsWith(m, "Failed to fetch RecordTypeId for ") && EndsWith(m, e.objectType)
    ensures e.RecordFieldUnavailable? ==>
      StartsWith(m, "Failed to retrieve " + e.fieldName + " from " + e.objectType)
      && EndsWith(m, " with ID: " + e.recordId)
    ensures e.QueryFieldUnavailable? ==>
      StartsWith(m, "Failed to retrieve " + e.fieldName + " using query: ") && EndsWith(m, e.soql)
    ensures e.LeadCountMismatch? ==>
      StartsWith(m, "\U{274C} Expected " + IntToString(e.expectedCount) + " leads for mobile: " + e.mobile)
      && EndsWith(m, ", but didn't match after " + IntToString(e.maxRetries) + " retries.")
    ensures e.AccessTokenFailed? ==>
      StartsWith(m, "Failed to retrieve access token: ") && EndsWith(m, e.description)
  {
    match e
    case RetriesExhausted(n) =>
      Framed("\U{274C} Failed after ", IntToString(n), " retries");
      "\U{274C} Failed after " + IntToString(n) + " retries"
    case RecordTypeLookupFailed(objectType) =>
      Joined("Failed to fetch RecordTypeId for ", objectType);
      "Failed to fetch RecordTypeId for " + objectType
    case RecordFieldUnavailable(fieldName, objectType, recordId) =>
      var head := "Failed to retrieve " + fieldName + " from " + objectType;
      Joined(head, " with ID: " + recordId);
      head + (" with ID: " + recordId)
    case QueryFieldUnavailable(fieldName, soql) =>
      Joined("Failed to retrieve " + fieldName + " using query: ", soql);
      "Failed to retrieve " + fieldName + " using query: " + soql
    case LeadCountMismatch(expectedCount, mobile, maxRetries) =>
      var head := "\U{274C} Expected " + IntToString(expectedCount) + " leads for mobile: " + mobile;
      var tail := ", but didn't match after " + IntToString(maxRetries) + " retries.";
      Joined(head, tail);
      head + tail
    case AccessTokenFailed(description) =>
      Joined("Failed to retrieve access token: ", description);
      "Failed to retrieve access token: " + description
  }

  lemma Joined(prefix: string, suffix: string)
    ensures StartsWith(prefix + suffix, prefix)
    ensures EndsWith(prefix + suffix, suffix)
  {
    var s := prefix + suffix;
    assert s[..|prefix|] == prefix;
    assert s[|s| - |suffix|..] == suffix;
  }

  lemma Framed(prefix: string, middle: string, suffix: string)
    ensures StartsWith(prefix + middle + suffix, prefix)
    ensures EndsWith(prefix + middle + suffix, suffix)
    ensures (prefix + middle + suffix)[|prefix|..|prefix| + |middle|] == middle
  {
    var s := prefix + middle + suffix;
    assert s[..|prefix|] == prefix;
    assert s[|s| - |suffix|..] == suffix;
    assert s[|prefix|..|prefix| + |middle|] == middle;
  }

}
