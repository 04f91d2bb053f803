/** The trip data-access layer: a retry executor with linear backoff, and the two
    retrieval operations built on it, which degrade to empty results instead of throwing. */
module Trips {
  import opened Js

  /** Result of one call of the retried operation. */
  datatype Attempt<T> = Succeeded(value: T) | Failed(thrown: Thrown)

  /** How the promise of retryOperation settles. A rejection carries `lastError`, which is
      null (None) only when no attempt was made at all. */
  datatype Settled<T> = Fulfilled(value: T) | Rejected(lastError: Option<Thrown>)

  /** A stored trip document. `imageUrls` is JNull when the attribute is missing or null;
      an empty `id` is a falsy `$id`. */
  datatype TripDocument = TripDocument(
    id: string,
    tripDetail: string,
    imageUrls: Json,
    createdAt: string,
    userId: string)

  /** `{documents, total}` as listDocuments returns it, for any collection. */
  datatype Listing<D> = Listing(documents: seq<D>, total: int)

  /** The query getAllTrips sends: limit, offset and the attribute sorted descending. */
  datatype ListQuery = ListQuery(limit: int, offset: int, orderDesc: string)

  /** What getAllTrips returns. */
  datatype TripsPage = TripsPage(allTrips: seq<TripDocument>, total: int)

  const AttemptsPerCall := 3
  const BaseDelayMs := 1000

  function Max0(n: int): nat {
    if n > 0 then n else 0
  }

  /** The error retryOperation records for a failed attempt. */
  function Recorded(e: Thrown): (r: Thrown)
    ensures r.ErrorObject?
    ensures e.ErrorObject? ==> r == e
    ensures e.OtherValue? ==> r == ErrorObject("Unknown error")
  {
    match e
    case ErrorObject(_) => e
    case OtherValue => ErrorObject("Unknown error")
  }

  /** The waits after the first `n` failed attempts: delayMs * 1, ..., delayMs * n. */
  function Backoff(delayMs: int, n: nat): (w: seq<int>)
    ensures |w| == n
    ensures forall k :: 1 <= k <= n ==> w[k - 1] == delayMs * k
  {
    if n == 0 then [] else Backoff(delayMs, n - 1) + [delayMs * n]
  }

  function Sum(s: seq<int>): int {
    if s == [] then 0 else Sum(s[..|s| - 1]) + s[|s| - 1]
  }

  /** The total time spent waiting after n failed attempts is delayMs * n * (n + 1) / 2:
      the backoff grows linearly, not exponentially. */
  lemma {:induction false} BackoffTotal(delayMs: int, n: nat)
    ensures 2 * Sum(Backoff(delayMs, n)) == delayMs * n * (n + 1)
  {
    if n > 0 {
      var w := Backoff(delayMs, n);
      assert w[..|w| - 1] == Backoff(delayMs, n - 1);
      BackoffTotal(delayMs, n - 1);
      calc {
        2 * Sum(w);
        2 * Sum(Backoff(delayMs, n - 1)) + 2 * (delayMs * n);
        delayMs * (n - 1) * n + 2 * delayMs * n;
        { assert delayMs * (n - 1) * n == delayMs * n * n - delayMs * n; }
        delayMs * n * n + delayMs * n;
        delayMs * n * (n + 1);
      }
    }
  }

  /** retryOperation: calls `op` for attempt 1, 2, ... up to maxRetries, returns the first
      success, waits delayMs * attempt after every failed attempt but the last, and on
      exhaustion rejects with the error recorded for the final attempt. `op(k)` is the
      outcome of the k-th call; `calls` is the number of calls made and `waits` the delays
      slept, in order. */
  method RetryOperation<T>(op: nat -> Attempt<T>, maxRetries: int, delayMs: int)
    returns (result: Settled<T>, calls: nat, waits: seq<int>)
    ensures calls <= Max0(maxRetries)
    ensures forall k :: 1 <= k < calls ==> op(k).Failed?
    ensures result.Fulfilled? <==> calls >= 1 && op(calls).Succeeded?
    ensures result.Fulfilled? ==> result.value == op(calls).value
    ensures result.Rejected? ==> calls == Max0(maxRetries)
    ensures result.Rejected? ==>
              result.lastError == if calls == 0 then None else Some(Recorded(op(calls).thrown))
    ensures result.Rejected? && maxRetries >= 1 ==>
              result.lastError.Some? && result.lastError.value.ErrorObject?
    ensures waits == Backoff(delayMs, if calls == 0 then 0 else calls - 1)
  {
    var lastError: Option<Thrown> := None;
    var attempt := 1;
    calls, waits := 0, [];
    while attempt <= maxRetries
      invariant 1 <= attempt && calls == attempt - 1
      invariant attempt == 1 || attempt <= maxRetries + 1
      invariant forall k :: 1 <= k < attempt ==> op(k).Failed?
      invariant lastError == if attempt == 1 then None else Some(Recorded(op(attempt - 1).thrown))
      invariant waits == Backoff(delayMs, if attempt <= maxRetries || attempt == 1 then attempt - 1 else attempt - 2)
      decreases maxRetries - attempt
    {
      calls := calls + 1;
      match op(attempt)
      case Succeeded(v) =>
        result := Fulfilled(v);
        return;
      case Failed(e) =>
        lastError := Some(Recorded(e));
        if attempt < maxRetries {
          waits := waits + [delayMs * attempt];
        }
      attempt := attempt + 1;
    }
    result := Rejected(lastError);
  }

  /** The query of getAllTrips: newest first. */
  function AllTripsQuery(limit: int, offset: int): ListQuery {
    ListQuery(limit, offset, "createdAt")
  }

  /** getAllTrips: retries listDocuments three times with a one-second base delay; a zero
      total and an exhausted retry both become an empty page; otherwise the documents and
      the total pass through. It never throws. */
  method GetAllTrips(listDocuments: ListQuery -> nat -> Attempt<Listing<TripDocument>>, limit: int, offset: int)
    returns (page: TripsPage, calls: nat, waits: seq<int>)
    ensures 1 <= calls <= AttemptsPerCall
    ensures forall k :: 1 <= k < calls ==> listDocuments(AllTripsQuery(limit, offset))(k).Failed?
    ensures waits == Backoff(BaseDelayMs, calls - 1)
    ensures listDocuments(AllTripsQuery(limit, offset))(calls).Failed? ==>
              calls == AttemptsPerCall && page == TripsPage([], 0)
    ensures listDocuments(AllTripsQuery(limit, offset))(calls).Succeeded? ==>
              var list := listDocuments(AllTripsQuery(limit, offset))(calls).value;
              page == if list.total == 0 then TripsPage([], 0) else TripsPage(list.documents, list.total)
  {
    var settled;
    settled, calls, waits := RetryOperation(listDocuments(AllTripsQuery(limit, offset)), AttemptsPerCall, BaseDelayMs);
    match settled
    case Rejected(_) =>
      page := TripsPage([], 0);
    case Fulfilled(list) =>
      if list.total == 0 {
        page := TripsPage([], 0);
      } else {
        page := TripsPage(list.documents, list.total);
      }
  }

  /** getTripById: retries getDocument three times with a one-second base delay; an
      exhausted retry or a document without `$id` gives null (None); otherwise the
      document passes through unchanged. */
  method GetTripById(getDocument: string -> nat -> Attempt<TripDocument>, tripId: string)
    returns (trip: Option<TripDocument>, calls: nat, waits: seq<int>)
    ensures 1 <= calls <= AttemptsPerCall
    ensures forall k :: 1 <= k < calls ==> getDocument(tripId)(k).Failed?
    ensures waits == Backoff(BaseDelayMs, calls - 1)
    ensures getDocument(tripId)(calls).Failed? ==> calls == AttemptsPerCall && trip == None
    ensures trip.Some? <==> getDocument(tripId)(calls).Succeeded? && getDocument(tripId)(calls).value.id != ""
    ensures trip.Some? ==> trip.value == getDocument(tripId)(calls).value
  {
    var settled;
    settled, calls, waits := RetryOperation(getDocument(tripId), AttemptsPerCall, BaseDelayMs);
    match settled
    case Rejected(_) =>
      trip := None;
    case Fulfilled(doc) =>
      trip := if doc.id == "" then None else Some(doc);
  }
}
