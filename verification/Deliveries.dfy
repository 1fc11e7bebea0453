/** One row of `webhook_deliveries` and what each actor does to its session copy of it
    (app/webhooks.py, app/routers/admin_ui/webhook_deliveries.py, services.licenses.test_webhook).
    Times are seconds on one clock. */
module Deliveries {
  import opened Common

  datatype Status = Pending | Delivered | Abandoned

  /** The payload dictionaries the call sites build. */
  datatype Notice =
    | StatusChanged(facts: Facts, previous: string, current: string)
    | Updated(facts: Facts, status: string, changedFields: seq<string>)
    | LicenseDeleted(facts: Facts)
    | Probe(facts: Facts)

  datatype Facts = Facts(licenseId: nat, key: string, productSlug: Option<string>, customerEmail: Option<string>)

  /** What `json.loads` makes of the stored `payload_json`. */
  datatype Payload = Json(data: Notice) | Garbled(error: string)

  /** The columns written once, at insert. */
  datatype Identity = Identity(id: nat, url: string, secret: string, eventType: string, payload: Payload)

  datatype Row = Row(
    identity: Identity,
    attempts: nat,
    status: Status,
    nextAttemptAt: int,
    lastAttemptAt: Option<int>,
    deliveredAt: Option<int>,
    lastError: Option<string>,
    responseStatus: Option<int>,
    responseExcerpt: Option<string>)

  /** The triple `deliver` returns. */
  datatype Reply = Reply(ok: bool, status: Option<int>, error: Option<string>)

  const BACKOFF: seq<int> := [60, 300, 1800, 7200, 43200, 86400]
  const MAX_ATTEMPTS: nat := |BACKOFF| + 1
  const TEST_EVENT := "license.test"
  const EXCERPT_LIMIT := 500

  function Clip(s: string): string {
    if |s| <= EXCERPT_LIMIT then s else s[..EXCERPT_LIMIT]
  }

  /** The error column: the error's first 500 characters, or a placeholder when there is none. */
  function ErrorText(error: Option<string>): string {
    if error.None? || error.value == "" then "(no detail)" else Clip(error.value)
  }

  /** The response excerpt is kept only when an HTTP status came back with a text. */
  function Excerpt(reply: Reply): Option<string> {
    if reply.status.None? || reply.error.None? || reply.error.value == "" then None
    else Some(Clip(reply.error.value))
  }

  /** True when an attempt on this copy gets as far as calling `deliver`. */
  predicate Sends(r: Row) {
    r.status == Pending && r.identity.payload.Json?
  }

  /** The session copy after one attempt: `sentAt` and `doneAt` are its two clock readings. */
  function Attempted(r: Row, reply: Reply, sentAt: int, doneAt: int): Row {
    if r.status != Pending then r
    else if r.identity.payload.Garbled? then
      r.(status := Abandoned, lastError := Some("payload_decode: " + r.identity.payload.error))
    else
      var seen := r.(attempts := r.attempts + 1, lastAttemptAt := Some(sentAt),
                     responseStatus := reply.status, responseExcerpt := Excerpt(reply));
      if reply.ok then seen.(status := Delivered, deliveredAt := Some(doneAt), lastError := None)
      else if seen.attempts >= MAX_ATTEMPTS then
        seen.(status := Abandoned, lastError := Some(ErrorText(reply.error)))
      else
        seen.(nextAttemptAt := doneAt + BACKOFF[r.attempts], lastError := Some(ErrorText(reply.error)))
  }

  /** The session copy after the operator's "retry now", before its own attempt. */
  function Retried(r: Row, now: int): Row {
    if r.identity.eventType == TEST_EVENT then r
    else
      var base := if r.status == Abandoned then r.(status := Pending, attempts := 0) else r;
      base.(nextAttemptAt := now, lastError := None)
  }

  /** The row `enqueue` inserts. */
  function Enqueued(identity: Identity, now: int): Row {
    Row(identity, 0, Pending, now, None, None, None, None, None)
  }

  /** The terminal row `test_webhook` inserts after its one send. */
  function TestRow(identity: Identity, reply: Reply, now: int): Row {
    Row(identity, 1, if reply.ok then Delivered else Abandoned, now, Some(now),
        if reply.ok then Some(now) else None,
        if reply.ok then None else Some(ErrorText(reply.error)),
        reply.status, Excerpt(reply))
  }

  // ----- what each of these makes of a row ---------------------------------------------------------

  /** A text column cut to what fits: all of a text of up to 500 characters, else its first 500. */
  predicate Cuts(column: Option<string>, text: string) {
    && column.Some? && column.value <= text
    && |column.value| == if |text| <= 500 then |text| else 500
  }

  /** The delay before the next attempt after the n-th failure, in minutes. */
  function DelayMinutes(n: nat): nat
    requires 1 <= n <= 6
  {
    match n
    case 1 => 1
    case 2 => 5
    case 3 => 30
    case 4 => 120
    case 5 => 720
    case 6 => 1440
  }

  /** The delivered, retried and abandoned ends of an attempt on a pending row: a success delivers, the seventh
      failure abandons, and any other failure leaves the row pending until its delay has passed. */
  lemma AttemptOutcome(r: Row, reply: Reply, sentAt: int, doneAt: int)
    requires r.status == Pending && r.attempts < 7 && r.identity.payload.Json?
    ensures var after := Attempted(r, reply, sentAt, doneAt);
            && after.identity == r.identity && after.attempts == r.attempts + 1 && after.lastAttemptAt == Some(sentAt)
            && (reply.ok ==> after.status == Delivered && after.deliveredAt == Some(doneAt) && after.lastError.None?)
            && (!reply.ok ==>
                  after.deliveredAt == r.deliveredAt && after.lastError.Some? && after.lastError.value != "")
            && (!reply.ok && r.attempts == 6 ==> after.status == Abandoned)
            && (!reply.ok && r.attempts < 6 ==>
                  after.status == Pending && after.nextAttemptAt == doneAt + 60 * DelayMinutes(r.attempts + 1))
            && (reply.ok || r.attempts == 6 ==> after.nextAttemptAt == r.nextAttemptAt)
  {
  }

  /** What an attempt writes down of the reply. */
  lemma AttemptRecords(r: Row, reply: Reply, sentAt: int, doneAt: int)
    requires r.status == Pending && r.identity.payload.Json?
    ensures var after := Attempted(r, reply, sentAt, doneAt);
            && after.responseStatus == reply.status
            && (after.responseExcerpt.Some? <==> reply.status.Some? && reply.error.Some? && reply.error.value != "")
            && (after.responseExcerpt.Some? ==> Cuts(after.responseExcerpt, reply.error.value))
            && (!reply.ok && reply.error.Some? && reply.error.value != "" ==> Cuts(after.lastError, reply.error.value))
            && (!reply.ok && (reply.error.None? || reply.error.value == "") ==> after.lastError == Some("(no detail)"))
  {
  }

  /** A payload that does not decode abandons the row without an attempt; a row that is not pending stays as it
      is. */
  lemma NoAttempt(r: Row, reply: Reply, sentAt: int, doneAt: int)
    requires r.status != Pending || r.identity.payload.Garbled?
    ensures var after := Attempted(r, reply, sentAt, doneAt);
            if r.status != Pending then after == r
            else after == r.(status := Abandoned, lastError := after.lastError) && after.lastError.Some? &&
                 "payload_decode: " <= after.lastError.value
  {
  }

  /** An operator's retry: never of a test row; any other row is due at once and its error is cleared, and one
      that was given up is pending again with no attempts made. */
  lemma RetryOutcome(r: Row, now: int)
    ensures var after := Retried(r, now);
            if r.identity.eventType == "license.test" then after == r
            else
              && after == r.(status := after.status, attempts := after.attempts, nextAttemptAt := now,
                             lastError := None)
              && (if r.status == Abandoned then after.status == Pending && after.attempts == 0
                  else after.status == r.status && after.attempts == r.attempts)
  {
  }

  /** A queued row waits for its first attempt from the moment it is queued; a test row is final. */
  lemma NewRows(identity: Identity, reply: Reply, now: int)
    ensures var queued := Enqueued(identity, now);
            && queued.identity == identity && queued.status == Pending && queued.attempts == 0
            && queued.nextAttemptAt == now && queued.lastAttemptAt.None? && queued.deliveredAt.None?
            && queued.lastError.None? && queued.responseStatus.None? && queued.responseExcerpt.None?
    ensures var test := TestRow(identity, reply, now);
            && test.identity == identity && test.attempts == 1 && test.lastAttemptAt == Some(now)
            && test.nextAttemptAt == now && test.responseStatus == reply.status
            && (if reply.ok then test.status == Delivered && test.deliveredAt == Some(now) && test.lastError.None?
                else test.status == Abandoned && test.deliveredAt.None? && test.lastError.Some?)
  {
  }

  /** A session's copy of one row: the attributes the service code assigns one by one. */
  class SessionCopy {
    const identity: Identity
    var attempts: nat
    var status: Status
    var nextAttemptAt: int
    var lastAttemptAt: Option<int>
    var deliveredAt: Option<int>
    var lastError: Option<string>
    var responseStatus: Option<int>
    var responseExcerpt: Option<string>

    function Snapshot(): Row
      reads this
    {
      Row(identity, attempts, status, nextAttemptAt, lastAttemptAt, deliveredAt,
          lastError, responseStatus, responseExcerpt)
    }

    constructor Load(r: Row)
      ensures Snapshot() == r
    {
      identity := r.identity;
      attempts, status, nextAttemptAt := r.attempts, r.status, r.nextAttemptAt;
      lastAttemptAt, deliveredAt, lastError := r.lastAttemptAt, r.deliveredAt, r.lastError;
      responseStatus, responseExcerpt := r.responseStatus, r.responseExcerpt;
    }

    /** `try_deliver`, with the outcome of `deliver` and the clock readings supplied. */
    method TryDeliver(reply: Reply, sentAt: int, doneAt: int) returns (delivered: bool)
      modifies this
      ensures Snapshot() == Attempted(old(Snapshot()), reply, sentAt, doneAt)
      ensures delivered <==> old(status) == Pending && status == Delivered
    {
      if status != Pending {
        return false;
      }
      if identity.payload.Garbled? {
        status := Abandoned;
        lastError := Some("payload_decode: " + identity.payload.error);
        return false;
      }
      attempts := attempts + 1;
      lastAttemptAt := Some(sentAt);
      responseStatus := reply.status;
      responseExcerpt := Excerpt(reply);
      if reply.ok {
        status := Delivered;
        deliveredAt := Some(doneAt);
        lastError := None;
        return true;
      }
      lastError := Some(ErrorText(reply.error));
      if attempts >= MAX_ATTEMPTS {
        status := Abandoned;
        return false;
      }
      var backoff := BACKOFF[attempts - 1];
      nextAttemptAt := doneAt + backoff;
      return false;
    }

    /** The row update of `retry_delivery`; `retryable` is false for test rows. */
    method RetryNow(now: int) returns (retryable: bool)
      modifies this
      ensures Snapshot() == Retried(old(Snapshot()), now)
      ensures retryable <==> identity.eventType != TEST_EVENT
    {
      if identity.eventType == TEST_EVENT {
        return false;
      }
      if status == Abandoned {
        status := Pending;
        attempts := 0;
      }
      nextAttemptAt := now;
      lastError := None;
      return true;
    }
  }

  /** The row after a session's flush, column by column. */
  function Flushed(durable: Row, loaded: Row, current: Row): Row {
    Row(durable.identity,
        Column(durable.attempts, loaded.attempts, current.attempts),
        Column(durable.status, loaded.status, current.status),
        Column(durable.nextAttemptAt, loaded.nextAttemptAt, current.nextAttemptAt),
        Column(durable.lastAttemptAt, loaded.lastAttemptAt, current.lastAttemptAt),
        Column(durable.deliveredAt, loaded.deliveredAt, current.deliveredAt),
        Column(durable.lastError, loaded.lastError, current.lastError),
        Column(durable.responseStatus, loaded.responseStatus, current.responseStatus),
        Column(durable.responseExcerpt, loaded.responseExcerpt, current.responseExcerpt))
  }
}
