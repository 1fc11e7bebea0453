/** The budget of a delivery row, from its first attempt or from an operator's retry
    (app/routers/admin_ui/webhook_deliveries.py, app/webhooks.py): seven failures, the delays between them. */
module RevivedRows {
  import opened Common
  import opened Deliveries
  import opened DeliveryMachine
  import W = RetryWorker

  /** The step records a failed attempt on the row. */
  predicate Fails(q: Queue, s: Step, id: nat)
    requires Enabled(q, s)
  {
    s.Commit? && q.open[s.k].id == id && q.open[s.k].action.Attempt? && !q.open[s.k].action.reply.ok &&
    q.open[s.k].loaded.status == Pending
  }

  function Failures(q: Queue, steps: seq<Step>, id: nat): nat
    requires IsRun(q, steps)
    decreases |steps|
  {
    if steps == [] then 0
    else (if Fails(q, steps[0], id) then 1 else 0) + Failures(Next(q, steps[0]), steps[1..], id)
  }

  /** When the first failed attempt that is recorded was sent. */
  function FirstFailure(q: Queue, steps: seq<Step>, id: nat): Option<int>
    requires IsRun(q, steps)
    decreases |steps|
  {
    if steps == [] then None
    else if Fails(q, steps[0], id) then Some(q.open[steps[0].k].action.sentAt)
    else FirstFailure(Next(q, steps[0]), steps[1..], id)
  }

  /** The row after `failed` recorded failures, the first sent at `first`, from a budget that was whole. */
  predicate Spent(r: Row, failed: nat, first: Option<int>) {
    && r.identity.payload.Json? && (failed > 0 <==> first.Some?)
    && (first.Some? ==> Waited(r, first.value))
    && match r.status
       case Pending => r.attempts == failed < 7
       case Abandoned => r.attempts == failed == 7
       case Delivered => r.attempts == failed + 1 && failed < 7
  }

  ghost predicate Tracks(q: Queue, id: nat, failed: nat, first: Option<int>) {
    && id in q.rows && Spent(q.rows[id], failed, first)
    && (forall k :: k in q.open && q.open[k].id == id ==>
          q.open[k].loaded == q.rows[id] && WorkerPick(q.rows[id], q.open[k].action))
    && (forall j, k :: j in q.open && k in q.open && q.open[j].id == id && q.open[k].id == id ==> j == k)
  }

  lemma AttemptSpends(r: Row, action: Action, failed: nat, first: Option<int>)
    requires Spent(r, failed, first) && WorkerPick(r, action)
    ensures var after := Attempted(r, action.reply, action.sentAt, action.doneAt);
            if r.status == Pending && !action.reply.ok
            then Spent(after, failed + 1, if first.Some? then first else Some(action.sentAt))
            else Spent(after, failed, first)
  {
    if first.Some? {
      AttemptKeepsWaited(r, action, first.value);
    } else {
      assert Delays(1) == Delays(0) + 60;
    }
  }

  lemma StepSpends(q: Queue, s: Step, id: nat, failed: nat, first: Option<int>)
    requires Tracks(q, id, failed, first) && Enabled(q, s)
    requires s.Begin? && s.id == id ==> NoneOpenOn(q, id) && WorkerPick(q.rows[id], s.action)
    ensures if Fails(q, s, id)
            then Tracks(Next(q, s), id, failed + 1, if first.Some? then first else Some(q.open[s.k].action.sentAt))
            else Tracks(Next(q, s), id, failed, first)
  {
    if s.Commit? && q.open[s.k].id == id {
      FlushOfFreshCopy(q.open[s.k]);
      AttemptSpends(q.rows[id], q.open[s.k].action, failed, first);
    }
  }

  lemma {:induction false} RunSpends(q: Queue, steps: seq<Step>, id: nat, failed: nat, first: Option<int>)
    requires Tracks(q, id, failed, first) && IsRun(q, steps) && WorkerOnly(q, steps, id)
    ensures Tracks(Final(q, steps), id, failed + Failures(q, steps, id),
                   if first.Some? then first else FirstFailure(q, steps, id))
    decreases |steps|
  {
    if steps != [] {
      StepSpends(q, steps[0], id, failed, first);
      if Fails(q, steps[0], id) {
        RunSpends(Next(q, steps[0]), steps[1..], id, failed + 1,
                  if first.Some? then first else Some(q.open[steps[0].k].action.sentAt));
      } else {
        RunSpends(Next(q, steps[0]), steps[1..], id, failed, first);
      }
    }
  }

  /** A row with its whole budget, attempted one at a time and never before it is due: it is abandoned exactly at
      its seventh recorded failure, no earlier than 2316 minutes after the first. */
  lemma {:induction false} WholeBudget(q: Queue, steps: seq<Step>, id: nat)
    requires id in q.rows && q.rows[id].status == Pending && q.rows[id].attempts == 0
    requires q.rows[id].identity.payload.Json? && NoneOpenOn(q, id) && IsRun(q, steps) && WorkerOnly(q, steps, id)
    ensures id in Final(q, steps).rows
    ensures var r, failed, first := Final(q, steps).rows[id], Failures(q, steps, id), FirstFailure(q, steps, id);
            && (r.status == Abandoned <==> failed == 7) && (r.status == Pending ==> r.attempts == failed < 7)
            && (r.status == Abandoned ==> first.Some? && r.lastAttemptAt.Some? &&
                                          r.lastAttemptAt.value - first.value >= 2316 * 60)
  {
    RunSpends(q, steps, id, 0, None);
    AllDelays();
  }

  /** An operator revives a row that was given up, nobody else opening it meanwhile: it is due at the retry's own
      clock, and from then on it has a whole budget, whatever it had spent before. */
  lemma {:induction false} RevivedRowHasWholeBudget(q: Queue, k: nat, id: nat, now: int, during: seq<Step>,
                                                    later: seq<Step>)
    requires id in q.rows && q.rows[id].status == Abandoned && q.rows[id].identity.payload.Json?
    requires q.rows[id].identity.eventType != "license.test" && NoneOpenOn(q, id)
    requires Enabled(q, Begin(k, id, RetryNow(now)))
    requires var q1 := Next(q, Begin(k, id, RetryNow(now)));
             && IsRun(q1, during) && W.Spares(during, id) && W.Holds(during, k)
             && Enabled(Final(q1, during), Commit(k))
             && IsRun(Next(Final(q1, during), Commit(k)), later)
             && WorkerOnly(Next(Final(q1, during), Commit(k)), later, id)
    ensures var q3 := Next(Final(Next(q, Begin(k, id, RetryNow(now))), during), Commit(k));
            && id in q3.rows && q3.rows[id] == q.rows[id].(status := Pending, attempts := 0, nextAttemptAt := now,
                                                           lastError := None)
            && id in Final(q3, later).rows
            && var r, failed, first := Final(q3, later).rows[id], Failures(q3, later, id), FirstFailure(q3, later, id);
               && (r.status == Abandoned <==> failed == 7)
               && (r.status == Abandoned ==> first.Some? && r.lastAttemptAt.Some? &&
                                             r.lastAttemptAt.value - first.value >= 2316 * 60)
  {
    var q1 := Next(q, Begin(k, id, RetryNow(now)));
    W.OpenRowStays(q1, during, k, id, q.rows[id]);
    FlushOfFreshCopy(q1.open[k]);
    WholeBudget(Next(Final(q1, during), Commit(k)), later, id);
  }
}
