/** The outbox joined to the retry queue: what a committed change owes is sent within the worker's bound. */
module OutboxDelivery {
  import opened LicenseModel
  import D = Deliveries
  import M = DeliveryMachine
  import R = LicenseRuns
  import W = RetryWorker

  lemma {:induction false} InboxHolds(deliveries: map<nat, D.Row>, notices: seq<D.Identity>, now: int, i: nat)
    requires R.FreshNotices(deliveries, notices) && i < |notices|
    ensures var after := R.Inbox(deliveries, notices, now);
            notices[i].id in after && after[notices[i].id] == D.Enqueued(notices[i], now)
    decreases |notices|
  {
    var rest, first := notices[1..], deliveries[notices[0].id := D.Enqueued(notices[0], now)];
    if i == 0 {
      InboxKeeps(first, rest, now, notices[0].id);
    } else {
      InboxHolds(first, rest, now, i - 1);
    }
  }

  lemma {:induction false} InboxKeeps(deliveries: map<nat, D.Row>, notices: seq<D.Identity>, now: int, id: nat)
    requires id in deliveries && forall i :: 0 <= i < |notices| ==> notices[i].id != id
    ensures id in R.Inbox(deliveries, notices, now) && R.Inbox(deliveries, notices, now)[id] == deliveries[id]
    decreases |notices|
  {
    if notices != [] {
      InboxKeeps(deliveries[notices[0].id := D.Enqueued(notices[0], now)], notices[1..], now, id);
    }
  }

  /** Every notice a committed change owes is sent to within floor((r + s) / limit) + 1 worker passes: from the
      commit on, through any steps of other actors and whatever sessions are open, while no one else opens its
      row. `r` and `s` are counted at the first of those passes. */
  lemma {:induction false} OwedNoticeIsAttempted(db: Db, op: R.Op, safe: ShapeCheck, i: nat, q: M.Queue,
                                                 before: seq<M.Step>, ps: seq<W.Pass>, limit: nat, r: nat, s: nat)
    requires R.RejectsEmpty(safe) && R.AllConfigOk(db, safe) && R.Valid(db, op) && R.Effect(db, op, safe).Ok?
    requires op.SetStatus? || op.Edit? || op.Delete? || op.DeleteProduct?
    requires i < |R.Owed(db, op, safe)| && limit > 0
    requires q.rows == R.Effect(db, op, safe).value.deliveries
    requires var n := R.Owed(db, op, safe)[i];
             && (forall k :: k in q.open ==> q.open[k].id != n.id)
             && M.IsRun(q, before) && W.Spares(before, n.id)
             && W.PassesRun(M.Final(q, before), ps, limit) && forall p :: p in ps ==> W.Fair(p, n.id, op.now)
    requires var q1 := M.Final(q, before);
             && r == |W.Ahead(q1, op.now) - {R.Owed(db, op, safe)[i].id}|
             && s == |W.Stale(q1, op.now)| + W.PassesOvertaking(q1, ps, limit, op.now)
             && |ps| == (r + s) / limit + 1
    ensures var n := R.Owed(db, op, safe)[i];
            D.Sends(D.Enqueued(n, op.now)) && W.AttemptedIn(M.Final(q, before), ps, limit, n.id, D.Enqueued(n, op.now))
  {
    var n := R.Owed(db, op, safe)[i];
    R.NotifyingStep(db, op, safe);
    InboxHolds(db.deliveries, R.Owed(db, op, safe), op.now, i);
    W.SparedRowStays(q, before, n.id, D.Enqueued(n, op.now));
    NoticesAreJson(db, op, safe, i);
    W.DueRowIsAttempted(M.Final(q, before), ps, limit, n.id, D.Enqueued(n, op.now), r, s);
  }

  lemma NoticesAreJson(db: Db, op: R.Op, safe: ShapeCheck, i: nat)
    requires R.Valid(db, op) && R.Effect(db, op, safe).Ok? && i < |R.Owed(db, op, safe)|
    ensures R.Owed(db, op, safe)[i].payload.Json?
  {
    if op.Delete? || op.DeleteProduct? {
      DeletionNoticesAreJson(db, op.lids, op.dids, i);
    }
  }

  lemma {:induction false} DeletionNoticesAreJson(db: Db, lids: seq<nat>, dids: seq<nat>, i: nat)
    requires |dids| == |lids| && (forall lid :: lid in lids ==> lid in db.licenses)
    requires i < |R.DeletionNotices(db, lids, dids)|
    ensures R.DeletionNotices(db, lids, dids)[i].payload.Json?
    decreases |lids|
  {
    var first := R.DeletionNotice(db, lids[0], dids[0]);
    if i >= |first| {
      DeletionNoticesAreJson(db, lids[1..], dids[1..], i - |first|);
    }
  }

  // ----- whoever sends it -------------------------------------------------------------------------------

  /** Someone has sent the notice, with its own id, URL, secret, type and data. */
  ghost predicate Sent(q: M.Queue, n: D.Identity) {
    exists ok :: M.Send(n, ok) in q.sends
  }

  /** None of the steps opens an operator's retry of `target`. */
  predicate NoRetry(steps: seq<M.Step>, target: nat) {
    forall i :: 0 <= i < |steps| ==> !(steps[i].Begin? && steps[i].id == target && steps[i].action.RetryNow?)
  }

  predicate NoRetryIn(p: W.Pass, target: nat) {
    NoRetry(p.idle, target) && forall t :: t in p.turns ==> NoRetry(t.before, target) && NoRetry(t.during, target)
  }

  /** The notice is out, or its row waits untouched. */
  ghost predicate SentOrWaits(q: M.Queue, n: D.Identity, now: int) {
    Sent(q, n) || W.Idle(q, n.id, D.Enqueued(n, now))
  }

  lemma StepKeepsSent(q: M.Queue, s: M.Step, n: D.Identity)
    requires M.Enabled(q, s) && Sent(q, n)
    ensures Sent(M.Next(q, s), n)
  {
    var ok :| M.Send(n, ok) in q.sends;
    assert M.Send(n, ok) in M.Next(q, s).sends;
  }

  /** An attempt on the waiting row is a send, whoever makes it. */
  lemma AttemptSends(q: M.Queue, k: nat, n: D.Identity, now: int, action: M.Action)
    requires W.Idle(q, n.id, D.Enqueued(n, now)) && n.payload.Json? && M.Enabled(q, M.Begin(k, n.id, action))
    requires action.Attempt?
    ensures Sent(M.Next(q, M.Begin(k, n.id, action)), n)
  {
    var sends := M.Next(q, M.Begin(k, n.id, action)).sends;
    assert sends[|q.sends|] == M.Send(n, action.reply.ok);
  }

  lemma StepKeepsSentOrWaits(q: M.Queue, s: M.Step, n: D.Identity, now: int)
    requires M.Enabled(q, s) && n.payload.Json? && SentOrWaits(q, n, now) && NoRetry([s], n.id)
    ensures SentOrWaits(M.Next(q, s), n, now)
    ensures s.Begin? && s.id == n.id ==> Sent(M.Next(q, s), n)
  {
    assert [s][0] == s;
    if Sent(q, n) {
      StepKeepsSent(q, s, n);
    } else if s.Begin? && s.id == n.id {
      AttemptSends(q, s.k, n, now, s.action);
    }
  }

  /** Steps without a retry of the row either spare it or send the notice. */
  lemma {:induction false} StepsSendOrSpare(q: M.Queue, steps: seq<M.Step>, n: D.Identity, now: int)
    requires M.IsRun(q, steps) && n.payload.Json? && SentOrWaits(q, n, now) && NoRetry(steps, n.id)
    ensures SentOrWaits(M.Final(q, steps), n, now)
    ensures Sent(M.Final(q, steps), n) || W.Spares(steps, n.id)
    decreases |steps|
  {
    if steps != [] {
      assert [steps[0]][0] == steps[0];
      StepKeepsSentOrWaits(q, steps[0], n, now);
      StepsSendOrSpare(M.Next(q, steps[0]), steps[1..], n, now);
      if Sent(M.Next(q, steps[0]), n) {
        StepsKeepSent(M.Next(q, steps[0]), steps[1..], n);
      }
    }
  }

  lemma {:induction false} StepsKeepSent(q: M.Queue, steps: seq<M.Step>, n: D.Identity)
    requires M.IsRun(q, steps) && Sent(q, n)
    ensures Sent(M.Final(q, steps), n)
    decreases |steps|
  {
    if steps != [] {
      StepKeepsSent(q, steps[0], n);
      StepsKeepSent(M.Next(q, steps[0]), steps[1..], n);
    }
  }

  lemma {:induction false} TurnSendsOrSpares(q: M.Queue, t: W.Turn, n: D.Identity, now: int)
    requires W.TurnRuns(q, t) && n.payload.Json? && SentOrWaits(q, n, now)
    requires NoRetry(t.before, n.id) && NoRetry(t.during, n.id)
    ensures SentOrWaits(W.TurnEnd(q, t), n, now)
    ensures Sent(W.TurnEnd(q, t), n) || (W.TurnSpares(t, n.id) && t.id != n.id)
  {
    var q1 := M.Final(q, t.before);
    var q2 := M.Next(q1, W.TurnBegin(t));
    var q3 := M.Final(q2, t.during);
    StepsSendOrSpare(q, t.before, n, now);
    StepKeepsSentOrWaits(q1, W.TurnBegin(t), n, now);
    StepsSendOrSpare(q2, t.during, n, now);
    StepKeepsSentOrWaits(q3, M.Commit(t.k), n, now);
    if Sent(q1, n) {
      StepKeepsSent(q1, W.TurnBegin(t), n);
    }
    if Sent(q2, n) {
      StepsKeepSent(q2, t.during, n);
    }
    if Sent(q3, n) {
      StepKeepsSent(q3, M.Commit(t.k), n);
    }
  }

  lemma {:induction false} TurnsSendOrSpare(q: M.Queue, turns: seq<W.Turn>, n: D.Identity, now: int)
    requires W.TurnsRun(q, turns) && n.payload.Json? && SentOrWaits(q, n, now)
    requires forall t :: t in turns ==> NoRetry(t.before, n.id) && NoRetry(t.during, n.id)
    ensures SentOrWaits(W.TurnsEnd(q, turns), n, now)
    ensures Sent(W.TurnsEnd(q, turns), n) || forall t :: t in turns ==> W.TurnSpares(t, n.id) && t.id != n.id
    decreases |turns|
  {
    if turns != [] {
      TurnSendsOrSpares(q, turns[0], n, now);
      TurnsSendOrSpare(W.TurnEnd(q, turns[0]), turns[1..], n, now);
      if Sent(W.TurnEnd(q, turns[0]), n) {
        TurnsKeepSent(W.TurnEnd(q, turns[0]), turns[1..], n);
      }
    }
  }

  lemma {:induction false} TurnsKeepSent(q: M.Queue, turns: seq<W.Turn>, n: D.Identity)
    requires W.TurnsRun(q, turns) && Sent(q, n)
    ensures Sent(W.TurnsEnd(q, turns), n)
    decreases |turns|
  {
    if turns != [] {
      var t := turns[0];
      var q1 := M.Final(q, t.before);
      var q2 := M.Next(q1, W.TurnBegin(t));
      StepsKeepSent(q, t.before, n);
      StepKeepsSent(q1, W.TurnBegin(t), n);
      StepsKeepSent(q2, t.during, n);
      StepKeepsSent(M.Final(q2, t.during), M.Commit(t.k), n);
      TurnsKeepSent(W.TurnEnd(q, t), turns[1..], n);
    }
  }

  /** A timely pass without a retry of the row sends the notice, or no session was opened on its row at all. */
  lemma {:induction false} PassSendsOrSkips(q: M.Queue, p: W.Pass, limit: nat, n: D.Identity, now: int)
    requires W.PassRuns(q, p, limit) && n.payload.Json? && SentOrWaits(q, n, now)
    requires W.Timely(p, now) && NoRetryIn(p, n.id)
    ensures SentOrWaits(W.PassEnd(q, p, limit), n, now)
    ensures Sent(W.PassEnd(q, p, limit), n) || (W.Fair(p, n.id, now) && n.id !in W.Batch(p))
  {
    var q1 := W.TurnsEnd(q, p.turns);
    TurnsSendOrSpare(q, p.turns, n, now);
    StepsSendOrSpare(q1, p.idle, n, now);
    if Sent(q1, n) {
      StepsKeepSent(q1, p.idle, n);
    } else {
      assert forall i :: 0 <= i < |p.turns| ==> p.turns[i] in p.turns && W.Batch(p)[i] == p.turns[i].id;
    }
  }

  lemma {:induction false} PassesKeepSent(q: M.Queue, ps: seq<W.Pass>, limit: nat, n: D.Identity)
    requires W.PassesRun(q, ps, limit) && Sent(q, n)
    ensures Sent(W.PassesEnd(q, ps, limit), n)
    decreases |ps|
  {
    if ps != [] {
      TurnsKeepSent(q, ps[0].turns, n);
      StepsKeepSent(W.TurnsEnd(q, ps[0].turns), ps[0].idle, n);
      PassesKeepSent(W.PassEnd(q, ps[0], limit), ps[1..], limit, n);
    }
  }

  lemma {:induction false} SentWhenPressureRunsOut(q: M.Queue, ps: seq<W.Pass>, limit: nat, n: D.Identity, now: int)
    requires W.PassesRun(q, ps, limit) && n.payload.Json? && SentOrWaits(q, n, now)
    requires forall p :: p in ps ==> W.Timely(p, now) && NoRetryIn(p, n.id)
    requires |ps| * limit >= W.Pressure(q, now, {}) + W.PassesOvertaking(q, ps, limit, now)
    ensures Sent(W.PassesEnd(q, ps, limit), n)
    decreases |ps|
  {
    if Sent(q, n) {
      PassesKeepSent(q, ps, limit, n);
    } else {
      var row := D.Enqueued(n, now);
      W.TargetPresses(q, n.id, row);
      W.SomeRoundLeft(|ps|, limit, W.Pressure(q, now, {}) + W.PassesOvertaking(q, ps, limit, now));
      var q' := W.PassEnd(q, ps[0], limit);
      PassSendsOrSkips(q, ps[0], limit, n, now);
      if Sent(q', n) {
        PassesKeepSent(q', ps[1..], limit, n);
      } else {
        W.LessPressureLeft(q, ps, limit, n.id, row);
        SentWhenPressureRunsOut(q', ps[1..], limit, n, now);
      }
    }
  }

  /** The runs the promise is about: from the commit of `op` on, any steps of any actors, the attempt scheduled
      after the commit included, then worker passes; only the operator does not retry the notice's row. */
  ghost predicate Delivers(db: Db, op: R.Op, safe: ShapeCheck, n: D.Identity, q: M.Queue, before: seq<M.Step>,
                           ps: seq<W.Pass>, limit: nat)
    requires R.Valid(db, op)
  {
    && R.RejectsEmpty(safe) && R.AllConfigOk(db, safe) && R.Effect(db, op, safe).Ok?
    && (op.SetStatus? || op.Edit? || op.Delete? || op.DeleteProduct?)
    && n in R.Owed(db, op, safe) && q.rows == R.Effect(db, op, safe).value.deliveries
    && (forall k :: k in q.open ==> q.open[k].id != n.id)
    && M.IsRun(q, before) && NoRetry(before, n.id)
    && W.PassesRun(M.Final(q, before), ps, limit)
    && forall p :: p in ps ==> W.Timely(p, op.now) && NoRetryIn(p, n.id)
  }

  /** At the commit the notice's row waits. */
  lemma NoticeWaits(db: Db, op: R.Op, safe: ShapeCheck, n: D.Identity, q: M.Queue)
    requires R.RejectsEmpty(safe) && R.AllConfigOk(db, safe) && R.Valid(db, op) && R.Effect(db, op, safe).Ok?
    requires op.SetStatus? || op.Edit? || op.Delete? || op.DeleteProduct?
    requires n in R.Owed(db, op, safe) && q.rows == R.Effect(db, op, safe).value.deliveries
    requires forall k :: k in q.open ==> q.open[k].id != n.id
    ensures n.payload.Json? && SentOrWaits(q, n, op.now)
  {
    var i :| 0 <= i < |R.Owed(db, op, safe)| && R.Owed(db, op, safe)[i] == n;
    R.NotifyingStep(db, op, safe);
    InboxHolds(db.deliveries, R.Owed(db, op, safe), op.now, i);
    NoticesAreJson(db, op, safe, i);
  }

  lemma PressureAtMost(q: M.Queue, due: int, id: nat)
    ensures W.Pressure(q, due, {}) <= |W.Ahead(q, due) - {id}| + 1 + |W.Stale(q, due)|
  {
    var ahead := W.Ahead(q, due);
    assert ahead - {} == ahead;
    W.SubsetCount(ahead, ahead - {id} + {id});
  }

  lemma {:induction false} WaitingIsSent(q: M.Queue, ps: seq<W.Pass>, limit: nat, n: D.Identity, now: int,
                                         r: nat, s: nat)
    requires limit > 0 && W.PassesRun(q, ps, limit) && n.payload.Json? && SentOrWaits(q, n, now)
    requires forall p :: p in ps ==> W.Timely(p, now) && NoRetryIn(p, n.id)
    requires r == |W.Ahead(q, now) - {n.id}| && s == |W.Stale(q, now)| + W.PassesOvertaking(q, ps, limit, now)
    requires |ps| == (r + s) / limit + 1
    ensures Sent(W.PassesEnd(q, ps, limit), n)
  {
    PressureAtMost(q, now, n.id);
    assert |ps| * limit >= r + s + 1 by {
      W.RoundsCover(r + s, limit);
    }
    SentWhenPressureRunsOut(q, ps, limit, n, now);
  }

  /** Every notice a committed change owes is sent, by whoever comes first, by the end of floor((r + s) / limit) + 1
      worker passes. `r` and `s` are counted at the first of those passes. */
  lemma {:induction false} OwedNoticeIsSent(db: Db, op: R.Op, safe: ShapeCheck, n: D.Identity, q: M.Queue,
                                            before: seq<M.Step>, ps: seq<W.Pass>, limit: nat, r: nat, s: nat)
    requires limit > 0 && R.Valid(db, op) && Delivers(db, op, safe, n, q, before, ps, limit)
    requires var q1 := M.Final(q, before);
             && r == |W.Ahead(q1, op.now) - {n.id}|
             && s == |W.Stale(q1, op.now)| + W.PassesOvertaking(q1, ps, limit, op.now)
             && |ps| == (r + s) / limit + 1
    ensures Sent(W.PassesEnd(M.Final(q, before), ps, limit), n)
  {
    NoticeWaits(db, op, safe, n, q);
    StepsSendOrSpare(q, before, n, op.now);
    WaitingIsSent(M.Final(q, before), ps, limit, n, op.now, r, s);
  }

  /** With every clock past the commit's, the number of passes is known when the first of them starts. */
  lemma {:induction false} PunctualNoticeIsSent(db: Db, op: R.Op, safe: ShapeCheck, n: D.Identity, q: M.Queue,
                                                before: seq<M.Step>, ps: seq<W.Pass>, limit: nat, r: nat, s: nat)
    requires limit > 0 && R.Valid(db, op) && Delivers(db, op, safe, n, q, before, ps, limit)
    requires var q1 := M.Final(q, before);
             && W.PunctualPasses(q1, ps, limit, op.now)
             && r == |W.Ahead(q1, op.now) - {n.id}| && s == |W.Stale(q1, op.now)|
             && |ps| == (r + s) / limit + 1
    ensures Sent(W.PassesEnd(M.Final(q, before), ps, limit), n)
  {
    W.PunctualPassesOvertakeNothing(M.Final(q, before), ps, limit, op.now);
    OwedNoticeIsSent(db, op, safe, n, q, before, ps, limit, r, s);
  }
}
