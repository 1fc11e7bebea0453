/** The timer worker (app/scripts/retry_webhooks.py): one pass over the due rows, and how long a
    due row can wait while every other actor keeps working on the same table. */
module RetryWorker {
  import opened Common
  import opened Deliveries
  import opened DeliveryMachine

  predicate Due(r: Row, now: int) {
    r.status == Pending && r.nextAttemptAt <= now
  }

  /** Any answer the due-row query may give: `ORDER BY next_attempt_at LIMIT limit`, ties in any order. */
  ghost predicate Selection(rows: map<nat, Row>, now: int, limit: nat, batch: seq<nat>) {
    && |batch| <= limit
    && (forall i :: 0 <= i < |batch| ==> batch[i] in rows && Due(rows[batch[i]], now))
    && (forall i, j :: 0 <= i < j < |batch| ==>
          batch[i] != batch[j] && rows[batch[i]].nextAttemptAt <= rows[batch[j]].nextAttemptAt)
    && (forall id :: id in rows && Due(rows[id], now) && id !in batch ==>
          |batch| == limit && forall i :: 0 <= i < |batch| ==> rows[batch[i]].nextAttemptAt <= rows[id].nextAttemptAt)
  }

  // ----- one pass, in the worker's own session ------------------------------------------------

  /** How one row of the pass goes: an attempt that commits, or an exception that ends the pass. */
  datatype Visit = Done(reply: Reply, sentAt: int, doneAt: int) | Raised

  function PassSteps(batch: seq<nat>, visits: seq<Visit>): seq<Step>
    requires |visits| == |batch|
  {
    if batch == [] || visits[0].Raised? then []
    else [Begin(0, batch[0], Attempt(visits[0].reply, visits[0].sentAt, visits[0].doneAt)), Commit(0)]
         + PassSteps(batch[1..], visits[1..])
  }

  /** The durable table a pass leaves: each row before the first exception is attempted and committed. */
  function PassRows(rows: map<nat, Row>, batch: seq<nat>, visits: seq<Visit>): map<nat, Row>
    requires |visits| == |batch| && forall id :: id in batch ==> id in rows
  {
    if batch == [] || visits[0].Raised? then rows
    else
      var v := visits[0];
      PassRows(rows[batch[0] := Attempted(rows[batch[0]], v.reply, v.sentAt, v.doneAt)], batch[1..], visits[1..])
  }

  /** How many rows of the pass turn from pending to delivered. */
  function PassDelivered(rows: map<nat, Row>, batch: seq<nat>, visits: seq<Visit>): nat
    requires |visits| == |batch| && forall id :: id in batch ==> id in rows
  {
    if batch == [] || visits[0].Raised? then 0
    else
      var v, row := visits[0], rows[batch[0]];
      var after := Attempted(row, v.reply, v.sentAt, v.doneAt);
      (if row.status == Pending && after.status == Delivered then 1 else 0)
      + PassDelivered(rows[batch[0] := after], batch[1..], visits[1..])
  }

  class DeliveryTable {
    var rows: map<nat, Row>

    /** `run`: `batch` is the query's answer; exit code 1 when a row's visit raises. */
    method Run(batch: seq<nat>, visits: seq<Visit>) returns (code: int, delivered: nat)
      requires |visits| == |batch| && forall id :: id in batch ==> id in rows
      modifies this
      ensures rows == PassRows(old(rows), batch, visits)
      ensures code == 0 <==> Raised !in visits
      ensures delivered == if code == 0 then PassDelivered(old(rows), batch, visits) else 0
    {
      delivered := 0;
      var i := 0;
      while i < |batch|
        invariant 0 <= i <= |batch|
        invariant rows.Keys == old(rows).Keys
        invariant PassRows(rows, batch[i..], visits[i..]) == PassRows(old(rows), batch, visits)
        invariant delivered + PassDelivered(rows, batch[i..], visits[i..]) == PassDelivered(old(rows), batch, visits)
        invariant Raised !in visits[..i]
      {
        if visits[i].Raised? {
          return 1, 0;
        }
        var copy := new SessionCopy.Load(rows[batch[i]]);
        var ok := copy.TryDeliver(visits[i].reply, visits[i].sentAt, visits[i].doneAt);
        assert batch[i..][1..] == batch[i + 1..] && visits[i..][1..] == visits[i + 1..];
        rows := rows[batch[i] := copy.Snapshot()];
        if ok {
          delivered := delivered + 1;
        }
        i := i + 1;
      }
      code := 0;
    }
  }

  /** The ids among the first of the batch whose rows turned from pending to delivered. */
  function TurnedDelivered(batch: seq<nat>, before: map<nat, Row>, after: map<nat, Row>): set<nat>
    requires forall id :: id in batch ==> id in before && id in after
  {
    set id | id in batch && before[id].status == Pending && after[id].status == Delivered
  }

  lemma {:induction false} PassKeepsOthers(rows: map<nat, Row>, batch: seq<nat>, visits: seq<Visit>, id: nat)
    requires |visits| == |batch| && (forall b :: b in batch ==> b in rows) && id in rows && id !in batch
    ensures PassRows(rows, batch, visits).Keys == rows.Keys && PassRows(rows, batch, visits)[id] == rows[id]
    decreases |batch|
  {
    if batch != [] && visits[0].Done? {
      var v := visits[0];
      assert batch[0] in batch;
      PassKeepsOthers(rows[batch[0] := Attempted(rows[batch[0]], v.reply, v.sentAt, v.doneAt)], batch[1..],
                      visits[1..], id);
    }
  }

  lemma {:induction false} PassKeepsKeys(rows: map<nat, Row>, batch: seq<nat>, visits: seq<Visit>)
    requires |visits| == |batch| && forall b :: b in batch ==> b in rows
    ensures PassRows(rows, batch, visits).Keys == rows.Keys
    decreases |batch|
  {
    if batch != [] && visits[0].Done? {
      var v := visits[0];
      assert batch[0] in batch;
      PassKeepsKeys(rows[batch[0] := Attempted(rows[batch[0]], v.reply, v.sentAt, v.doneAt)], batch[1..], visits[1..]);
    }
  }

  /** What the pass reports is the number of its rows that turned from pending to delivered. */
  lemma {:induction false} ReportIsCount(rows: map<nat, Row>, batch: seq<nat>, visits: seq<Visit>)
    requires |visits| == |batch| && (forall b :: b in batch ==> b in rows)
    requires forall i, j :: 0 <= i < j < |batch| ==> batch[i] != batch[j]
    ensures PassRows(rows, batch, visits).Keys == rows.Keys
    ensures PassDelivered(rows, batch, visits) == |TurnedDelivered(batch, rows, PassRows(rows, batch, visits))|
    decreases |batch|
  {
    PassKeepsKeys(rows, batch, visits);
    var after := PassRows(rows, batch, visits);
    if batch == [] || visits[0].Raised? {
      assert TurnedDelivered(batch, rows, after) == {};
    } else {
      var v, rest := visits[0], batch[1..];
      var next := rows[batch[0] := Attempted(rows[batch[0]], v.reply, v.sentAt, v.doneAt)];
      assert batch[0] in batch && batch == [batch[0]] + rest;
      ReportIsCount(next, rest, visits[1..]);
      PassKeepsOthers(next, rest, visits[1..], batch[0]);
      TurnedFirst(batch, rows, next, after);
    }
  }

  lemma TurnedFirst(batch: seq<nat>, rows: map<nat, Row>, next: map<nat, Row>, after: map<nat, Row>)
    requires batch != [] && batch[0] !in batch[1..] && rows.Keys == next.Keys == after.Keys
    requires forall b :: b in batch ==> b in rows
    requires after[batch[0]] == next[batch[0]] && forall b :: b in batch[1..] ==> next[b] == rows[b]
    ensures forall b :: b in batch[1..] ==> b in next && b in after
    ensures |TurnedDelivered(batch, rows, after)| ==
            (if rows[batch[0]].status == Pending && next[batch[0]].status == Delivered then 1 else 0)
            + |TurnedDelivered(batch[1..], next, after)|
  {
    assert batch == [batch[0]] + batch[1..];
    var later := TurnedDelivered(batch[1..], next, after);
    assert batch[0] !in later;
    assert TurnedDelivered(batch, rows, after) ==
           if rows[batch[0]].status == Pending && next[batch[0]].status == Delivered then {batch[0]} + later
           else later;
  }

  /** A pass nobody interferes with is a run of the machine: `Run` is one of its actors. */
  lemma {:induction false} PassIsARun(q: Queue, batch: seq<nat>, visits: seq<Visit>)
    requires |visits| == |batch| && q.open == map[] && forall id :: id in batch ==> id in q.rows
    ensures IsRun(q, PassSteps(batch, visits))
    ensures Final(q, PassSteps(batch, visits)).rows == PassRows(q.rows, batch, visits)
    ensures Final(q, PassSteps(batch, visits)).open == map[]
    decreases |batch|
  {
    if batch == [] || visits[0].Raised? {
    } else {
      var v := visits[0];
      var begin, commit := Begin(0, batch[0], Attempt(v.reply, v.sentAt, v.doneAt)), Commit(0);
      TwoSteps(q, begin, commit);
      var q' := Next(Next(q, begin), commit);
      FlushOfFreshCopy(Next(q, begin).open[0]);
      assert q'.rows == q.rows[batch[0] := Attempted(q.rows[batch[0]], v.reply, v.sentAt, v.doneAt)];
      PassIsARun(q', batch[1..], visits[1..]);
      RunAppend(q, [begin, commit], PassSteps(batch[1..], visits[1..]));
    }
  }

  // ----- bounded waiting under interference -----------------------------------------------------

  /** The rows that can stand before a row due at `due`: pending and scheduled no later. */
  function Ahead(q: Queue, due: int): set<nat> {
    set id | id in q.rows && q.rows[id].status == Pending && q.rows[id].nextAttemptAt <= due
  }

  /** The session's commit cannot put a row ahead: it reschedules past `due` only, and revives a row only
      together with a new schedule. */
  predicate Steady(t: Txn, due: int) {
    && (Current(t).nextAttemptAt != t.loaded.nextAttemptAt ==> Current(t).nextAttemptAt > due)
    && (Current(t).status == Pending && t.loaded.status != Pending ==>
        Current(t).nextAttemptAt != t.loaded.nextAttemptAt)
  }

  /** The open sessions that may still put a row ahead. */
  function Stale(q: Queue, due: int): set<nat> {
    set k | k in q.open && !Steady(q.open[k], due)
  }

  /** One for a step that brings a row ahead, or opens a session that may: both read a clock not past `due`,
      but for a retry that hits the very schedule it loads. */
  function Overtakes(q: Queue, s: Step, due: int): nat
    requires Enabled(q, s)
  {
    match s
    case Enqueue(_, at) => if at <= due then 1 else 0
    case Begin(_, id, action) => if Steady(Txn(id, action, q.rows[id]), due) then 0 else 1
    case _ => 0
  }

  function Overtaking(q: Queue, steps: seq<Step>, due: int): nat
    requires IsRun(q, steps)
    decreases |steps|
  {
    if steps == [] then 0 else Overtakes(q, steps[0], due) + Overtaking(Next(q, steps[0]), steps[1..], due)
  }

  /** The step reads its clock after `due`, and a retry not at the schedule it loads. */
  predicate Punctual(q: Queue, s: Step, due: int) {
    match s
    case Enqueue(_, at) => at > due
    case Begin(_, _, Attempt(_, _, doneAt)) => doneAt >= due
    case Begin(_, id, RetryNow(now)) => now > due && id in q.rows && now != q.rows[id].nextAttemptAt
    case _ => true
  }

  lemma BackoffPositive()
    ensures forall i :: 0 <= i < |BACKOFF| ==> BACKOFF[i] > 0
  {
  }

  lemma PunctualOvertakesNothing(q: Queue, s: Step, due: int)
    requires Enabled(q, s) && Punctual(q, s, due)
    ensures Overtakes(q, s, due) == 0
  {
    BackoffPositive();
  }

  /** How many rows can still be picked before a row due at `due`, those in `rest` not counted. */
  function Pressure(q: Queue, due: int, rest: set<nat>): nat {
    |Ahead(q, due) - rest| + |Stale(q, due)|
  }

  lemma SubsetCount(a: set<nat>, b: set<nat>)
    requires a <= b
    ensures |a| <= |b|
  {
    assert b == a + (b - a);
  }

  lemma OneMore(a: set<nat>, b: set<nat>, x: nat)
    requires a <= b + {x}
    ensures |a| <= |b| + 1
  {
    SubsetCount(a - {x}, b);
    SubsetCount(a, a - {x} + {x});
  }

  lemma OneLess(a: set<nat>, b: set<nat>, x: nat)
    requires a <= b - {x} && x in b
    ensures |a| + 1 <= |b|
  {
    SubsetCount(a, b - {x});
  }

  lemma InsertPressure(q: Queue, r: Row, sends: seq<Send>, due: int, rest: set<nat>)
    requires r.identity.id !in q.rows
    ensures var q' := q.(rows := q.rows[r.identity.id := r], sends := sends);
            Pressure(q', due, rest) <=
            Pressure(q, due, rest) + if r.status == Pending && r.nextAttemptAt <= due then 1 else 0
  {
    var q' := q.(rows := q.rows[r.identity.id := r], sends := sends);
    assert Stale(q', due) == Stale(q, due);
    if r.status == Pending && r.nextAttemptAt <= due {
      OneMore(Ahead(q', due) - rest, Ahead(q, due) - rest, r.identity.id);
    } else {
      assert Ahead(q', due) == Ahead(q, due);
    }
  }

  lemma BeginPressure(q: Queue, k: nat, id: nat, action: Action, due: int, rest: set<nat>)
    requires Enabled(q, Begin(k, id, action))
    ensures Pressure(Next(q, Begin(k, id, action)), due, rest) <=
            Pressure(q, due, rest) + Overtakes(q, Begin(k, id, action), due)
  {
    var q' := Next(q, Begin(k, id, action));
    assert Ahead(q', due) == Ahead(q, due);
    if Overtakes(q, Begin(k, id, action), due) == 0 {
      assert Stale(q', due) == Stale(q, due);
    } else {
      OneMore(Stale(q', due), Stale(q, due), k);
    }
  }

  /** The commit of a steady session brings no row ahead; any other commit brings at most its own row. */
  lemma CommitAhead(q: Queue, k: nat, due: int)
    requires Enabled(q, Commit(k))
    ensures Ahead(Next(q, Commit(k)), due) <= Ahead(q, due) + {q.open[k].id}
    ensures Steady(q.open[k], due) ==> Ahead(Next(q, Commit(k)), due) <= Ahead(q, due)
  {
  }

  lemma CommitPressure(q: Queue, k: nat, due: int, rest: set<nat>)
    requires Enabled(q, Commit(k))
    ensures Pressure(Next(q, Commit(k)), due, rest) <= Pressure(q, due, rest)
  {
    var q' := Next(q, Commit(k));
    CommitAhead(q, k, due);
    assert Stale(q', due) == Stale(q, due) - {k};
    if Steady(q.open[k], due) {
      SubsetCount(Ahead(q', due) - rest, Ahead(q, due) - rest);
    } else {
      OneMore(Ahead(q', due) - rest, Ahead(q, due) - rest, q.open[k].id);
      OneLess(Stale(q', due), Stale(q, due), k);
    }
  }

  /** No step of any actor lets more rows through than it overtakes with. */
  lemma StepPressure(q: Queue, s: Step, due: int, rest: set<nat>)
    requires Enabled(q, s)
    ensures Pressure(Next(q, s), due, rest) <= Pressure(q, due, rest) + Overtakes(q, s, due)
  {
    match s
    case Enqueue(identity, at) => InsertPressure(q, Enqueued(identity, at), q.sends, due, rest);
    case Test(identity, reply, at) =>
      InsertPressure(q, TestRow(identity, reply, at), q.sends + [Send(identity, reply.ok)], due, rest);
    case Begin(k, id, action) => BeginPressure(q, k, id, action, due, rest);
    case Commit(k) => CommitPressure(q, k, due, rest);
    case Rollback(k) =>
      assert Ahead(Next(q, s), due) == Ahead(q, due);
      SubsetCount(Stale(Next(q, s), due), Stale(q, due));
  }

  lemma {:induction false} StepsPressure(q: Queue, steps: seq<Step>, due: int, rest: set<nat>)
    requires IsRun(q, steps)
    ensures Pressure(Final(q, steps), due, rest) <= Pressure(q, due, rest) + Overtaking(q, steps, due)
    decreases |steps|
  {
    if steps != [] {
      StepPressure(q, steps[0], due, rest);
      StepsPressure(Next(q, steps[0]), steps[1..], due, rest);
    }
  }

  /** None of the steps opens a session on `target`. */
  predicate Spares(steps: seq<Step>, target: nat) {
    forall i :: 0 <= i < |steps| ==> !(steps[i].Begin? && steps[i].id == target)
  }

  /** None of the steps ends session `k`. */
  predicate Holds(steps: seq<Step>, k: nat) {
    Commit(k) !in steps && Rollback(k) !in steps
  }

  lemma {:induction false} HeldSessionStays(q: Queue, steps: seq<Step>, k: nat)
    requires IsRun(q, steps) && k in q.open && Holds(steps, k)
    ensures k in Final(q, steps).open && Final(q, steps).open[k] == q.open[k]
    decreases |steps|
  {
    if steps != [] {
      HeldSessionStays(Next(q, steps[0]), steps[1..], k);
    }
  }

  /** The worker's turn on one row, with other actors' steps before it and while it is open. */
  datatype Turn = Turn(before: seq<Step>, k: nat, id: nat, reply: Reply, sentAt: int, doneAt: int, during: seq<Step>)

  function TurnBegin(t: Turn): Step {
    Begin(t.k, t.id, Attempt(t.reply, t.sentAt, t.doneAt))
  }

  predicate TurnRuns(q: Queue, t: Turn) {
    && IsRun(q, t.before)
    && Enabled(Final(q, t.before), TurnBegin(t))
    && IsRun(Next(Final(q, t.before), TurnBegin(t)), t.during)
    && Holds(t.during, t.k)
    && Enabled(Final(Next(Final(q, t.before), TurnBegin(t)), t.during), Commit(t.k))
  }

  function TurnEnd(q: Queue, t: Turn): Queue
    requires TurnRuns(q, t)
  {
    Next(Final(Next(Final(q, t.before), TurnBegin(t)), t.during), Commit(t.k))
  }

  function TurnOvertaking(q: Queue, t: Turn, due: int): nat
    requires TurnRuns(q, t)
  {
    Overtaking(q, t.before, due) + Overtaking(Next(Final(q, t.before), TurnBegin(t)), t.during, due)
  }

  lemma AttemptIsSteady(id: nat, row: Row, reply: Reply, sentAt: int, doneAt: int, due: int)
    requires doneAt >= due
    ensures Steady(Txn(id, Attempt(reply, sentAt, doneAt), row), due)
  {
    BackoffPositive();
  }

  /** An attempt that loaded a row ahead leaves it behind, whatever else was written to it meanwhile. */
  lemma AttemptLeavesAhead(q: Queue, k: nat, reply: Reply, sentAt: int, doneAt: int, due: int)
    requires Enabled(q, Commit(k)) && q.open[k].action == Attempt(reply, sentAt, doneAt) && doneAt >= due
    requires q.open[k].loaded.status == Pending && q.open[k].loaded.nextAttemptAt <= due
    ensures q.open[k].id !in Ahead(Next(q, Commit(k)), due)
  {
    BackoffPositive();
  }

  /** From the worker's query of the row to its commit. */
  lemma {:induction false} OpenTurnPressure(q: Queue, t: Turn, due: int, rest: set<nat>)
    requires TurnRuns(q, t) && t.doneAt >= due
    ensures Pressure(TurnEnd(q, t), due, rest) <=
            Pressure(Final(q, t.before), due, rest) + Overtaking(Next(Final(q, t.before), TurnBegin(t)), t.during, due)
  {
    var q1 := Final(q, t.before);
    var q2 := Next(q1, TurnBegin(t));
    AttemptIsSteady(t.id, q1.rows[t.id], t.reply, t.sentAt, t.doneAt, due);
    BeginPressure(q1, t.k, t.id, Attempt(t.reply, t.sentAt, t.doneAt), due, rest);
    StepsPressure(q2, t.during, due, rest);
    CommitPressure(Final(q2, t.during), t.k, due, rest);
  }

  lemma {:induction false} TurnLeavesAhead(q: Queue, t: Turn, due: int)
    requires TurnRuns(q, t) && t.doneAt >= due && t.id in Ahead(Final(q, t.before), due)
    ensures t.id !in Ahead(TurnEnd(q, t), due)
  {
    var q2 := Next(Final(q, t.before), TurnBegin(t));
    HeldSessionStays(q2, t.during, t.k);
    AttemptLeavesAhead(Final(q2, t.during), t.k, t.reply, t.sentAt, t.doneAt, due);
  }

  lemma RestWithout(q: Queue, due: int, rest: set<nat>, id: nat)
    requires id !in Ahead(q, due)
    ensures Pressure(q, due, rest - {id}) == Pressure(q, due, rest)
  {
    assert Ahead(q, due) - rest == Ahead(q, due) - (rest - {id});
  }

  /** The worker's turn on a row, with anything interleaved, takes that row from those still to be picked: it
      leaves `rest` at a moment when it is not ahead. */
  lemma TurnPressure(q: Queue, t: Turn, due: int, rest: set<nat>)
    requires TurnRuns(q, t) && t.doneAt >= due
    ensures Pressure(TurnEnd(q, t), due, rest - {t.id}) <= Pressure(q, due, rest) + TurnOvertaking(q, t, due)
  {
    var q1 := Final(q, t.before);
    StepsPressure(q, t.before, due, rest);
    if t.id in Ahead(q1, due) {
      OpenTurnPressure(q, t, due, rest);
      TurnLeavesAhead(q, t, due);
      RestWithout(TurnEnd(q, t), due, rest, t.id);
    } else {
      RestWithout(q1, due, rest, t.id);
      OpenTurnPressure(q, t, due, rest - {t.id});
    }
  }

  predicate TurnsRun(q: Queue, turns: seq<Turn>)
    decreases |turns|
  {
    turns == [] || (TurnRuns(q, turns[0]) && TurnsRun(TurnEnd(q, turns[0]), turns[1..]))
  }

  function TurnsEnd(q: Queue, turns: seq<Turn>): Queue
    requires TurnsRun(q, turns)
    decreases |turns|
  {
    if turns == [] then q else TurnsEnd(TurnEnd(q, turns[0]), turns[1..])
  }

  function TurnsOvertaking(q: Queue, turns: seq<Turn>, due: int): nat
    requires TurnsRun(q, turns)
    decreases |turns|
  {
    if turns == [] then 0
    else TurnOvertaking(q, turns[0], due) + TurnsOvertaking(TurnEnd(q, turns[0]), turns[1..], due)
  }

  function TurnIds(turns: seq<Turn>): set<nat> {
    if turns == [] then {} else {turns[0].id} + TurnIds(turns[1..])
  }

  lemma {:induction false} TurnIdsOf(turns: seq<Turn>, i: nat)
    requires i < |turns|
    ensures turns[i].id in TurnIds(turns)
  {
    if i > 0 {
      TurnIdsOf(turns[1..], i - 1);
    }
  }

  lemma {:induction false} TurnsPressure(q: Queue, turns: seq<Turn>, due: int, rest: set<nat>)
    requires TurnsRun(q, turns) && (forall t :: t in turns ==> t.doneAt >= due)
    requires rest <= TurnIds(turns)
    ensures Pressure(TurnsEnd(q, turns), due, {}) <= Pressure(q, due, rest) + TurnsOvertaking(q, turns, due)
    decreases |turns|
  {
    if turns == [] {
      assert rest == {};
    } else {
      TurnPressure(q, turns[0], due, rest);
      TurnsPressure(TurnEnd(q, turns[0]), turns[1..], due, rest - {turns[0].id});
    }
  }

  /** A complete pass: the query at `now`, then a turn on every selected row, then idle time. */
  datatype Pass = Pass(now: int, turns: seq<Turn>, idle: seq<Step>)

  function Batch(p: Pass): seq<nat> {
    seq(|p.turns|, i requires 0 <= i < |p.turns| => p.turns[i].id)
  }

  ghost predicate PassRuns(q: Queue, p: Pass, limit: nat) {
    && Selection(q.rows, p.now, limit, Batch(p))
    && TurnsRun(q, p.turns) && IsRun(TurnsEnd(q, p.turns), p.idle)
  }

  ghost function PassEnd(q: Queue, p: Pass, limit: nat): Queue
    requires PassRuns(q, p, limit)
  {
    Final(TurnsEnd(q, p.turns), p.idle)
  }

  ghost function PassOvertaking(q: Queue, p: Pass, limit: nat, due: int): nat
    requires PassRuns(q, p, limit)
  {
    TurnsOvertaking(q, p.turns, due) + Overtaking(TurnsEnd(q, p.turns), p.idle, due)
  }

  /** The pass reads its clock at or after `due` and no later than its attempts do. */
  predicate Timely(p: Pass, due: int) {
    due <= p.now && forall t :: t in p.turns ==> p.now <= t.doneAt
  }

  /** The pass is timely, and nobody else opens a session on `target`. */
  predicate Fair(p: Pass, target: nat, due: int) {
    Timely(p, due) && (forall t :: t in p.turns ==> TurnSpares(t, target)) && Spares(p.idle, target)
  }

  /** `target` holds `row` and no session is open on it. */
  ghost predicate Idle(q: Queue, target: nat, row: Row) {
    target in q.rows && q.rows[target] == row && forall k :: k in q.open ==> q.open[k].id != target
  }

  lemma {:induction false} SparedRowStays(q: Queue, steps: seq<Step>, target: nat, row: Row)
    requires IsRun(q, steps) && Spares(steps, target) && Idle(q, target, row)
    ensures Idle(Final(q, steps), target, row)
    decreases |steps|
  {
    if steps != [] {
      SparedRowStays(Next(q, steps[0]), steps[1..], target, row);
    }
  }

  predicate TurnSpares(t: Turn, target: nat) {
    Spares(t.before, target) && Spares(t.during, target)
  }

  lemma UnpickedTurn(q: Queue, t: Turn, target: nat, row: Row)
    requires TurnRuns(q, t) && Idle(q, target, row) && TurnSpares(t, target) && t.id != target
    ensures Idle(TurnEnd(q, t), target, row)
  {
    SparedRowStays(q, t.before, target, row);
    SparedRowStays(Next(Final(q, t.before), TurnBegin(t)), t.during, target, row);
  }

  ghost predicate OnlyOpen(q: Queue, k: nat, target: nat, row: Row) {
    && target in q.rows && q.rows[target] == row && k in q.open && q.open[k].id == target
    && forall j :: j in q.open && q.open[j].id == target ==> j == k
  }

  lemma {:induction false} OpenRowStays(q: Queue, steps: seq<Step>, k: nat, target: nat, row: Row)
    requires IsRun(q, steps) && Spares(steps, target) && Holds(steps, k) && OnlyOpen(q, k, target, row)
    ensures OnlyOpen(Final(q, steps), k, target, row) && Final(q, steps).open[k] == q.open[k]
    decreases |steps|
  {
    if steps != [] {
      OpenRowStays(Next(q, steps[0]), steps[1..], k, target, row);
    }
  }

  lemma PickedTurn(q: Queue, t: Turn, row: Row)
    requires TurnRuns(q, t) && Idle(q, t.id, row) && TurnSpares(t, t.id)
    ensures Idle(TurnEnd(q, t), t.id, Attempted(row, t.reply, t.sentAt, t.doneAt))
  {
    SparedRowStays(q, t.before, t.id, row);
    var q2 := Next(Final(q, t.before), TurnBegin(t));
    OpenRowStays(q2, t.during, t.k, t.id, row);
    FlushOfFreshCopy(q2.open[t.k]);
  }

  lemma {:induction false} UnpickedTurns(q: Queue, turns: seq<Turn>, target: nat, row: Row)
    requires TurnsRun(q, turns) && Idle(q, target, row)
    requires forall t :: t in turns ==> t.id != target && TurnSpares(t, target)
    ensures Idle(TurnsEnd(q, turns), target, row)
    decreases |turns|
  {
    if turns != [] {
      UnpickedTurn(q, turns[0], target, row);
      UnpickedTurns(TurnEnd(q, turns[0]), turns[1..], target, row);
    }
  }

  /** Among turns on distinct rows, the one on an otherwise idle row records its outcome exactly. */
  lemma {:induction false} PickedTurns(q: Queue, turns: seq<Turn>, j: nat, row: Row)
    requires TurnsRun(q, turns) && j < |turns| && Idle(q, turns[j].id, row)
    requires forall i :: 0 <= i < |turns| ==> TurnSpares(turns[i], turns[j].id)
    requires forall i :: 0 <= i < |turns| && i != j ==> turns[i].id != turns[j].id
    ensures Idle(TurnsEnd(q, turns), turns[j].id,
                 Attempted(row, turns[j].reply, turns[j].sentAt, turns[j].doneAt))
    decreases |turns|
  {
    var t, rest := turns[0], turns[1..];
    if j == 0 {
      PickedTurn(q, t, row);
      UnpickedTurns(TurnEnd(q, t), rest, t.id, Attempted(row, t.reply, t.sentAt, t.doneAt));
    } else {
      UnpickedTurn(q, t, turns[j].id, row);
      PickedTurns(TurnEnd(q, t), rest, j - 1, row);
    }
  }

  function Ids(batch: seq<nat>): set<nat> {
    set id | id in batch
  }

  lemma {:induction false} IdsCount(batch: seq<nat>)
    requires forall i, j :: 0 <= i < j < |batch| ==> batch[i] != batch[j]
    ensures |Ids(batch)| == |batch|
    decreases |batch|
  {
    if batch == [] {
      assert Ids(batch) == {};
    } else {
      IdsCount(batch[1..]);
      assert Ids(batch) == {batch[0]} + Ids(batch[1..]);
      assert batch[0] !in Ids(batch[1..]);
    }
  }

  /** A full batch that skips a due row consists of rows ahead of it. */
  lemma SkippingBatch(q: Queue, now: int, limit: nat, batch: seq<nat>, target: nat, due: int)
    requires Selection(q.rows, now, limit, batch) && target !in batch && due <= now
    requires target in q.rows && q.rows[target].status == Pending && q.rows[target].nextAttemptAt == due
    ensures |Ahead(q, due) - Ids(batch)| == |Ahead(q, due)| - limit
  {
    IdsCount(batch);
    assert Ids(batch) <= Ahead(q, due);
    assert Ahead(q, due) == Ids(batch) + (Ahead(q, due) - Ids(batch));
  }

  lemma SkippedPassStays(q: Queue, p: Pass, limit: nat, target: nat, row: Row, due: int)
    requires Idle(q, target, row) && PassRuns(q, p, limit) && Fair(p, target, due) && target !in Batch(p)
    ensures Idle(PassEnd(q, p, limit), target, row)
  {
    assert forall i :: 0 <= i < |p.turns| ==> Batch(p)[i] == p.turns[i].id;
    UnpickedTurns(q, p.turns, target, row);
    SparedRowStays(TurnsEnd(q, p.turns), p.idle, target, row);
  }

  lemma PassPressure(q: Queue, p: Pass, limit: nat, due: int)
    requires PassRuns(q, p, limit) && forall t :: t in p.turns ==> t.doneAt >= due
    ensures Pressure(PassEnd(q, p, limit), due, {}) <=
            Pressure(q, due, Ids(Batch(p))) + PassOvertaking(q, p, limit, due)
  {
    forall id | id in Ids(Batch(p)) ensures id in TurnIds(p.turns) {
      var i :| 0 <= i < |Batch(p)| && Batch(p)[i] == id;
      TurnIdsOf(p.turns, i);
    }
    TurnsPressure(q, p.turns, due, Ids(Batch(p)));
    StepsPressure(TurnsEnd(q, p.turns), p.idle, due, {});
  }

  /** A pass that skips a due row lets a full batch through before it. */
  lemma SkippedPassPressure(q: Queue, p: Pass, limit: nat, target: nat, row: Row)
    requires row.status == Pending && Idle(q, target, row)
    requires PassRuns(q, p, limit) && Fair(p, target, row.nextAttemptAt) && target !in Batch(p)
    ensures Pressure(PassEnd(q, p, limit), row.nextAttemptAt, {}) + limit <=
            Pressure(q, row.nextAttemptAt, {}) + PassOvertaking(q, p, limit, row.nextAttemptAt)
  {
    SkippingBatch(q, p.now, limit, Batch(p), target, row.nextAttemptAt);
    assert Ahead(q, row.nextAttemptAt) - {} == Ahead(q, row.nextAttemptAt);
    PassPressure(q, p, limit, row.nextAttemptAt);
  }

  lemma PickedPassAttempts(q: Queue, p: Pass, limit: nat, j: nat, row: Row)
    requires j < |p.turns| && Idle(q, p.turns[j].id, row)
    requires PassRuns(q, p, limit) && Fair(p, p.turns[j].id, row.nextAttemptAt)
    ensures var t := p.turns[j];
            PassEnd(q, p, limit).rows.Keys >= {t.id} &&
            PassEnd(q, p, limit).rows[t.id] == Attempted(row, t.reply, t.sentAt, t.doneAt)
  {
    var t, batch := p.turns[j], Batch(p);
    assert forall i :: 0 <= i < |p.turns| ==> batch[i] == p.turns[i].id;
    PickedTurns(q, p.turns, j, row);
    SparedRowStays(TurnsEnd(q, p.turns), p.idle, t.id, Attempted(row, t.reply, t.sentAt, t.doneAt));
  }

  ghost predicate PassesRun(q: Queue, ps: seq<Pass>, limit: nat)
    decreases |ps|
  {
    ps == [] || (PassRuns(q, ps[0], limit) && PassesRun(PassEnd(q, ps[0], limit), ps[1..], limit))
  }

  ghost function PassesEnd(q: Queue, ps: seq<Pass>, limit: nat): Queue
    requires PassesRun(q, ps, limit)
    decreases |ps|
  {
    if ps == [] then q else PassesEnd(PassEnd(q, ps[0], limit), ps[1..], limit)
  }

  /** In one of the passes the worker attempts `row` at `target`, and the pass ends with that outcome. */
  ghost predicate AttemptedIn(q: Queue, ps: seq<Pass>, limit: nat, target: nat, row: Row)
    requires PassesRun(q, ps, limit)
    decreases |ps|
  {
    ps != [] &&
    var q' := PassEnd(q, ps[0], limit);
    ((exists t :: t in ps[0].turns && t.id == target && target in q'.rows &&
                  q'.rows[target] == Attempted(row, t.reply, t.sentAt, t.doneAt)) ||
     AttemptedIn(q', ps[1..], limit, target, row))
  }

  ghost function PassesOvertaking(q: Queue, ps: seq<Pass>, limit: nat, due: int): nat
    requires PassesRun(q, ps, limit)
    decreases |ps|
  {
    if ps == [] then 0
    else PassOvertaking(q, ps[0], limit, due) + PassesOvertaking(PassEnd(q, ps[0], limit), ps[1..], limit, due)
  }

  lemma SomeRoundLeft(n: nat, limit: nat, ahead: nat)
    requires n * limit >= ahead > 0
    ensures n > 0
  {
  }

  lemma OneRoundLess(n: nat, limit: nat, before: nat, now: nat, later: nat, after: nat)
    requires n > 0 && n * limit >= before + now + later && after + limit <= before + now
    ensures (n - 1) * limit >= after + later
  {
    assert (n - 1) * limit == n * limit - limit;
  }

  lemma {:induction false} AttemptedWhenPressureRunsOut(q: Queue, ps: seq<Pass>, limit: nat, target: nat, row: Row)
    requires row.status == Pending && Idle(q, target, row)
    requires PassesRun(q, ps, limit) && forall p :: p in ps ==> Fair(p, target, row.nextAttemptAt)
    requires |ps| * limit >= Pressure(q, row.nextAttemptAt, {}) + PassesOvertaking(q, ps, limit, row.nextAttemptAt)
    ensures AttemptedIn(q, ps, limit, target, row)
    decreases |ps|
  {
    TargetPresses(q, target, row);
    SomeRoundLeft(|ps|, limit, Pressure(q, row.nextAttemptAt, {}) + PassesOvertaking(q, ps, limit, row.nextAttemptAt));
    assert Fair(ps[0], target, row.nextAttemptAt);
    if target in Batch(ps[0]) {
      PickedFirst(q, ps, limit, target, row);
    } else {
      SkippedPassStays(q, ps[0], limit, target, row, row.nextAttemptAt);
      LessPressureLeft(q, ps, limit, target, row);
      AttemptedWhenPressureRunsOut(PassEnd(q, ps[0], limit), ps[1..], limit, target, row);
      AttemptedLater(q, ps, limit, target, row);
    }
  }

  lemma {:induction false} LessPressureLeft(q: Queue, ps: seq<Pass>, limit: nat, target: nat, row: Row)
    requires row.status == Pending && Idle(q, target, row) && ps != [] && PassesRun(q, ps, limit)
    requires Fair(ps[0], target, row.nextAttemptAt) && target !in Batch(ps[0])
    requires |ps| * limit >= Pressure(q, row.nextAttemptAt, {}) + PassesOvertaking(q, ps, limit, row.nextAttemptAt)
    ensures var q' := PassEnd(q, ps[0], limit);
            |ps[1..]| * limit >=
            Pressure(q', row.nextAttemptAt, {}) + PassesOvertaking(q', ps[1..], limit, row.nextAttemptAt)
  {
    var due, q' := row.nextAttemptAt, PassEnd(q, ps[0], limit);
    SkippedPassPressure(q, ps[0], limit, target, row);
    OneRoundLess(|ps|, limit, Pressure(q, due, {}), PassOvertaking(q, ps[0], limit, due),
                 PassesOvertaking(q', ps[1..], limit, due), Pressure(q', due, {}));
  }

  lemma TargetPresses(q: Queue, target: nat, row: Row)
    requires row.status == Pending && Idle(q, target, row)
    ensures target in Ahead(q, row.nextAttemptAt) && Pressure(q, row.nextAttemptAt, {}) > 0
  {
    assert target in Ahead(q, row.nextAttemptAt) - {};
  }

  lemma {:induction false} PickedFirst(q: Queue, ps: seq<Pass>, limit: nat, target: nat, row: Row)
    requires ps != [] && PassesRun(q, ps, limit) && Idle(q, target, row) && Fair(ps[0], target, row.nextAttemptAt)
    requires target in Batch(ps[0])
    ensures AttemptedIn(q, ps, limit, target, row)
  {
    var j :| 0 <= j < |Batch(ps[0])| && Batch(ps[0])[j] == target;
    assert ps[0].turns[j] in ps[0].turns && ps[0].turns[j].id == target;
    PickedPassAttempts(q, ps[0], limit, j, row);
  }

  lemma {:induction false} AttemptedLater(q: Queue, ps: seq<Pass>, limit: nat, target: nat, row: Row)
    requires ps != [] && PassesRun(q, ps, limit) && AttemptedIn(PassEnd(q, ps[0], limit), ps[1..], limit, target, row)
    ensures AttemptedIn(q, ps, limit, target, row)
  {
  }

  /** Bounded waiting: a due row with `r` other pending rows scheduled no later is attempted within
      floor((r + s) / limit) + 1 passes, where `s` counts the stale sessions open now and the overtaking
      steps meanwhile, whatever is enqueued, retried or attempted. */
  lemma {:induction false} DueRowIsAttempted(q: Queue, ps: seq<Pass>, limit: nat, target: nat, row: Row, r: nat, s: nat)
    requires row.status == Pending && Idle(q, target, row)
    requires PassesRun(q, ps, limit) && forall p :: p in ps ==> Fair(p, target, row.nextAttemptAt)
    requires limit > 0 && r == |Ahead(q, row.nextAttemptAt) - {target}|
    requires s == |Stale(q, row.nextAttemptAt)| + PassesOvertaking(q, ps, limit, row.nextAttemptAt)
    requires |ps| == (r + s) / limit + 1
    ensures AttemptedIn(q, ps, limit, target, row)
  {
    var ahead := Ahead(q, row.nextAttemptAt);
    TargetPresses(q, target, row);
    assert ahead - {} == ahead == ahead - {target} + {target};
    RoundsCover(r + s, limit);
    AttemptedWhenPressureRunsOut(q, ps, limit, target, row);
  }

  lemma RoundsCover(r: nat, limit: nat)
    requires limit > 0
    ensures (r / limit + 1) * limit >= r + 1
  {
    assert r == limit * (r / limit) + r % limit;
    assert (r / limit + 1) * limit == limit * (r / limit) + limit;
  }

  // ----- when every clock is past the due time -----------------------------------------------------------

  predicate PunctualSteps(q: Queue, steps: seq<Step>, due: int)
    requires IsRun(q, steps)
    decreases |steps|
  {
    steps == [] || (Punctual(q, steps[0], due) && PunctualSteps(Next(q, steps[0]), steps[1..], due))
  }

  predicate PunctualTurns(q: Queue, turns: seq<Turn>, due: int)
    requires TurnsRun(q, turns)
    decreases |turns|
  {
    turns == [] ||
    (PunctualSteps(q, turns[0].before, due) &&
     PunctualSteps(Next(Final(q, turns[0].before), TurnBegin(turns[0])), turns[0].during, due) &&
     PunctualTurns(TurnEnd(q, turns[0]), turns[1..], due))
  }

  /** The other actors' steps during the passes are punctual. */
  ghost predicate PunctualPasses(q: Queue, ps: seq<Pass>, limit: nat, due: int)
    requires PassesRun(q, ps, limit)
    decreases |ps|
  {
    ps == [] ||
    (PunctualTurns(q, ps[0].turns, due) && PunctualSteps(TurnsEnd(q, ps[0].turns), ps[0].idle, due) &&
     PunctualPasses(PassEnd(q, ps[0], limit), ps[1..], limit, due))
  }

  lemma {:induction false} PunctualStepsOvertakeNothing(q: Queue, steps: seq<Step>, due: int)
    requires IsRun(q, steps) && PunctualSteps(q, steps, due)
    ensures Overtaking(q, steps, due) == 0
    decreases |steps|
  {
    if steps != [] {
      PunctualOvertakesNothing(q, steps[0], due);
      PunctualStepsOvertakeNothing(Next(q, steps[0]), steps[1..], due);
    }
  }

  lemma {:induction false} PunctualTurnsOvertakeNothing(q: Queue, turns: seq<Turn>, due: int)
    requires TurnsRun(q, turns) && PunctualTurns(q, turns, due)
    ensures TurnsOvertaking(q, turns, due) == 0
    decreases |turns|
  {
    if turns != [] {
      PunctualStepsOvertakeNothing(q, turns[0].before, due);
      PunctualStepsOvertakeNothing(Next(Final(q, turns[0].before), TurnBegin(turns[0])), turns[0].during, due);
      PunctualTurnsOvertakeNothing(TurnEnd(q, turns[0]), turns[1..], due);
    }
  }

  lemma {:induction false} PunctualPassesOvertakeNothing(q: Queue, ps: seq<Pass>, limit: nat, due: int)
    requires PassesRun(q, ps, limit) && PunctualPasses(q, ps, limit, due)
    ensures PassesOvertaking(q, ps, limit, due) == 0
    decreases |ps|
  {
    if ps != [] {
      PunctualTurnsOvertakeNothing(q, ps[0].turns, due);
      PunctualStepsOvertakeNothing(TurnsEnd(q, ps[0].turns), ps[0].idle, due);
      PunctualPassesOvertakeNothing(PassEnd(q, ps[0], limit), ps[1..], limit, due);
    }
  }

  /** With every clock past the due time, the bound is fixed when the row falls due: `r` rows ahead and `s`
      stale sessions open then. */
  lemma {:induction false} PunctualDueRowIsAttempted(q: Queue, ps: seq<Pass>, limit: nat, target: nat, row: Row,
                                                     r: nat, s: nat)
    requires row.status == Pending && Idle(q, target, row)
    requires PassesRun(q, ps, limit) && forall p :: p in ps ==> Fair(p, target, row.nextAttemptAt)
    requires PunctualPasses(q, ps, limit, row.nextAttemptAt)
    requires limit > 0 && r == |Ahead(q, row.nextAttemptAt) - {target}| && s == |Stale(q, row.nextAttemptAt)|
    requires |ps| == (r + s) / limit + 1
    ensures AttemptedIn(q, ps, limit, target, row)
  {
    PunctualPassesOvertakeNothing(q, ps, limit, row.nextAttemptAt);
    DueRowIsAttempted(q, ps, limit, target, row, r, s);
  }

  // ----- a session open at the start can make the row wait longer ---------------------------------------

  const BROKEN := Identity(2, "https://c", "s", "license.updated", Garbled("bad json"))

  function Note(id: nat): Identity {
    Identity(id, "https://c", "s", "license.updated", Json(Probe(Facts(0, "k", None, None))))
  }

  /** One row ahead of the target, an abandoned row, and an open retry of it that read its clock at 3. */
  const BEFORE_RETRY: seq<Step> :=
    [Enqueue(BROKEN, 0), Begin(0, 2, Attempt(DOWN, 1, 1)), Commit(0), Enqueue(Note(0), 5), Enqueue(Note(1), 10),
     Begin(0, 2, RetryNow(3))]

  const GIVEN_UP := Attempted(Enqueued(BROKEN, 0), DOWN, 1, 1)

  const WAITING := Queue(map[0 := Enqueued(Note(0), 5), 1 := Enqueued(Note(1), 10), 2 := GIVEN_UP],
                         map[0 := Txn(2, RetryNow(3), GIVEN_UP)], [])

  lemma WaitingIsReachable()
    ensures IsRun(EMPTY, BEFORE_RETRY) && Final(EMPTY, BEFORE_RETRY) == WAITING
  {
    var q1 := Next(EMPTY, Enqueue(BROKEN, 0));
    var q2 := Next(q1, Begin(0, 2, Attempt(DOWN, 1, 1)));
    var q3 := Next(q2, Commit(0));
    assert q3.rows == map[2 := GIVEN_UP] && q3.open == map[];
    var q4 := Next(q3, Enqueue(Note(0), 5));
    var q5 := Next(q4, Enqueue(Note(1), 10));
    TwoSteps(EMPTY, Enqueue(BROKEN, 0), Begin(0, 2, Attempt(DOWN, 1, 1)));
    TwoSteps(q2, Commit(0), Enqueue(Note(0), 5));
    TwoSteps(q4, Enqueue(Note(1), 10), Begin(0, 2, RetryNow(3)));
    assert Next(q5, Begin(0, 2, RetryNow(3))) == WAITING;
    var a, b, c := BEFORE_RETRY[..2], BEFORE_RETRY[2..4], BEFORE_RETRY[4..];
    assert a == [Enqueue(BROKEN, 0), Begin(0, 2, Attempt(DOWN, 1, 1))] && b == [Commit(0), Enqueue(Note(0), 5)];
    assert c == [Enqueue(Note(1), 10), Begin(0, 2, RetryNow(3))] && BEFORE_RETRY == a + (b + c);
    RunAppend(q2, b, c);
    RunAppend(EMPTY, a, b + c);
  }

  /** The worker's attempt of one row, nothing interleaved. */
  function Alone(id: nat, at: int): Turn {
    Turn([], 1, id, DOWN, at, at, [])
  }

  /** Counting only the rows ahead is not enough: in a reachable state with one row ahead and passes of one
      row, the second pass still misses the target, because a retry that was already open commits between the
      passes and puts its row in front. */
  lemma StaleRetryOvertakes() returns (q: Queue, ps: seq<Pass>, row: Row)
    ensures IsRun(EMPTY, BEFORE_RETRY) && q == Final(EMPTY, BEFORE_RETRY)
    ensures Idle(q, 1, row) && row.status == Pending && row.nextAttemptAt == 10
    ensures |Ahead(q, 10) - {1}| == 1 && |Stale(q, 10)| == 1
    ensures PassesRun(q, ps, 1) && PassesOvertaking(q, ps, 1, 10) == 0
    ensures forall p :: p in ps ==> Fair(p, 1, 10)
    ensures |ps| == 1 / 1 + 1 && !AttemptedIn(q, ps, 1, 1, row)
  {
    WaitingIsReachable();
    q, row := WAITING, Enqueued(Note(1), 10);
    TargetWaits();
    var p1, mid := FirstPass();
    var p2 := SecondPass(mid);
    NoPass(PassEnd(mid, p2, 1), row);
    OneMorePass(mid, p2, [], row);
    assert [p2] + [] == [p2];
    OneMorePass(q, p1, [p2], row);
    ps := [p1] + [p2];
  }

  lemma TargetWaits()
    ensures Idle(WAITING, 1, Enqueued(Note(1), 10))
    ensures |Ahead(WAITING, 10) - {1}| == 1 && |Stale(WAITING, 10)| == 1
  {
    assert Ahead(WAITING, 10) - {1} == {0};
    assert Stale(WAITING, 10) == {0};
  }

  lemma {:induction false} NoPass(q: Queue, row: Row)
    ensures PassesRun(q, [], 1) && PassesOvertaking(q, [], 1, 10) == 0 && !AttemptedIn(q, [], 1, 1, row)
  {
  }

  lemma {:induction false} OneMorePass(q: Queue, p: Pass, ps: seq<Pass>, row: Row)
    requires PassRuns(q, p, 1) && PassOvertaking(q, p, 1, 10) == 0 && forall t :: t in p.turns ==> t.id != 1
    requires PassesRun(PassEnd(q, p, 1), ps, 1) && PassesOvertaking(PassEnd(q, p, 1), ps, 1, 10) == 0
    requires !AttemptedIn(PassEnd(q, p, 1), ps, 1, 1, row)
    ensures PassesRun(q, [p] + ps, 1) && PassesOvertaking(q, [p] + ps, 1, 10) == 0
    ensures !AttemptedIn(q, [p] + ps, 1, 1, row)
  {
    assert ([p] + ps)[1..] == ps;
  }

  lemma {:induction false} QuietTurn(q: Queue, id: nat, at: int)
    requires 1 !in q.open && id in q.rows
    ensures TurnRuns(q, Alone(id, at)) && TurnsRun(q, [Alone(id, at)]) && TurnsOvertaking(q, [Alone(id, at)], 10) == 0
    ensures var after := TurnsEnd(q, [Alone(id, at)]);
            after.rows == q.rows[id := Attempted(q.rows[id], DOWN, at, at)] && after.open == q.open
  {
    var t := Alone(id, at);
    FlushOfFreshCopy(Txn(id, Attempt(DOWN, at, at), q.rows[id]));
    assert [t][1..] == [];
    assert q.open[1 := Txn(id, Attempt(DOWN, at, at), q.rows[id])] - {1} == q.open;
  }

  /** The rows after the first pass: the row ahead has failed once, the abandoned one is revived. */
  function AfterFirstPass(): map<nat, Row> {
    WAITING.rows[0 := Attempted(WAITING.rows[0], DOWN, 10, 10)][2 := Retried(GIVEN_UP, 3)]
  }

  lemma FirstPass() returns (p: Pass, q: Queue)
    ensures PassRuns(WAITING, p, 1) && q == PassEnd(WAITING, p, 1) && PassOvertaking(WAITING, p, 1, 10) == 0
    ensures q.open == map[] && q.rows == AfterFirstPass()
    ensures Fair(p, 1, 10) && forall t :: t in p.turns ==> t.id != 1
  {
    p := Pass(10, [Alone(0, 10)], [Commit(0)]);
    QuietTurn(WAITING, 0, 10);
    FirstSelection(Batch(p));
    RetryCommits(TurnsEnd(WAITING, p.turns));
    q := PassEnd(WAITING, p, 1);
  }

  lemma FirstSelection(batch: seq<nat>)
    requires batch == [0]
    ensures Selection(WAITING.rows, 10, 1, batch)
  {
  }

  /** The open retry commits after the turn of the row ahead. */
  lemma {:induction false} RetryCommits(q: Queue)
    requires q.open == WAITING.open && q.rows == WAITING.rows[0 := Attempted(WAITING.rows[0], DOWN, 10, 10)]
    ensures IsRun(q, [Commit(0)]) && Overtaking(q, [Commit(0)], 10) == 0
    ensures Final(q, [Commit(0)]).open == map[] && Final(q, [Commit(0)]).rows == AfterFirstPass()
  {
    FlushOfFreshCopy(WAITING.open[0]);
    OneStep(q, Commit(0));
    assert [Commit(0)][1..] == [];
  }

  lemma SecondPass(q: Queue) returns (p: Pass)
    requires q.open == map[] && q.rows == AfterFirstPass()
    ensures PassRuns(q, p, 1) && PassOvertaking(q, p, 1, 10) == 0
    ensures Fair(p, 1, 10) && forall t :: t in p.turns ==> t.id != 1
  {
    p := Pass(11, [Alone(2, 11)], []);
    QuietTurn(q, 2, 11);
    assert Batch(p) == [2];
  }
}
