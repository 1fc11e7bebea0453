/** The delivery table driven by independent actors. Every attempt or operator retry opens a
    session, loads the row without a lock, works on its copy and commits later, so any number
    of them may overlap on one row; a session may also die before it commits. */
module DeliveryMachine {
  import opened Common
  import opened Deliveries

  datatype Action = Attempt(reply: Reply, sentAt: int, doneAt: int) | RetryNow(now: int)

  datatype Txn = Txn(id: nat, action: Action, loaded: Row)

  datatype Send = Send(identity: Identity, ok: bool)

  datatype Queue = Queue(rows: map<nat, Row>, open: map<nat, Txn>, sends: seq<Send>)

  datatype Step =
    | Enqueue(identity: Identity, at: int)
    | Test(identity: Identity, reply: Reply, at: int)
    | Begin(k: nat, id: nat, action: Action)
    | Commit(k: nat)
    | Rollback(k: nat)

  const EMPTY := Queue(map[], map[], [])

  function Current(t: Txn): Row {
    match t.action
    case Attempt(reply, sentAt, doneAt) => Attempted(t.loaded, reply, sentAt, doneAt)
    case RetryNow(now) => Retried(t.loaded, now)
  }

  predicate Enabled(q: Queue, s: Step) {
    match s
    case Enqueue(identity, at) => identity.id !in q.rows && identity.eventType != TEST_EVENT
    case Test(identity, reply, at) =>
      identity.id !in q.rows && identity.eventType == TEST_EVENT && identity.payload.Json?
    case Begin(k, id, action) => k !in q.open && id in q.rows
    case Commit(k) => k in q.open && q.open[k].id in q.rows
    case Rollback(k) => k in q.open
  }

  function Next(q: Queue, s: Step): Queue
    requires Enabled(q, s)
  {
    match s
    case Enqueue(identity, at) => q.(rows := q.rows[identity.id := Enqueued(identity, at)])
    case Test(identity, reply, at) =>
      q.(rows := q.rows[identity.id := TestRow(identity, reply, at)],
         sends := q.sends + [Send(identity, reply.ok)])
    case Begin(k, id, action) =>
      var row := q.rows[id];
      q.(open := q.open[k := Txn(id, action, row)],
         sends := if action.Attempt? && Sends(row) then q.sends + [Send(row.identity, action.reply.ok)]
                  else q.sends)
    case Commit(k) =>
      var t := q.open[k];
      q.(rows := q.rows[t.id := Flushed(q.rows[t.id], t.loaded, Current(t))], open := q.open - {k})
    case Rollback(k) => q.(open := q.open - {k})
  }

  /** `steps` is a run of enabled steps from `q`. */
  predicate IsRun(q: Queue, steps: seq<Step>)
    decreases |steps|
  {
    steps == [] || (Enabled(q, steps[0]) && IsRun(Next(q, steps[0]), steps[1..]))
  }

  function Final(q: Queue, steps: seq<Step>): Queue
    requires IsRun(q, steps)
    decreases |steps|
  {
    if steps == [] then q else Final(Next(q, steps[0]), steps[1..])
  }

  // ----- what every interleaving keeps ------------------------------------------------------

  predicate RowOk(r: Row) {
    && r.attempts <= MAX_ATTEMPTS
    && (r.status == Pending ==> r.attempts < MAX_ATTEMPTS)
    && (r.status == Delivered ==> r.deliveredAt.Some?)
    && (r.identity.eventType == TEST_EVENT ==> r.status != Pending)
    && (r.identity.payload.Garbled? ==> r.attempts == 0 && r.deliveredAt.None?)
    && (r.identity.payload.Json? && r.status == Abandoned ==> r.attempts > 0)
  }

  /** The row's delivery is backed by a successful send that carried exactly its identity. */
  predicate Acknowledged(q: Queue, identity: Identity) {
    Send(identity, true) in q.sends
  }

  predicate TxnOk(q: Queue, t: Txn) {
    && t.id in q.rows
    && t.loaded.identity == q.rows[t.id].identity
    && RowOk(t.loaded)
    && (t.loaded.deliveredAt.Some? ==> q.rows[t.id].deliveredAt.Some?)
    && (t.action.Attempt? && t.action.reply.ok && Sends(t.loaded) ==> Acknowledged(q, t.loaded.identity))
  }

  ghost predicate Inv(q: Queue) {
    && (forall id :: id in q.rows ==> RowOk(q.rows[id]) && q.rows[id].identity.id == id)
    && (forall id :: id in q.rows && q.rows[id].deliveredAt.Some? ==> Acknowledged(q, q.rows[id].identity))
    && (forall k :: k in q.open ==> TxnOk(q, q.open[k]))
    && (forall s :: s in q.sends ==> s.identity.id in q.rows && q.rows[s.identity.id].identity == s.identity)
  }

  /** What a run may never take back: a row, its identity, a delivery time, a send. */
  ghost predicate Extends(q: Queue, q': Queue) {
    && (forall id :: id in q.rows ==> id in q'.rows && q'.rows[id].identity == q.rows[id].identity)
    && (forall id :: id in q.rows && q.rows[id].deliveredAt.Some? ==> q'.rows[id].deliveredAt.Some?)
    && q.sends <= q'.sends
  }

  lemma FlushKeepsRowOk(durable: Row, t: Txn)
    requires RowOk(durable) && RowOk(t.loaded) && t.loaded.identity == durable.identity
    requires t.loaded.deliveredAt.Some? ==> durable.deliveredAt.Some?
    ensures RowOk(Flushed(durable, t.loaded, Current(t)))
    ensures durable.deliveredAt.Some? ==> Flushed(durable, t.loaded, Current(t)).deliveredAt.Some?
  {
  }

  /** A new row, with the send that produced it when it has one. */
  lemma InsertKeepsInv(q: Queue, r: Row, sends: seq<Send>)
    requires Inv(q) && r.identity.id !in q.rows && RowOk(r)
    requires sends == [] || sends == [Send(r.identity, r.status == Delivered)]
    requires r.deliveredAt.Some? ==> sends != [] && r.status == Delivered
    ensures var q' := q.(rows := q.rows[r.identity.id := r], sends := q.sends + sends);
            Inv(q') && Extends(q, q')
  {
    if sends != [] {
      assert (q.sends + sends)[|q.sends|] == sends[0];
    }
  }

  lemma BeginKeepsInv(q: Queue, k: nat, id: nat, action: Action)
    requires Inv(q) && Enabled(q, Begin(k, id, action))
    ensures Inv(Next(q, Begin(k, id, action))) && Extends(q, Next(q, Begin(k, id, action)))
  {
    if action.Attempt? && Sends(q.rows[id]) {
      assert Next(q, Begin(k, id, action)).sends[|q.sends|] == Send(q.rows[id].identity, action.reply.ok);
    }
  }

  lemma CommitKeepsInv(q: Queue, k: nat)
    requires Inv(q) && Enabled(q, Commit(k))
    ensures Inv(Next(q, Commit(k))) && Extends(q, Next(q, Commit(k)))
  {
    FlushKeepsRowOk(q.rows[q.open[k].id], q.open[k]);
  }

  lemma StepKeepsInv(q: Queue, s: Step)
    requires Inv(q) && Enabled(q, s)
    ensures Inv(Next(q, s)) && Extends(q, Next(q, s))
  {
    match s
    case Enqueue(identity, at) =>
      InsertKeepsInv(q, Enqueued(identity, at), []);
      assert q.sends + [] == q.sends;
    case Test(identity, reply, at) => InsertKeepsInv(q, TestRow(identity, reply, at), [Send(identity, reply.ok)]);
    case Begin(k, id, action) => BeginKeepsInv(q, k, id, action);
    case Commit(k) => CommitKeepsInv(q, k);
    case Rollback(k) =>
  }

  /** Over every interleaving of the post-commit attempt, the worker, the operator and crashes:
      rows stay well-formed, nothing recorded is taken back, every send repeats its row's identity. */
  lemma {:induction false} RunKeepsInv(q: Queue, steps: seq<Step>)
    requires Inv(q) && IsRun(q, steps)
    ensures Inv(Final(q, steps)) && Extends(q, Final(q, steps))
    decreases |steps|
  {
    if steps != [] {
      StepKeepsInv(q, steps[0]);
      RunKeepsInv(Next(q, steps[0]), steps[1..]);
    }
  }

  lemma {:induction false} ReachableRowsAreSound(steps: seq<Step>, id: nat)
    requires IsRun(EMPTY, steps) && id in Final(EMPTY, steps).rows
    ensures var q := Final(EMPTY, steps); var r := q.rows[id];
            && (r.status == Pending ==> r.attempts < MAX_ATTEMPTS && r.identity.eventType != TEST_EVENT)
            && r.attempts <= MAX_ATTEMPTS
            && (r.status == Delivered ==> r.deliveredAt.Some? && Send(r.identity, true) in q.sends)
            && (forall s :: s in q.sends && s.identity.id == id ==> s.identity == r.identity)
  {
    RunKeepsInv(EMPTY, steps);
  }

  // ----- delivered is absorbing exactly when no stale session writes the status ---------------

  /** The session's own copy turns terminal or is revived, by a branch chosen on what it loaded:
      a seventh failure, or an operator retry that loaded an abandoned row. */
  predicate OverwritesStatus(t: Txn) {
    match t.action
    case Attempt(reply, _, _) =>
      t.loaded.status == Pending && (t.loaded.identity.payload.Garbled? ||
                                     (!reply.ok && t.loaded.attempts + 1 >= MAX_ATTEMPTS))
    case RetryNow(_) => t.loaded.status == Abandoned && t.loaded.identity.eventType != TEST_EVENT
  }

  lemma DeliveredSurvivesCommitIff(q: Queue, k: nat)
    requires Inv(q) && Enabled(q, Commit(k))
    requires q.rows[q.open[k].id].status == Delivered
    ensures Next(q, Commit(k)).rows[q.open[k].id].status == Delivered <==> !OverwritesStatus(q.open[k])
  {
  }

  lemma {:induction false} RunAppend(q: Queue, a: seq<Step>, b: seq<Step>)
    requires IsRun(q, a) && IsRun(Final(q, a), b)
    ensures IsRun(q, a + b) && Final(q, a + b) == Final(Final(q, a), b)
    decreases |a|
  {
    if a == [] {
      assert a + b == b;
    } else {
      assert (a + b)[1..] == a[1..] + b;
      RunAppend(Next(q, a[0]), a[1..], b);
    }
  }

  const DOWN := Reply(false, Some(500), Some("down"))
  const UP := Reply(true, Some(200), None)

  /** A run that leaves one freshly enqueued row pending after `n` recorded failures. */
  lemma {:induction false} FailTimes(identity: Identity, n: nat) returns (steps: seq<Step>)
    requires identity.eventType != TEST_EVENT && identity.payload.Json? && n < MAX_ATTEMPTS
    ensures IsRun(EMPTY, steps)
    ensures Final(EMPTY, steps).open == map[] && Final(EMPTY, steps).rows.Keys == {identity.id}
    ensures var r := Final(EMPTY, steps).rows[identity.id];
            r.identity == identity && r.status == Pending && r.attempts == n && r.deliveredAt.None?
  {
    if n == 0 {
      steps := [Enqueue(identity, 0)];
      assert IsRun(Next(EMPTY, steps[0]), steps[1..]);
    } else {
      var before := FailTimes(identity, n - 1);
      var q := Final(EMPTY, before);
      var begin, commit := Begin(0, identity.id, Attempt(DOWN, 0, 0)), Commit(0);
      TwoSteps(q, begin, commit);
      RunAppend(EMPTY, before, [begin, commit]);
      steps := before + [begin, commit];
    }
  }

  lemma {:induction false} OneStep(q: Queue, a: Step)
    requires Enabled(q, a)
    ensures IsRun(q, [a]) && Final(q, [a]) == Next(q, a)
  {
    assert [a][1..] == [];
    assert IsRun(Next(q, a), []);
  }

  lemma {:induction false} TwoSteps(q: Queue, a: Step, b: Step)
    requires Enabled(q, a) && Enabled(Next(q, a), b)
    ensures IsRun(q, [a, b]) && Final(q, [a, b]) == Next(Next(q, a), b)
  {
    OneStep(Next(q, a), b);
    assert [a, b][1..] == [b];
  }

  /** The double send the code allows: on its last attempt a row is delivered by one session and
      then abandoned by another that loaded it before. */
  lemma DeliveredThenAbandoned(identity: Identity) returns (delivered: seq<Step>, later: seq<Step>)
    requires identity.eventType != TEST_EVENT && identity.payload.Json?
    ensures IsRun(EMPTY, delivered + later) && IsRun(EMPTY, delivered)
    ensures identity.id in Final(EMPTY, delivered).rows && identity.id in Final(EMPTY, delivered + later).rows
    ensures Final(EMPTY, delivered).rows[identity.id].status == Delivered
    ensures var r := Final(EMPTY, delivered + later).rows[identity.id];
            r.status == Abandoned && r.deliveredAt.Some?
  {
    var six := FailTimes(identity, MAX_ATTEMPTS - 1);
    var q := Final(EMPTY, six);
    var a, b := Begin(0, identity.id, Attempt(UP, 0, 0)), Begin(1, identity.id, Attempt(DOWN, 0, 0));
    TwoSteps(q, a, b);
    var q2 := Next(Next(q, a), b);
    RunAppend(EMPTY, six, [a, b]);
    OneStep(q2, Commit(0));
    RunAppend(EMPTY, six + [a, b], [Commit(0)]);
    delivered, later := six + [a, b] + [Commit(0)], [Commit(1)];
    OneStep(Next(q2, Commit(0)), Commit(1));
    RunAppend(EMPTY, delivered, later);
  }

  // ----- runs without overlap on a row -------------------------------------------------------

  /** No session opens on a row that another open session has loaded. */
  predicate NoOverlap(q: Queue, steps: seq<Step>)
    requires IsRun(q, steps)
    decreases |steps|
  {
    steps == [] ||
    ((steps[0].Begin? ==> forall k :: k in q.open ==> q.open[k].id != steps[0].id) &&
     NoOverlap(Next(q, steps[0]), steps[1..]))
  }

  ghost predicate Serial(q: Queue) {
    && (forall k :: k in q.open ==> q.open[k].id in q.rows && q.open[k].loaded == q.rows[q.open[k].id])
    && (forall j, k :: j in q.open && k in q.open && q.open[j].id == q.open[k].id ==> j == k)
    && (forall id :: id in q.rows ==> (q.rows[id].status == Delivered <==> q.rows[id].deliveredAt.Some?))
  }

  ghost predicate KeepsDelivered(q: Queue, q': Queue) {
    forall id :: id in q.rows && q.rows[id].status == Delivered ==>
      id in q'.rows && q'.rows[id].status == Delivered
  }

  lemma FlushOfFreshCopy(t: Txn)
    ensures Flushed(t.loaded, t.loaded, Current(t)) == Current(t)
  {
  }

  lemma SerialCommit(q: Queue, k: nat)
    requires Serial(q) && Enabled(q, Commit(k))
    ensures Serial(Next(q, Commit(k))) && KeepsDelivered(q, Next(q, Commit(k)))
  {
    FlushOfFreshCopy(q.open[k]);
  }

  /** Without overlap on a row, delivered is absorbing and equals having a delivery time. */
  lemma {:induction false} DeliveredAbsorbsWithoutOverlap(q: Queue, steps: seq<Step>)
    requires Serial(q) && IsRun(q, steps) && NoOverlap(q, steps)
    ensures Serial(Final(q, steps)) && KeepsDelivered(q, Final(q, steps))
    decreases |steps|
  {
    if steps != [] {
      if steps[0].Commit? {
        SerialCommit(q, steps[0].k);
      }
      DeliveredAbsorbsWithoutOverlap(Next(q, steps[0]), steps[1..]);
    }
  }

  // ----- how long a row that only the worker attempts stays alive ------------------------------

  predicate NoneOpenOn(q: Queue, id: nat) {
    forall k :: k in q.open ==> q.open[k].id != id
  }

  /** The worker picks a row once it is due and reads its clock at the send and after it. */
  predicate WorkerPick(r: Row, action: Action) {
    action.Attempt? && r.nextAttemptAt <= action.sentAt <= action.doneAt
  }

  /** Only the worker opens sessions on `id`, one at a time; any actor does anything to other rows. */
  predicate WorkerOnly(q: Queue, steps: seq<Step>, id: nat)
    requires IsRun(q, steps)
    decreases |steps|
  {
    steps == [] ||
    ((steps[0].Begin? && steps[0].id == id ==> NoneOpenOn(q, id) && WorkerPick(q.rows[id], steps[0].action)) &&
     WorkerOnly(Next(q, steps[0]), steps[1..], id))
  }

  /** Sum of the first `n` back-off delays. */
  function Delays(n: nat): int
    requires n <= |BACKOFF|
  {
    if n == 0 then 0 else Delays(n - 1) + BACKOFF[n - 1]
  }

  /** After n recorded failures, the first at `first`, at least n - 1 delays have passed, and a row that is
      still pending waits out the next one. */
  predicate Waited(r: Row, first: int) {
    && r.identity.payload.Json? && 1 <= r.attempts <= MAX_ATTEMPTS
    && r.lastAttemptAt.Some? && r.lastAttemptAt.value >= first + Delays(r.attempts - 1)
    && (r.status == Pending ==> r.attempts < MAX_ATTEMPTS && r.nextAttemptAt >= first + Delays(r.attempts))
    && (r.status == Abandoned ==> r.attempts == MAX_ATTEMPTS)
  }

  ghost predicate WorkerHolds(q: Queue, id: nat, first: int) {
    && id in q.rows && Waited(q.rows[id], first)
    && (forall k :: k in q.open && q.open[k].id == id ==>
          q.open[k].loaded == q.rows[id] && WorkerPick(q.rows[id], q.open[k].action))
    && (forall j, k :: j in q.open && k in q.open && q.open[j].id == id && q.open[k].id == id ==> j == k)
  }

  lemma AttemptKeepsWaited(r: Row, action: Action, first: int)
    requires Waited(r, first) && WorkerPick(r, action)
    ensures Waited(Attempted(r, action.reply, action.sentAt, action.doneAt), first)
  {
  }

  lemma StepKeepsWaited(q: Queue, s: Step, id: nat, first: int)
    requires WorkerHolds(q, id, first) && Enabled(q, s)
    requires s.Begin? && s.id == id ==> NoneOpenOn(q, id) && WorkerPick(q.rows[id], s.action)
    ensures WorkerHolds(Next(q, s), id, first)
  {
    if s.Commit? && q.open[s.k].id == id {
      FlushOfFreshCopy(q.open[s.k]);
      AttemptKeepsWaited(q.rows[id], q.open[s.k].action, first);
    }
  }

  lemma {:induction false} RunKeepsWaited(q: Queue, steps: seq<Step>, id: nat, first: int)
    requires WorkerHolds(q, id, first) && IsRun(q, steps) && WorkerOnly(q, steps, id)
    ensures WorkerHolds(Final(q, steps), id, first)
    decreases |steps|
  {
    if steps != [] {
      StepKeepsWaited(q, steps[0], id, first);
      RunKeepsWaited(Next(q, steps[0]), steps[1..], id, first);
    }
  }

  /** A never-revived row attempted only by the worker is given up exactly at its seventh failure, no earlier
      than 2316 minutes after its first, in every run of the whole machine. */
  lemma {:induction false} WorkerAbandonsAfter2316Minutes(q: Queue, steps: seq<Step>, identity: Identity, at: int,
                                                          reply: Reply,
                                       first: int, doneAt: int)
    requires identity.payload.Json? && !reply.ok && first <= doneAt
    requires identity.id in q.rows && q.rows[identity.id] == Attempted(Enqueued(identity, at), reply, first, doneAt)
    requires NoneOpenOn(q, identity.id) && IsRun(q, steps) && WorkerOnly(q, steps, identity.id)
    ensures identity.id in Final(q, steps).rows
    ensures var r := Final(q, steps).rows[identity.id];
            r.status == Abandoned ==>
              r.attempts == 7 && r.lastAttemptAt.Some? && r.lastAttemptAt.value - first >= 2316 * 60
  {
    assert Delays(1) == 60 + Delays(0);
    RunKeepsWaited(q, steps, identity.id, first);
    AllDelays();
  }

  lemma AllDelays()
    ensures Delays(6) == 2316 * 60
  {
    assert Delays(2) == Delays(1) + 300 && Delays(1) == Delays(0) + 60;
    assert Delays(4) == Delays(3) + 7200 && Delays(3) == Delays(2) + 1800;
    assert Delays(6) == Delays(5) + 86400 && Delays(5) == Delays(4) + 43200;
  }
}
