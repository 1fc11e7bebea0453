/** The second factor under overlapping requests (app/services/mfa.py): nothing locks the row, so a session
    loads it, decides on its own copy and at commit writes the columns it changed, or dies before. */
module MfaOverlap {
  import opened Common
  import opened Mfa
  import M = Mfa

  /** A session of a call and the row it loaded; a disable whose login committed and that has not read the row
      again; its second session. */
  datatype Slot = Txn(o: Oracle, op: Op, loaded: Option<Row>) | Verified | Clearing(loaded: Option<Row>)

  datatype Table = Table(h: History, open: map<nat, Slot>)

  datatype Step = Begin(k: nat, o: Oracle, op: Op) | Clear(k: nat) | Commit(k: nat) | Abort(k: nat)

  /** The session's copy and whether it commits. The first session of a disable is a login. */
  function Copy(t: Slot): (Option<Row>, bool)
    requires !t.Verified?
  {
    match t
    case Clearing(_) => (Some(Row(false, None, None)), true)
    case Txn(o, Disable(code), loaded) => LoggedIn(loaded, o, code)
    case Txn(o, op, loaded) => M.Next(loaded, o, op)
  }

  /** The digest of the recovery code that the session accepts. */
  function Used(t: Slot): Option<int> {
    if t.Txn? then UsedRecovery(t.loaded, t.o, t.op) else None
  }

  /** The digests of the codes that the session issues. */
  function New(t: Slot): seq<int> {
    if t.Txn? then Digests(t.o, Issued(t.op)) else []
  }

  /** The row after a flush: the columns that differ from what was loaded are written, and a new TOTP secret
      always, because its ciphertext is new. */
  function Flushed(durable: Option<Row>, t: Slot): Row
    requires CanCommit(durable, t)
  {
    var c := Copy(t).0.value;
    if durable.None? then c
    else
      var d, l := durable.value, t.loaded.value;
      Row(Column(d.enabled, l.enabled, c.enabled),
          if t.Txn? && t.op.Start? then c.secret else Column(d.secret, l.secret, c.secret),
          Column(d.recovery, l.recovery, c.recovery))
  }

  /** Whatever it finds, the start of an enrolment leaves its own secret. */
  lemma StartWritesSecret(durable: Option<Row>, o: Oracle, secret: string, loaded: Option<Row>)
    requires CanCommit(durable, Txn(o, Start(secret), loaded))
    ensures Flushed(durable, Txn(o, Start(secret), loaded)).secret == Some(secret)
  {
  }

  /** The call succeeds on what it loaded, and an insert finds no row. */
  predicate CanCommit(durable: Option<Row>, t: Slot) {
    !t.Verified? && Copy(t).0.Some? && Copy(t).1 && t.loaded.Some? == durable.Some?
  }

  /** New recovery codes are ten distinct ones never issued before. */
  ghost predicate Fresh(h: History, digests: seq<int>) {
    |digests| == RECOVERY_CODE_COUNT && Distinct(digests) && Elements(digests) !! h.issued
  }

  ghost predicate Enabled(t: Table, s: Step) {
    match s
    case Begin(k, _, _) => k !in t.open
    case Clear(k) => k in t.open && t.open[k].Verified?
    case Commit(k) =>
      k in t.open && CanCommit(t.h.row, t.open[k]) &&
      (t.open[k].Txn? && (t.open[k].op.Enrol? || t.open[k].op.Regenerate?) ==> Fresh(t.h, New(t.open[k])))
    case Abort(k) => k in t.open
  }

  ghost function Next(t: Table, s: Step): Table
    requires Enabled(t, s)
  {
    match s
    case Begin(k, o, op) => t.(open := t.open[k := Txn(o, op, t.h.row)])
    case Clear(k) => t.(open := t.open[k := Clearing(t.h.row)])
    case Commit(k) =>
      var x := t.open[k];
      Table(Committed(t.h, x), if x.Txn? && x.op.Disable? then t.open[k := Verified] else t.open - {k})
    case Abort(k) => t.(open := t.open - {k})
  }

  predicate IsLogin(t: Slot) {
    t.Txn? && (t.op.Login? || t.op.Disable?)
  }

  /** The history after the session's commit: a login accepts a code, any other call may start or end a
      generation. */
  function Committed(h: History, t: Slot): History
    requires CanCommit(h.row, t)
  {
    var row := Flushed(h.row, t);
    if IsLogin(t) then Accepting(h, Used(t)).(row := Some(row)) else Entered(h, row, New(t))
  }

  ghost predicate IsRun(t: Table, steps: seq<Step>)
    decreases |steps|
  {
    steps == [] || (Enabled(t, steps[0]) && IsRun(Next(t, steps[0]), steps[1..]))
  }

  ghost function Final(t: Table, steps: seq<Step>): Table
    requires IsRun(t, steps)
    decreases |steps|
  {
    if steps == [] then t else Final(Next(t, steps[0]), steps[1..])
  }

  // ----- what every interleaving keeps ------------------------------------------------------------------

  function StoredIn(row: Option<Row>): seq<int> {
    if row.Some? && row.value.recovery.Some? then row.value.recovery.value else []
  }

  ghost predicate RowOk(row: Option<Row>, issued: set<int>) {
    Distinct(StoredIn(row)) && Elements(StoredIn(row)) <= issued
  }

  /** A generation is in force exactly while MFA is on; what is stored or was loaded has been issued. */
  ghost predicate Inv(t: Table) {
    var h := t.h;
    && RowOk(h.row, h.issued) && (forall k :: k in t.open && !t.open[k].Verified? ==> RowOk(t.open[k].loaded, h.issued))
    && (if IsOn(h.row) then |h.current| == RECOVERY_CODE_COUNT else h.current == [])
    && Distinct(h.current) && Elements(h.current) <= h.issued && Elements(h.accepted) <= h.issued
    && h.retired <= h.issued && h.retired !! Elements(h.current)
    && h.since <= |h.accepted| && Elements(h.accepted[..h.since]) !! Elements(h.current)
  }

  /** The promise of the recovery codes: none is accepted twice, those accepted since the generation began
      belong to it, and while MFA is on exactly the others of it are stored. */
  ghost predicate CodesOk(h: History) {
    && h.since <= |h.accepted| && Distinct(h.accepted) && Elements(h.accepted[h.since..]) <= Elements(h.current)
    && (IsOn(h.row) ==> Elements(StoredIn(h.row)) == Elements(h.current) - Elements(h.accepted[h.since..]))
  }

  // ----- when a commit keeps the promise ----------------------------------------------------------------

  /** A login by a recovery code meets a row that is on and holds the digests it loaded; an enrolment's start
      or a disable that clears the digests and does not write `enabled` meets none of a row that is on. */
  ghost predicate Harmless(h: History, t: Slot)
    requires CanCommit(h.row, t)
  {
    if Used(t).Some? then IsOn(h.row) && Elements(StoredIn(t.loaded)) == Elements(StoredIn(h.row))
    else ClearsOnly(t) && IsOn(h.row) ==> StoredIn(h.row) == []
  }

  /** The session writes no digests over digests it loaded with MFA off. */
  predicate ClearsOnly(t: Slot) {
    (t.Clearing? || (t.Txn? && t.op.Start?)) && t.loaded.Some? && !t.loaded.value.enabled &&
        t.loaded.value.recovery.Some?
  }

  lemma ElementsAppend(s: seq<int>, x: int)
    ensures Elements(s + [x]) == Elements(s) + {x}
  {
  }

  lemma DistinctAppendIff(s: seq<int>, x: int)
    ensures Distinct(s + [x]) <==> Distinct(s) && x !in Elements(s)
  {
    var t := s + [x];
    if Distinct(t) {
      assert forall i :: 0 <= i < |s| ==> s[i] == t[i] && t[i] != t[|s|];
    }
  }

  lemma ElementsSplit(s: seq<int>, n: nat)
    requires n <= |s|
    ensures Elements(s) == Elements(s[..n]) + Elements(s[n..])
  {
    assert s == s[..n] + s[n..];
  }

  /** A recovery code's commit, on the histories alone. */
  lemma AcceptKeepsCodesIff(h: History, row: Row, loaded: seq<int>, x: int)
    requires CodesOk(h) && h.since <= |h.accepted| && Elements(h.accepted[..h.since]) !! Elements(h.current)
    requires !IsOn(h.row) ==> h.current == []
    requires Distinct(loaded) && x in loaded && row.enabled == IsOn(h.row) && row.recovery == Some(Removed(loaded, x))
    ensures CodesOk(Accepting(h, Some(x)).(row := Some(row))) <==>
            IsOn(h.row) && Elements(loaded) == Elements(StoredIn(h.row))
  {
    var later := h.accepted[h.since..];
    assert (h.accepted + [x])[h.since..] == later + [x];
    ElementsAppend(later, x);
    DistinctAppendIff(h.accepted, x);
    ElementsSplit(h.accepted, h.since);
    RemovedAt(loaded, x);
    assert x in Elements(loaded);
    var after := Accepting(h, Some(x)).(row := Some(row));
    assert StoredIn(after.row) == Removed(loaded, x);
    if CodesOk(after) {
      assert after.accepted[after.since..] == later + [x];
      assert x in Elements(h.current) && x !in Elements(later);
      assert IsOn(after.row) && Elements(loaded) - {x} == Elements(StoredIn(h.row)) - {x};
      assert Elements(loaded) == Elements(loaded) - {x} + {x};
      assert Elements(StoredIn(h.row)) == Elements(StoredIn(h.row)) - {x} + {x};
    }
  }

  /** A login by TOTP writes none of these columns. */
  lemma TotpWritesNothing(h: History, t: Slot)
    requires CanCommit(h.row, t) && IsLogin(t) && Used(t).None?
    ensures Committed(h, t) == h
  {
  }

  lemma IssueKeepsCodes(t: Table, k: nat)
    requires Inv(t) && CodesOk(t.h) && Enabled(t, Commit(k)) && t.open[k].Txn?
    requires t.open[k].op.Enrol? || t.open[k].op.Regenerate?
    ensures CodesOk(Committed(t.h, t.open[k]))
  {
    var h, x := t.h, t.open[k];
    IssuedIsWritten(t, k);
    assert h.accepted[|h.accepted|..] == [];
  }

  /** Freshly issued digests differ from the loaded ones, so the column is written. */
  lemma IssuedIsWritten(t: Table, k: nat)
    requires Inv(t) && Enabled(t, Commit(k)) && t.open[k].Txn? && (t.open[k].op.Enrol? || t.open[k].op.Regenerate?)
    ensures Flushed(t.h.row, t.open[k]).recovery == Some(New(t.open[k]))
    ensures IsOn(Some(Flushed(t.h.row, t.open[k]))) <==> t.open[k].op.Enrol? || IsOn(t.h.row)
  {
    var h, x := t.h, t.open[k];
    var digests := New(x);
    assert digests[0] in Elements(digests) && digests[0] !in Elements(StoredIn(x.loaded));
  }

  lemma ClearKeepsCodesIff(t: Table, k: nat)
    requires Inv(t) && CodesOk(t.h) && Enabled(t, Commit(k))
    requires t.open[k].Clearing? || (t.open[k].Txn? && t.open[k].op.Start?)
    ensures CodesOk(Committed(t.h, t.open[k])) <==> Harmless(t.h, t.open[k])
  {
    var h, x := t.h, t.open[k];
    var row := Flushed(h.row, x);
    assert h.accepted[|h.accepted|..] == [];
    if row.enabled {
      assert IsOn(h.row);
      var s := StoredIn(h.row);
      assert s != [] ==> s[0] in Elements(s);
    }
  }

  lemma CommitKeepsCodesIff(t: Table, k: nat)
    requires Inv(t) && CodesOk(t.h) && Enabled(t, Commit(k))
    ensures CodesOk(Committed(t.h, t.open[k])) <==> Harmless(t.h, t.open[k])
  {
    var h, x := t.h, t.open[k];
    if Used(x).Some? {
      var loaded := StoredIn(x.loaded);
      RemovedAt(loaded, Used(x).value);
      assert Removed(loaded, Used(x).value) != loaded;
      AcceptKeepsCodesIff(h, Flushed(h.row, x), loaded, Used(x).value);
    } else if IsLogin(x) {
      TotpWritesNothing(h, x);
    } else if x.Clearing? || x.op.Start? {
      ClearKeepsCodesIff(t, k);
    } else {
      IssueKeepsCodes(t, k);
    }
  }

  // ----- over runs --------------------------------------------------------------------------------------

  lemma RemovedRowOk(s: seq<int>, x: int, issued: set<int>)
    requires Distinct(s) && x in s && Elements(s) <= issued
    ensures Distinct(Removed(s, x)) && Elements(Removed(s, x)) <= issued
  {
    RemovedAt(s, x);
  }

  /** The digests a commit leaves are those it met, those it issued, none, or what it loaded less one. */
  lemma CommittedRowOk(t: Table, k: nat)
    requires Inv(t) && Enabled(t, Commit(k))
    ensures RowOk(Some(Flushed(t.h.row, t.open[k])), t.h.issued + Elements(New(t.open[k])))
  {
    var x := t.open[k];
    if Used(x).Some? {
      RemovedRowOk(StoredIn(x.loaded), Used(x).value, t.h.issued);
    }
  }

  lemma CommitKeepsInv(t: Table, k: nat)
    requires Inv(t) && Enabled(t, Commit(k))
    ensures Inv(Next(t, Commit(k)))
  {
    var h, x := t.h, t.open[k];
    CommittedRowOk(t, k);
    if IsLogin(x) {
      LoginKeepsInv(t, k);
    } else {
      EnteredKeepsInv(t, k);
    }
  }

  lemma LoginKeepsInv(t: Table, k: nat)
    requires Inv(t) && Enabled(t, Commit(k)) && IsLogin(t.open[k])
    requires RowOk(Some(Flushed(t.h.row, t.open[k])), t.h.issued)
    ensures Inv(Next(t, Commit(k)))
  {
    var h, x := t.h, t.open[k];
    if Used(x).Some? {
      ElementsAppend(h.accepted, Used(x).value);
      assert Used(x).value in Elements(StoredIn(x.loaded));
      assert (h.accepted + [Used(x).value])[..h.since] == h.accepted[..h.since];
    } else {
      TotpWritesNothing(h, x);
    }
  }

  lemma EnteredKeepsInv(t: Table, k: nat)
    requires Inv(t) && Enabled(t, Commit(k)) && !IsLogin(t.open[k])
    requires RowOk(Some(Flushed(t.h.row, t.open[k])), t.h.issued + Elements(New(t.open[k])))
    ensures Inv(Next(t, Commit(k)))
  {
    var h, x := t.h, t.open[k];
    assert h.accepted[..|h.accepted|] == h.accepted;
    if x.Txn? && !x.op.Start? {
      IssuedIsWritten(t, k);
    }
  }

  lemma StepKeepsInv(t: Table, s: Step)
    requires Inv(t) && Enabled(t, s)
    ensures Inv(Next(t, s))
  {
    if s.Commit? {
      CommitKeepsInv(t, s.k);
    }
  }

  ghost predicate AllHarmless(t: Table, steps: seq<Step>)
    requires IsRun(t, steps)
    decreases |steps|
  {
    steps == [] ||
    ((steps[0].Commit? ==> Harmless(t.h, t.open[steps[0].k])) && AllHarmless(Next(t, steps[0]), steps[1..]))
  }

  /** The promise holds in every state of the run. */
  ghost predicate AlwaysOk(t: Table, steps: seq<Step>)
    requires IsRun(t, steps)
    decreases |steps|
  {
    CodesOk(t.h) && (steps == [] || AlwaysOk(Next(t, steps[0]), steps[1..]))
  }

  /** Over every interleaving, the recovery codes keep their promise in every state exactly when every commit
      is harmless. */
  lemma {:induction false} RunKeepsCodesIff(t: Table, steps: seq<Step>)
    requires Inv(t) && CodesOk(t.h) && IsRun(t, steps)
    ensures AlwaysOk(t, steps) <==> AllHarmless(t, steps)
    decreases |steps|
  {
    if steps != [] {
      var s := steps[0];
      StepKeepsInv(t, s);
      if s.Commit? {
        CommitKeepsCodesIff(t, s.k);
      }
      if CodesOk(Next(t, s).h) {
        RunKeepsCodesIff(Next(t, s), steps[1..]);
      } else {
        NotAlwaysOk(Next(t, s), steps[1..]);
      }
    }
  }

  lemma {:induction false} NotAlwaysOk(t: Table, steps: seq<Step>)
    requires IsRun(t, steps) && !CodesOk(t.h)
    ensures !AlwaysOk(t, steps)
  {
  }

  // ----- what the promise means ---------------------------------------------------------------------------

  /** A code accepted by a harmless commit belongs to the generation in force, to no earlier one, and was not
      used. */
  lemma HarmlessCodeIsCurrent(t: Table, k: nat)
    requires Inv(t) && CodesOk(t.h) && Enabled(t, Commit(k)) && Used(t.open[k]).Some? && Harmless(t.h, t.open[k])
    ensures var x := Used(t.open[k]).value; x in t.h.current && x !in t.h.retired && x !in t.h.accepted
  {
    var x := Used(t.open[k]).value;
    assert x in Elements(StoredIn(t.open[k].loaded));
    assert x in Elements(t.h.current) && x !in Elements(t.h.accepted[t.h.since..]);
    ElementsSplit(t.h.accepted, t.h.since);
    assert x !in Elements(t.h.accepted);
  }

  /** While the promise holds, a login on the row as it stands is accepted exactly when MFA is on and the code is
      TOTP's, or one of the generation in force that was not accepted before. */
  lemma FreshLoginIff(t: Table, o: Oracle, code: string)
    requires Inv(t) && CodesOk(t.h)
    ensures var x := o.hash(o.upper(o.upper(Strip(code))));
            CanCommit(t.h.row, Txn(o, Login(code), t.h.row)) <==>
            IsOn(t.h.row) && t.h.row.value.secret.Some? &&
            (o.totp(t.h.row.value.secret.value, code) || (x in t.h.current && x !in t.h.accepted))
  {
    LoginOutcome(t.h.row, o, code);
    var x := o.hash(o.upper(o.upper(Strip(code))));
    ElementsSplit(t.h.accepted, t.h.since);
    if IsOn(t.h.row) {
      assert x in Elements(StoredIn(t.h.row)) <==> x in Elements(t.h.current) && x !in Elements(t.h.accepted);
    }
  }

  lemma {:induction false} ElementsCount(s: seq<int>)
    requires Distinct(s)
    ensures |Elements(s)| == |s|
  {
    if s != [] {
      ElementsCount(s[1..]);
      assert Elements(s) == {s[0]} + Elements(s[1..]) && s[0] !in Elements(s[1..]);
    }
  }

  /** While MFA is on, ten minus the codes accepted in this generation are stored. */
  lemma StoredCount(t: Table)
    requires Inv(t) && CodesOk(t.h) && IsOn(t.h.row)
    ensures |StoredIn(t.h.row)| == RECOVERY_CODE_COUNT - (|t.h.accepted| - t.h.since)
  {
    var later := t.h.accepted[t.h.since..];
    ElementsCount(t.h.current);
    ElementsCount(later);
    ElementsCount(StoredIn(t.h.row));
    assert Elements(t.h.current) == Elements(StoredIn(t.h.row)) + Elements(later);
  }

  // ----- calls that do not overlap ------------------------------------------------------------------------

  ghost predicate NoneHolds(t: Table) {
    forall k :: k in t.open ==> t.open[k].Verified?
  }

  /** A session loads the row only while no other has it. */
  ghost predicate NoOverlap(t: Table, steps: seq<Step>)
    requires IsRun(t, steps)
    decreases |steps|
  {
    steps == [] ||
    ((steps[0].Begin? || steps[0].Clear? ==> NoneHolds(t)) && NoOverlap(Next(t, steps[0]), steps[1..]))
  }

  ghost predicate Serial(t: Table) {
    && (forall k :: k in t.open && !t.open[k].Verified? ==> t.open[k].loaded == t.h.row)
    && (forall j, k :: j in t.open && k in t.open && !t.open[j].Verified? && !t.open[k].Verified? ==> j == k)
  }

  lemma {:induction false} RunKeepsCodesWithoutOverlap(t: Table, steps: seq<Step>)
    requires Inv(t) && CodesOk(t.h) && Serial(t) && IsRun(t, steps) && NoOverlap(t, steps)
    ensures AlwaysOk(t, steps)
    decreases |steps|
  {
    if steps != [] {
      StepKeepsInv(t, steps[0]);
      if steps[0].Commit? {
        CommitKeepsCodesIff(t, steps[0].k);
      }
      RunKeepsCodesWithoutOverlap(Next(t, steps[0]), steps[1..]);
    }
  }

  /** A commit on the row as it was loaded records what the call run as one step records. */
  lemma FreshCommitIsCall(h: History, o: Oracle, op: Op)
    requires !op.Disable?
    ensures var t := Txn(o, op, h.row);
            if CanCommit(h.row, t) then Committed(h, t) == Record(h, Call(o, op)) else Record(h, Call(o, op)) == h
  {
  }

  lemma FreshDisableIsCall(h: History, o: Oracle, code: string)
    ensures var t := Txn(o, Op.Disable(code), h.row);
            if CanCommit(h.row, t) then
              var h1 := Committed(h, t);
              CanCommit(h1.row, Clearing(h1.row)) &&
              Committed(h1, Clearing(h1.row)) == Record(h, Call(o, Op.Disable(code)))
            else Record(h, Call(o, Op.Disable(code))) == h
  {
  }

  // ----- runs that break the promise ----------------------------------------------------------------------

  /** The first call loads the row, the second one loads and commits, the first commits. */
  function Crossed(o: Oracle, op: Op, o1: Oracle, op1: Op): seq<Step> {
    [Begin(0, o, op), Begin(1, o1, op1), Commit(1), Commit(0)]
  }

  lemma {:induction false} CrossedRun(h: History, o: Oracle, op: Op, o1: Oracle, op1: Op)
    requires CanCommit(h.row, Txn(o1, op1, h.row)) && !op1.Disable? && !op.Disable?
    requires op1.Enrol? || op1.Regenerate? ==> Fresh(h, Digests(o1, Issued(op1)))
    requires var h1 := Committed(h, Txn(o1, op1, h.row));
             CanCommit(h1.row, Txn(o, op, h.row)) &&
             (op.Enrol? || op.Regenerate? ==> Fresh(h1, Digests(o, Issued(op))))
    ensures IsRun(Table(h, map[]), Crossed(o, op, o1, op1))
    ensures Final(Table(h, map[]), Crossed(o, op, o1, op1)).h ==
            Committed(Committed(h, Txn(o1, op1, h.row)), Txn(o, op, h.row))
  {
    var t := Table(h, map[]);
    var t1 := Next(t, Begin(0, o, op));
    var t2 := Next(t1, Begin(1, o1, op1));
    var t3 := Next(t2, Commit(1));
    OneMore(t3, Commit(0), []);
    OneMore(t2, Commit(1), [Commit(0)]);
    OneMore(t1, Begin(1, o1, op1), [Commit(1), Commit(0)]);
    OneMore(t, Begin(0, o, op), [Begin(1, o1, op1), Commit(1), Commit(0)]);
  }

  lemma {:induction false} OneMore(t: Table, s: Step, rest: seq<Step>)
    requires Enabled(t, s) && IsRun(Next(t, s), rest)
    ensures IsRun(t, [s] + rest) && Final(t, [s] + rest) == Final(Next(t, s), rest)
  {
    assert ([s] + rest)[1..] == rest;
  }

  /** A login by an old code that overlaps a regeneration brings the old generation back: another of its codes
      is accepted afterwards. */
  lemma RetiredCodeReturns(h: History, o: Oracle, first: string, second: string, o1: Oracle, code: string,
                           codes: seq<string>)
    requires Inv(Table(h, map[])) && CodesOk(h) && h.row.Some? && Candidate(o, first) != Candidate(o, second)
    requires ByRecovery(h.row.value, o, first) && ByRecovery(h.row.value, o, second)
    requires ByTotp(h.row.value, o1, code) && Fresh(h, Digests(o1, codes))
    ensures var t, steps := Table(h, map[]), Crossed(o, Login(first), o1, Regenerate(code, codes));
            && IsRun(t, steps)
            && (var after := Final(t, steps).h;
                UsedRecovery(after.row, o, Login(second)) == Some(Candidate(o, second)) &&
                Candidate(o, second) in after.retired)
  {
    CrossedRun(h, o, Login(first), o1, Regenerate(code, codes));
    StaleListWins(h, o, first, second);
  }

  lemma StaleListWins(h: History, o: Oracle, first: string, second: string)
    requires Inv(Table(h, map[])) && h.row.Some? && Candidate(o, first) != Candidate(o, second)
    requires ByRecovery(h.row.value, o, first) && ByRecovery(h.row.value, o, second)
    ensures Candidate(o, second) in Removed(StoredIn(h.row), Candidate(o, first))
    ensures Removed(StoredIn(h.row), Candidate(o, first)) != StoredIn(h.row)
    ensures Candidate(o, second) in h.issued
  {
    RemovedAt(StoredIn(h.row), Candidate(o, first));
    assert Candidate(o, second) in Elements(StoredIn(h.row));
    assert Candidate(o, second) in Elements(Removed(StoredIn(h.row), Candidate(o, first)));
  }

  /** Two overlapping logins by different codes undo one of the removals: the code used first is accepted
      again afterwards. */
  lemma UsedCodeReturns(h: History, o: Oracle, first: string, second: string)
    requires Inv(Table(h, map[])) && CodesOk(h) && h.row.Some? && Candidate(o, first) != Candidate(o, second)
    requires ByRecovery(h.row.value, o, first) && ByRecovery(h.row.value, o, second)
    ensures var t, steps := Table(h, map[]), Crossed(o, Login(second), o, Login(first));
            && IsRun(t, steps)
            && (var after := Final(t, steps).h;
                UsedRecovery(after.row, o, Login(first)) == Some(Candidate(o, first)) &&
                Candidate(o, first) in after.accepted)
  {
    CrossedRun(h, o, Login(second), o, Login(first));
    StaleListWins(h, o, second, first);
    StaleListWins(h, o, first, second);
  }

  /** Two overlapping logins by one code are both accepted. */
  lemma CodeAcceptedTwice(h: History, o: Oracle, code: string)
    requires Inv(Table(h, map[])) && CodesOk(h) && h.row.Some? && ByRecovery(h.row.value, o, code)
    ensures var t, steps := Table(h, map[]), Crossed(o, Login(code), o, Login(code));
            IsRun(t, steps) && Final(t, steps).h.accepted == h.accepted + [Candidate(o, code), Candidate(o, code)]
  {
    CrossedRun(h, o, Login(code), o, Login(code));
  }

  /** A regeneration that overlaps the start of a new enrolment leaves digests in a row that is off. */
  lemma DigestsWhileOff(h: History, o: Oracle, code: string, codes: seq<string>, secret: string)
    requires Inv(Table(h, map[])) && CodesOk(h) && h.row.Some? && h.row.value.enabled
    requires ByTotp(h.row.value, o, code) && Fresh(h, Digests(o, codes))
    ensures var t, steps := Table(h, map[]), Crossed(o, Regenerate(code, codes), o, Start(secret));
            && IsRun(t, steps)
            && (var after := Final(t, steps).h;
                CodesOk(after) && after.row == Some(Row(false, Some(secret), Some(Digests(o, codes)))))
  {
    CrossedRun(h, o, Regenerate(code, codes), o, Start(secret));
    var digests := Digests(o, codes);
    assert digests[0] in Elements(digests) && digests[0] !in Elements(StoredIn(h.row));
    assert h.accepted[|h.accepted|..] == [];
  }

  /** On such a row, an enrolment started and another one finished meanwhile leave MFA on without any recovery
      code. */
  lemma CodesCleared(h: History, o: Oracle, secret: string, code: string, codes: seq<string>)
    requires Inv(Table(h, map[])) && CodesOk(h) && h.row.Some? && !h.row.value.enabled && h.row.value.recovery.Some?
    requires ByTotp(h.row.value, o, code) && Fresh(h, Digests(o, codes))
    ensures var t, steps := Table(h, map[]), Crossed(o, Start(secret), o, Enrol(code, codes));
            && IsRun(t, steps)
            && (var after := Final(t, steps).h;
                IsOn(after.row) && StoredIn(after.row) == [] && after.current == Digests(o, codes))
  {
    CrossedRun(h, o, Start(secret), o, Enrol(code, codes));
    IssuedIsWritten(Table(h, map[0 := Txn(o, Enrol(code, codes), h.row)]), 0);
  }
}
