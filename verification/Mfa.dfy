/** The operator's second factor (app/services/mfa.py): one row, ten single-use recovery codes per
    generation, stored as digests. */
module Mfa {
  import opened Common

  const RECOVERY_CODE_COUNT := 10

  /** The admin_mfa row: the TOTP secret in force and the stored digests. */
  datatype Row = Row(enabled: bool, secret: Option<string>, recovery: Option<seq<int>>)

  /** Upper-casing, the digest, and the TOTP check at the time of the call, as oracles. */
  datatype Oracle = Oracle(upper: string -> string, hash: string -> int, totp: (string, string) -> bool)

  /** Digests tell normalised codes apart. */
  ghost predicate Injective(o: Oracle) {
    && (forall a, b :: o.hash(a) == o.hash(b) ==> a == b)
    && (forall a :: o.upper(o.upper(a)) == o.upper(a))
  }

  /** The digest `verify_login` looks up for what the user typed. */
  function Candidate(o: Oracle, code: string): int {
    o.hash(o.upper(o.upper(Strip(code))))
  }

  function Digests(o: Oracle, codes: seq<string>): seq<int> {
    seq(|codes|, i requires 0 <= i < |codes| => o.hash(o.upper(codes[i])))
  }

  /** `list.remove`: drops the first occurrence. */
  function Removed(s: seq<int>, x: int): seq<int> {
    if s == [] then [] else if s[0] == x then s[1..] else [s[0]] + Removed(s[1..], x)
  }

  class AdminMfa {
    var row: Option<Row>

    constructor ()
      ensures row == None
    {
      row := None;
    }

    method StartEnrol(secret: string)
      modifies this
      ensures row == Some(Row(false, Some(secret), None))
    {
      if row.None? {
        row := Some(Row(false, Some(secret), None));
      } else {
        row := Some(row.value.(enabled := false));
        row := Some(row.value.(secret := Some(secret)));
        row := Some(row.value.(recovery := None));
      }
    }

    method VerifyEnrol(o: Oracle, code: string, codes: seq<string>) returns (ok: bool)
      modifies this
      ensures row == Next(old(row), o, Enrol(code, codes)).0
      ensures ok == Next(old(row), o, Enrol(code, codes)).1
    {
      if row.None? || row.value.secret.None? || row.value.enabled {
        return false;
      }
      if !o.totp(row.value.secret.value, code) {
        return false;
      }
      row := Some(row.value.(enabled := true));
      row := Some(row.value.(recovery := Some(Digests(o, codes))));
      return true;
    }

    method VerifyLogin(o: Oracle, code: string) returns (ok: bool)
      modifies this
      ensures row == Next(old(row), o, Login(code)).0
      ensures ok == Next(old(row), o, Login(code)).1 && (ok <==> Proves(old(row), o, code))
    {
      if row.None? || !row.value.enabled || row.value.secret.None? {
        return false;
      }
      if o.totp(row.value.secret.value, code) {
        return true;
      }
      var stored := if row.value.recovery.Some? then row.value.recovery.value else [];
      var candidate := Candidate(o, code);
      if candidate !in stored {
        return false;
      }
      stored := Removed(stored, candidate);
      row := Some(row.value.(recovery := Some(stored)));
      return true;
    }

    /** `disable`; `crash` ends the process between its two commits. */
    method Disable(o: Oracle, code: string, crash: bool) returns (ok: bool)
      modifies this
      ensures row == (if crash then Next(old(row), o, Login(code)).0 else Next(old(row), o, Op.Disable(code)).0)
      ensures ok <==> !crash && Next(old(row), o, Op.Disable(code)).1
      ensures ok <==> !crash && Proves(old(row), o, code)
    {
      var verified := VerifyLogin(o, code);
      if !verified || crash {
        return false;
      }
      if row.None? {
        return false;
      }
      row := Some(row.value.(enabled := false));
      row := Some(row.value.(secret := None));
      row := Some(row.value.(recovery := None));
      return true;
    }

    method RegenRecovery(o: Oracle, code: string, codes: seq<string>) returns (ok: bool)
      modifies this
      ensures row == Next(old(row), o, Regenerate(code, codes)).0
      ensures ok == Next(old(row), o, Regenerate(code, codes)).1
    {
      if row.None? || !row.value.enabled || row.value.secret.None? {
        return false;
      }
      if !o.totp(row.value.secret.value, code) {
        return false;
      }
      row := Some(row.value.(recovery := Some(Digests(o, codes))));
      return true;
    }
  }

  // ----- runs ---------------------------------------------------------------------------------------

  datatype Op =
    | Start(secret: string)
    | Enrol(code: string, codes: seq<string>)
    | Login(code: string)
    | Disable(code: string)
    | Regenerate(code: string, codes: seq<string>)

  predicate ByTotp(row: Row, o: Oracle, code: string) {
    row.secret.Some? && o.totp(row.secret.value, code)
  }

  predicate ByRecovery(row: Row, o: Oracle, code: string) {
    row.enabled && row.secret.Some? && !ByTotp(row, o, code) && row.recovery.Some? &&
        Candidate(o, code) in row.recovery.value
  }

  /** `verify_login`: TOTP first, then a recovery code, which is used up. */
  function LoggedIn(r: Option<Row>, o: Oracle, code: string): (Option<Row>, bool) {
    if r.None? || !r.value.enabled then (r, false)
    else if ByTotp(r.value, o, code) then (r, true)
    else if ByRecovery(r.value, o, code) then
      (Some(r.value.(recovery := Some(Removed(r.value.recovery.value, Candidate(o, code))))), true)
    else (r, false)
  }

  /** The row after a call and whether the call succeeded. */
  function Next(r: Option<Row>, o: Oracle, op: Op): (Option<Row>, bool) {
    match op
    case Start(secret) => (Some(Row(false, Some(secret), None)), true)
    case Enrol(code, codes) =>
      if r.Some? && !r.value.enabled && ByTotp(r.value, o, code) then
        (Some(r.value.(enabled := true, recovery := Some(Digests(o, codes)))), true)
      else (r, false)
    case Login(code) => LoggedIn(r, o, code)
    case Disable(code) => if LoggedIn(r, o, code).1 then (Some(Row(false, None, None)), true) else (r, false)
    case Regenerate(code, codes) =>
      if r.Some? && r.value.enabled &&
          ByTotp(r.value, o, code) then (Some(r.value.(recovery := Some(Digests(o, codes)))), true)
      else (r, false)
  }

  /** One call with the oracle of its moment (TOTP depends on time). */
  datatype Call = Call(o: Oracle, op: Op)

  /** Everything a run has seen: digests ever issued, those no longer in force, those of the generation in
      force (none while MFA is off), and digests accepted as recovery codes, in order; `since` of them before
      this generation. */
  datatype History = History(row: Option<Row>, issued: set<int>, retired: set<int>, current: seq<int>,
                             accepted: seq<int>, since: nat)

  const START := History(None, {}, {}, [], [], 0)

  function Issued(op: Op): seq<string> {
    match op
    case Enrol(_, codes) => codes
    case Regenerate(_, codes) => codes
    case _ => []
  }

  function Elements(s: seq<int>): set<int> {
    set x | x in s
  }

  /** The digest of the recovery code that a call meeting this row accepts, if it accepts one. */
  function UsedRecovery(row: Option<Row>, o: Oracle, op: Op): Option<int> {
    if row.None? then None
    else match op
      case Login(code) => if ByRecovery(row.value, o, code) then Some(Candidate(o, code)) else None
      case Disable(code) => if ByRecovery(row.value, o, code) then Some(Candidate(o, code)) else None
      case _ => None
  }

  function Accepting(h: History, used: Option<int>): History {
    if used.Some? then h.(accepted := h.accepted + [used.value]) else h
  }

  /** The history once the row is written, `digests` being those just issued: a row that is off has no
      generation in force, new digests start one. */
  function Entered(h: History, row: Row, digests: seq<int>): History {
    var issued := h.issued + Elements(digests);
    if !row.enabled then History(Some(row), issued, issued, [], h.accepted, |h.accepted|)
    else if digests != [] then History(Some(row), issued, h.issued, digests, h.accepted, |h.accepted|)
    else h.(row := Some(row))
  }

  function Record(h: History, c: Call): History {
    var (row, ok) := Next(h.row, c.o, c.op);
    if !ok || row.None? then h
    else Entered(Accepting(h, UsedRecovery(h.row, c.o, c.op)), row.value, Digests(c.o, Issued(c.op)))
  }

  /** New recovery codes are ten distinct ones never issued before. */
  ghost predicate FreshCodes(h: History, c: Call) {
    c.op.Enrol? || c.op.Regenerate? ==>
      var digests := Digests(c.o, Issued(c.op));
      && |digests| == RECOVERY_CODE_COUNT
      && (forall i, j :: 0 <= i < j < |digests| ==> digests[i] != digests[j])
      && Elements(digests) !! h.issued
  }

  ghost predicate IsRun(h: History, cs: seq<Call>)
    decreases |cs|
  {
    cs == [] || (FreshCodes(h, cs[0]) && IsRun(Record(h, cs[0]), cs[1..]))
  }

  function Final(h: History, cs: seq<Call>): History
    decreases |cs|
  {
    if cs == [] then h else Final(Record(h, cs[0]), cs[1..])
  }

  function Stored(h: History): seq<int> {
    if h.row.Some? && h.row.value.recovery.Some? then h.row.value.recovery.value else []
  }

  ghost predicate Distinct(s: seq<int>) {
    forall i, j :: 0 <= i < j < |s| ==> s[i] != s[j]
  }

  ghost predicate Inv(h: History) {
    // enabled means recovery codes are stored
    && (h.row.Some? ==> (h.row.value.enabled <==> h.row.value.recovery.Some?))
    && (h.row.Some? && h.row.value.enabled ==> h.row.value.secret.Some?)
    // no digest accepted twice, accepted and stored codes are issued and disjoint
    && Distinct(h.accepted) && Distinct(Stored(h)) && Distinct(h.current)
    && Elements(h.accepted) <= h.issued && Elements(Stored(h)) <= Elements(h.current) <= h.issued
    && Elements(h.accepted) !! Elements(Stored(h))
    && h.retired <= h.issued && h.retired !! Elements(h.current)
    // the current generation: ten codes, of which those accepted since it began are gone
    && h.since <= |h.accepted|
    && (h.row.Some? && h.row.value.enabled ==> |Stored(h)| + (|h.accepted| - h.since) == RECOVERY_CODE_COUNT)
    && (forall i :: 0 <= i < h.since ==> h.accepted[i] !in h.current)
    && (if IsOn(h.row) then Elements(Stored(h)) == Elements(h.current) - Elements(h.accepted) else h.current == [])
  }

  predicate IsOn(row: Option<Row>) {
    row.Some? && row.value.enabled
  }

  lemma {:induction false} RemovedAt(s: seq<int>, x: int)
    requires Distinct(s) && x in s
    ensures Distinct(Removed(s, x)) && Elements(Removed(s, x)) == Elements(s) - {x} && |Removed(s, x)| == |s| - 1
    decreases |s|
  {
    if s[0] == x {
      assert Elements(s) == {x} + Elements(s[1..]);
    } else {
      RemovedAt(s[1..], x);
      assert x in s[1..];
      var rest := Removed(s[1..], x);
      forall i | 0 <= i < |rest| ensures rest[i] != s[0] {
        assert rest[i] in Elements(rest);
      }
      assert Elements([s[0]] + rest) == {s[0]} + Elements(rest);
      assert Elements(s) == {s[0]} + Elements(s[1..]);
    }
  }

  lemma LoginKeepsInv(h: History, c: Call, code: string)
    requires Inv(h) && (c.op == Login(code) || c.op == Op.Disable(code)) && UsedRecovery(h.row, c.o, c.op).Some?
    ensures Inv(Record(h, c))
  {
    var x := Candidate(c.o, code);
    RemovedAt(Stored(h), x);
    var h' := Record(h, c);
    assert x in Elements(Stored(h));
    assert Elements(h.accepted + [x]) == Elements(h.accepted) + {x};
    forall i | 0 <= i < |h.accepted| ensures h.accepted[i] != x {
      assert h.accepted[i] in Elements(h.accepted);
    }
  }

  lemma StepKeepsInv(h: History, c: Call)
    requires Inv(h) && FreshCodes(h, c)
    ensures Inv(Record(h, c))
  {
    match c.op
    case Login(code) => if UsedRecovery(h.row, c.o, c.op).Some? { LoginKeepsInv(h, c, code); }
    case Disable(code) => if UsedRecovery(h.row, c.o, c.op).Some? { LoginKeepsInv(h, c, code); }
    case Start(_) =>
    case Enrol(_, codes) => NewGeneration(h, c);
    case Regenerate(_, codes) => NewGeneration(h, c);
  }

  lemma NewGeneration(h: History, c: Call)
    requires Inv(h) && FreshCodes(h, c) && (c.op.Enrol? || c.op.Regenerate?)
    ensures Inv(Record(h, c))
  {
    var digests := Digests(c.o, Issued(c.op));
    forall i | 0 <= i < |h.accepted| ensures h.accepted[i] !in digests {
      assert h.accepted[i] in Elements(h.accepted);
      assert h.accepted[i] !in Elements(digests);
    }
  }

  lemma {:induction false} RunKeepsInv(h: History, cs: seq<Call>)
    requires Inv(h) && IsRun(h, cs)
    ensures Inv(Final(h, cs))
    decreases |cs|
  {
    if cs != [] {
      StepKeepsInv(h, cs[0]);
      RunKeepsInv(Record(h, cs[0]), cs[1..]);
    }
  }

  /** Over every run of calls one after another: no recovery code is accepted twice; while MFA is enabled exactly
      ten minus the codes accepted in the current generation are stored; enabled holds exactly when codes are
      stored. */
  lemma {:induction false} RecoveryCodesAreSingleUse(cs: seq<Call>)
    requires IsRun(START, cs)
    ensures var h := Final(START, cs);
            && (forall i, j :: 0 <= i < j < |h.accepted| ==> h.accepted[i] != h.accepted[j])
            && (h.row.Some? ==> (h.row.value.enabled <==> h.row.value.recovery.Some?))
            && (h.row.Some? && h.row.value.enabled ==>
                  |Stored(h)| == RECOVERY_CODE_COUNT - (|h.accepted| - h.since))
  {
    RunKeepsInv(START, cs);
  }

  /** A recovery code accepted after any such run belongs to the current generation, to no earlier one, and was
      not used before. */
  lemma {:induction false} AcceptedCodeIsCurrent(cs: seq<Call>, c: Call)
    requires IsRun(START, cs) && UsedRecovery(Final(START, cs).row, c.o, c.op).Some?
    ensures var h := Final(START, cs); var x := UsedRecovery(h.row, c.o, c.op).value;
            x in h.current && x !in h.retired && x !in h.accepted
  {
    RunKeepsInv(START, cs);
    var h := Final(START, cs);
    var x := UsedRecovery(h.row, c.o, c.op).value;
    assert x in Elements(Stored(h)) && x in Elements(h.current) && x !in Elements(h.accepted);
  }

  // ----- who gets in ---------------------------------------------------------------------------------

  /** What a login or a disable asks for: MFA on with a secret, and a code that TOTP takes, or whose text, trimmed
      and upper-cased, has a stored digest. */
  predicate Proves(row: Option<Row>, o: Oracle, code: string) {
    && row.Some? && row.value.enabled && row.value.secret.Some?
    && (o.totp(row.value.secret.value, code) ||
        (row.value.recovery.Some? && o.hash(o.upper(o.upper(Strip(code)))) in row.value.recovery.value))
  }

  lemma {:induction false} RemovedOne(s: seq<int>, x: int)
    requires x in s
    ensures multiset(Removed(s, x)) == multiset(s) - multiset{x}
    decreases |s|
  {
    assert s == [s[0]] + s[1..];
    if s[0] != x {
      RemovedOne(s[1..], x);
    }
  }

  /** A login succeeds exactly on such a code. One that TOTP takes changes nothing, any other one takes exactly its
      own digest out, and a refused one changes nothing. */
  lemma LoginOutcome(row: Option<Row>, o: Oracle, code: string)
    ensures var (after, ok) := Next(row, o, Login(code));
            && (ok <==> Proves(row, o, code))
            && (if !ok || o.totp(row.value.secret.value, code) then after == row
                else after.Some? && after.value.recovery.Some? &&
                     after.value == row.value.(recovery := after.value.recovery) &&
                     multiset(after.value.recovery.value) ==
                     multiset(row.value.recovery.value) - multiset{o.hash(o.upper(o.upper(Strip(code))))})
  {
    if row.Some? && ByRecovery(row.value, o, code) {
      RemovedOne(row.value.recovery.value, Candidate(o, code));
    }
  }

  /** A disable succeeds exactly when a login would, and leaves no trace of the second factor. */
  lemma DisableOutcome(row: Option<Row>, o: Oracle, code: string)
    ensures var (after, ok) := Next(row, o, Op.Disable(code));
            && (ok <==> Proves(row, o, code))
            && after == if ok then Some(Row(false, None, None)) else row
  {
  }

  /** Codes are issued only against TOTP: to finish an enrolment that is pending, or to replace the codes of one
      that is on. The digests stored are those of the codes handed out. */
  lemma IssueOutcome(row: Option<Row>, o: Oracle, code: string, codes: seq<string>)
    ensures var (after, ok) := Next(row, o, Enrol(code, codes));
            && (ok <==> row.Some? && !row.value.enabled && row.value.secret.Some? &&
                        o.totp(row.value.secret.value, code))
            && (if ok then after.Some? && after.value == row.value.(enabled := true, recovery := after.value.recovery)
                else after == row)
            && (ok ==> StoresExactly(after.value.recovery, o, codes))
    ensures var (after, ok) := Next(row, o, Regenerate(code, codes));
            && (ok <==> row.Some? && row.value.enabled && row.value.secret.Some? &&
                        o.totp(row.value.secret.value, code))
            && (if ok then after.Some? && after.value == row.value.(recovery := after.value.recovery) else after == row)
            && (ok ==> StoresExactly(after.value.recovery, o, codes))
  {
  }

  predicate StoresExactly(stored: Option<seq<int>>, o: Oracle, codes: seq<string>) {
    && stored.Some? && |stored.value| == |codes|
    && forall i :: 0 <= i < |codes| ==> stored.value[i] == o.hash(o.upper(codes[i]))
  }

  /** After any run of calls one after another, a login or a disable succeeds exactly when MFA is on and the code is
      TOTP's, or one of the generation in force that was not accepted before. */
  lemma {:induction false} LoginAfterRunIff(cs: seq<Call>, o: Oracle, code: string)
    requires IsRun(START, cs)
    ensures var h := Final(START, cs);
            var x := o.hash(o.upper(o.upper(Strip(code))));
            var genuine := IsOn(h.row) && h.row.value.secret.Some? &&
                           (o.totp(h.row.value.secret.value, code) || (x in h.current && x !in h.accepted));
            && (Next(h.row, o, Login(code)).1 <==> genuine)
            && (Next(h.row, o, Op.Disable(code)).1 <==> genuine)
  {
    RunKeepsInv(START, cs);
    var h := Final(START, cs);
    LoginOutcome(h.row, o, code);
    DisableOutcome(h.row, o, code);
    var x := o.hash(o.upper(o.upper(Strip(code))));
    if IsOn(h.row) {
      assert x in Elements(Stored(h)) <==> x in Elements(h.current) && x !in Elements(h.accepted);
    }
  }

  /** Two typed codes count as the same recovery code only when they normalise to the same text. */
  lemma CandidatesTellCodesApart(o: Oracle, typed: string, code: string)
    requires Injective(o)
    ensures Candidate(o, typed) == o.hash(o.upper(code)) <==> o.upper(Strip(typed)) == o.upper(code)
  {
  }
}
