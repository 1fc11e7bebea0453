/** Concurrent, duplicated and aborted deliveries of Stripe events (app/stripe_webhook.py). Each
    delivery claims its event id, later runs its handler on what it reads, later commits; steps of
    different deliveries interleave freely. */
module StripeConcurrency {
  import opened Common
  import opened Stripe

  /** An open delivery: claimed, then holding the writes of its handler and the tables it read. */
  datatype Txn = Claimed(o: Occurrence) | Ran(o: Occurrence, read: Db, writes: Writes)

  /** The committed tables, the open deliveries, and the occurrences committed so far in order. */
  datatype System = System(db: Db, open: map<nat, Txn>, log: seq<Occurrence>)

  datatype Step = Claim(k: nat, o: Occurrence) | Run(k: nat) | Commit(k: nat) | Abort(k: nat)

  /** A second insert of an open claim's id waits for that delivery to end, and a processed id is answered
      as a duplicate, so neither is a step. Commit needs the inserted rows to be still unique. */
  predicate Enabled(s: System, step: Step) {
    match step
    case Claim(k, o) => k !in s.open && o.eventId !in s.db.processed && forall j :: j in s.open ==>
        s.open[j].o.eventId != o.eventId
    case Run(k) => k in s.open && s.open[k].Claimed? && Handler(s.db, s.open[k].o).Some?
    case Commit(k) => k in s.open && s.open[k].Ran? && Insertable(s.db, s.open[k].writes)
    case Abort(k) => k in s.open
  }

  /** The unique columns of an inserted customer and the fresh row ids. */
  predicate Insertable(db: Db, w: Writes) {
    && (forall i :: 0 <= i < |w.customers| ==>
          !EmailTaken(db.customers, w.customers[i].email) &&
          (w.customers[i].stripeId.Some? ==> FindCustomer(db.customers, w.customers[i].stripeId.value).None?) &&
          forall j :: 0 <= j < |db.licenses| ==> db.licenses[j].customer != w.customers[i].id)
    && (forall i, j :: 0 <= i < |w.licenses| && 0 <= j < |db.licenses| ==> db.licenses[j].id != w.licenses[i].id)
  }

  function Committed(db: Db, t: Txn): Db
    requires t.Ran?
  {
    Apply(db, t.writes).(processed := db.processed + {t.o.eventId})
  }

  function Next(s: System, step: Step): System
    requires Enabled(s, step)
  {
    match step
    case Claim(k, o) => s.(open := s.open[k := Claimed(o)])
    case Run(k) =>
      var o := s.open[k].o;
      s.(open := s.open[k := Ran(o, s.db, Handler(s.db, o).value)])
    case Commit(k) =>
      System(Committed(s.db, s.open[k]), s.open - {k}, s.log + [s.open[k].o])
    case Abort(k) => s.(open := s.open - {k})
  }

  predicate IsRun(s: System, steps: seq<Step>)
    decreases |steps|
  {
    steps == [] || (Enabled(s, steps[0]) && IsRun(Next(s, steps[0]), steps[1..]))
  }

  function Final(s: System, steps: seq<Step>): System
    requires IsRun(s, steps)
    decreases |steps|
  {
    if steps == [] then s else Final(Next(s, steps[0]), steps[1..])
  }

  // ----- at most one effect per id, over every interleaving -----------------------------------------

  ghost predicate ExactlyOnce(start: Db, s: System) {
    && (forall i, j :: 0 <= i < j < |s.log| ==> s.log[i].eventId != s.log[j].eventId)
    && s.db.processed == start.processed + EventIds(s.log)
    && (forall o :: o in s.log ==> o.eventId !in start.processed)
    && (forall k :: k in s.open ==> s.open[k].o.eventId !in s.db.processed)
    && (forall j, k :: j in s.open && k in s.open && s.open[j].o.eventId == s.open[k].o.eventId ==> j == k)
  }

  lemma StepIsExactlyOnce(start: Db, s: System, step: Step)
    requires ExactlyOnce(start, s) && Enabled(s, step)
    ensures ExactlyOnce(start, Next(s, step))
  {
    if step.Commit? {
      assert EventIds(Next(s, step).log) == EventIds(s.log) + {s.open[step.k].o.eventId};
    }
  }

  lemma {:induction false} RunIsExactlyOnce(start: Db, s: System, steps: seq<Step>)
    requires ExactlyOnce(start, s) && IsRun(s, steps)
    ensures ExactlyOnce(start, Final(s, steps))
    decreases |steps|
  {
    if steps != [] {
      StepIsExactlyOnce(start, s, steps[0]);
      RunIsExactlyOnce(start, Next(s, steps[0]), steps[1..]);
    }
  }

  /** However deliveries interleave, repeat or abort, an event id is processed exactly when one of its
      occurrences committed, and never two. */
  lemma {:induction false} ProcessedIffCommitted(start: Db, steps: seq<Step>, id: nat)
    requires IsRun(System(start, map[], []), steps) && id !in start.processed
    ensures var s := Final(System(start, map[], []), steps);
            && (id in s.db.processed <==> exists i :: 0 <= i < |s.log| && s.log[i].eventId == id)
            && (forall i, j :: 0 <= i < j < |s.log| ==> s.log[i].eventId != s.log[j].eventId)
  {
    RunIsExactlyOnce(start, System(start, map[], []), steps);
    var s := Final(System(start, map[], []), steps);
    if id in s.db.processed {
      var o :| o in s.log && o.eventId == id;
    }
  }

  // ----- when the final table is that of the committed occurrences one after the other ----------------

  /** This commit leaves what running its occurrence alone on the current tables would leave. */
  predicate CommitIsSerial(s: System, k: nat)
    requires Enabled(s, Commit(k))
  {
    Committed(s.db, s.open[k]) == Process(s.db, s.open[k].o)
  }

  predicate AllCommitsSerial(s: System, steps: seq<Step>)
    requires IsRun(s, steps)
    decreases |steps|
  {
    steps == [] || ((steps[0].Commit? ==> CommitIsSerial(s, steps[0].k)) &&
        AllCommitsSerial(Next(s, steps[0]), steps[1..]))
  }

  lemma {:induction false} SerialCommitsRefine(start: Db, s: System, steps: seq<Step>)
    requires IsRun(s, steps) && AllCommitsSerial(s, steps) && s.db == ProcessAll(start, s.log)
    ensures Final(s, steps).db == ProcessAll(start, Final(s, steps).log)
    decreases |steps|
  {
    if steps != [] {
      var s' := Next(s, steps[0]);
      if steps[0].Commit? {
        assert s'.log[..|s'.log| - 1] == s.log;
      }
      SerialCommitsRefine(start, s', steps[1..]);
    }
  }

  /** One writer at a time: the claim takes the database's write lock until its delivery ends. */
  predicate OneWriter(s: System, steps: seq<Step>)
    requires IsRun(s, steps)
    decreases |steps|
  {
    steps == [] || ((steps[0].Claim? ==> s.open == map[]) && OneWriter(Next(s, steps[0]), steps[1..]))
  }

  ghost predicate Alone(s: System) {
    && (forall j, k :: j in s.open && k in s.open ==> j == k)
    && (forall k :: k in s.open ==> s.open[k].o.eventId !in s.db.processed)
    && (forall k :: k in s.open && s.open[k].Ran? ==>
          s.open[k].read == s.db && Handler(s.db, s.open[k].o) == Some(s.open[k].writes))
  }

  lemma {:induction false} OneWriterIsSerial(s: System, steps: seq<Step>)
    requires IsRun(s, steps) && OneWriter(s, steps) && Alone(s)
    ensures AllCommitsSerial(s, steps)
    decreases |steps|
  {
    if steps != [] {
      OneWriterIsSerial(Next(s, steps[0]), steps[1..]);
    }
  }

  /** On a database with a single writer, every run refines its committed occurrences in commit order. */
  lemma {:induction false} OneWriterRefinesSerial(start: Db, steps: seq<Step>)
    requires IsRun(System(start, map[], []), steps) && OneWriter(System(start, map[], []), steps)
    ensures var s := Final(System(start, map[], []), steps); s.db == ProcessAll(start, s.log)
  {
    OneWriterIsSerial(System(start, map[], []), steps);
    SerialCommitsRefine(start, System(start, map[], []), steps);
  }

  // ----- when one commit is serial ------------------------------------------------------------------------

  predicate SameRow(a: PaidLicense, b: PaidLicense) {
    a.id == b.id && a.customer == b.customer && a.product == b.product && a.createdAt == b.createdAt
  }

  /** `read` is what the tables were before further commits made them `db`. */
  predicate Earlier(read: Db, db: Db) {
    && read.customers <= db.customers && |read.licenses| <= |db.licenses|
    && forall i :: 0 <= i < |read.licenses| ==> SameRow(read.licenses[i], db.licenses[i])
  }

  /** Open deliveries hold the writes of their handler on tables that only grew since. */
  ghost predicate Tracked(s: System) {
    && UniqueIds(s.db.licenses)
    && forall k :: k in s.open && s.open[k].Ran? ==>
         Earlier(s.open[k].read, s.db) && Handler(s.open[k].read, s.open[k].o) == Some(s.open[k].writes)
  }

  lemma CommitGrows(db: Db, w: Writes)
    requires UniqueIds(db.licenses) && Insertable(db, w) && |w.licenses| <= 1
    ensures Earlier(db, Apply(db, w)) && UniqueIds(Apply(db, w).licenses)
  {
    WrittenAllAt(db.licenses, w.changes);
  }

  lemma EarlierTransitive(a: Db, b: Db, c: Db)
    requires Earlier(a, b) && Earlier(b, c)
    ensures Earlier(a, c)
  {
  }

  lemma StepKeepsTracked(s: System, step: Step)
    requires Tracked(s) && Enabled(s, step)
    ensures Tracked(Next(s, step))
  {
    if step.Commit? {
      var t := s.open[step.k];
      CommitGrows(s.db, t.writes);
      forall k | k in Next(s, step).open && s.open[k].Ran? ensures Earlier(s.open[k].read, Next(s, step).db) {
        EarlierTransitive(s.open[k].read, s.db, Apply(s.db, t.writes));
      }
    }
  }

  lemma {:induction false} RunKeepsTracked(s: System, steps: seq<Step>)
    requires Tracked(s) && IsRun(s, steps)
    ensures Tracked(Final(s, steps))
    decreases |steps|
  {
    if steps != [] {
      StepKeepsTracked(s, steps[0]);
      RunKeepsTracked(Next(s, steps[0]), steps[1..]);
    }
  }

  /** The writes made on `read` have on `db` the effect of running the handler on `db`. */
  predicate SameEffect(db: Db, w: Writes, o: Occurrence) {
    Handler(db, o).Some? && Apply(db, w) == Apply(db, Handler(db, o).value)
  }

  /** The newest license stayed the newest, its date stayed as good as the clock, its status was not taken back. */
  predicate SameTarget(before: Option<PaidLicense>, current: Option<PaidLicense>, now: int) {
    if before.None? || current.None? then before == current
    else
      && before.value.id == current.value.id
      && Max(before.value.validUntil, now) == Max(current.value.validUntil, now)
      && (before.value.status == Active ==> current.value.status == Active)
  }

  /** Every license of the customer that lacks the status now lacked it, and existed, when it was read. */
  predicate SameMarks(read: seq<PaidLicense>, current: seq<PaidLicense>, customer: nat, product: nat, status: Status) {
    forall i :: 0 <= i < |current| && Owned(current[i], customer, product) && current[i].status != status ==>
      i < |read| && read[i].status != status
  }

  predicate UndisturbedMark(o: Occurrence, read: Db, db: Db, status: Status)
    requires o.customer.Some?
  {
    var a, b := FindCustomer(read.customers, o.customer.value), FindCustomer(db.customers, o.customer.value);
    b.None? || SameMarks(if a.None? then [] else read.licenses, db.licenses, b.value.id, o.product, status)
  }

  predicate UndisturbedPayment(o: Occurrence, read: Db, db: Db)
    requires o.customer.Some?
  {
    var a, b := FindCustomer(read.customers, o.customer.value), FindCustomer(db.customers, o.customer.value);
    if a.None? || b.None? then a == b
    else SameTarget(Newest(read.licenses, a.value.id, o.product), Newest(db.licenses, b.value.id, o.product), o.now)
  }

  /** Nothing the handler read has changed in a way that matters to it. */
  predicate Undisturbed(o: Occurrence, read: Db, db: Db) {
    o.customer.None? || match o.kind
      case InvoicePaid => UndisturbedPayment(o, read, db)
      case PaymentFailed => UndisturbedMark(o, read, db, Delinquent)
      case SubscriptionDeleted => UndisturbedMark(o, read, db, Revoked)
      case Other => true
  }

  lemma {:induction false} FoundStays(a: seq<Customer>, b: seq<Customer>, stripeId: nat)
    requires a <= b && FindCustomer(a, stripeId).Some?
    ensures FindCustomer(b, stripeId) == FindCustomer(a, stripeId)
    decreases |a|
  {
    if a[0].stripeId != Some(stripeId) {
      FoundStays(a[1..], b[1..], stripeId);
    }
  }

  lemma {:induction false} NobodysLicense(licenses: seq<PaidLicense>, customer: nat, product: nat)
    requires forall i :: 0 <= i < |licenses| ==> licenses[i].customer != customer
    ensures Newest(licenses, customer, product).None?
    decreases |licenses|
  {
    if licenses != [] {
      NobodysLicense(licenses[1..], customer, product);
    }
  }

  lemma {:induction false} NewestPersists(a: seq<PaidLicense>, b: seq<PaidLicense>, customer: nat, product: nat)
    requires |a| <= |b| && forall i :: 0 <= i < |a| ==> SameRow(a[i], b[i])
    requires Newest(a, customer, product).Some?
    ensures Newest(b, customer, product).Some?
  {
    NewestAt(a, customer, product);
    NewestAt(b, customer, product);
    var i :| 0 <= i < |a| && a[i] == Newest(a, customer, product).value;
    assert b[i] in b;
  }

  /** What a payment's writes leave at the row of license `l`. */
  lemma PaymentMovesTarget(licenses: seq<PaidLicense>, l: PaidLicense, now: int) returns (i: nat)
    requires UniqueIds(licenses) && l in licenses
    ensures var after := WrittenAll(licenses, ExtendChange(l, Extended(l.validUntil, now)));
            i < |licenses| && licenses[i] == l && |after| == |licenses| &&
            after[i] == l.(validUntil := Extended(l.validUntil, now), status := Active) && after[i] != l
  {
    ExtendChangeAt(licenses, l, Extended(l.validUntil, now));
    i :| 0 <= i < |licenses| && licenses[i] == l;
  }

  /** An extension computed on `before`, applied where the license now reads `current`. */
  lemma {:induction false} ExtensionSerialIff(licenses: seq<PaidLicense>, before: PaidLicense, current: PaidLicense,
                                              now: int)
    requires UniqueIds(licenses) && current in licenses && before.id == current.id
    ensures WrittenAll(licenses, ExtendChange(before, Extended(before.validUntil, now))) ==
            WrittenAll(licenses, ExtendChange(current, Extended(current.validUntil, now))) <==>
            SameTarget(Some(before), Some(current), now)
  {
    var mine, rerun := ExtendChange(before, Extended(before.validUntil, now)),
        ExtendChange(current, Extended(current.validUntil, now));
    WrittenAllAt(licenses, mine);
    WrittenAllAt(licenses, rerun);
    var i :| 0 <= i < |licenses| && licenses[i] == current;
    assert Written(current, mine) == Written(current, rerun) <==> SameTarget(Some(before), Some(current), now);
    if SameTarget(Some(before), Some(current), now) {
      assert forall j :: 0 <= j < |licenses| && j != i ==> licenses[j].id != current.id;
      assert WrittenAll(licenses, mine) == WrittenAll(licenses, rerun);
    }
  }

  /** A payment's writes for a customer found in both tables. */
  lemma {:induction false} PaymentSerialIff(read: seq<PaidLicense>, cur: seq<PaidLicense>, customer: nat, o: Occurrence)
    requires UniqueIds(cur) && |read| <= |cur| && forall i :: 0 <= i < |read| ==> SameRow(read[i], cur[i])
    ensures var w, w' := LicenseWrites(read, customer, o), LicenseWrites(cur, customer, o);
            WrittenAll(cur, w.changes) + w.licenses == WrittenAll(cur, w'.changes) + w'.licenses <==>
            SameTarget(Newest(read, customer, o.product), Newest(cur, customer, o.product), o.now)
  {
    var before, current := Newest(read, customer, o.product), Newest(cur, customer, o.product);
    var w, w' := LicenseWrites(read, customer, o), LicenseWrites(cur, customer, o);
    WrittenAllAt(cur, w.changes);
    WrittenAllAt(cur, w'.changes);
    if before.Some? {
      NewestPersists(read, cur, customer, o.product);
      NewestAt(cur, customer, o.product);
      assert WrittenAll(cur, w.changes) + [] == WrittenAll(cur, w.changes);
      assert WrittenAll(cur, w'.changes) + [] == WrittenAll(cur, w'.changes);
      if before.value.id == current.value.id {
        ExtensionSerialIff(cur, before.value, current.value, o.now);
      } else {
        var i := PaymentMovesTarget(cur, current.value, o.now);
        assert WrittenAll(cur, w.changes)[i] == current.value;
      }
    } else if current.Some? {
      assert |WrittenAll(cur, w.changes) + w.licenses| == |cur| + 1;
    }
  }

  lemma PaidSerialIff(read: Db, db: Db, o: Occurrence, w: Writes)
    requires UniqueIds(db.licenses) && Earlier(read, db) && o.kind == InvoicePaid && o.customer.Some?
    requires Handler(read, o) == Some(w) && Insertable(db, w)
    ensures SameEffect(db, w, o) <==> UndisturbedPayment(o, read, db)
  {
    var a, b := FindCustomer(read.customers, o.customer.value), FindCustomer(db.customers, o.customer.value);
    if a.Some? {
      FoundStays(read.customers, db.customers, o.customer.value);
      PaymentSerialIff(read.licenses, db.licenses, a.value.id, o);
    } else if b.Some? {
      UnseenCustomer(db, o, w, b.value);
    } else if w.customers != [] {
      assert w.customers[0].id == o.newCustomer;
      NobodysLicense(db.licenses, o.newCustomer, o.product);
      assert forall i :: 0 <= i < |read.licenses| ==> read.licenses[i].customer == db.licenses[i].customer;
      NobodysLicense(read.licenses, o.newCustomer, o.product);
    }
  }

  /** A payment that found no customer and no email wrote nothing; run now it would extend or create. */
  lemma UnseenCustomer(db: Db, o: Occurrence, w: Writes, c: Customer)
    requires UniqueIds(db.licenses) && o.kind == InvoicePaid && o.customer.Some?
    requires FindCustomer(db.customers, o.customer.value) == Some(c) && Insertable(db, w)
    requires w == NOTHING || (w.customers != [] && w.customers[0].stripeId == o.customer)
    ensures !SameEffect(db, w, o)
  {
    assert w == NOTHING;
    WrittenNothing(db.licenses);
    var w' := LicenseWrites(db.licenses, c.id, o);
    var lic := Newest(db.licenses, c.id, o.product);
    if lic.Some? {
      NewestAt(db.licenses, c.id, o.product);
      var i := PaymentMovesTarget(db.licenses, lic.value, o.now);
      assert (WrittenAll(db.licenses, w'.changes) + w'.licenses)[i] != db.licenses[i];
    } else {
      WrittenAllAt(db.licenses, w'.changes);
      assert |WrittenAll(db.licenses, w'.changes) + w'.licenses| == |db.licenses| + 1;
    }
  }

  /** A status event's writes for the licenses `read` of a customer, applied where they now read `cur`. */
  lemma {:induction false} MarksSerialIff(read: seq<PaidLicense>, cur: seq<PaidLicense>, customer: nat, product: nat,
                                          status: Status)
    requires UniqueIds(cur) && |read| <= |cur| && forall i :: 0 <= i < |read| ==> SameRow(read[i], cur[i])
    ensures WrittenAll(cur, MarkChanges(read, customer, product, status)) ==
            WrittenAll(cur, MarkChanges(cur, customer, product, status)) <==>
            SameMarks(read, cur, customer, product, status)
  {
    var mine, rerun := MarkChanges(read, customer, product, status), MarkChanges(cur, customer, product, status);
    MarkChangesAt(read, customer, product, status);
    MarkChangesAt(cur, customer, product, status);
    WrittenAllAt(cur, mine);
    WrittenAllAt(cur, rerun);
    forall i | 0 <= i < |cur|
      ensures Written(cur[i], mine) == Written(cur[i], rerun) <==>
              (Owned(cur[i], customer, product) && cur[i].status != status ==> i < |read| && read[i].status != status)
    {
      if i < |read| {
        assert cur[i].id == read[i].id;
      } else {
        assert cur[i].id !in mine;
      }
    }
    if SameMarks(read, cur, customer, product, status) {
      assert WrittenAll(cur, mine) == WrittenAll(cur, rerun);
    } else {
      var i :| 0 <= i < |cur| && Owned(cur[i], customer, product) && cur[i].status != status &&
               !(i < |read| && read[i].status != status);
      assert WrittenAll(cur, mine)[i] != WrittenAll(cur, rerun)[i];
    }
  }

  lemma MarkSerialIff(read: Db, db: Db, o: Occurrence, status: Status)
    requires UniqueIds(db.licenses) && Earlier(read, db) && o.customer.Some?
    ensures Apply(db, StatusWrites(read, o, status)) == Apply(db, StatusWrites(db, o, status)) <==>
            UndisturbedMark(o, read, db, status)
  {
    var a, b := FindCustomer(read.customers, o.customer.value), FindCustomer(db.customers, o.customer.value);
    var mine, rerun := StatusWrites(read, o, status), StatusWrites(db, o, status);
    assert WrittenAll(db.licenses, mine.changes) + [] == WrittenAll(db.licenses, mine.changes);
    assert WrittenAll(db.licenses, rerun.changes) + [] == WrittenAll(db.licenses, rerun.changes);
    if a.Some? {
      FoundStays(read.customers, db.customers, o.customer.value);
      MarksSerialIff(read.licenses, db.licenses, a.value.id, o.product, status);
    } else if b.Some? {
      MarksSerialIff([], db.licenses, b.value.id, o.product, status);
    }
  }

  /** In every reachable state a commit leaves what its event alone would leave exactly when nothing its
      handler read has since changed in a way that matters to it. */
  lemma CommitSerialIff(s: System, k: nat)
    requires Tracked(s) && Enabled(s, Commit(k)) && s.open[k].o.eventId !in s.db.processed
    ensures CommitIsSerial(s, k) <==> Undisturbed(s.open[k].o, s.open[k].read, s.db)
  {
    var t := s.open[k];
    assert CommitIsSerial(s, k) <==> SameEffect(s.db, t.writes, t.o) by {
      EffectDecides(s.db, t);
    }
    if t.o.customer.Some? {
      match t.o.kind
      case InvoicePaid => PaidSerialIff(t.read, s.db, t.o, t.writes);
      case PaymentFailed => MarkSerialIff(t.read, s.db, t.o, Delinquent);
      case SubscriptionDeleted => MarkSerialIff(t.read, s.db, t.o, Revoked);
      case Other =>
    }
  }

  predicate AllUndisturbed(s: System, steps: seq<Step>)
    requires IsRun(s, steps)
    decreases |steps|
  {
    steps == [] ||
    ((steps[0].Commit? ==> Undisturbed(s.open[steps[0].k].o, s.open[steps[0].k].read, s.db)) &&
     AllUndisturbed(Next(s, steps[0]), steps[1..]))
  }

  lemma {:induction false} AllSerialIff(start: Db, s: System, steps: seq<Step>)
    requires ExactlyOnce(start, s) && Tracked(s) && IsRun(s, steps)
    ensures AllCommitsSerial(s, steps) <==> AllUndisturbed(s, steps)
    decreases |steps|
  {
    if steps != [] {
      if steps[0].Commit? {
        CommitSerialIff(s, steps[0].k);
      }
      StepIsExactlyOnce(start, s, steps[0]);
      StepKeepsTracked(s, steps[0]);
      AllSerialIff(start, Next(s, steps[0]), steps[1..]);
    }
  }

  /** Every commit of a run of overlapping deliveries is serial exactly when none is disturbed, and then the
      final tables are those of the committed occurrences, each alone, in commit order. */
  lemma {:induction false} UndisturbedRunsRefine(start: Db, steps: seq<Step>)
    requires UniqueIds(start.licenses) && IsRun(System(start, map[], []), steps)
    ensures AllCommitsSerial(System(start, map[], []), steps) <==> AllUndisturbed(System(start, map[], []), steps)
    ensures AllUndisturbed(System(start, map[], []), steps) ==>
              var s := Final(System(start, map[], []), steps); s.db == ProcessAll(start, s.log)
  {
    AllSerialIff(start, System(start, map[], []), steps);
    if AllUndisturbed(System(start, map[], []), steps) {
      SerialCommitsRefine(start, System(start, map[], []), steps);
    }
  }

  lemma EffectDecides(db: Db, t: Txn)
    requires t.Ran? && t.o.eventId !in db.processed
    ensures Committed(db, t) == Process(db, t.o) <==> SameEffect(db, t.writes, t.o)
  {
    if Handler(db, t.o).None? {
      assert t.o.eventId in Committed(db, t).processed;
    } else {
      var a, b := Apply(db, t.writes), Apply(db, Handler(db, t.o).value);
      assert a.processed == b.processed == db.processed;
      if Committed(db, t) == Process(db, t.o) {
        assert a == b;
      }
    }
  }

  /** Two invoices of one customer, both run before either commits. */
  function Overlapping(a: Occurrence, b: Occurrence): seq<Step> {
    [Claim(0, a), Claim(1, b), Run(0), Run(1), Commit(0), Commit(1)]
  }

  /** Two deliveries whose handlers change the same existing rows: both commit, and what they write is written
      twice. */
  lemma {:induction false} OverlappingRun(db: Db, a: Occurrence, b: Occurrence, change: map<nat, Change>)
    requires a.eventId != b.eventId && a.eventId !in db.processed && b.eventId !in db.processed
    requires Handler(db, a) == Handler(db, b) == Some(Writes([], [], change))
    ensures IsRun(System(db, map[], []), Overlapping(a, b))
    ensures var s := Final(System(db, map[], []), Overlapping(a, b));
            s.log == [a, b] && s.db.licenses == WrittenAll(WrittenAll(db.licenses, change), change)
  {
    var s0 := System(db, map[], []);
    var s2 := Next(Next(s0, Claim(0, a)), Claim(1, b));
    BothRun(s2, a, b, change);
    var s4 := Next(Next(s2, Run(0)), Run(1));
    BothCommit(s4, a, b, change);
    SixSteps(s0, Claim(0, a), Claim(1, b), Run(0), Run(1), Commit(0), Commit(1));
  }

  lemma BothRun(s: System, a: Occurrence, b: Occurrence, change: map<nat, Change>)
    requires s.open == map[0 := Claimed(a), 1 := Claimed(b)]
    requires Handler(s.db, a) == Handler(s.db, b) == Some(Writes([], [], change))
    ensures Enabled(s, Run(0)) && Enabled(Next(s, Run(0)), Run(1))
    ensures var w := Writes([], [], change);
            Next(Next(s, Run(0)), Run(1)) == s.(open := map[0 := Ran(a, s.db, w), 1 := Ran(b, s.db, w)])
  {
  }

  lemma {:induction false} BothCommit(s: System, a: Occurrence, b: Occurrence, change: map<nat, Change>)
    requires var w := Writes([], [], change); s.open == map[0 := Ran(a, s.db, w), 1 := Ran(b, s.db, w)] && s.log == []
    ensures Enabled(s, Commit(0)) && Enabled(Next(s, Commit(0)), Commit(1))
    ensures var s' := Next(Next(s, Commit(0)), Commit(1));
            s'.log == [a, b] && s'.db.licenses == WrittenAll(WrittenAll(s.db.licenses, change), change)
  {
    CommitWrites(s, 0, change);
    CommitWrites(Next(s, Commit(0)), 1, change);
  }

  lemma {:induction false} CommitWrites(s: System, k: nat, change: map<nat, Change>)
    requires k in s.open && s.open[k].Ran? && s.open[k].writes == Writes([], [], change)
    ensures Enabled(s, Commit(k)) && Next(s, Commit(k)).db.licenses == WrittenAll(s.db.licenses, change)
  {
    var written := WrittenAll(s.db.licenses, change);
    assert written + [] == written;
  }

  function Sold(until: int): PaidLicense {
    PaidLicense(0, 0, 0, 0, until, Active)
  }

  function Shop(until: int): Db {
    Db({}, [Customer(0, Some(7), "a@b.c")], [Sold(until)])
  }

  function Invoice(id: nat): Occurrence {
    Occurrence(id, InvoicePaid, 0, Some(7), None, 0, 0, 0)
  }

  lemma {:induction false} OnlyLicense(until: int)
    ensures Newest([Sold(until)], 0, 0) == Some(Sold(until))
  {
    assert [Sold(until)][1..] == [];
  }

  lemma {:induction false} InvoiceExtends(until: int, id: nat)
    requires until >= 0
    ensures Handler(Shop(until), Invoice(id)) == Some(Writes([], [], ExtendChange(Sold(until), until + MONTH)))
  {
    OnlyLicense(until);
  }

  lemma {:induction false} ExtensionWritten(until: int, now: int)
    ensures WrittenAll([Sold(until)], ExtendChange(Sold(now), now + MONTH)) == [Sold(now + MONTH)]
  {
    WrittenAllAt([Sold(until)], ExtendChange(Sold(now), now + MONTH));
  }

  lemma {:induction false} SixSteps(s: System, a: Step, b: Step, c: Step, d: Step, e: Step, f: Step)
    requires Enabled(s, a) && Enabled(Next(s, a), b) && Enabled(Next(Next(s, a), b), c)
    requires var s3 := Next(Next(Next(s, a), b), c);
             Enabled(s3, d) && Enabled(Next(s3, d), e) && Enabled(Next(Next(s3, d), e), f)
    ensures IsRun(s, [a, b, c, d, e, f])
    ensures Final(s, [a, b, c, d, e, f]) == Next(Next(Next(Next(Next(Next(s, a), b), c), d), e), f)
  {
    var s1, s2, s3 := Next(s, a), Next(Next(s, a), b), Next(Next(Next(s, a), b), c);
    var s4, s5 := Next(s3, d), Next(Next(s3, d), e);
    FirstStep(s5, f, []);
    FirstStep(s4, e, [f]);
    FirstStep(s3, d, [e, f]);
    FirstStep(s2, c, [d, e, f]);
    FirstStep(s1, b, [c, d, e, f]);
    FirstStep(s, a, [b, c, d, e, f]);
  }

  lemma {:induction false} FirstStep(s: System, a: Step, rest: seq<Step>)
    requires Enabled(s, a) && IsRun(Next(s, a), rest)
    ensures IsRun(s, [a] + rest) && Final(s, [a] + rest) == Final(Next(s, a), rest)
  {
    assert ([a] + rest)[1..] == rest;
  }

  /** One after the other, the two invoices add sixty days. */
  lemma {:induction false} SerialPair(until: int)
    requires until >= 0
    ensures var after := ProcessAll(Shop(until), [Invoice(1), Invoice(2)]).licenses;
            Newest(after, 0, 0).Some? && Newest(after, 0, 0).value.validUntil == until + 2 * MONTH
  {
    var os := [Invoice(1), Invoice(2)];
    OnlyLicense(until);
    PaidInvoicesExtend(Shop(until), os, 7, 0, Sold(until));
    assert Times(os)[..1] == [0] && [0][..0] == [];
    assert ExtendAll(until, [0]) == until + MONTH;
    assert ExtendAll(until, Times(os)) == until + 2 * MONTH;
    var after := ProcessAll(Shop(until), os).licenses;
    assert after[1..] == [] && after[0] == Paid(Sold(until), 0, until + 2 * MONTH, true);
  }

  /** Without a single writer one extension is lost: both events are processed, thirty days are added once. */
  lemma LostExtension(until: int)
    returns (db: Db, a: Occurrence, b: Occurrence)
    requires until >= 0
    ensures var s0 := System(db, map[], []);
            && IsRun(s0, Overlapping(a, b))
            && (var s := Final(s0, Overlapping(a, b));
                && s.log == [a, b]
                && Newest(s.db.licenses, 0, 0).Some? && Newest(s.db.licenses, 0, 0).value.validUntil == until + MONTH)
            && Newest(ProcessAll(db, [a, b]).licenses, 0, 0).Some?
            && Newest(ProcessAll(db, [a, b]).licenses, 0, 0).value.validUntil == until + 2 * MONTH
  {
    db, a, b := Shop(until), Invoice(1), Invoice(2);
    InvoiceExtends(until, 1);
    InvoiceExtends(until, 2);
    OverlappingRun(db, a, b, ExtendChange(Sold(until), until + MONTH));
    ExtensionWritten(until, until);
    ExtensionWritten(until + MONTH, until);
    OnlyLicense(until + MONTH);
    SerialPair(until);
  }
}
