/** The Stripe event handler (app/stripe_webhook.py): claim the event id, apply its effect, commit
    both. A handler's effect is the set of column writes its session flushes. Times are seconds. */
module Stripe {
  import opened Common

  type Status = LicenseStatus

  datatype Kind = InvoicePaid | PaymentFailed | SubscriptionDeleted | Other

  datatype Customer = Customer(id: nat, stripeId: Option<nat>, email: string)

  /** The columns of a license row that the handlers read and write. */
  datatype PaidLicense = PaidLicense(id: nat, customer: nat, product: nat, createdAt: int, validUntil: int,
                                     status: Status)

  /** `processed` holds the claimed event ids; licenses stand in insertion order. */
  datatype Db = Db(processed: set<nat>, customers: seq<Customer>, licenses: seq<PaidLicense>)

  /** One signed delivery of an event that carries an id, with the clock and fresh ids its handler uses. */
  datatype Occurrence = Occurrence(
    eventId: nat, kind: Kind, product: nat, customer: Option<nat>, email: Option<string>,
    now: int, newCustomer: nat, newLicense: nat)

  datatype Change = Change(validUntil: Option<int>, status: Option<Status>)

  /** What a session flushes: inserted rows, and only the columns it changed on loaded rows. */
  datatype Writes = Writes(customers: seq<Customer>, licenses: seq<PaidLicense>, changes: map<nat, Change>)

  const NOTHING := Writes([], [], map[])
  const MONTH := 30 * 86400

  function Max(a: int, b: int): int {
    if a >= b then a else b
  }

  function FindCustomer(customers: seq<Customer>, stripeId: nat): Option<Customer> {
    if customers == [] then None
    else if customers[0].stripeId == Some(stripeId) then Some(customers[0])
    else FindCustomer(customers[1..], stripeId)
  }

  predicate EmailTaken(customers: seq<Customer>, email: string) {
    exists i :: 0 <= i < |customers| && customers[i].email == email
  }

  predicate Owned(l: PaidLicense, customer: nat, product: nat) {
    l.customer == customer && l.product == product
  }

  /** The customer's most recently created license; of equal creation times the later row wins. */
  function Newest(licenses: seq<PaidLicense>, customer: nat, product: nat): Option<PaidLicense> {
    if licenses == [] then None
    else
      var rest, l := Newest(licenses[1..], customer, product), licenses[0];
      if !Owned(l, customer, product) || (rest.Some? && rest.value.createdAt >= l.createdAt) then rest else Some(l)
  }

  function Extended(validUntil: int, now: int): int {
    Max(validUntil, now) + MONTH
  }

  /** The flushed change of an attribute assignment: nothing when the value is already there. */
  function Dirty<T(==)>(loaded: T, target: T): Option<T> {
    if target == loaded then None else Some(target)
  }

  function MarkChanges(licenses: seq<PaidLicense>, customer: nat, product: nat, status: Status): map<nat, Change> {
    if licenses == [] then map[]
    else
      var rest := MarkChanges(licenses[1..], customer, product, status);
      if Owned(licenses[0], customer, product)
      then rest[licenses[0].id := Change(None, Dirty(licenses[0].status, status))]
      else rest
  }

  function ExtendChange(l: PaidLicense, until: int): map<nat, Change> {
    map[l.id := Change(Dirty(l.validUntil, until), Dirty(l.status, Active))]
  }

  /** A paid invoice of a resolved customer: a new license, or the newest one extended. */
  function LicenseWrites(licenses: seq<PaidLicense>, customer: nat, o: Occurrence): Writes {
    var lic := Newest(licenses, customer, o.product);
    if lic.None? then Writes([], [PaidLicense(o.newLicense, customer, o.product, o.now, o.now + MONTH, Active)], map[])
    else Writes([], [], ExtendChange(lic.value, Extended(lic.value.validUntil, o.now)))
  }

  function PaidWrites(db: Db, o: Occurrence): Option<Writes>
    requires o.customer.Some?
  {
    var cust := FindCustomer(db.customers, o.customer.value);
    if cust.None? && (o.email.None? || o.email.value == "") then Some(NOTHING)
    else if cust.None? && EmailTaken(db.customers, o.email.value) then None
    else
      var id := if cust.Some? then cust.value.id else o.newCustomer;
      var added := if cust.Some? then [] else [Customer(o.newCustomer, o.customer, o.email.value)];
      Some(LicenseWrites(db.licenses, id, o).(customers := added))
  }

  function StatusWrites(db: Db, o: Occurrence, status: Status): Writes
    requires o.customer.Some?
  {
    var cust := FindCustomer(db.customers, o.customer.value);
    if cust.None? then NOTHING
    else Writes([], [], MarkChanges(db.licenses, cust.value.id, o.product, status))
  }

  /** The writes the handler stages when it reads `db`; None when the customer insert violates a constraint. */
  function Handler(db: Db, o: Occurrence): Option<Writes> {
    if o.customer.None? then Some(NOTHING)
    else match o.kind
      case InvoicePaid => PaidWrites(db, o)
      case PaymentFailed => Some(StatusWrites(db, o, Delinquent))
      case SubscriptionDeleted => Some(StatusWrites(db, o, Revoked))
      case Other => Some(NOTHING)
  }

  /** The audit events a handler adds. */
  datatype Note =
    | IssuedNote(product: nat)
    | ExtendedNote(license: nat, product: nat, until: int)
    | StatusNote(license: nat, product: nat, status: Status)

  function StatusNotes(licenses: seq<PaidLicense>, customer: nat, product: nat, status: Status): seq<Note> {
    if licenses == [] then []
    else (if Owned(licenses[0], customer, product) then [StatusNote(licenses[0].id, product, status)] else [])
         + StatusNotes(licenses[1..], customer, product, status)
  }

  function LicenseNotes(licenses: seq<PaidLicense>, customer: nat, o: Occurrence): seq<Note> {
    var lic := Newest(licenses, customer, o.product);
    if lic.None? then [IssuedNote(o.product)]
    else [ExtendedNote(lic.value.id, o.product, Extended(lic.value.validUntil, o.now))]
  }

  /** The events of one handler: one for a payment that reaches a license, one for each license marked. */
  function Notes(db: Db, o: Occurrence): seq<Note> {
    if o.customer.None? then []
    else
      var cust := FindCustomer(db.customers, o.customer.value);
      match o.kind
      case InvoicePaid =>
        if cust.None? && (o.email.None? || o.email.value == "" || EmailTaken(db.customers, o.email.value)) then []
        else LicenseNotes(db.licenses, if cust.Some? then cust.value.id else o.newCustomer, o)
      case PaymentFailed =>
        if cust.None? then [] else StatusNotes(db.licenses, cust.value.id, o.product, Delinquent)
      case SubscriptionDeleted =>
        if cust.None? then [] else StatusNotes(db.licenses, cust.value.id, o.product, Revoked)
      case Other => []
  }

  /** The key of a new license is mailed before the commit, whether or not the commit succeeds. */
  function Mailed(notes: seq<Note>, o: Occurrence): seq<nat> {
    if o.kind == InvoicePaid && notes != [] && notes[0].IssuedNote? then [o.newLicense] else []
  }

  function Written(l: PaidLicense, changes: map<nat, Change>): PaidLicense {
    if l.id !in changes then l
    else
      var c := changes[l.id];
      l.(validUntil := if c.validUntil.Some? then c.validUntil.value else l.validUntil,
         status := if c.status.Some? then c.status.value else l.status)
  }

  function WrittenAll(licenses: seq<PaidLicense>, changes: map<nat, Change>): seq<PaidLicense> {
    if licenses == [] then [] else [Written(licenses[0], changes)] + WrittenAll(licenses[1..], changes)
  }

  function Apply(db: Db, w: Writes): Db {
    db.(customers := db.customers + w.customers, licenses := WrittenAll(db.licenses, w.changes) + w.licenses)
  }

  /** Claim, handle and commit one occurrence with nobody else at work. */
  function Process(db: Db, o: Occurrence): Db {
    var w := Handler(db, o);
    if o.eventId in db.processed || w.None? then db
    else Apply(db, w.value).(processed := db.processed + {o.eventId})
  }

  function ProcessAll(db: Db, os: seq<Occurrence>): Db
    decreases |os|
  {
    if os == [] then db else Process(ProcessAll(db, os[..|os| - 1]), os[|os| - 1])
  }

  predicate UniqueIds(licenses: seq<PaidLicense>) {
    forall i, j :: 0 <= i < j < |licenses| ==> licenses[i].id != licenses[j].id
  }

  lemma {:induction false} WrittenAllAt(licenses: seq<PaidLicense>, changes: map<nat, Change>)
    ensures |WrittenAll(licenses, changes)| == |licenses|
    ensures forall i :: 0 <= i < |licenses| ==> WrittenAll(licenses, changes)[i] == Written(licenses[i], changes)
    decreases |licenses|
  {
    if licenses != [] {
      WrittenAllAt(licenses[1..], changes);
    }
  }

  /** Extending one loaded license rewrites its date and status and leaves every other row alone. */
  lemma {:induction false} ExtendChangeAt(licenses: seq<PaidLicense>, lic: PaidLicense, until: int)
    requires UniqueIds(licenses) && lic in licenses
    ensures var after := WrittenAll(licenses, ExtendChange(lic, until));
            |after| == |licenses| &&
            forall i :: 0 <= i < |licenses| ==>
              after[i] == (if licenses[i].id == lic.id then lic.(validUntil := until, status := Active)
                           else licenses[i])
  {
    WrittenAllAt(licenses, ExtendChange(lic, until));
    assert forall i :: 0 <= i < |licenses| && licenses[i].id == lic.id ==> licenses[i] == lic;
  }

  lemma {:induction false} WrittenNothing(licenses: seq<PaidLicense>)
    ensures WrittenAll(licenses, map[]) == licenses
  {
    WrittenAllAt(licenses, map[]);
  }

  lemma {:induction false} MarkChangesAt(licenses: seq<PaidLicense>, customer: nat, product: nat, status: Status)
    requires UniqueIds(licenses)
    ensures var m := MarkChanges(licenses, customer, product, status);
            && (forall id :: id in m ==> exists i :: 0 <= i < |licenses| && licenses[i].id == id)
            && (forall i :: 0 <= i < |licenses| ==>
                  (licenses[i].id in m <==> Owned(licenses[i], customer, product)) &&
                  (licenses[i].id in m ==> m[licenses[i].id] == Change(None, Dirty(licenses[i].status, status))))
    decreases |licenses|
  {
    if licenses != [] {
      MarkChangesAt(licenses[1..], customer, product, status);
      assert forall i :: 1 <= i < |licenses| ==> licenses[i] == licenses[1..][i - 1];
    }
  }

  // ----- the handlers as statements on a session ---------------------------------------------------

  class Session {
    var db: Db
    var events: seq<Note>
    var mailed: seq<nat>

    constructor (committed: Db)
      ensures db == committed && events == [] && mailed == []
    {
      db, events, mailed := committed, [], [];
    }

    /** `_extend_or_create`; false when the customer insert raises. */
    method ExtendOrCreate(o: Occurrence) returns (ok: bool)
      requires UniqueIds(db.licenses) && o.kind == InvoicePaid
      modifies this
      ensures ok <==> Handler(old(db), o).Some?
      ensures db == if ok then Apply(old(db), Handler(old(db), o).value) else old(db)
      ensures events == old(events) + Notes(old(db), o) && mailed == old(mailed) + Mailed(Notes(old(db), o), o)
    {
      assert events + [] == events && mailed + [] == mailed;
      WrittenNothing(db.licenses);
      assert Apply(db, NOTHING) == db;
      if o.customer.None? {
        return true;
      }
      var cust := FindCustomer(db.customers, o.customer.value);
      if cust.None? {
        if o.email.None? || o.email.value == "" {
          return true;
        }
        if EmailTaken(db.customers, o.email.value) {
          return false;
        }
        cust := Some(Customer(o.newCustomer, o.customer, o.email.value));
        db := db.(customers := db.customers + [cust.value]);
      }
      UpsertLicense(cust.value.id, o);
      return true;
    }

    /** The second half of `_extend_or_create`. */
    method UpsertLicense(customer: nat, o: Occurrence)
      requires UniqueIds(db.licenses) && o.kind == InvoicePaid
      modifies this
      ensures db == Apply(old(db), LicenseWrites(old(db).licenses, customer, o))
      ensures var notes := LicenseNotes(old(db).licenses, customer, o);
              events == old(events) + notes && mailed == old(mailed) + Mailed(notes, o)
    {
      var lic := Newest(db.licenses, customer, o.product);
      if lic.None? {
        WrittenNothing(db.licenses);
        var row := PaidLicense(o.newLicense, customer, o.product, o.now, o.now + MONTH, Active);
        db := db.(licenses := db.licenses + [row]);
        events := events + [IssuedNote(o.product)];
        mailed := mailed + [row.id];
      } else {
        var base := Max(lic.value.validUntil, o.now);
        ExtendRow(lic.value, base + MONTH, customer, o.product);
        events := events + [ExtendedNote(lic.value.id, o.product, base + MONTH)];
        assert mailed + [] == mailed;
      }
    }

    /** The attribute assignments on the loaded license. */
    method ExtendRow(lic: PaidLicense, until: int, customer: nat, product: nat)
      requires UniqueIds(db.licenses) && Newest(db.licenses, customer, product) == Some(lic)
      modifies this`db
      ensures db == old(db).(licenses := WrittenAll(old(db).licenses, ExtendChange(lic, until)))
    {
      NewestAt(db.licenses, customer, product);
      ExtendChangeAt(db.licenses, lic, until);
      var i :| 0 <= i < |db.licenses| && db.licenses[i] == lic;
      db := db.(licenses := db.licenses[i := lic.(validUntil := until, status := Active)]);
      assert db.licenses == WrittenAll(old(db).licenses, ExtendChange(lic, until));
    }

    /** `_mark_status`: a loop over the customer's licenses that skips other products. */
    method MarkStatus(o: Occurrence, status: Status)
      requires UniqueIds(db.licenses) && o.customer.Some?
      modifies this`db, this`events
      ensures db == Apply(old(db), StatusWrites(old(db), o, status))
      ensures var cust := FindCustomer(old(db).customers, o.customer.value);
              events == old(events) + if cust.None? then []
                                      else StatusNotes(old(db).licenses, cust.value.id, o.product, status)
    {
      WrittenNothing(db.licenses);
      var cust := FindCustomer(db.customers, o.customer.value);
      if cust.None? {
        assert events + [] == events;
        return;
      }
      MarkAll(cust.value.id, o.product, status);
    }

    /** The loop over the customer's licenses. */
    method MarkAll(customer: nat, product: nat, status: Status)
      requires UniqueIds(db.licenses)
      modifies this`db, this`events
      ensures db == old(db).(licenses := WrittenAll(old(db).licenses,
              MarkChanges(old(db).licenses, customer, product, status)))
      ensures events == old(events) + StatusNotes(old(db).licenses, customer, product, status)
    {
      ghost var before, changes := db.licenses, MarkChanges(db.licenses, customer, product, status);
      WrittenAllAt(before, changes);
      MarkChangesAt(before, customer, product, status);
      var i := 0;
      while i < |db.licenses|
        invariant 0 <= i <= |db.licenses| == |before|
        invariant db == old(db).(licenses := db.licenses)
        invariant forall j :: 0 <= j < i ==> db.licenses[j] == Written(before[j], changes)
        invariant forall j :: i <= j < |before| ==> db.licenses[j] == before[j]
        invariant events + StatusNotes(before[i..], customer, product, status) ==
                  old(events) + StatusNotes(before, customer, product, status)
      {
        NextNotes(events, before, i, customer, product, status);
        if db.licenses[i].customer == customer {
          if db.licenses[i].product == product {
            events := events + [StatusNote(db.licenses[i].id, product, status)];
            db := db.(licenses := db.licenses[i := db.licenses[i].(status := status)]);
          }
        }
        i := i + 1;
      }
      assert events + [] == events;
      assert db.licenses == WrittenAll(before, changes);
    }

    /** The handler registered for the event's type, if any; false when it raises. */
    method Dispatch(o: Occurrence) returns (ok: bool)
      requires UniqueIds(db.licenses)
      modifies this
      ensures ok <==> Handler(old(db), o).Some?
      ensures db == if ok then Apply(old(db), Handler(old(db), o).value) else old(db)
      ensures events == old(events) + Notes(old(db), o) && mailed == old(mailed) + Mailed(Notes(old(db), o), o)
    {
      WrittenNothing(db.licenses);
      assert Apply(db, NOTHING) == db && events + [] == events && mailed + [] == mailed;
      ok := true;
      match o.kind
      case InvoicePaid => ok := ExtendOrCreate(o);
      case PaymentFailed =>
        if o.customer.Some? {
          MarkStatus(o, Delinquent);
        }
      case SubscriptionDeleted =>
        if o.customer.Some? {
          MarkStatus(o, Revoked);
        }
      case Other =>
    }

    /** `stripe_webhook` after the signature check; true when the reply says "duplicate". */
    method Receive(o: Occurrence) returns (duplicate: bool)
      requires UniqueIds(db.licenses)
      modifies this
      ensures db == Process(old(db), o)
      ensures duplicate <==> o.eventId in old(db).processed
      ensures events == old(events) + if duplicate || Handler(old(db), o).None? then [] else Notes(old(db), o)
      ensures mailed == old(mailed) + if duplicate then [] else Mailed(Notes(old(db), o), o)
    {
      assert events + [] == events && mailed + [] == mailed;
      if o.eventId in db.processed {
        return true;
      }
      var before, said := db, events;
      db := db.(processed := db.processed + {o.eventId});
      ClaimKeepsHandler(before, o);
      var ok := Dispatch(o);
      if !ok {
        db, events := before, said;
      }
      return false;
    }
  }

  /** The claim is not read by the handlers. */
  lemma ClaimKeepsHandler(db: Db, o: Occurrence)
    ensures var claimed := db.(processed := db.processed + {o.eventId});
            && Handler(claimed, o) == Handler(db, o) && Notes(claimed, o) == Notes(db, o)
            && (Handler(db, o).Some? ==>
                  Apply(claimed, Handler(db, o).value) ==
                  Apply(db, Handler(db, o).value).(processed := db.processed + {o.eventId}))
  {
  }

  lemma {:induction false} NextNotes(events: seq<Note>, licenses: seq<PaidLicense>, i: nat, customer: nat,
                                     product: nat, status: Status)
    requires i < |licenses|
    ensures var later := StatusNotes(licenses[i + 1..], customer, product, status);
            events + StatusNotes(licenses[i..], customer, product, status) ==
            (if Owned(licenses[i], customer, product) then events + [StatusNote(licenses[i].id, product, status)]
             else events) + later
  {
    assert licenses[i..][0] == licenses[i] && licenses[i..][1..] == licenses[i + 1..];
  }

  lemma {:induction false} NewestAt(licenses: seq<PaidLicense>, customer: nat, product: nat)
    ensures var n := Newest(licenses, customer, product);
            && (n.Some? ==> n.value in licenses && Owned(n.value, customer, product))
            && (forall l :: l in licenses && Owned(l, customer, product) ==>
                  n.Some? && l.createdAt <= n.value.createdAt)
    decreases |licenses|
  {
    if licenses != [] {
      NewestAt(licenses[1..], customer, product);
      assert licenses == [licenses[0]] + licenses[1..];
    }
  }

  // ----- which rows an event reaches ---------------------------------------------------------------

  /** The unique column `stripe_customer_id`, which may be NULL in many rows. */
  predicate UniqueStripeIds(customers: seq<Customer>) {
    forall i, j :: 0 <= i < j < |customers| && customers[i].stripeId.Some? ==>
      customers[i].stripeId != customers[j].stripeId
  }

  lemma {:induction false} FoundIsNamed(customers: seq<Customer>, stripeId: nat)
    ensures var found := FindCustomer(customers, stripeId);
            && (found.Some? ==> found.value in customers && found.value.stripeId == Some(stripeId))
            && (found.None? ==> forall c :: c in customers ==> c.stripeId != Some(stripeId))
    decreases |customers|
  {
    if customers != [] {
      FoundIsNamed(customers[1..], stripeId);
    }
  }

  lemma NamedIsFound(customers: seq<Customer>, c: Customer, stripeId: nat)
    requires UniqueStripeIds(customers) && c in customers && c.stripeId == Some(stripeId)
    ensures FindCustomer(customers, stripeId) == Some(c)
  {
    FoundIsNamed(customers, stripeId);
  }

  /** The id of a new customer row is not yet any license's. */
  predicate FreshCustomer(db: Db, o: Occurrence) {
    forall l :: l in db.licenses ==> l.customer != o.newCustomer
  }

  /** The rows a handler's changes reach belong to the customer row and product it works on. */
  lemma {:induction false} ChangesAreOwned(licenses: seq<PaidLicense>, customer: nat, o: Occurrence, status: Status)
    requires UniqueIds(licenses)
    ensures forall i :: 0 <= i < |licenses| && !Owned(licenses[i], customer, o.product) ==>
              Written(licenses[i], LicenseWrites(licenses, customer, o).changes) == licenses[i] &&
              Written(licenses[i], MarkChanges(licenses, customer, o.product, status)) == licenses[i]
  {
    MarkChangesAt(licenses, customer, o.product, status);
    NewestAt(licenses, customer, o.product);
  }

  /** An existing license row changes only if the customer it belongs to carries the event's Stripe id and its
      product is the event's; rows are only added at the end, and a processed event changes nothing. */
  lemma {:induction false} OnlyNamedCustomerChanges(db: Db, o: Occurrence)
    requires UniqueIds(db.licenses) && FreshCustomer(db, o)
    ensures |Process(db, o).licenses| >= |db.licenses|
    ensures forall i :: 0 <= i < |db.licenses| && Process(db, o).licenses[i] != db.licenses[i] ==>
              o.customer.Some? && db.licenses[i].product == o.product &&
              exists c :: c in db.customers && c.stripeId == o.customer && c.id == db.licenses[i].customer
    ensures o.eventId in db.processed ==> Process(db, o) == db
  {
    if o.eventId !in db.processed && Handler(db, o).Some? {
      WrittenAllAt(db.licenses, Handler(db, o).value.changes);
      if o.customer.Some? {
        var cust := FindCustomer(db.customers, o.customer.value);
        FoundIsNamed(db.customers, o.customer.value);
        var id := if cust.Some? then cust.value.id else o.newCustomer;
        ChangesAreOwned(db.licenses, id, o, Delinquent);
        ChangesAreOwned(db.licenses, id, o, Revoked);
      }
    }
  }

  /** The row of a customer that the event names by its Stripe id. */
  predicate Names(db: Db, o: Occurrence, c: Customer) {
    c in db.customers && c.stripeId.Some? && c.stripeId == o.customer
  }

  predicate Fresh(db: Db, o: Occurrence) {
    UniqueIds(db.licenses) && UniqueStripeIds(db.customers) && o.eventId !in db.processed
  }

  /** A failed payment makes every license of the named customer for the event's product delinquent, an ended
      subscription revokes them; nothing else moves, and each gets its event. */
  lemma {:induction false} StatusEventMarks(db: Db, o: Occurrence, c: Customer)
    requires Fresh(db, o) && Names(db, o, c) && (o.kind == PaymentFailed || o.kind == SubscriptionDeleted)
    ensures var status := if o.kind == PaymentFailed then Delinquent else Revoked;
            var after := Process(db, o);
            && after.customers == db.customers && after.processed == db.processed + {o.eventId}
            && |after.licenses| == |db.licenses|
            && (forall i :: 0 <= i < |db.licenses| ==>
                  after.licenses[i] == if db.licenses[i].customer == c.id && db.licenses[i].product == o.product
                                       then db.licenses[i].(status := status) else db.licenses[i])
            && (forall i :: 0 <= i < |db.licenses| ==>
                  (StatusNote(db.licenses[i].id, o.product, status) in Notes(db, o) <==>
                   db.licenses[i].customer == c.id && db.licenses[i].product == o.product))
  {
    var status := if o.kind == PaymentFailed then Delinquent else Revoked;
    NamedIsFound(db.customers, c, o.customer.value);
    MarkChangesAt(db.licenses, c.id, o.product, status);
    WrittenAllAt(db.licenses, MarkChanges(db.licenses, c.id, o.product, status));
    forall i | 0 <= i < |db.licenses|
      ensures StatusNote(db.licenses[i].id, o.product, status) in Notes(db, o) <==>
              Owned(db.licenses[i], c.id, o.product)
    {
      NoteOfRow(db.licenses, c.id, o.product, status, i);
    }
  }

  lemma {:induction false} NoteOfRow(licenses: seq<PaidLicense>, customer: nat, product: nat, status: Status, i: nat)
    requires UniqueIds(licenses) && i < |licenses|
    ensures StatusNote(licenses[i].id, product, status) in StatusNotes(licenses, customer, product, status) <==>
            Owned(licenses[i], customer, product)
    decreases |licenses|
  {
    NotesNameRows(licenses[1..], customer, product, status);
    if i > 0 {
      NoteOfRow(licenses[1..], customer, product, status, i - 1);
    }
  }

  lemma {:induction false} NotesNameRows(licenses: seq<PaidLicense>, customer: nat, product: nat, status: Status)
    ensures forall n :: n in StatusNotes(licenses, customer, product, status) ==>
              n.StatusNote? && exists l :: l in licenses && l.id == n.license
    decreases |licenses|
  {
    if licenses != [] {
      NotesNameRows(licenses[1..], customer, product, status);
      assert licenses == [licenses[0]] + licenses[1..];
    }
  }

  /** A paid invoice of a named customer extends the license of the product that was created last: it becomes
      active, thirty days from its date or from now, whichever is later; nothing else moves and no key is mailed. */
  lemma {:induction false} PaidEventExtends(db: Db, o: Occurrence, c: Customer, l: PaidLicense)
    requires Fresh(db, o) && Names(db, o, c) && o.kind == InvoicePaid
    requires l in db.licenses && l.customer == c.id && l.product == o.product
    requires forall m :: m in db.licenses && m.customer == c.id && m.product == o.product && m != l ==>
               m.createdAt < l.createdAt
    ensures var until := (if l.validUntil >= o.now then l.validUntil else o.now) + 30 * 86400;
            var after := Process(db, o);
            && after.customers == db.customers && after.processed == db.processed + {o.eventId}
            && |after.licenses| == |db.licenses|
            && (forall i :: 0 <= i < |db.licenses| ==>
                  after.licenses[i] == if db.licenses[i].id == l.id
                                       then db.licenses[i].(validUntil := until, status := Active) else db.licenses[i])
            && Notes(db, o) == [ExtendedNote(l.id, o.product, until)] && Mailed(Notes(db, o), o) == []
  {
    NamedIsFound(db.customers, c, o.customer.value);
    NewestAt(db.licenses, c.id, o.product);
    assert Newest(db.licenses, c.id, o.product) == Some(l);
    OnePaidInvoice(db, o, o.customer.value, o.product, l);
  }

  lemma {:induction false} NoneOwned(licenses: seq<PaidLicense>, customer: nat, product: nat)
    requires forall l :: l in licenses ==> !(l.customer == customer && l.product == product)
    ensures Newest(licenses, customer, product).None?
  {
    NewestAt(licenses, customer, product);
  }

  /** The license a paid invoice creates: active for thirty days. */
  function FirstLicense(o: Occurrence, customer: nat): PaidLicense {
    PaidLicense(o.newLicense, customer, o.product, o.now, o.now + 30 * 86400, Active)
  }

  /** A paid invoice of a named customer without a license of the product creates one and mails its key. */
  lemma {:induction false} PaidEventCreates(db: Db, o: Occurrence, c: Customer)
    requires Fresh(db, o) && Names(db, o, c) && o.kind == InvoicePaid
    requires forall l :: l in db.licenses ==> !(l.customer == c.id && l.product == o.product)
    ensures Process(db, o) ==
            db.(licenses := db.licenses + [FirstLicense(o, c.id)], processed := db.processed + {o.eventId})
    ensures Notes(db, o) == [IssuedNote(o.product)] && Mailed(Notes(db, o), o) == [o.newLicense]
  {
    NamedIsFound(db.customers, c, o.customer.value);
    NoneOwned(db.licenses, c.id, o.product);
    WrittenNothing(db.licenses);
    assert db.customers + [] == db.customers;
  }

  /** An event of any other kind is claimed and nothing more. */
  lemma {:induction false} OtherEventIsClaimed(db: Db, o: Occurrence)
    requires Fresh(db, o) && o.kind == Other
    ensures Process(db, o) == db.(processed := db.processed + {o.eventId})
    ensures Notes(db, o) == [] && Mailed(Notes(db, o), o) == []
  {
    WrittenNothing(db.licenses);
    assert db.customers + [] == db.customers && db.licenses + [] == db.licenses;
  }

  predicate Unknown(db: Db, o: Occurrence) {
    o.customer.Some? ==> forall c :: c in db.customers ==> c.stripeId != o.customer
  }

  lemma UnknownIsNotFound(db: Db, o: Occurrence)
    requires Unknown(db, o) && o.customer.Some?
    ensures FindCustomer(db.customers, o.customer.value).None?
  {
    FoundIsNamed(db.customers, o.customer.value);
  }

  /** A paid invoice for a Stripe id that no customer row carries, with an unused email, adds the customer and its
      first license and mails the key. */
  lemma {:induction false} NewCustomerPays(db: Db, o: Occurrence)
    requires Fresh(db, o) && FreshCustomer(db, o) && Unknown(db, o) && o.kind == InvoicePaid && o.customer.Some?
    requires o.email.Some? && o.email.value != "" && forall c :: c in db.customers ==> c.email != o.email.value
    ensures Process(db, o) ==
            Db(db.processed + {o.eventId}, db.customers + [Customer(o.newCustomer, o.customer, o.email.value)],
               db.licenses + [FirstLicense(o, o.newCustomer)])
    ensures Notes(db, o) == [IssuedNote(o.product)] && Mailed(Notes(db, o), o) == [o.newLicense]
  {
    UnknownIsNotFound(db, o);
    WrittenNothing(db.licenses);
    NoneOwned(db.licenses, o.newCustomer, o.product);
  }

  /** With an email that some customer has, it fails and is not even claimed. */
  lemma {:induction false} TakenEmailFails(db: Db, o: Occurrence, c: Customer)
    requires Fresh(db, o) && Unknown(db, o) && o.kind == InvoicePaid && o.customer.Some?
    requires c in db.customers && c.email != "" && o.email == Some(c.email)
    ensures Process(db, o) == db && Notes(db, o) == [] && Mailed(Notes(db, o), o) == []
  {
    UnknownIsNotFound(db, o);
    var i :| 0 <= i < |db.customers| && db.customers[i] == c;
    assert EmailTaken(db.customers, o.email.value);
  }

  /** Without an email, and for every other kind of event, it is only claimed. */
  lemma {:induction false} UnknownIsClaimed(db: Db, o: Occurrence)
    requires Fresh(db, o) && Unknown(db, o)
    requires o.customer.Some? && o.kind == InvoicePaid ==> o.email.None? || o.email.value == ""
    ensures Process(db, o) == db.(processed := db.processed + {o.eventId})
    ensures Notes(db, o) == [] && Mailed(Notes(db, o), o) == []
  {
    if o.customer.Some? {
      UnknownIsNotFound(db, o);
    }
    WrittenNothing(db.licenses);
    assert db.customers + [] == db.customers && db.licenses + [] == db.licenses;
  }

  // ----- max-plus form of repeated extensions ---------------------------------------------------

  function ExtendAll(v: int, ts: seq<int>): int
    decreases |ts|
  {
    if ts == [] then v else Extended(ExtendAll(v, ts[..|ts| - 1]), ts[|ts| - 1])
  }

  /** `v0 + 30k` days and every `ti + 30(k - i + 1)` days (i from 1) are reached, and one of them exactly. */
  ghost predicate MaxPlus(r: int, v: int, ts: seq<int>) {
    && r >= v + |ts| * MONTH
    && (forall i :: 0 <= i < |ts| ==> r >= ts[i] + (|ts| - i) * MONTH)
    && (r == v + |ts| * MONTH || exists i :: 0 <= i < |ts| && r == ts[i] + (|ts| - i) * MONTH)
  }

  lemma {:induction false} ExtensionsAreMaxPlus(v: int, ts: seq<int>)
    ensures MaxPlus(ExtendAll(v, ts), v, ts)
    decreases |ts|
  {
    if ts != [] {
      var k := |ts| - 1;
      var prev := ts[..k];
      ExtensionsAreMaxPlus(v, prev);
      var p, r := ExtendAll(v, prev), ExtendAll(v, ts);
      assert forall i :: 0 <= i < k ==> prev[i] == ts[i];
      if ts[k] >= p {
        assert r == ts[k] + (|ts| - k) * MONTH;
      } else if p != v + k * MONTH {
        var i :| 0 <= i < k && p == prev[i] + (k - i) * MONTH;
        assert r == ts[i] + (|ts| - i) * MONTH;
      }
    }
  }

  /** The committed occurrences are paid invoices of one known customer and product. */
  predicate PaidBy(os: seq<Occurrence>, customer: nat, product: nat) {
    forall o :: o in os ==> o.kind == InvoicePaid && o.customer == Some(customer) && o.product == product
  }

  function Times(os: seq<Occurrence>): seq<int> {
    seq(|os|, i requires 0 <= i < |os| => os[i].now)
  }

  predicate DistinctFresh(db: Db, os: seq<Occurrence>) {
    && (forall i, j :: 0 <= i < j < |os| ==> os[i].eventId != os[j].eventId)
    && (forall o :: o in os ==> o.eventId !in db.processed)
  }

  function Paid(l: PaidLicense, id: nat, until: int, touched: bool): PaidLicense {
    if l.id == id && touched then l.(validUntil := until, status := Active) else l
  }

  /** `db'` is `db` but for the paid-up date and status of the license `id`. */
  ghost predicate OnlyExtended(db: Db, db': Db, id: nat, until: int, touched: bool) {
    && db'.customers == db.customers && |db'.licenses| == |db.licenses|
    && forall i :: 0 <= i < |db.licenses| ==> db'.licenses[i] == Paid(db.licenses[i], id, until, touched)
  }

  lemma {:induction false} NewestIgnoresPayment(a: seq<PaidLicense>, b: seq<PaidLicense>, customer: nat, product: nat)
    requires |a| == |b|
    requires forall i :: 0 <= i < |a| ==> b[i] == a[i].(validUntil := b[i].validUntil, status := b[i].status)
    ensures var m, n := Newest(a, customer, product), Newest(b, customer, product);
            m.Some? == n.Some? && (m.Some? ==> n.value.id == m.value.id && n.value.createdAt == m.value.createdAt)
    decreases |a|
  {
    if a != [] {
      NewestIgnoresPayment(a[1..], b[1..], customer, product);
    }
  }

  /** One committed paid invoice on a customer whose newest license is `lic`. */
  lemma {:induction false} OnePaidInvoice(db: Db, o: Occurrence, customer: nat, product: nat, lic: PaidLicense)
    requires UniqueIds(db.licenses) && o.eventId !in db.processed
    requires o.kind == InvoicePaid && o.customer == Some(customer) && o.product == product
    requires FindCustomer(db.customers, customer).Some?
    requires Newest(db.licenses, FindCustomer(db.customers, customer).value.id, product) == Some(lic)
    ensures OnlyExtended(db, Process(db, o), lic.id, Extended(lic.validUntil, o.now), true)
    ensures Process(db, o).processed == db.processed + {o.eventId}
  {
    NewestAt(db.licenses, FindCustomer(db.customers, customer).value.id, product);
    ExtendChangeAt(db.licenses, lic, Extended(lic.validUntil, o.now));
  }

  function EventIds(os: seq<Occurrence>): set<nat> {
    set o | o in os :: o.eventId
  }

  /** After any number of committed paid invoices the newest license's date is the repeated extension
      over their times, and nothing else about the tables moves. */
  lemma {:induction false} PaidInvoicesExtend(db: Db, os: seq<Occurrence>, customer: nat, product: nat,
                                              lic: PaidLicense)
    requires UniqueIds(db.licenses) && PaidBy(os, customer, product) && DistinctFresh(db, os)
    requires FindCustomer(db.customers, customer).Some?
    requires Newest(db.licenses, FindCustomer(db.customers, customer).value.id, product) == Some(lic)
    ensures OnlyExtended(db, ProcessAll(db, os), lic.id, ExtendAll(lic.validUntil, Times(os)), os != [])
    ensures ProcessAll(db, os).processed == db.processed + EventIds(os)
    decreases |os|
  {
    if os != [] {
      var cust, prev, o := FindCustomer(db.customers, customer).value.id, os[..|os| - 1], os[|os| - 1];
      PaidInvoicesExtend(db, prev, customer, product, lic);
      var mid, until := ProcessAll(db, prev), ExtendAll(lic.validUntil, Times(prev));
      NewestStays(db, mid, cust, product, lic, until, prev != []);
      LastOccurrence(db, os);
      OnePaidInvoice(mid, o, customer, product, Paid(lic, lic.id, until, prev != []));
      ExtendTwice(db, mid, ProcessAll(db, os), lic, until, o.now, prev != []);
    }
  }

  lemma LastOccurrence(db: Db, os: seq<Occurrence>)
    requires os != [] && DistinctFresh(db, os)
    ensures var prev, o := os[..|os| - 1], os[|os| - 1];
            && o in os && o.eventId !in db.processed + EventIds(prev)
            && EventIds(os) == EventIds(prev) + {o.eventId}
            && Times(os)[..|os| - 1] == Times(prev)
  {
    assert os == os[..|os| - 1] + [os[|os| - 1]];
  }

  lemma {:induction false} NewestStays(db: Db, mid: Db, cust: nat, product: nat, lic: PaidLicense, until: int,
                                       touched: bool)
    requires UniqueIds(db.licenses) && Newest(db.licenses, cust, product) == Some(lic)
    requires OnlyExtended(db, mid, lic.id, until, touched)
    ensures UniqueIds(mid.licenses) && Newest(mid.licenses, cust, product) == Some(Paid(lic, lic.id, until, touched))
  {
    NewestAt(db.licenses, cust, product);
    NewestIgnoresPayment(db.licenses, mid.licenses, cust, product);
    NewestAt(mid.licenses, cust, product);
    PaidRowFound(db.licenses, mid.licenses, lic, Newest(mid.licenses, cust, product).value, until, touched);
  }

  lemma ExtendTwice(db: Db, mid: Db, after: Db, lic: PaidLicense, until: int, now: int, touched: bool)
    requires OnlyExtended(db, mid, lic.id, until, touched) && (!touched ==> until == lic.validUntil)
    requires OnlyExtended(mid, after, lic.id, Extended(Paid(lic, lic.id, until, touched).validUntil, now), true)
    ensures OnlyExtended(db, after, lic.id, Extended(until, now), true)
  {
  }

  lemma PaidRowFound(a: seq<PaidLicense>, b: seq<PaidLicense>, lic: PaidLicense, n: PaidLicense, until: int,
                     touched: bool)
    requires UniqueIds(a) && lic in a && n in b && n.id == lic.id && |a| == |b|
    requires forall i :: 0 <= i < |a| ==> b[i] == Paid(a[i], lic.id, until, touched)
    ensures n == Paid(lic, lic.id, until, touched) && UniqueIds(b)
  {
    var i :| 0 <= i < |b| && b[i] == n;
    var j :| 0 <= j < |a| && a[j] == lic;
    assert a[i].id == lic.id;
  }

  /** The closed form on the table itself: the paid license's date after k committed invoices is the
      max-plus combination of where it started and when they came. */
  lemma {:induction false} PaidDateIsMaxPlus(db: Db, os: seq<Occurrence>, customer: nat, product: nat, lic: PaidLicense)
    requires UniqueIds(db.licenses) && PaidBy(os, customer, product) && DistinctFresh(db, os)
    requires FindCustomer(db.customers, customer).Some?
    requires Newest(db.licenses, FindCustomer(db.customers, customer).value.id, product) == Some(lic)
    ensures exists l :: l in ProcessAll(db, os).licenses && l.id == lic.id &&
                        MaxPlus(l.validUntil, lic.validUntil, Times(os))
    ensures forall l :: l in ProcessAll(db, os).licenses && l.id == lic.id ==>
            MaxPlus(l.validUntil, lic.validUntil, Times(os))
  {
    PaidInvoicesExtend(db, os, customer, product, lic);
    ExtensionsAreMaxPlus(lic.validUntil, Times(os));
    NewestAt(db.licenses, FindCustomer(db.customers, customer).value.id, product);
    var i :| 0 <= i < |db.licenses| && db.licenses[i] == lic;
    assert ProcessAll(db, os).licenses[i].id == lic.id;
    forall l | l in ProcessAll(db, os).licenses && l.id == lic.id
      ensures MaxPlus(l.validUntil, lic.validUntil, Times(os))
    {
      var j :| 0 <= j < |db.licenses| && ProcessAll(db, os).licenses[j] == l;
      assert db.licenses[j].id == lic.id;
      assert j == i;
    }
  }

  /** Each paid invoice moves the date forward by at least thirty days. */
  lemma {:induction false} ExtensionGains(v: int, ts: seq<int>)
    ensures ExtendAll(v, ts) >= v + |ts| * MONTH
    ensures ts != [] ==> ExtendAll(v, ts) >= ExtendAll(v, ts[..|ts| - 1]) + MONTH
    decreases |ts|
  {
    if ts != [] {
      ExtensionGains(v, ts[..|ts| - 1]);
    }
  }
}
