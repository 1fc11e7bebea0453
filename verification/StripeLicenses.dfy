/** The Stripe handlers as calls of the license runs: what a handler writes on the columns it knows, and the audit
    events it adds, is what one operation does to the whole license rows. */
module StripeLicenses {
  import opened Common
  import L = LicenseModel
  import R = LicenseRuns
  import S = Stripe

  /** The two tables hold the same licenses, as far as the handlers' columns go. */
  ghost predicate Projects(rows: map<nat, L.License>, licenses: seq<S.PaidLicense>) {
    && (forall i :: 0 <= i < |licenses| ==> Shows(rows, licenses[i]))
    && (forall lid :: lid in rows ==> Listed(licenses, lid))
  }

  ghost predicate Listed(licenses: seq<S.PaidLicense>, lid: nat) {
    exists i :: 0 <= i < |licenses| && licenses[i].id == lid
  }

  predicate Shows(rows: map<nat, L.License>, l: S.PaidLicense) {
    && l.id in rows
    && var row := rows[l.id];
       row.id == l.id && row.customerId == l.customer && row.productId == l.product &&
       row.validUntil == l.validUntil && row.status == l.status
  }

  function EventOf(note: S.Note): L.Event {
    match note
    case IssuedNote(product) => L.Event(None, Some(product), L.Issued)
    case ExtendedNote(license, product, until) => L.Event(Some(license), Some(product), L.Extended(until))
    case StatusNote(license, product, status) => L.Event(Some(license), Some(product), L.StatusSet(status))
  }

  function EventsOf(notes: seq<S.Note>): seq<L.Event> {
    seq(|notes|, i requires 0 <= i < |notes| => EventOf(notes[i]))
  }

  function OwnedIds(licenses: seq<S.PaidLicense>, customer: nat, product: nat): seq<nat> {
    if licenses == [] then []
    else (if S.Owned(licenses[0], customer, product) then [licenses[0].id] else []) +
         OwnedIds(licenses[1..], customer, product)
  }

  /** The operation of an event whose customer row has this id; `base` is the row of a new license. */
  function CallFor(licenses: seq<S.PaidLicense>, customer: nat, o: S.Occurrence, base: L.License): Option<R.Op> {
    match o.kind
    case InvoicePaid =>
      var lic := S.Newest(licenses, customer, o.product);
      Some(if lic.None? then R.StripeCreate(base) else R.StripeExtend(lic.value.id, o.now))
    case PaymentFailed => Some(R.StripeStatus(OwnedIds(licenses, customer, o.product), Delinquent))
    case SubscriptionDeleted => Some(R.StripeStatus(OwnedIds(licenses, customer, o.product), Revoked))
    case Other => None
  }

  /** The operation of an event, if it reaches a customer. */
  function CallOf(s: S.Db, o: S.Occurrence, base: L.License): Option<R.Op> {
    if o.customer.None? then None
    else
      var cust := S.FindCustomer(s.customers, o.customer.value);
      if cust.Some? then CallFor(s.licenses, cust.value.id, o, base)
      else if o.kind.InvoicePaid? && o.email.Some? && o.email.value != ""
      then CallFor(s.licenses, o.newCustomer, o, base)
      else None
  }

  /** `base` is the row that the paid invoice inserts for a customer row with this id. */
  predicate IsBase(base: L.License, customer: nat, o: S.Occurrence) {
    base.id == o.newLicense && base.customerId == customer && base.productId == o.product &&
    base.validUntil == o.now + S.MONTH
  }

  predicate BaseFits(s: S.Db, o: S.Occurrence, base: L.License) {
    o.customer.Some? ==>
      var cust := S.FindCustomer(s.customers, o.customer.value);
      IsBase(base, if cust.Some? then cust.value.id else o.newCustomer, o)
  }

  lemma {:induction false} NewestIsListed(licenses: seq<S.PaidLicense>, customer: nat, product: nat)
    requires S.Newest(licenses, customer, product).Some?
    ensures var l := S.Newest(licenses, customer, product).value; l in licenses && S.Owned(l, customer, product)
    decreases |licenses|
  {
    if S.Newest(licenses[1..], customer, product).Some? {
      NewestIsListed(licenses[1..], customer, product);
    }
  }

  lemma CreateProjects(rows: map<nat, L.License>, licenses: seq<S.PaidLicense>, base: L.License, customer: nat,
                       o: S.Occurrence)
    requires Projects(rows, licenses) && IsBase(base, customer, o) && base.id !in rows
    ensures Projects(rows[base.id := L.StripeLicense(base)],
                     licenses + [S.PaidLicense(o.newLicense, customer, o.product, o.now, o.now + S.MONTH, Active)])
  {
    var all := licenses + [S.PaidLicense(o.newLicense, customer, o.product, o.now, o.now + S.MONTH, Active)];
    var after := rows[base.id := L.StripeLicense(base)];
    assert all[|licenses|].id == base.id;
    forall lid | lid in after ensures Listed(all, lid) {
      if lid in rows {
        assert Listed(licenses, lid);
        var i :| 0 <= i < |licenses| && licenses[i].id == lid;
        assert all[i].id == lid;
      }
    }
  }

  lemma {:induction false} WrittenListed(licenses: seq<S.PaidLicense>, changes: map<nat, S.Change>, lid: nat)
    requires Listed(licenses, lid)
    ensures Listed(S.WrittenAll(licenses, changes), lid)
  {
    var i :| 0 <= i < |licenses| && licenses[i].id == lid;
    S.WrittenAllAt(licenses, changes);
    assert S.WrittenAll(licenses, changes)[i] == S.Written(licenses[i], changes);
  }

  /** Rows that change only in the columns a handler writes, as it writes them. */
  lemma ChangesProject(rows: map<nat, L.License>, after: map<nat, L.License>, licenses: seq<S.PaidLicense>,
                       changes: map<nat, S.Change>)
    requires Projects(rows, licenses) && after.Keys == rows.Keys
    requires forall i :: 0 <= i < |licenses| ==> Shows(after, S.Written(licenses[i], changes))
    ensures Projects(after, S.WrittenAll(licenses, changes))
  {
    S.WrittenAllAt(licenses, changes);
    var written := S.WrittenAll(licenses, changes);
    forall i | 0 <= i < |written| ensures Shows(after, written[i]) {
      assert written[i] == S.Written(licenses[i], changes);
    }
    forall lid | lid in after ensures Listed(written, lid) {
      assert lid in rows && Listed(licenses, lid);
      WrittenListed(licenses, changes, lid);
    }
  }

  lemma {:induction false} OwnedIdsAre(licenses: seq<S.PaidLicense>, customer: nat, product: nat, lid: nat)
    ensures lid in OwnedIds(licenses, customer, product) <==>
            exists i :: 0 <= i < |licenses| && licenses[i].id == lid && S.Owned(licenses[i], customer, product)
    decreases |licenses|
  {
    if licenses != [] {
      var rest := licenses[1..];
      OwnedIdsAre(rest, customer, product, lid);
      if i :| 0 <= i < |rest| && rest[i].id == lid && S.Owned(rest[i], customer, product) {
        assert licenses[i + 1] == rest[i];
      }
      if i :| 0 < i < |licenses| && licenses[i].id == lid && S.Owned(licenses[i], customer, product) {
        assert rest[i - 1] == licenses[i];
      }
    }
  }

  /** The notes of a status are one for each license it marks, in the same order. */
  lemma {:induction false} StatusNotesAre(licenses: seq<S.PaidLicense>, customer: nat, product: nat, status: L.Status)
    ensures S.StatusNotes(licenses, customer, product, status) ==
            NotesFor(OwnedIds(licenses, customer, product), product, status)
    decreases |licenses|
  {
    if licenses != [] {
      StatusNotesAre(licenses[1..], customer, product, status);
      var rest := OwnedIds(licenses[1..], customer, product);
      if S.Owned(licenses[0], customer, product) {
        assert ([licenses[0].id] + rest)[1..] == rest;
      } else {
        assert [] + rest == rest;
      }
    }
  }

  function NotesFor(ids: seq<nat>, product: nat, status: L.Status): seq<S.Note> {
    if ids == [] then [] else [S.StatusNote(ids[0], product, status)] + NotesFor(ids[1..], product, status)
  }

  lemma {:induction false} EventsOfMarks(ids: seq<nat>, product: nat, status: L.Status, i: nat)
    ensures |NotesFor(ids, product, status)| == |ids|
    ensures i < |ids| ==> NotesFor(ids, product, status)[i] == S.StatusNote(ids[i], product, status)
    decreases |ids|
  {
    if ids != [] {
      EventsOfMarks(ids[1..], product, status, if i == 0 then 0 else i - 1);
    }
  }

  lemma {:induction false} ExtendProjects(rows: map<nat, L.License>, licenses: seq<S.PaidLicense>, l: S.PaidLicense,
                                          until: int)
    requires S.UniqueIds(licenses) && Projects(rows, licenses) && l in licenses && l.id in rows
    ensures Projects(rows[l.id := rows[l.id].(validUntil := until, status := Active)],
                     S.WrittenAll(licenses, S.ExtendChange(l, until)))
  {
    var after := rows[l.id := rows[l.id].(validUntil := until, status := Active)];
    forall i | 0 <= i < |licenses| ensures Shows(after, S.Written(licenses[i], S.ExtendChange(l, until))) {
      assert Shows(rows, licenses[i]);
      if licenses[i].id == l.id {
        assert licenses[i] == l;
      }
    }
    ChangesProject(rows, after, licenses, S.ExtendChange(l, until));
  }

  lemma OwnedIdsListed(rows: map<nat, L.License>, licenses: seq<S.PaidLicense>, customer: nat, product: nat)
    requires Projects(rows, licenses)
    ensures forall lid :: lid in OwnedIds(licenses, customer, product) ==>
              lid in rows && rows[lid].productId == product
  {
    forall lid | lid in OwnedIds(licenses, customer, product) ensures lid in rows && rows[lid].productId == product {
      OwnedIdsAre(licenses, customer, product, lid);
      var i :| 0 <= i < |licenses| && licenses[i].id == lid && S.Owned(licenses[i], customer, product);
      assert Shows(rows, licenses[i]);
    }
  }

  lemma {:induction false} MarkProjects(db: L.Db, licenses: seq<S.PaidLicense>, customer: nat, product: nat,
                                        status: L.Status)
    requires S.UniqueIds(licenses) && Projects(db.licenses, licenses)
    requires forall lid :: lid in OwnedIds(licenses, customer, product) ==> lid in db.licenses
    ensures Projects(R.StripeMarked(db, OwnedIds(licenses, customer, product), status).licenses,
                     S.WrittenAll(licenses, S.MarkChanges(licenses, customer, product, status)))
  {
    var changes := S.MarkChanges(licenses, customer, product, status);
    var after := R.StripeMarked(db, OwnedIds(licenses, customer, product), status).licenses;
    S.MarkChangesAt(licenses, customer, product, status);
    forall i | 0 <= i < |licenses| ensures Shows(after, S.Written(licenses[i], changes)) {
      assert Shows(db.licenses, licenses[i]);
      OwnedIdsAre(licenses, customer, product, licenses[i].id);
    }
    ChangesProject(db.licenses, after, licenses, changes);
  }

  lemma {:induction false} MarkEventsAre(db: L.Db, licenses: seq<S.PaidLicense>, customer: nat, product: nat,
                                         status: L.Status)
    requires Projects(db.licenses, licenses)
    requires forall lid :: lid in OwnedIds(licenses, customer, product) ==> lid in db.licenses
    ensures R.MarkEvents(db, OwnedIds(licenses, customer, product), status) ==
            EventsOf(S.StatusNotes(licenses, customer, product, status))
  {
    var ids := OwnedIds(licenses, customer, product);
    StatusNotesAre(licenses, customer, product, status);
    OwnedIdsListed(db.licenses, licenses, customer, product);
    EventsOfMarks(ids, product, status, 0);
    forall i | 0 <= i < |ids|
      ensures R.MarkEvents(db, ids, status)[i] == EventsOf(NotesFor(ids, product, status))[i] {
      EventsOfMarks(ids, product, status, i);
      assert ids[i] in ids;
    }
  }

  /** What one operation does to the rows the handler knows and to the events. */
  ghost predicate Matches(db: L.Db, op: R.Op, safe: L.ShapeCheck, licenses: seq<S.PaidLicense>, notes: seq<S.Note>) {
    && R.Valid(db, op) && R.Effect(db, op, safe).Ok?
    && Projects(R.Effect(db, op, safe).value.licenses, licenses)
    && R.Effect(db, op, safe).value.events == db.events + EventsOf(notes)
  }

  lemma {:induction false} CreateMatches(db: L.Db, licenses: seq<S.PaidLicense>, customer: nat, o: S.Occurrence,
                                         base: L.License, safe: L.ShapeCheck)
    requires Projects(db.licenses, licenses) && S.Newest(licenses, customer, o.product).None?
    requires IsBase(base, customer, o) && base.id !in db.licenses
    ensures var w := S.LicenseWrites(licenses, customer, o);
            Matches(db, R.StripeCreate(base), safe, S.WrittenAll(licenses, w.changes) + w.licenses,
                    S.LicenseNotes(licenses, customer, o))
  {
    S.WrittenNothing(licenses);
    CreateProjects(db.licenses, licenses, base, customer, o);
  }

  lemma {:induction false} ExtendMatches(db: L.Db, licenses: seq<S.PaidLicense>, customer: nat, o: S.Occurrence,
                                         l: S.PaidLicense, safe: L.ShapeCheck)
    requires S.UniqueIds(licenses) && Projects(db.licenses, licenses)
    requires S.Newest(licenses, customer, o.product) == Some(l)
    ensures var w := S.LicenseWrites(licenses, customer, o);
            Matches(db, R.StripeExtend(l.id, o.now), safe, S.WrittenAll(licenses, w.changes) + w.licenses,
                    S.LicenseNotes(licenses, customer, o))
  {
    var w := S.LicenseWrites(licenses, customer, o);
    NewestIsListed(licenses, customer, o.product);
    assert Shows(db.licenses, l);
    ExtendProjects(db.licenses, licenses, l, S.Extended(l.validUntil, o.now));
    assert S.WrittenAll(licenses, w.changes) + [] == S.WrittenAll(licenses, w.changes);
  }

  lemma {:induction false} MarkMatches(db: L.Db, licenses: seq<S.PaidLicense>, customer: nat, product: nat,
                                       status: L.Status, safe: L.ShapeCheck)
    requires S.UniqueIds(licenses) && Projects(db.licenses, licenses)
    ensures Matches(db, R.StripeStatus(OwnedIds(licenses, customer, product), status), safe,
                    S.WrittenAll(licenses, S.MarkChanges(licenses, customer, product, status)) + [],
                    S.StatusNotes(licenses, customer, product, status))
  {
    OwnedIdsListed(db.licenses, licenses, customer, product);
    MarkProjects(db, licenses, customer, product, status);
    MarkEventsAre(db, licenses, customer, product, status);
    var written := S.WrittenAll(licenses, S.MarkChanges(licenses, customer, product, status));
    assert written + [] == written;
  }

  predicate Ready(s: S.Db, o: S.Occurrence) {
    S.UniqueIds(s.licenses) && o.eventId !in s.processed && S.Handler(s, o).Some?
  }

  lemma {:induction false} PaidIsCall(db: L.Db, s: S.Db, o: S.Occurrence, base: L.License, safe: L.ShapeCheck)
    requires Ready(s, o) && Projects(db.licenses, s.licenses) && BaseFits(s, o, base) && base.id !in db.licenses
    requires o.kind == S.InvoicePaid && CallOf(s, o, base).Some?
    ensures Matches(db, CallOf(s, o, base).value, safe, S.Process(s, o).licenses, S.Notes(s, o))
  {
    var cust := S.FindCustomer(s.customers, o.customer.value);
    var id := if cust.Some? then cust.value.id else o.newCustomer;
    var lic, w := S.Newest(s.licenses, id, o.product), S.LicenseWrites(s.licenses, id, o);
    assert S.Process(s, o).licenses == S.WrittenAll(s.licenses, w.changes) + w.licenses;
    assert S.Notes(s, o) == S.LicenseNotes(s.licenses, id, o);
    if lic.None? {
      CreateMatches(db, s.licenses, id, o, base, safe);
    } else {
      ExtendMatches(db, s.licenses, id, o, lic.value, safe);
    }
  }

  lemma {:induction false} MarkIsCall(db: L.Db, s: S.Db, o: S.Occurrence, base: L.License, safe: L.ShapeCheck)
    requires Ready(s, o) && Projects(db.licenses, s.licenses) && CallOf(s, o, base).Some?
    requires o.kind == S.PaymentFailed || o.kind == S.SubscriptionDeleted
    ensures Matches(db, CallOf(s, o, base).value, safe, S.Process(s, o).licenses, S.Notes(s, o))
  {
    var cust := S.FindCustomer(s.customers, o.customer.value);
    MarkMatches(db, s.licenses, cust.value.id, o.product, if o.kind.PaymentFailed? then Delinquent else Revoked, safe);
  }

  lemma {:induction false} NoCall(s: S.Db, o: S.Occurrence, base: L.License)
    requires Ready(s, o) && CallOf(s, o, base).None?
    ensures S.Process(s, o).licenses == s.licenses && S.Notes(s, o) == []
  {
    S.WrittenNothing(s.licenses);
    assert s.licenses + [] == s.licenses;
  }

  /** Processing an event does to the license rows and the audit log what its operation does: the runs of license
      calls and the Stripe machine speak of one handler. */
  lemma {:induction false} HandlerIsCall(db: L.Db, s: S.Db, o: S.Occurrence, base: L.License, safe: L.ShapeCheck)
    requires Ready(s, o) && Projects(db.licenses, s.licenses) && BaseFits(s, o, base) && base.id !in db.licenses
    ensures var after := S.Process(s, o).licenses;
            match CallOf(s, o, base)
            case None => after == s.licenses && S.Notes(s, o) == []
            case Some(op) => Matches(db, op, safe, after, S.Notes(s, o))
  {
    if CallOf(s, o, base).None? {
      NoCall(s, o, base);
    } else if o.kind.InvoicePaid? {
      PaidIsCall(db, s, o, base, safe);
    } else {
      MarkIsCall(db, s, o, base, safe);
    }
  }
}
