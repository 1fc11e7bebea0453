/** Sequences of `/v1/check` calls on one license (app/services/check.py): what they can never do
    to the webhook columns, and what the install and event tables say about them afterwards. */
module Heartbeats {
  import opened Common
  import opened LicenseModel

  datatype Request = Request(installId: string, version: string, publicUrl: Option<string>, now: int, minted: string)

  function Answer(db: Db, lid: nat, r: Request, safe: ShapeCheck): Result<Db, Failure>
    requires lid in db.licenses
  {
    StageCheck(db, Some(lid), r.installId, r.version, r.publicUrl, r.now, r.minted, safe)
  }

  predicate Accepted(db: Db, lid: nat, r: Request, safe: ShapeCheck)
    requires lid in db.licenses
  {
    Answer(db, lid, r, safe).Ok?
  }

  /** A rejected check raises before its commit. */
  function AfterCheck(db: Db, lid: nat, r: Request, safe: ShapeCheck): (db': Db)
    requires lid in db.licenses
    ensures lid in db'.licenses
  {
    if Accepted(db, lid, r, safe) then Answer(db, lid, r, safe).value else db
  }

  function AfterChecks(db: Db, lid: nat, rs: seq<Request>, safe: ShapeCheck): (db': Db)
    requires lid in db.licenses
    ensures lid in db'.licenses
    decreases |rs|
  {
    if rs == [] then db else AfterChecks(AfterCheck(db, lid, rs[0], safe), lid, rs[1..], safe)
  }

  /** The requests of `rs` that are accepted when run from `db`. */
  function AcceptedOf(db: Db, lid: nat, rs: seq<Request>, safe: ShapeCheck): seq<Request>
    requires lid in db.licenses
    decreases |rs|
  {
    if rs == [] then []
    else (if Accepted(db, lid, rs[0], safe) then [rs[0]] else [])
         + AcceptedOf(AfterCheck(db, lid, rs[0], safe), lid, rs[1..], safe)
  }

  // ----- webhook columns ------------------------------------------------------------------------

  /** `b` is a license `a` may become through checks alone. */
  predicate OwnershipKept(a: License, b: License) {
    && b.source == a.source && b.status == a.status && b.id == a.id && b.allowHttp == a.allowHttp
    && (a.source == Admin ==> b.url == a.url && b.secret == a.secret)
    && (Truthy(a.secret) ==> b.secret == a.secret)
    && (a.url.Some? ==> b.url.Some?)
  }

  lemma {:induction false} ChecksKeepOwnership(db: Db, lid: nat, rs: seq<Request>, safe: ShapeCheck)
    requires lid in db.licenses
    ensures OwnershipKept(db.licenses[lid], AfterChecks(db, lid, rs, safe).licenses[lid])
    decreases |rs|
  {
    if rs != [] {
      ChecksKeepOwnership(AfterCheck(db, lid, rs[0], safe), lid, rs[1..], safe);
    }
  }

  // ----- installs -------------------------------------------------------------------------------

  predicate Matches(i: Install, lid: nat, installId: string) {
    i.licenseId == lid && i.installId == installId
  }

  function Versions(installs: seq<Install>, lid: nat, installId: string): seq<string> {
    if installs == [] then []
    else (if Matches(installs[0], lid, installId) then [installs[0].version] else [])
         + Versions(installs[1..], lid, installId)
  }

  lemma {:induction false} UpsertVersions(installs: seq<Install>, row: Install, lid: nat, installId: string)
    requires |Versions(installs, row.licenseId, row.installId)| <= 1
    ensures Versions(Upserted(installs, row), lid, installId) ==
            if Matches(row, lid, installId) then [row.version] else Versions(installs, lid, installId)
    decreases |installs|
  {
    if installs == [] {
      assert Upserted(installs, row)[1..] == [];
    } else if Matches(installs[0], row.licenseId, row.installId) {
      assert Upserted(installs, row)[1..] == installs[1..];
      assert |Versions(installs[1..], row.licenseId, row.installId)| == 0;
    } else {
      assert Upserted(installs, row)[1..] == Upserted(installs[1..], row);
      UpsertVersions(installs[1..], row, lid, installId);
    }
  }

  function LastVersion(rs: seq<Request>, installId: string): Option<string> {
    if rs == [] then None
    else
      var later := LastVersion(rs[1..], installId);
      if later.Some? then later else if rs[0].installId == installId then Some(rs[0].version) else None
  }

  ghost predicate AtMostOneRow(db: Db, lid: nat) {
    forall installId :: |Versions(db.installs, lid, installId)| <= 1
  }

  lemma {:induction false} CheckUpserts(db: Db, lid: nat, r: Request, installId: string, safe: ShapeCheck)
    requires lid in db.licenses && db.licenses[lid].id == lid && AtMostOneRow(db, lid) && Accepted(db, lid, r, safe)
    ensures Versions(AfterCheck(db, lid, r, safe).installs, lid, installId) ==
            if r.installId == installId then [r.version] else Versions(db.installs, lid, installId)
  {
    UpsertVersions(db.installs, Install(lid, r.installId, r.version, r.now), lid, installId);
  }

  /** Installs stay one row per install id, carrying the version of its last accepted check. */
  lemma {:induction false} ChecksUpsertInstalls(db: Db, lid: nat, rs: seq<Request>, installId: string, safe: ShapeCheck)
    requires lid in db.licenses && db.licenses[lid].id == lid && AtMostOneRow(db, lid)
    ensures AtMostOneRow(AfterChecks(db, lid, rs, safe), lid)
    ensures var last := LastVersion(AcceptedOf(db, lid, rs, safe), installId);
            Versions(AfterChecks(db, lid, rs, safe).installs, lid, installId) ==
            if last.Some? then [last.value] else Versions(db.installs, lid, installId)
    decreases |rs|
  {
    if rs != [] {
      var db' := AfterCheck(db, lid, rs[0], safe);
      var rest := AcceptedOf(db', lid, rs[1..], safe);
      if Accepted(db, lid, rs[0], safe) {
        forall i ensures |Versions(db'.installs, lid, i)| <= 1 {
          CheckUpserts(db, lid, rs[0], i, safe);
        }
        CheckUpserts(db, lid, rs[0], installId, safe);
        assert ([rs[0]] + rest)[1..] == rest;
      } else {
        assert [] + rest == rest;
      }
      ChecksUpsertInstalls(db', lid, rs[1..], installId, safe);
    }
  }

  // ----- heartbeat events ------------------------------------------------------------------------

  function HeartbeatCount(events: seq<Event>, lid: nat): nat {
    if events == [] then 0
    else (if events[0].licenseId == Some(lid) &&
        events[0].kind.Heartbeat? then 1 else 0) + HeartbeatCount(events[1..], lid)
  }

  lemma {:induction false} CountAppends(a: seq<Event>, b: seq<Event>, lid: nat)
    ensures HeartbeatCount(a + b, lid) == HeartbeatCount(a, lid) + HeartbeatCount(b, lid)
    decreases |a|
  {
    if a == [] {
      assert a + b == b;
    } else {
      assert (a + b)[1..] == a[1..] + b;
      CountAppends(a[1..], b, lid);
    }
  }

  /** Every accepted check leaves exactly one heartbeat event; a rejected one leaves none. */
  lemma {:induction false} HeartbeatsCountAcceptedChecks(db: Db, lid: nat, rs: seq<Request>, safe: ShapeCheck)
    requires lid in db.licenses && db.licenses[lid].id == lid
    ensures HeartbeatCount(AfterChecks(db, lid, rs, safe).events, lid) ==
            HeartbeatCount(db.events, lid) + |AcceptedOf(db, lid, rs, safe)|
    decreases |rs|
  {
    if rs != [] {
      var db' := AfterCheck(db, lid, rs[0], safe);
      if Accepted(db, lid, rs[0], safe) {
        var lic, r := db.licenses[lid], rs[0];
        var kinds := CheckedWebhook(lic, r.publicUrl, r.minted).1;
        var beat := [Event(Some(lid), Some(lic.productId), Heartbeat(r.version, r.installId))];
        assert beat[1..] == [];
        assert |kinds| <= 1 && LicenseEvents(lic, kinds)[|kinds|..] == [];
        assert kinds != [] ==> LicenseEvents(lic, kinds)[1..] == LicenseEvents(lic, kinds[1..]);
        CountAppends(db.events, LicenseEvents(lic, kinds), lid);
        CountAppends(db.events + LicenseEvents(lic, kinds), beat, lid);
      }
      HeartbeatsCountAcceptedChecks(db', lid, rs[1..], safe);
    }
  }
}
