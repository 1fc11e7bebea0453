/** Whole runs of license operations, heartbeats, Stripe effects and delivery activity, each of
    which either commits or is lost to an exception or a crash: the webhook outbox holds exactly
    the notices of the committed changes, and the webhook columns stay consistent. */
module LicenseRuns {
  import opened Common
  import opened LicenseModel
  import D = Deliveries
  import S = Stripe

  datatype Op =
    | Issue(base: License, webhookUrl: Option<string>, allowHttp: bool, minted: string)
    | StripeCreate(base: License)
    | StripeExtend(lid: nat, now: int)
    | StripeStatus(lids: seq<nat>, status: Status)
    | SetStatus(lid: nat, status: Status, did: nat, now: int)
    | Edit(lid: nat, form: EditForm, minted: string, did: nat, now: int)
    | Configure(lid: nat, url: Option<string>, rotate: bool, mint: bool, source: Source, flag: Option<bool>,
        minted: string)
    | Convert(lid: nat, minted: string)
    | Delete(lids: seq<nat>, dids: seq<nat>, now: int)
    | DeleteProduct(pid: nat, lids: seq<nat>, dids: seq<nat>, now: int)
    | Check(found: Option<nat>, installId: string, version: string, publicUrl: Option<string>, now: int, minted: string)
    | TestWebhook(lid: nat, did: nat, reply: D.Reply, now: int)
    | Deliver(rows: map<nat, D.Row>)

  function StripeMarked(db: Db, lids: seq<nat>, status: Status): Db
    requires forall lid :: lid in lids ==> lid in db.licenses
  {
    db.(licenses := map lid | lid in db.licenses ::
                      if lid in lids then db.licenses[lid].(status := status) else db.licenses[lid],
        events := db.events + MarkEvents(db, lids, status))
  }

  function MarkEvents(db: Db, lids: seq<nat>, status: Status): seq<Event>
    requires forall lid :: lid in lids ==> lid in db.licenses
  {
    seq(|lids|, i requires 0 <= i < |lids| =>
          Event(Some(lids[i]), Some(db.licenses[lids[i]].productId), StatusSet(status)))
  }

  /** Row ids and delivery ids are fresh, named rows exist, minted secrets are not empty. */
  predicate Valid(db: Db, op: Op) {
    match op
    case Issue(base, _, _, minted) => base.id !in db.licenses && minted != ""
    case StripeCreate(base) => base.id !in db.licenses
    case StripeExtend(lid, _) => lid in db.licenses
    case StripeStatus(lids, _) => forall lid :: lid in lids ==> lid in db.licenses
    case SetStatus(lid, _, did, _) => lid in db.licenses && did !in db.deliveries
    case Edit(lid, _, minted, did, _) => lid in db.licenses && did !in db.deliveries && minted != ""
    case Configure(lid, url, _, _, source, _, minted) => lid in db.licenses && minted != ""
    case Convert(lid, minted) => lid in db.licenses && minted != ""
    case Delete(lids, dids, _) => CanDelete(db, lids) && FreshIds(db, lids, dids)
    case DeleteProduct(_, lids, dids, _) => CanDelete(db, lids) && FreshIds(db, lids, dids)
    case Check(found, _, _, _, _, minted) => (found.Some? ==> found.value in db.licenses) && minted != ""
    case TestWebhook(lid, did, _, _) => lid in db.licenses && did !in db.deliveries
    case Deliver(rows) => SameIdentities(db.deliveries, rows)
  }

  /** What delivery activity may do to the table: any row column but the insert-time ones. */
  predicate SameIdentities(before: map<nat, D.Row>, after: map<nat, D.Row>) {
    after.Keys == before.Keys && forall did :: did in after ==> after[did].identity == before[did].identity
  }

  predicate FreshIds(db: Db, lids: seq<nat>, dids: seq<nat>) {
    |dids| == |lids| && Distinct(dids) && forall did :: did in dids ==> did !in db.deliveries
  }

  function Effect(db: Db, op: Op, safe: ShapeCheck): Result<Db, Failure>
    requires Valid(db, op)
  {
    match op
    case Issue(base, webhookUrl, allowHttp, minted) => StageIssue(db, base, webhookUrl, allowHttp, minted, safe)
    case StripeCreate(base) =>
      Ok(db.(licenses := db.licenses[base.id := StripeLicense(base)],
             events := db.events + [Event(None, Some(base.productId), Issued)]))
    case StripeExtend(lid, now) =>
      var lic := db.licenses[lid];
      var until := S.Extended(lic.validUntil, now);
      Ok(WithEvent(db.(licenses := db.licenses[lid := lic.(validUntil := until, status := Active)]), lic,
          Extended(until)))
    case StripeStatus(lids, status) => Ok(StripeMarked(db, lids, status))
    case SetStatus(lid, status, did, now) => Ok(StageStatus(db, lid, status, did, now))
    case Edit(lid, form, minted, did, now) => StageEdit(db, lid, form, minted, did, now, safe)
    case Configure(lid, url, rotate, mint, source, flag, minted) =>
      StageConfigure(db, lid, url, rotate, mint, source, flag, minted, safe)
    case Convert(lid, minted) => StageConvert(db, lid, minted)
    case Delete(lids, dids, now) => Ok(StageDeletes(db, lids, dids, now))
    case DeleteProduct(pid, lids, dids, now) => Ok(StageProductDelete(db, pid, lids, dids, now))
    case Check(found, installId, version, publicUrl, now, minted) =>
      StageCheck(db, found, installId, version, publicUrl, now, minted, safe)
    case TestWebhook(lid, did, reply, now) => StageTest(db, lid, did, reply, now)
    case Deliver(rows) => Ok(db.(deliveries := rows))
  }

  // ----- the reference: which notices a committed change owes -----------------------------------

  function NoticeTo(lic: License, did: nat, eventType: string, notice: D.Notice): seq<D.Identity> {
    if lic.url.Some? && lic.secret.Some? then
      [D.Identity(did, lic.url.value, lic.secret.value, eventType, D.Json(notice))]
    else []
  }

  predicate PlainFieldsDiffer(a: License, b: License) {
    a.plan != b.plan || a.maxUsers != b.maxUsers || a.validUntil != b.validUntil || a.features != b.features
  }

  function DeletionNotice(db: Db, lid: nat, did: nat): seq<D.Identity>
    requires lid in db.licenses
  {
    var lic := db.licenses[lid];
    NoticeTo(lic, did, EVENT_DELETED, D.LicenseDeleted(FactsOf(db, lic)))
  }

  function DeletionNotices(db: Db, lids: seq<nat>, dids: seq<nat>): seq<D.Identity>
    requires |dids| == |lids| && forall lid :: lid in lids ==> lid in db.licenses
  {
    if lids == [] then [] else DeletionNotice(db, lids[0], dids[0]) + DeletionNotices(db, lids[1..], dids[1..])
  }

  /** Only status sets, edits that change a plain field, and deletions owe a notice. */
  function Owed(db: Db, op: Op, safe: ShapeCheck): seq<D.Identity>
    requires Valid(db, op) && Effect(db, op, safe).Ok?
  {
    match op
    case SetStatus(lid, status, did, _) =>
      var lic := db.licenses[lid];
      NoticeTo(lic, did, EVENT_STATUS_CHANGED,
               D.StatusChanged(FactsOf(db, lic), StatusName(lic.status), StatusName(status)))
    case Edit(lid, form, _, did, _) =>
      var lic := db.licenses[lid];
      var now := Effect(db, op, safe).value.licenses[lid];
      if PlainFieldsDiffer(lic, now) then
        NoticeTo(now, did, EVENT_UPDATED, D.Updated(FactsOf(db, now), StatusName(now.status), ChangedFields(lic, form)))
      else []
    case Delete(lids, dids, _) => DeletionNotices(db, lids, dids)
    case DeleteProduct(_, lids, dids, _) => DeletionNotices(db, lids, dids)
    case _ => []
  }

  // ----- runs -----------------------------------------------------------------------------------

  /** A committed operation, or one lost before its commit. */
  datatype Entry = Entry(op: Op, lost: bool)

  /** The durable tables, and the notices owed by everything committed so far. */
  datatype World = World(db: Db, owed: seq<D.Identity>)

  predicate Commits(w: World, e: Entry, safe: ShapeCheck)
    requires Valid(w.db, e.op)
  {
    !e.lost && Effect(w.db, e.op, safe).Ok?
  }

  function NextWorld(w: World, e: Entry, safe: ShapeCheck): World
    requires Valid(w.db, e.op)
  {
    if Commits(w, e, safe) then World(Effect(w.db, e.op, safe).value, w.owed + Owed(w.db, e.op, safe)) else w
  }

  predicate IsRun(w: World, es: seq<Entry>, safe: ShapeCheck)
    decreases |es|
  {
    es == [] || (Valid(w.db, es[0].op) && IsRun(NextWorld(w, es[0], safe), es[1..], safe))
  }

  function Final(w: World, es: seq<Entry>, safe: ShapeCheck): World
    requires IsRun(w, es, safe)
    decreases |es|
  {
    if es == [] then w else Final(NextWorld(w, es[0], safe), es[1..], safe)
  }

  // ----- webhook columns ------------------------------------------------------------------------

  /** The URL check has no scheme to accept in an empty string. */
  predicate RejectsEmpty(safe: ShapeCheck) {
    !safe("", false) && !safe("", true)
  }

  predicate ConfigOk(lic: License, safe: ShapeCheck) {
    && (lic.url.None? <==> lic.secret.None?)
    && (lic.source == Admin ==> lic.url.Some?)
    && (lic.url.Some? ==> safe(lic.url.value, lic.allowHttp))
    && (lic.secret.Some? ==> lic.secret.value != "")
  }

  predicate SameWebhook(a: License, b: License) {
    a.url == b.url && a.secret == b.secret && a.source == b.source && a.allowHttp == b.allowHttp
  }

  ghost predicate AllConfigOk(db: Db, safe: ShapeCheck) {
    forall lid :: lid in db.licenses ==> db.licenses[lid].id == lid && ConfigOk(db.licenses[lid], safe)
  }

  lemma ConfiguredKeepsConfig(lic: License, url: Option<string>, rotate: bool, mint: bool, source: Source,
                              flag: Option<bool>, minted: string, safe: ShapeCheck)
    requires RejectsEmpty(safe) && ConfigOk(lic, safe) && minted != ""
    ensures var r := Configured(lic, url, rotate, mint, source, flag, minted, safe); r.Ok? ==> ConfigOk(r.value, safe)
  {
  }

  lemma EditKeepsConfig(lic: License, f: EditForm, minted: string, safe: ShapeCheck)
    requires RejectsEmpty(safe) && ConfigOk(lic, safe) && minted != ""
    ensures var r := EditedLicense(lic, f, minted, safe); r.Ok? ==> ConfigOk(r.value, safe) && r.value.id == lic.id
  {
  }

  /** A save that repeats the row's URL never relabels it, and changes the secret only on an explicit
      rotation. */
  lemma EditKeepsProvenance(lic: License, f: EditForm, minted: string, safe: ShapeCheck)
    requires RejectsEmpty(safe) && ConfigOk(lic, safe) && minted != "" && lic.secret != Some(minted)
    requires OrNone(Strip(f.webhookUrl)) == lic.url && EditedLicense(lic, f, minted, safe).Ok?
    ensures var lic' := EditedLicense(lic, f, minted, safe).value;
            && lic'.url == lic.url && lic'.source == lic.source
            && (lic'.secret != lic.secret <==> f.rotate && lic.url.Some?)
  {
  }

  /** An accepted edit that posts the http flag stores it, except that switching it on is lost on an edit that
      clears the URL, or that rotates without one. */
  lemma EditAppliesFlagIff(lic: License, f: EditForm, minted: string, safe: ShapeCheck)
    requires f.allowHttp.Some? && EditedLicense(lic, f, minted, safe).Ok?
    ensures var newUrl := OrNone(Strip(f.webhookUrl));
            EditedLicense(lic, f, minted, safe).value.allowHttp == f.allowHttp.value <==>
            newUrl.Some? || (lic.url.None? && !f.rotate) || !f.allowHttp.value
  {
  }

  /** Two edits that lose the flag they post: one clears the URL, one rotates a secret that is not there. */
  lemma FlagLost(safe: ShapeCheck)
    requires safe("https://c", false)
    ensures var plain := License(0, 0, 0, "k", "standard", 10, "{}", 100, Active, None, None, Self, false);
            var hooked := plain.(url := Some("https://c"), secret := Some("s"));
            var blank := EditForm("standard", 10, Some(100), Some("{}"), "", Some(true), false);
            && ConfigOk(hooked, safe) && ConfigOk(plain, safe)
            && EditedLicense(hooked, blank, "m", safe) == Ok(plain)
            && EditedLicense(plain, blank.(rotate := true), "m", safe) == Ok(plain)
  {
  }

  lemma {:induction false} DeletesKeepOthers(db: Db, lids: seq<nat>, dids: seq<nat>, now: int)
    requires |dids| == |lids| && CanDelete(db, lids)
    ensures var db' := StageDeletes(db, lids, dids, now);
            && (forall lid :: lid in db'.licenses <==> lid in db.licenses && lid !in lids)
            && (forall lid :: lid in db'.licenses ==> db'.licenses[lid] == db.licenses[lid])
    decreases |lids|
  {
    if lids != [] {
      var db1 := StageDelete(db, lids[0], dids[0], now);
      assert db1.licenses == db.licenses - {lids[0]};
      DeletesKeepOthers(db1, lids[1..], dids[1..], now);
      forall lid ensures lid in lids <==> lid == lids[0] || lid in lids[1..] {
        FirstOrRest(lids, lid);
      }
    }
  }

  lemma FirstOrRest(lids: seq<nat>, lid: nat)
    requires lids != []
    ensures lid in lids <==> lid == lids[0] || lid in lids[1..]
  {
    assert lids == [lids[0]] + lids[1..];
  }

  lemma CheckKeepsConfig(lic: License, publicUrl: Option<string>, minted: string, safe: ShapeCheck)
    requires RejectsEmpty(safe) && ConfigOk(lic, safe) && minted != "" && !CandidateRefused(lic, publicUrl, safe)
    ensures ConfigOk(CheckedWebhook(lic, publicUrl, minted).0, safe) &&
            CheckedWebhook(lic, publicUrl, minted).0.id == lic.id
  {
  }

  /** What an operation on the license makes of the copy of its row it has loaded; an error when it raises. */
  function RowAfter(op: Op, row: License, safe: ShapeCheck): Result<License, Failure> {
    match op
    case StripeExtend(_, now) => Ok(row.(validUntil := S.Extended(row.validUntil, now), status := Active))
    case StripeStatus(_, status) => Ok(row.(status := status))
    case SetStatus(_, status, _, _) => Ok(row.(status := status))
    case Edit(_, form, minted, _, _) => EditedLicense(row, form, minted, safe)
    case Configure(_, url, rotate, mint, source, flag, minted) =>
      Configured(row, url, rotate, mint, source, flag, minted, safe)
    case Convert(_, minted) => ConvertedLicense(row, minted)
    case Check(_, _, _, publicUrl, now, minted) =>
      var why := RejectReason(row, publicUrl, now, safe);
      if why.Some? then Err(CheckRejected(why.value)) else Ok(CheckedWebhook(row, publicUrl, minted).0)
    case _ => Err(Invalid(""))
  }

  /** The row a license operation leaves at `lid`, when it creates that row or touches its webhook columns. */
  function Rewritten(db: Db, op: Op, safe: ShapeCheck): Result<(nat, License), Failure>
    requires Valid(db, op)
  {
    match op
    case Issue(base, webhookUrl, allowHttp, minted) =>
      var r := IssuedLicense(base, webhookUrl, allowHttp, minted, safe);
      if r.Ok? then Ok((base.id, r.value)) else Err(r.error)
    case StripeCreate(base) => Ok((base.id, StripeLicense(base)))
    case Edit(lid, _, _, _, _) => AtRow(lid, RowAfter(op, db.licenses[lid], safe))
    case Configure(lid, _, _, _, _, _, _) => AtRow(lid, RowAfter(op, db.licenses[lid], safe))
    case Convert(lid, _) => AtRow(lid, RowAfter(op, db.licenses[lid], safe))
    case Check(Some(lid), _, _, _, _, _) => AtRow(lid, RowAfter(op, db.licenses[lid], safe))
    case _ => Err(Invalid(""))
  }

  function AtRow(lid: nat, r: Result<License, Failure>): Result<(nat, License), Failure> {
    if r.Ok? then Ok((lid, r.value)) else Err(r.error)
  }

  lemma RewrittenKeepsConfig(db: Db, op: Op, safe: ShapeCheck)
    requires RejectsEmpty(safe) && AllConfigOk(db, safe) && Valid(db, op) && Rewritten(db, op, safe).Ok?
    ensures var (lid, lic) := Rewritten(db, op, safe).value; lic.id == lid && ConfigOk(lic, safe)
  {
    match op
    case Edit(lid, form, minted, did, now) => EditKeepsConfig(db.licenses[lid], form, minted, safe);
    case Configure(lid, url, rotate, mint, source, flag, minted) =>
      ConfiguredKeepsConfig(db.licenses[lid], url, rotate, mint, source, flag, minted, safe);
    case Check(found, installId, version, publicUrl, now, minted) =>
      CheckKeepsConfig(db.licenses[found.value], publicUrl, minted, safe);
    case _ =>
  }

  lemma EffectRewrites(db: Db, op: Op, safe: ShapeCheck)
    requires Valid(db, op) && Effect(db, op, safe).Ok? && Rewritten(db, op, safe).Ok?
    ensures var (lid, lic) := Rewritten(db, op, safe).value;
            Effect(db, op, safe).value.licenses == db.licenses[lid := lic]
  {
  }

  lemma RewriteKeepsConfig(db: Db, op: Op, safe: ShapeCheck)
    requires RejectsEmpty(safe) && AllConfigOk(db, safe) && Valid(db, op) && Effect(db, op, safe).Ok?
    requires Rewritten(db, op, safe).Ok?
    ensures AllConfigOk(Effect(db, op, safe).value, safe)
  {
    RewrittenKeepsConfig(db, op, safe);
    EffectRewrites(db, op, safe);
  }

  /** Every row is still there with its webhook columns and id. */
  ghost predicate WebhooksKept(db: Db, db': Db) {
    db'.licenses.Keys == db.licenses.Keys &&
    forall lid :: lid in db.licenses ==>
      SameWebhook(db.licenses[lid], db'.licenses[lid]) && db'.licenses[lid].id == db.licenses[lid].id
  }

  lemma StatusKeepsWebhooks(db: Db, lid: nat, status: Status, did: nat, now: int)
    requires lid in db.licenses
    ensures WebhooksKept(db, StageStatus(db, lid, status, did, now))
  {
  }

  lemma StripeKeepsWebhooks(db: Db, op: Op, safe: ShapeCheck)
    requires Valid(db, op) && (op.StripeExtend? || op.StripeStatus?)
    ensures WebhooksKept(db, Effect(db, op, safe).value)
  {
  }

  /** Status changes, Stripe renewals and deliveries leave every row's webhook columns alone. */
  lemma OthersKeepWebhooks(db: Db, op: Op, safe: ShapeCheck)
    requires Valid(db, op) && Effect(db, op, safe).Ok?
    requires op.SetStatus? || op.StripeExtend? || op.StripeStatus? || op.TestWebhook? || op.Deliver?
    ensures WebhooksKept(db, Effect(db, op, safe).value)
  {
    match op
    case SetStatus(lid, status, did, now) => StatusKeepsWebhooks(db, lid, status, did, now);
    case TestWebhook(lid, did, reply, now) => assert Effect(db, op, safe).value.licenses == db.licenses;
    case Deliver(_) => assert Effect(db, op, safe).value.licenses == db.licenses;
    case _ => StripeKeepsWebhooks(db, op, safe);
  }

  lemma DeletesKeepConfig(db: Db, op: Op, safe: ShapeCheck)
    requires AllConfigOk(db, safe) && Valid(db, op) && (op.Delete? || op.DeleteProduct?)
    ensures AllConfigOk(Effect(db, op, safe).value, safe)
  {
    DeletesKeepOthers(db, op.lids, op.dids, op.now);
  }

  lemma KeptWebhooksKeepConfig(db: Db, db': Db, safe: ShapeCheck)
    requires AllConfigOk(db, safe) && WebhooksKept(db, db')
    ensures AllConfigOk(db', safe)
  {
  }

  lemma StepKeepsConfig(db: Db, op: Op, safe: ShapeCheck)
    requires RejectsEmpty(safe) && AllConfigOk(db, safe) && Valid(db, op) && Effect(db, op, safe).Ok?
    ensures AllConfigOk(Effect(db, op, safe).value, safe)
  {
    if op.Delete? || op.DeleteProduct? {
      DeletesKeepConfig(db, op, safe);
    } else if op.SetStatus? || op.StripeExtend? || op.StripeStatus? || op.TestWebhook? || op.Deliver? {
      OthersKeepWebhooks(db, op, safe);
      KeptWebhooksKeepConfig(db, Effect(db, op, safe).value, safe);
    } else {
      RewriteKeepsConfig(db, op, safe);
    }
  }

  lemma {:induction false} RunKeepsConfig(w: World, es: seq<Entry>, safe: ShapeCheck)
    requires RejectsEmpty(safe) && AllConfigOk(w.db, safe) && IsRun(w, es, safe)
    ensures AllConfigOk(Final(w, es, safe).db, safe)
    decreases |es|
  {
    if es != [] {
      if Commits(w, es[0], safe) {
        StepKeepsConfig(w.db, es[0].op, safe);
      }
      RunKeepsConfig(NextWorld(w, es[0], safe), es[1..], safe);
    }
  }

  // ----- the outbox -----------------------------------------------------------------------------

  /** Durable non-test delivery rows and owed notices are in one-to-one correspondence. */
  ghost predicate OutboxExact(deliveries: map<nat, D.Row>, owed: seq<D.Identity>) {
    && (forall i, j :: 0 <= i < j < |owed| ==> owed[i].id != owed[j].id)
    && (forall i :: 0 <= i < |owed| ==>
          owed[i].id in deliveries && deliveries[owed[i].id].identity == owed[i] && owed[i].eventType != D.TEST_EVENT)
    && (forall did :: did in deliveries && deliveries[did].identity.eventType != D.TEST_EVENT ==>
          deliveries[did].identity in owed)
  }

  /** The delivery table after one fresh pending row per notice. */
  function Inbox(deliveries: map<nat, D.Row>, notices: seq<D.Identity>, now: int): map<nat, D.Row>
    decreases |notices|
  {
    if notices == [] then deliveries
    else Inbox(deliveries[notices[0].id := D.Enqueued(notices[0], now)], notices[1..], now)
  }

  predicate FreshNotices(deliveries: map<nat, D.Row>, notices: seq<D.Identity>) {
    && (forall i, j :: 0 <= i < j < |notices| ==> notices[i].id != notices[j].id)
    && (forall i :: 0 <= i < |notices| ==> notices[i].id !in deliveries && notices[i].eventType != D.TEST_EVENT)
  }

  lemma {:induction false} SameNotices(db: Db, db1: Db, lids: seq<nat>, dids: seq<nat>)
    requires |dids| == |lids| && db1.slugs == db.slugs && db1.emails == db.emails
    requires forall lid :: lid in lids ==>
               lid in db.licenses && lid in db1.licenses && db1.licenses[lid] == db.licenses[lid]
    ensures DeletionNotices(db1, lids, dids) == DeletionNotices(db, lids, dids)
    decreases |lids|
  {
    if lids != [] {
      SameNotices(db, db1, lids[1..], dids[1..]);
    }
  }

  lemma {:induction false} DeletesQueue(db: Db, lids: seq<nat>, dids: seq<nat>, now: int, safe: ShapeCheck)
    requires AllConfigOk(db, safe) && RejectsEmpty(safe) && CanDelete(db, lids) && |dids| == |lids|
    ensures StageDeletes(db, lids, dids, now).deliveries == Inbox(db.deliveries, DeletionNotices(db, lids, dids), now)
    decreases |lids|
  {
    if lids != [] {
      var db1 := StageDelete(db, lids[0], dids[0], now);
      DeleteQueuesOne(db, lids[0], dids[0], now, safe);
      DeletesQueue(db1, lids[1..], dids[1..], now, safe);
      SameNotices(db, db1, lids[1..], dids[1..]);
      InboxOneThenRest(db.deliveries, DeletionNotice(db, lids[0], dids[0]), DeletionNotices(db, lids[1..], dids[1..]),
          now);
    }
  }

  lemma {:induction false} DeleteQueuesOne(db: Db, lid: nat, did: nat, now: int, safe: ShapeCheck)
    requires AllConfigOk(db, safe) && RejectsEmpty(safe) && lid in db.licenses
    ensures var db1 := StageDelete(db, lid, did, now);
            && AllConfigOk(db1, safe) && db1.licenses == db.licenses - {lid}
            && db1.slugs == db.slugs && db1.emails == db.emails
            && db1.deliveries == Inbox(db.deliveries, DeletionNotice(db, lid, did), now)
  {
    OneNotice(db.deliveries, DeletionNotice(db, lid, did), now);
  }

  lemma {:induction false} InboxOneThenRest(deliveries: map<nat, D.Row>, first: seq<D.Identity>,
                                            rest: seq<D.Identity>, now: int)
    requires |first| <= 1
    ensures Inbox(deliveries, first + rest, now) == Inbox(Inbox(deliveries, first, now), rest, now)
  {
    if first == [] {
      assert first + rest == rest;
    } else {
      assert (first + rest)[1..] == rest && first[1..] == [];
    }
  }

  lemma {:induction false} DeletionNoticesFresh(db: Db, lids: seq<nat>, dids: seq<nat>)
    requires CanDelete(db, lids) && FreshIds(db, lids, dids)
    ensures FreshNotices(db.deliveries, DeletionNotices(db, lids, dids))
    ensures forall n :: n in DeletionNotices(db, lids, dids) ==> n.id in dids
    decreases |lids|
  {
    if lids != [] {
      DeletionNoticesFresh(db, lids[1..], dids[1..]);
    }
  }

  lemma {:induction false} InboxKeepsOutbox(deliveries: map<nat, D.Row>, owed: seq<D.Identity>,
                                            notices: seq<D.Identity>, now: int)
    requires OutboxExact(deliveries, owed) && FreshNotices(deliveries, notices)
    ensures OutboxExact(Inbox(deliveries, notices, now), owed + notices)
    decreases |notices|
  {
    if notices == [] {
      assert owed + notices == owed;
    } else {
      var n, rest := notices[0], notices[1..];
      var deliveries', owed' := deliveries[n.id := D.Enqueued(n, now)], owed + [n];
      assert owed'[|owed|] == n;
      assert forall x :: x in owed ==> x in owed';
      assert OutboxExact(deliveries', owed');
      InboxKeepsOutbox(deliveries', owed', rest, now);
      assert owed' + rest == owed + notices;
    }
  }

  lemma EditSetsPlainFields(lic: License, f: EditForm, minted: string, safe: ShapeCheck)
    requires EditedLicense(lic, f, minted, safe).Ok?
    ensures PlainFieldsDiffer(lic, EditedLicense(lic, f, minted, safe).value) <==> ChangedFields(lic, f) != []
  {
    var lic' := EditedLicense(lic, f, minted, safe).value;
    assert lic'.plan == f.plan && lic'.maxUsers == f.maxUsers;
    assert Some(lic'.validUntil) == f.validUntil && Some(lic'.features) == f.features;
  }

  lemma EditNotifies(db: Db, lid: nat, f: EditForm, minted: string, did: nat, now: int, safe: ShapeCheck)
    requires RejectsEmpty(safe) && AllConfigOk(db, safe) && lid in db.licenses && minted != ""
    requires StageEdit(db, lid, f, minted, did, now, safe).Ok?
    ensures var before := db.licenses[lid]; var lic := EditedLicense(before, f, minted, safe).value;
            var db' := StageEdit(db, lid, f, minted, did, now, safe).value;
            var notices := if PlainFieldsDiffer(before, lic)
              then NoticeTo(lic, did, EVENT_UPDATED,
                  D.Updated(FactsOf(db, lic), StatusName(lic.status), ChangedFields(before, f)))
              else [];
            db'.licenses[lid] == lic &&
            db'.deliveries == if notices == [] then db.deliveries
                              else db.deliveries[did := D.Enqueued(notices[0], now)]
  {
    EditKeepsConfig(db.licenses[lid], f, minted, safe);
    EditSetsPlainFields(db.licenses[lid], f, minted, safe);
  }

  /** A committed notifying operation adds exactly its notices to the table. */
  lemma NotifyingStep(db: Db, op: Op, safe: ShapeCheck)
    requires RejectsEmpty(safe) && AllConfigOk(db, safe) && Valid(db, op) && Effect(db, op, safe).Ok?
    requires op.SetStatus? || op.Edit? || op.Delete? || op.DeleteProduct?
    ensures FreshNotices(db.deliveries, Owed(db, op, safe))
    ensures Effect(db, op, safe).value.deliveries == Inbox(db.deliveries, Owed(db, op, safe), op.now)
  {
    match op
    case SetStatus(lid, status, did, now) => OneNotice(db.deliveries, Owed(db, op, safe), now);
    case Edit(lid, form, minted, did, now) =>
      EditNotifies(db, lid, form, minted, did, now, safe);
      OneNotice(db.deliveries, Owed(db, op, safe), now);
    case Delete(lids, dids, now) =>
      DeletesQueue(db, lids, dids, now, safe);
      DeletionNoticesFresh(db, lids, dids);
    case DeleteProduct(pid, lids, dids, now) =>
      DeletesQueue(db, lids, dids, now, safe);
      DeletionNoticesFresh(db, lids, dids);
  }

  lemma {:induction false} OneNotice(deliveries: map<nat, D.Row>, notices: seq<D.Identity>, now: int)
    requires |notices| <= 1
    ensures Inbox(deliveries, notices, now) ==
            if notices == [] then deliveries else deliveries[notices[0].id := D.Enqueued(notices[0], now)]
  {
  }

  lemma StepKeepsOutbox(db: Db, owed: seq<D.Identity>, op: Op, safe: ShapeCheck)
    requires RejectsEmpty(safe) && AllConfigOk(db, safe) && OutboxExact(db.deliveries, owed)
    requires Valid(db, op) && Effect(db, op, safe).Ok?
    ensures OutboxExact(Effect(db, op, safe).value.deliveries, owed + Owed(db, op, safe))
  {
    if op.SetStatus? || op.Edit? || op.Delete? || op.DeleteProduct? {
      NotifyingStep(db, op, safe);
      InboxKeepsOutbox(db.deliveries, owed, Owed(db, op, safe), op.now);
    } else {
      assert owed + [] == owed;
    }
  }

  /** Over every run with losses, the durable delivery rows are exactly the notices owed by the
      committed status sets, effective edits and deletions, apart from test rows. */
  lemma {:induction false} OutboxStaysExact(w: World, es: seq<Entry>, safe: ShapeCheck)
    requires RejectsEmpty(safe) && AllConfigOk(w.db, safe) && OutboxExact(w.db.deliveries, w.owed) && IsRun(w, es, safe)
    ensures OutboxExact(Final(w, es, safe).db.deliveries, Final(w, es, safe).owed)
    decreases |es|
  {
    if es != [] {
      if Commits(w, es[0], safe) {
        StepKeepsOutbox(w.db, w.owed, es[0].op, safe);
        StepKeepsConfig(w.db, es[0].op, safe);
      }
      OutboxStaysExact(NextWorld(w, es[0], safe), es[1..], safe);
    }
  }

  // ----- what only an operator may change ----------------------------------------------------------

  /** The operations that may set a license's webhook columns, create the row or delete it. */
  predicate TouchesWebhook(op: Op, lid: nat) {
    match op
    case Issue(base, _, _, _) => base.id == lid
    case StripeCreate(base) => base.id == lid
    case Edit(l, _, _, _, _) => l == lid
    case Configure(l, _, _, _, _, _, _) => l == lid
    case Convert(l, _) => l == lid
    case Delete(lids, _, _) => lid in lids
    case DeleteProduct(_, lids, _, _) => lid in lids
    case _ => false
  }

  lemma CheckKeepsAdminWebhook(db: Db, op: Op, lid: nat, safe: ShapeCheck)
    requires Valid(db, op) && lid in db.licenses && db.licenses[lid].source == Admin && !TouchesWebhook(op, lid)
    requires Rewritten(db, op, safe).Ok? && Rewritten(db, op, safe).value.0 == lid
    ensures SameWebhook(db.licenses[lid], Rewritten(db, op, safe).value.1)
  {
  }

  lemma StepKeepsAdminWebhook(db: Db, op: Op, lid: nat, safe: ShapeCheck)
    requires Valid(db, op) && Effect(db, op, safe).Ok?
    requires lid in db.licenses && db.licenses[lid].source == Admin && !TouchesWebhook(op, lid)
    ensures lid in Effect(db, op, safe).value.licenses
    ensures SameWebhook(db.licenses[lid], Effect(db, op, safe).value.licenses[lid])
  {
    if op.Delete? || op.DeleteProduct? {
      DeletesKeepOthers(db, op.lids, op.dids, op.now);
    } else if op.SetStatus? || op.StripeExtend? || op.StripeStatus? || op.TestWebhook? || op.Deliver? {
      OthersKeepWebhooks(db, op, safe);
    } else {
      RewriteKeepsAdminWebhook(db, op, lid, safe);
    }
  }

  lemma RewriteKeepsAdminWebhook(db: Db, op: Op, lid: nat, safe: ShapeCheck)
    requires Valid(db, op) && Effect(db, op, safe).Ok? && Rewritten(db, op, safe).Ok?
    requires lid in db.licenses && db.licenses[lid].source == Admin && !TouchesWebhook(op, lid)
    ensures lid in Effect(db, op, safe).value.licenses
    ensures SameWebhook(db.licenses[lid], Effect(db, op, safe).value.licenses[lid])
  {
    EffectRewrites(db, op, safe);
    if Rewritten(db, op, safe).value.0 == lid {
      CheckKeepsAdminWebhook(db, op, lid, safe);
    }
  }

  /** A webhook an operator set stays as set, URL, secret, source and flag, until an operator edits,
      configures, converts or deletes it, whatever heartbeats, Stripe events and deliveries come in between. */
  lemma {:induction false} AdminWebhookStays(w: World, es: seq<Entry>, lid: nat, safe: ShapeCheck)
    requires IsRun(w, es, safe) && lid in w.db.licenses && w.db.licenses[lid].source == Admin
    requires forall e :: e in es ==> !TouchesWebhook(e.op, lid)
    ensures lid in Final(w, es, safe).db.licenses &&
            SameWebhook(w.db.licenses[lid], Final(w, es, safe).db.licenses[lid])
    decreases |es|
  {
    if es != [] {
      if Commits(w, es[0], safe) {
        StepKeepsAdminWebhook(w.db, es[0].op, lid, safe);
      }
      AdminWebhookStays(NextWorld(w, es[0], safe), es[1..], lid, safe);
    }
  }

  // ----- what a deletion leaves --------------------------------------------------------------------

  predicate PointsInto(e: Event, lids: seq<nat>) {
    e.licenseId.Some? && e.licenseId.value in lids
  }

  lemma {:induction false} InstallsLeft(installs: seq<Install>, lid: nat, x: Install)
    ensures x in WithoutInstalls(installs, lid) <==> x in installs && x.licenseId != lid
    decreases |installs|
  {
    if installs != [] {
      InstallsLeft(installs[1..], lid, x);
      assert installs == [installs[0]] + installs[1..];
    }
  }

  lemma {:induction false} DeletesTakeInstalls(db: Db, lids: seq<nat>, dids: seq<nat>, now: int, x: Install)
    requires |dids| == |lids| && CanDelete(db, lids)
    ensures x in StageDeletes(db, lids, dids, now).installs <==> x in db.installs && x.licenseId !in lids
    decreases |lids|
  {
    if lids != [] {
      InstallsLeft(db.installs, lids[0], x);
      DeletesTakeInstalls(StageDelete(db, lids[0], dids[0], now), lids[1..], dids[1..], now, x);
      FirstOrRest(lids, x.licenseId);
    }
  }

  /** An audit event after the licenses are gone: its pointer to one of them is dropped. */
  function Orphaned(e: Event, lids: seq<nat>): Event {
    if PointsInto(e, lids) then e.(licenseId := None) else e
  }

  lemma OrphanedTwice(e: Event, lids: seq<nat>)
    requires lids != []
    ensures Orphaned(Orphaned(e, [lids[0]]), lids[1..]) == Orphaned(e, lids)
  {
    if e.licenseId.Some? {
      FirstOrRest(lids, e.licenseId.value);
    }
  }

  /** The audit event a deletion adds: it points at the product, not at the license. */
  function DeletionEvent(db: Db, lid: nat): Event
    requires lid in db.licenses
  {
    var lic := db.licenses[lid];
    Event(None, Some(lic.productId), LicenseDeleted(FactsOf(db, lic)))
  }

  lemma OneDeletesEvents(db: Db, lid: nat, did: nat, now: int)
    requires lid in db.licenses
    ensures var events := StageDelete(db, lid, did, now).events;
            && |events| == |db.events| + 1
            && events[|db.events|] == DeletionEvent(db, lid)
            && forall i :: 0 <= i < |db.events| ==> events[i] == Orphaned(db.events[i], [lid])
  {
  }

  function DeletionEvents(db: Db, lids: seq<nat>): seq<Event>
    requires forall lid :: lid in lids ==> lid in db.licenses
  {
    seq(|lids|, i requires 0 <= i < |lids| => DeletionEvent(db, lids[i]))
  }

  lemma LaterDeletionEvents(db: Db, db1: Db, lids: seq<nat>)
    requires lids != [] && db1.slugs == db.slugs && db1.emails == db.emails
    requires forall lid :: lid in lids ==> lid in db.licenses
    requires forall lid :: lid in lids[1..] ==> lid in db1.licenses && db1.licenses[lid] == db.licenses[lid]
    ensures DeletionEvents(db1, lids[1..]) == DeletionEvents(db, lids)[1..]
  {
    forall i | 0 <= i < |lids| - 1 ensures DeletionEvents(db1, lids[1..])[i] == DeletionEvents(db, lids)[1..][i] {
      assert lids[1..][i] == lids[i + 1] && lids[i + 1] in lids;
    }
  }

  /** The events of the first deletion, then of the others. */
  lemma ComposeEvents(before: seq<Event>, mid: seq<Event>, after: seq<Event>, added: seq<Event>, lids: seq<nat>)
    requires lids != [] && |added| == |lids| && added[0].licenseId.None?
    requires |mid| == |before| + 1 && mid[|before|] == added[0]
    requires forall i :: 0 <= i < |before| ==> mid[i] == Orphaned(before[i], [lids[0]])
    requires |after| == |mid| + |lids| - 1 && after[|mid|..] == added[1..]
    requires forall i :: 0 <= i < |mid| ==> after[i] == Orphaned(mid[i], lids[1..])
    ensures after[|before|..] == added
    ensures forall i :: 0 <= i < |before| ==> after[i] == Orphaned(before[i], lids)
  {
    assert after[|before|] == added[0];
    assert after[|before|..] == [added[0]] + after[|mid|..];
    forall i | 0 <= i < |before| ensures after[i] == Orphaned(before[i], lids) {
      OrphanedTwice(before[i], lids);
    }
  }

  lemma {:induction false} DeletesKeepEvents(db: Db, lids: seq<nat>, dids: seq<nat>, now: int)
    requires |dids| == |lids| && CanDelete(db, lids)
    ensures var events := StageDeletes(db, lids, dids, now).events;
            && |events| == |db.events| + |lids| && events[|db.events|..] == DeletionEvents(db, lids)
            && (forall i :: 0 <= i < |db.events| ==> events[i] == Orphaned(db.events[i], lids))
    decreases |lids|
  {
    if lids != [] {
      var db1 := StageDelete(db, lids[0], dids[0], now);
      OneDeletesEvents(db, lids[0], dids[0], now);
      DeletesKeepEvents(db1, lids[1..], dids[1..], now);
      LaterDeletionEvents(db, db1, lids);
      ComposeEvents(db.events, db1.events, StageDeletes(db1, lids[1..], dids[1..], now).events,
                    DeletionEvents(db, lids), lids);
    }
  }

  /** A batch of deletions takes the installs of the deleted licenses and no others, keeps every audit event
      with only its pointer to a deleted license dropped, and adds one event per license. */
  lemma {:induction false} DeletesKeepAudit(db: Db, lids: seq<nat>, dids: seq<nat>, now: int)
    requires |dids| == |lids| && CanDelete(db, lids)
    ensures var db' := StageDeletes(db, lids, dids, now);
            && (forall x :: x in db'.installs <==> x in db.installs && x.licenseId !in lids)
            && |db'.events| == |db.events| + |lids|
            && (forall i :: 0 <= i < |db.events| ==> db'.events[i] == Orphaned(db.events[i], lids))
            && db'.events[|db.events|..] == DeletionEvents(db, lids)
  {
    DeletesKeepEvents(db, lids, dids, now);
    forall x: Install
      ensures x in StageDeletes(db, lids, dids, now).installs <==> x in db.installs && x.licenseId !in lids
    {
      DeletesTakeInstalls(db, lids, dids, now, x);
    }
  }

  lemma {:induction false} FlushedUpTo(pairs: seq<Option<nat>>)
    ensures FlushedEvents(pairs) <= |pairs|
    ensures FlushedEvents(pairs) == |pairs| <==> pairs == [] || pairs[|pairs| - 1].Some?
    decreases |pairs|
  {
    if pairs != [] && pairs[|pairs| - 1].None? {
      FlushedUpTo(pairs[..|pairs| - 1]);
    }
  }

  /** A product's deletion takes its presets and leaves no audit event pointing at it exactly when the last of
      its licenses queues a notice, or it has none: a later deletion event is not flushed when the pointers are
      dropped. */
  lemma ProductPointersClearedIff(db: Db, pid: nat, lids: seq<nat>, dids: seq<nat>, now: int)
    requires |dids| == |lids| && CanDelete(db, lids)
    requires forall lid :: lid in lids ==> db.licenses[lid].productId == pid
    ensures var db' := StageProductDelete(db, pid, lids, dids, now);
            && (forall p :: p in db'.presets <==> p in db.presets && db.presets[p] != pid)
            && ((forall i :: 0 <= i < |db'.events| ==> db'.events[i].productId != Some(pid)) <==>
                lids == [] || Notifies(db.licenses[lids[|lids| - 1]]))
  {
    var pairs, db1 := DeletionIds(db, lids, dids), StageDeletes(db, lids, dids, now);
    var flushed, db' := |db.events| + FlushedEvents(pairs), StageProductDelete(db, pid, lids, dids, now);
    FlushedUpTo(pairs);
    DeletesKeepEvents(db, lids, dids, now);
    DeletesKeepPresets(db, lids, dids, now);
    if lids != [] && !Notifies(db.licenses[lids[|lids| - 1]]) {
      var last := |db.events| + (|lids| - 1);
      assert db1.events[last] == db1.events[|db.events|..][|lids| - 1] == DeletionEvents(db, lids)[|lids| - 1];
      assert db'.events[last] == db1.events[last];
    }
  }

  lemma {:induction false} DeletesKeepPresets(db: Db, lids: seq<nat>, dids: seq<nat>, now: int)
    requires |dids| == |lids| && CanDelete(db, lids)
    ensures StageDeletes(db, lids, dids, now).presets == db.presets
    decreases |lids|
  {
    if lids != [] {
      DeletesKeepPresets(StageDelete(db, lids[0], dids[0], now), lids[1..], dids[1..], now);
    }
  }

  // ----- a disabled or revoked license answers no heartbeat ----------------------------------------

  /** The operation may set the license's status or create a license under its id. */
  predicate MayRevive(op: Op, lid: nat) {
    match op
    case Issue(base, _, _, _) => base.id == lid
    case StripeCreate(base) => base.id == lid
    case StripeExtend(l, _) => l == lid
    case StripeStatus(lids, _) => lid in lids
    case SetStatus(l, _, _, _) => l == lid
    case _ => false
  }

  predicate Locked(db: Db, lid: nat) {
    lid in db.licenses ==> db.licenses[lid].status == Disabled || db.licenses[lid].status == Revoked
  }

  lemma RewrittenKeepsStatus(db: Db, op: Op, lid: nat, safe: ShapeCheck)
    requires Valid(db, op) && !MayRevive(op, lid) && Rewritten(db, op, safe).Ok? &&
             Rewritten(db, op, safe).value.0 == lid
    ensures lid in db.licenses && Rewritten(db, op, safe).value.1.status == db.licenses[lid].status
  {
  }

  lemma StepKeepsLocked(db: Db, op: Op, lid: nat, safe: ShapeCheck)
    requires Valid(db, op) && Effect(db, op, safe).Ok? && Locked(db, lid) && !MayRevive(op, lid)
    ensures Locked(Effect(db, op, safe).value, lid)
  {
    if Rewritten(db, op, safe).Ok? {
      EffectRewrites(db, op, safe);
      if Rewritten(db, op, safe).value.0 == lid {
        RewrittenKeepsStatus(db, op, lid, safe);
      }
    } else {
      match op
      case Delete(lids, dids, now) => DeletesKeepOthers(db, lids, dids, now);
      case DeleteProduct(pid, lids, dids, now) => DeletesKeepOthers(db, lids, dids, now);
      case _ =>
    }
  }

  lemma {:induction false} LockedStaysLocked(w: World, es: seq<Entry>, lid: nat, safe: ShapeCheck)
    requires IsRun(w, es, safe) && Locked(w.db, lid) && forall e :: e in es ==> !MayRevive(e.op, lid)
    ensures Locked(Final(w, es, safe).db, lid)
    decreases |es|
  {
    if es != [] {
      if Commits(w, es[0], safe) {
        StepKeepsLocked(w.db, es[0].op, lid, safe);
      }
      LockedStaysLocked(NextWorld(w, es[0], safe), es[1..], lid, safe);
    }
  }

  /** Between a committed disable or revoke and the next operation that sets its status, every
      heartbeat of the license is rejected and changes nothing. */
  lemma {:induction false} LockedRejectsChecks(w: World, e: Entry, es: seq<Entry>, safe: ShapeCheck, check: Op)
    requires e.op.SetStatus? && e.op.status in {Disabled, Revoked} && IsRun(w, [e] + es, safe) && Commits(w, e, safe)
    requires forall x :: x in es ==> !MayRevive(x.op, e.op.lid)
    requires check.Check? && check.found == Some(e.op.lid) && Valid(Final(w, [e] + es, safe).db, check)
    ensures Effect(Final(w, [e] + es, safe).db, check, safe).Err?
  {
    assert ([e] + es)[1..] == es;
    LockedStaysLocked(NextWorld(w, e, safe), es, e.op.lid, safe);
  }
}
