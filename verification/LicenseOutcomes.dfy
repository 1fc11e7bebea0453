/** What each license call answers and what it makes of the row and of the audit log, said of the rows alone
    (app/services/licenses.py, app/services/check.py). */
module LicenseOutcomes {
  import opened Common
  import opened LicenseModel
  import opened LicenseRuns
  import D = Deliveries

  // ----- heartbeats -------------------------------------------------------------------------------------

  /** The address a heartbeat carries: its text without the white space around it and the slashes at its end. */
  predicate Carries(publicUrl: Option<string>, url: string) {
    && publicUrl.Some? && Strip(publicUrl.value) != "" && url <= Strip(publicUrl.value)
    && AllOf(Strip(publicUrl.value)[|url|..], c => c == '/') && (url != "" ==> url[|url| - 1] != '/')
  }

  predicate CarriesNothing(publicUrl: Option<string>) {
    publicUrl.None? || Strip(publicUrl.value) == ""
  }

  lemma CandidateIs(publicUrl: Option<string>)
    ensures Candidate(publicUrl).None? <==> CarriesNothing(publicUrl)
    ensures Candidate(publicUrl).Some? ==> Carries(publicUrl, Candidate(publicUrl).value)
  {
    if Candidate(publicUrl).Some? {
      TrimRightIs(Strip(publicUrl.value), IsSlash);
    }
  }

  lemma CarriesOne(publicUrl: Option<string>, url: string, other: string)
    requires Carries(publicUrl, url) && Carries(publicUrl, other)
    ensures url == other
  {
    var s := Strip(publicUrl.value);
    assert forall i :: |url| <= i < |s| ==> s[i] == s[|url|..][i - |url|];
    assert forall i :: |other| <= i < |s| ==> s[i] == s[|other|..][i - |other|];
    assert url == s[..|url|] && other == s[..|other|];
  }

  /** A heartbeat for key `found` may pass: the license is known, neither revoked nor disabled, not past its date,
      and the address it carries, if any, is short enough and acceptable under the row's http flag. */
  ghost predicate Passes(db: Db, found: Option<nat>, publicUrl: Option<string>, now: int, safe: ShapeCheck) {
    && found.Some? && found.value in db.licenses
    && var row := db.licenses[found.value];
       && row.status != Revoked && row.status != Disabled && row.validUntil >= now
       && forall url :: Carries(publicUrl, url) ==> |url| <= 500 && safe(url, row.allowHttp)
  }

  /** A heartbeat is accepted exactly when it may pass. */
  lemma HeartbeatAcceptedIff(db: Db, op: Op, safe: ShapeCheck)
    requires op.Check? && Valid(db, op)
    ensures Effect(db, op, safe).Ok? <==> Passes(db, op.found, op.publicUrl, op.now, safe)
  {
    CandidateIs(op.publicUrl);
    forall url | Carries(op.publicUrl, url) && Candidate(op.publicUrl).Some?
      ensures url == Candidate(op.publicUrl).value {
      CarriesOne(op.publicUrl, url, Candidate(op.publicUrl).value);
    }
    if Candidate(op.publicUrl).Some? {
      assert Carries(op.publicUrl, Candidate(op.publicUrl).value);
    }
  }

  /** The reason of a rejection: the first of unknown key, revoked, disabled, expired that holds, else the address. */
  lemma HeartbeatReason(db: Db, op: Op, safe: ShapeCheck)
    requires op.Check? && Valid(db, op) && Effect(db, op, safe).Err?
    ensures var e := Effect(db, op, safe).error;
            && e.CheckRejected?
            && (op.found.None? <==> e.reason == "invalid_key")
            && (op.found.Some? ==>
                  var row := db.licenses[op.found.value];
                  && (e.reason == "revoked" <==> row.status == Revoked)
                  && (e.reason == "disabled" <==> row.status == Disabled)
                  && (e.reason == "expired" <==>
                        row.status != Revoked && row.status != Disabled && row.validUntil < op.now)
                  && e.reason in {"revoked", "disabled", "expired", "invalid_public_url"})
  {
  }

  /** The webhook half of an accepted heartbeat: an operator's address stays and the refused one is logged, a new
      self-registered address is stored with the secret there is or a new one, and a missing secret is minted. */
  lemma HeartbeatWebhook(db: Db, op: Op, url: string, safe: ShapeCheck)
    requires op.Check? && Valid(db, op) && Effect(db, op, safe).Ok? && Carries(op.publicUrl, url)
    ensures var row, after := db.licenses[op.found.value], Effect(db, op, safe).value.licenses[op.found.value];
            var secret := if row.secret.Some? && row.secret.value != "" then row.secret else Some(op.minted);
            if row.source == Admin then after == row
            else after == row.(url := Some(url), secret := secret)
    ensures var row, events := db.licenses[op.found.value], Effect(db, op, safe).value.events;
            var said := if row.url != Some(url) && row.source == Admin then [OverrideRefused(url)]
                        else if row.url != Some(url) then [SelfRegistered(row.url, url)]
                        else if row.source == Self && (row.secret.None? || row.secret.value == "")
                        then [SecretBackfilled] else [];
            && |events| == |db.events| + |said| + 1 && events[..|db.events|] == db.events
            && (said != [] ==> events[|db.events|] == Event(Some(row.id), Some(row.productId), said[0]))
  {
    CandidateIs(op.publicUrl);
    CarriesOne(op.publicUrl, url, Candidate(op.publicUrl).value);
    var row := db.licenses[op.found.value];
    var kinds := CheckedWebhook(row, op.publicUrl, op.minted).1;
    assert |kinds| <= 1;
    if kinds != [] {
      assert kinds[1..] == [];
      assert LicenseEvents(row, kinds) == [Event(Some(row.id), Some(row.productId), kinds[0])];
    }
  }

  /** An accepted heartbeat that carries no address leaves the row, and logs only itself. */
  lemma SilentHeartbeat(db: Db, op: Op, safe: ShapeCheck)
    requires op.Check? && Valid(db, op) && Effect(db, op, safe).Ok? && CarriesNothing(op.publicUrl)
    ensures var row := db.licenses[op.found.value];
            && Effect(db, op, safe).value.licenses == db.licenses
            && Effect(db, op, safe).value.events ==
               db.events + [Event(Some(row.id), Some(row.productId), Heartbeat(op.version, op.installId))]
  {
    assert db.events + [] == db.events;
  }

  /** Every accepted heartbeat ends with its event and leaves its install as just seen; installs of others, other
      licenses and the delivery table stay as they are. */
  lemma {:induction false} HeartbeatRecords(db: Db, op: Op, safe: ShapeCheck)
    requires op.Check? && Valid(db, op) && Effect(db, op, safe).Ok?
    ensures var row, after := db.licenses[op.found.value], Effect(db, op, safe).value;
            && after.events != [] && after.events[|after.events| - 1] ==
               Event(Some(row.id), Some(row.productId), Heartbeat(op.version, op.installId))
            && Install(row.id, op.installId, op.version, op.now) in after.installs
            && (forall x :: x in db.installs && !(x.licenseId == row.id && x.installId == op.installId) ==>
                  x in after.installs)
            && after.licenses.Keys == db.licenses.Keys
            && (forall lid :: lid in db.licenses && lid != op.found.value ==> after.licenses[lid] == db.licenses[lid])
            && after.deliveries == db.deliveries && after.slugs == db.slugs && after.emails == db.emails
  {
    UpsertedHolds(db.installs, Install(db.licenses[op.found.value].id, op.installId, op.version, op.now));
  }

  lemma {:induction false} UpsertedHolds(installs: seq<Install>, row: Install)
    ensures row in Upserted(installs, row)
    ensures forall x :: x in installs && !(x.licenseId == row.licenseId && x.installId == row.installId) ==>
              x in Upserted(installs, row)
    decreases |installs|
  {
    if installs != [] {
      assert installs == [installs[0]] + installs[1..];
      UpsertedHolds(installs[1..], row);
    }
  }

  /** The operation may move the date of the license, or create it anew. */
  predicate MovesDate(op: Op, lid: nat) {
    match op
    case Issue(base, _, _, _) => base.id == lid
    case StripeCreate(base) => base.id == lid
    case StripeExtend(l, _) => l == lid
    case Edit(l, _, _, _, _) => l == lid
    case _ => false
  }

  predicate Expires(db: Db, lid: nat, until: int) {
    lid in db.licenses ==> db.licenses[lid].validUntil == until
  }

  lemma StepKeepsDate(db: Db, op: Op, lid: nat, until: int, safe: ShapeCheck)
    requires Valid(db, op) && Effect(db, op, safe).Ok? && Expires(db, lid, until) && !MovesDate(op, lid)
    ensures Expires(Effect(db, op, safe).value, lid, until)
  {
    if Rewritten(db, op, safe).Ok? {
      EffectRewrites(db, op, safe);
    } else {
      match op
      case Delete(lids, dids, now) => DeletesKeepOthers(db, lids, dids, now);
      case DeleteProduct(pid, lids, dids, now) => DeletesKeepOthers(db, lids, dids, now);
      case _ =>
    }
  }

  lemma {:induction false} DateStays(w: World, es: seq<Entry>, lid: nat, until: int, safe: ShapeCheck)
    requires IsRun(w, es, safe) && Expires(w.db, lid, until) && forall e :: e in es ==> !MovesDate(e.op, lid)
    ensures Expires(Final(w, es, safe).db, lid, until)
    decreases |es|
  {
    if es != [] {
      if Commits(w, es[0], safe) {
        StepKeepsDate(w.db, es[0].op, lid, until, safe);
      }
      DateStays(NextWorld(w, es[0], safe), es[1..], lid, until, safe);
    }
  }

  /** After any run of calls one after another that do not move its date, a license answers no heartbeat past it. */
  lemma {:induction false} ExpiredRejectsChecks(w: World, es: seq<Entry>, lid: nat, until: int, check: Op,
                                                safe: ShapeCheck)
    requires IsRun(w, es, safe) && Expires(w.db, lid, until) && forall e :: e in es ==> !MovesDate(e.op, lid)
    requires check.Check? && check.found == Some(lid) && Valid(Final(w, es, safe).db, check) && check.now > until
    ensures Effect(Final(w, es, safe).db, check, safe).Err?
  {
    DateStays(w, es, lid, until, safe);
    HeartbeatAcceptedIff(Final(w, es, safe).db, check, safe);
  }

  // ----- operators' calls -------------------------------------------------------------------------------

  /** The words for a status on the wire, in events and in the database. */
  lemma StatusWords(status: Status)
    ensures StatusName(status) == "active" <==> status == Active
    ensures StatusName(status) == "delinquent" <==> status == Delinquent
    ensures StatusName(status) == "disabled" <==> status == Disabled
    ensures StatusName(status) == "revoked" <==> status == Revoked
    ensures StatusName(status) in {"active", "delinquent", "disabled", "revoked"}
  {
  }

  /** What every notice says of its license: id, key, and the product's slug and the customer's email if known. */
  predicate Tells(facts: D.Facts, db: Db, row: License) {
    && facts.licenseId == row.id && facts.key == row.key
    && (facts.productSlug.Some? <==> row.productId in db.slugs)
    && (row.productId in db.slugs ==> facts.productSlug == Some(db.slugs[row.productId]))
    && (facts.customerEmail.Some? <==> row.customerId in db.emails)
    && (row.customerId in db.emails ==> facts.customerEmail == Some(db.emails[row.customerId]))
  }

  /** The row queued for a notice: pending, due now, to the webhook of the license row it is about. */
  predicate QueuedFor(queued: D.Row, did: nat, row: License, eventType: string, now: int) {
    && row.url.Some? && row.secret.Some? && queued == D.Enqueued(queued.identity, now)
    && queued.identity == D.Identity(did, row.url.value, row.secret.value, eventType, queued.identity.payload)
    && queued.identity.payload.Json?
  }

  /** The table with one new row. */
  ghost predicate OneMore(before: map<nat, D.Row>, after: map<nat, D.Row>, did: nat) {
    after.Keys == before.Keys + {did} && did !in before && forall d :: d in before ==> after[d] == before[d]
  }

  /** Only the row of this license, one event at the end of the log, and the delivery table can have changed. */
  ghost predicate OnlyRow(db: Db, after: Db, lid: nat, kind: EventKind)
    requires lid in db.licenses
  {
    && after.licenses.Keys == db.licenses.Keys
    && (forall l :: l in db.licenses && l != lid ==> after.licenses[l] == db.licenses[l])
    && after.events == db.events + [Event(Some(db.licenses[lid].id), Some(db.licenses[lid].productId), kind)]
    && after.installs == db.installs && after.slugs == db.slugs && after.emails == db.emails
    && after.presets == db.presets
  }

  predicate HasWebhook(row: License) {
    row.url.Some? && row.url.value != "" && row.secret.Some? && row.secret.value != ""
  }

  /** A status set changes that column alone and logs it. */
  lemma StatusOutcome(db: Db, lid: nat, status: Status, did: nat, now: int, safe: ShapeCheck)
    requires Valid(db, SetStatus(lid, status, did, now))
    ensures var r := Effect(db, SetStatus(lid, status, did, now), safe);
            && r.Ok? && OnlyRow(db, r.value, lid, StatusSet(status))
            && r.value.licenses[lid] == db.licenses[lid].(status := status)
  {
    var row, after := db.licenses[lid], Effect(db, SetStatus(lid, status, did, now), safe).value;
    OneRowWritten(db, after, lid, row.(status := status), StatusSet(status));
  }

  lemma OneRowWritten(db: Db, after: Db, lid: nat, row: License, kind: EventKind)
    requires lid in db.licenses
    requires after == db.(licenses := db.licenses[lid := row], deliveries := after.deliveries,
                          events := db.events + [Event(Some(db.licenses[lid].id),
                                                       Some(db.licenses[lid].productId), kind)])
    ensures OnlyRow(db, after, lid, kind) && after.licenses[lid] == row
  {
  }

  /** It queues one notice with the old and the new word exactly when the license has a webhook. */
  lemma StatusNotice(db: Db, lid: nat, status: Status, did: nat, now: int, safe: ShapeCheck)
    requires Valid(db, SetStatus(lid, status, did, now))
    ensures var after, row := Effect(db, SetStatus(lid, status, did, now), safe).value.deliveries, db.licenses[lid];
            if !HasWebhook(row) then after == db.deliveries
            else
              && OneMore(db.deliveries, after, did) && QueuedFor(after[did], did, row, "license.status.changed", now)
              && var notice := after[did].identity.payload.data;
                 notice.StatusChanged? && Tells(notice.facts, db, row) &&
                 notice.previous == StatusName(row.status) && notice.current == StatusName(status)
  {
  }

  /** The fields an edit reports are exactly those whose value it changes. */
  lemma ReportedFields(row: License, f: EditForm)
    requires f.validUntil.Some? && f.features.Some?
    ensures var changed := ChangedFields(row, f);
            && ("plan" in changed <==> row.plan != f.plan)
            && ("max_users" in changed <==> row.maxUsers != f.maxUsers)
            && ("valid_until" in changed <==> row.validUntil != f.validUntil.value)
            && ("features" in changed <==> row.features != f.features.value)
            && (forall name :: name in changed ==> name in {"plan", "max_users", "valid_until", "features"})
            && |changed| <= 4
  {
    assert "plan" != "features" && "max_users" != "valid_until";
  }

  /** The webhook columns once a URL is set: stored with the label and flag asked for, and with a new secret exactly
      on a rotation, when there was none, or on a new URL where that is asked for; clearing the URL clears all
      four. A URL that is not acceptable under the flag it would have is refused. */
  lemma ConfigureOutcome(row: License, url: Option<string>, rotate: bool, mint: bool, source: Source,
                         flag: Option<bool>, minted: string, safe: ShapeCheck)
    ensures var r := Configured(row, url, rotate, mint, source, flag, minted, safe);
            var allowed := if flag.Some? then flag.value else row.allowHttp;
            var hadSecret := row.secret.Some? && row.secret.value != "";
            if url.None? || url.value == "" then
              r == Ok(row.(url := None, secret := None, source := Self, allowHttp := false))
            else if !safe(url.value, allowed) then r == Err(UnsafeUrl)
            else
              && r.Ok? && r.value == row.(url := url, secret := r.value.secret, source := source, allowHttp := allowed)
              && (if rotate || !hadSecret || (mint && row.url != url) then r.value.secret == Some(minted)
                  else r.value.secret == row.secret)
  {
  }

  /** An edit that is accepted gives the four plain fields the form's values. The trimmed address of the form, if it
      differs from the row's, becomes the operator's with a new secret; the same address keeps its label. */
  lemma EditOutcome(row: License, f: EditForm, minted: string, safe: ShapeCheck)
    ensures var r := EditedLicense(row, f, minted, safe);
            var url := if Strip(f.webhookUrl) == "" then None else Some(Strip(f.webhookUrl));
            var allowed := if f.allowHttp.Some? then f.allowHttp.value else row.allowHttp;
            var checked := url.Some? && (url != row.url || f.rotate || allowed != row.allowHttp);
            && (r.Ok? <==> f.features.Some? && f.validUntil.Some? && (checked ==> safe(url.value, allowed)))
            && (r.Ok? ==>
                  var after := r.value;
                  && after == row.(plan := f.plan, maxUsers := f.maxUsers, validUntil := f.validUntil.value,
                                   features := f.features.value, url := url, secret := after.secret,
                                   source := after.source, allowHttp := after.allowHttp)
                  && (url.Some? && url != row.url ==> after.source == Admin && after.secret == Some(minted))
                  && (url.Some? && url == row.url ==> after.source == row.source)
                  && (url.Some? ==> after.allowHttp == allowed)
                  && (url.Some? && url == row.url ==>
                        after.secret == if f.rotate || row.secret.None? || row.secret.value == "" then Some(minted)
                                        else row.secret)
                  && (url.None? && (row.url.Some? || f.rotate) ==>
                        after.secret.None? && after.source == Self && !after.allowHttp)
                  && (url.None? && row.url.None? && !f.rotate ==>
                        after.secret == row.secret && after.source == row.source && after.allowHttp == allowed))
    ensures EditedLicense(row, f, minted, safe).Err? ==>
              EditedLicense(row, f, minted, safe).error ==
              if f.features.None? then Invalid("invalid features json")
              else if f.validUntil.None? then Invalid("invalid valid_until") else UnsafeUrl
  {
  }

  lemma EditKeepsIds(row: License, f: EditForm, minted: string, safe: ShapeCheck)
    requires EditedLicense(row, f, minted, safe).Ok?
    ensures var after := EditedLicense(row, f, minted, safe).value;
            && after.id == row.id && after.key == row.key && after.productId == row.productId
            && after.customerId == row.customerId && after.status == row.status
  {
  }

  lemma NothingReported(row: License, f: EditForm)
    ensures ChangedFields(row, f) == [] <==>
            row.plan == f.plan && row.maxUsers == f.maxUsers &&
            Some(row.validUntil) == f.validUntil && Some(row.features) == f.features
  {
  }

  /** An accepted edit changes that row alone and logs whether there is a webhook and whether its secret changed. */
  lemma EditEffect(db: Db, lid: nat, f: EditForm, minted: string, did: nat, now: int, safe: ShapeCheck)
    requires Valid(db, Edit(lid, f, minted, did, now))
    ensures var r := Effect(db, Edit(lid, f, minted, did, now), safe);
            var row, edited := db.licenses[lid], EditedLicense(db.licenses[lid], f, minted, safe);
            if edited.Err? then r == Err(edited.error)
            else
              && r.Ok? && r.value.licenses[lid] == edited.value
              && OnlyRow(db, r.value, lid, Edited(Strip(f.webhookUrl) != "", edited.value.secret != row.secret))
  {
    var edited := EditedLicense(db.licenses[lid], f, minted, safe);
    if edited.Ok? {
      EditKeepsIds(db.licenses[lid], f, minted, safe);
      EditWrites(db, lid, edited.value, f, did, now);
    }
  }

  lemma EditWrites(db: Db, lid: nat, row: License, f: EditForm, did: nat, now: int)
    requires lid in db.licenses && row.id == db.licenses[lid].id && row.productId == db.licenses[lid].productId
    ensures var after := WithEdit(db, lid, row, f, did, now);
            after.licenses[lid] == row &&
            OnlyRow(db, after, lid, Edited(Strip(f.webhookUrl) != "", row.secret != db.licenses[lid].secret))
  {
    OneRowWritten(db, WithEdit(db, lid, row, f, did, now), lid, row,
                  Edited(Strip(f.webhookUrl) != "", row.secret != db.licenses[lid].secret));
  }

  /** It queues one notice that names the changed fields exactly when there are some and the row then has a
      webhook. */
  lemma EditNotice(db: Db, lid: nat, f: EditForm, minted: string, did: nat, now: int, safe: ShapeCheck)
    requires Valid(db, Edit(lid, f, minted, did, now)) && EditedLicense(db.licenses[lid], f, minted, safe).Ok?
    ensures var after := Effect(db, Edit(lid, f, minted, did, now), safe).value.deliveries;
            EditSays(db, after, lid, EditedLicense(db.licenses[lid], f, minted, safe).value, f, did, now)
  {
    EditKeepsIds(db.licenses[lid], f, minted, safe);
    EditQueues(db, lid, EditedLicense(db.licenses[lid], f, minted, safe).value, f, did, now);
  }

  ghost predicate EditSays(db: Db, after: map<nat, D.Row>, lid: nat, edited: License, f: EditForm, did: nat, now: int)
    requires lid in db.licenses
  {
    var row := db.licenses[lid];
    var same := row.plan == f.plan && row.maxUsers == f.maxUsers &&
                Some(row.validUntil) == f.validUntil && Some(row.features) == f.features;
    if same || !HasWebhook(edited) then after == db.deliveries
    else
      && OneMore(db.deliveries, after, did) && QueuedFor(after[did], did, edited, "license.updated", now)
      && var notice := after[did].identity.payload.data;
         notice.Updated? && Tells(notice.facts, db, edited) &&
         notice.status == StatusName(row.status) && notice.changedFields == ChangedFields(row, f)
  }

  lemma EditQueues(db: Db, lid: nat, edited: License, f: EditForm, did: nat, now: int)
    requires lid in db.licenses && edited.status == db.licenses[lid].status && did !in db.deliveries
    ensures EditSays(db, WithEdit(db, lid, edited, f, did, now).deliveries, lid, edited, f, did, now)
  {
    NothingReported(db.licenses[lid], f);
  }

  /** The calls on the webhook alone: one event each, no notice; converting needs an operator's address and gives it
      to the license itself with a new secret. */
  lemma WebhookCalls(db: Db, op: Op, safe: ShapeCheck)
    requires Valid(db, op) && (op.Configure? || op.Convert?)
    ensures var row, r := db.licenses[op.lid], Effect(db, op, safe);
            match op
            case Configure(lid, url, rotate, mint, source, flag, minted) =>
              var after := Configured(row, url, rotate, mint, source, flag, minted, safe);
              if after.Err? then r == Err(after.error)
              else r.Ok? && r.value.licenses[lid] == after.value && r.value.deliveries == db.deliveries &&
                   OnlyRow(db, r.value, lid, WebhookUpdated(url.Some? && url.value != ""))
            case Convert(lid, minted) =>
              var had := row.url.Some? && row.url.value != "";
              if !had then r == Err(Invalid("no webhook url to convert"))
              else if row.source == Self then r == Err(Invalid("already self-registered"))
              else r.Ok? && r.value.licenses[lid] == row.(source := Self, secret := Some(minted)) &&
                   r.value.deliveries == db.deliveries &&
                   OnlyRow(db, r.value, lid, ConvertedToSelf(row.secret.Some? && row.secret.value != ""))
  {
  }

  /** A new license is active and is an operator's with a secret exactly when it comes with an address; an address
      that is not acceptable is refused. */
  lemma IssueEffect(db: Db, base: License, webhookUrl: Option<string>, allowHttp: bool, minted: string,
                    safe: ShapeCheck)
    requires Valid(db, Issue(base, webhookUrl, allowHttp, minted))
    ensures var r := Effect(db, Issue(base, webhookUrl, allowHttp, minted), safe);
            var given := webhookUrl.Some? && Strip(webhookUrl.value) != "";
            if given && !safe(Strip(webhookUrl.value), allowHttp) then r == Err(UnsafeUrl)
            else
              && r.Ok? && r.value.licenses.Keys == db.licenses.Keys + {base.id}
              && (forall l :: l in db.licenses ==> r.value.licenses[l] == db.licenses[l])
              && r.value.events == db.events + [Event(None, Some(base.productId), Issued)]
              && r.value.deliveries == db.deliveries && r.value.installs == db.installs
              && var row := r.value.licenses[base.id];
                 row.status == Active && row.allowHttp == allowHttp &&
                 (if given then row.url == Some(Strip(webhookUrl.value)) && row.secret == Some(minted) &&
                                row.source == Admin
                  else row.url.None? && row.secret.None? && row.source == Self) &&
                 row == base.(status := row.status, url := row.url, secret := row.secret, source := row.source,
                              allowHttp := row.allowHttp)
  {
  }

  /** A test send is one final row to the license's webhook, or is refused without one; nothing else changes. */
  lemma TestEffect(db: Db, lid: nat, did: nat, reply: D.Reply, now: int, safe: ShapeCheck)
    requires Valid(db, TestWebhook(lid, did, reply, now))
    ensures var row, r := db.licenses[lid], Effect(db, TestWebhook(lid, did, reply, now), safe);
            if !HasWebhook(row) then r == Err(Invalid("no webhook configured"))
            else
              && r.Ok? && r.value == db.(deliveries := r.value.deliveries)
              && OneMore(db.deliveries, r.value.deliveries, did)
              && var sent := r.value.deliveries[did];
                 sent == D.TestRow(sent.identity, reply, now) && sent.identity.payload.Json? &&
                 sent.identity.id == did && sent.identity.url == row.url.value &&
                 sent.identity.secret == row.secret.value && sent.identity.eventType == "license.test" &&
                 sent.identity.payload.data.Probe? && Tells(sent.identity.payload.data.facts, db, row)
  {
  }

  /** The deletion of one license: its row goes and its event is added. */
  lemma {:induction false} DeleteEffect(db: Db, lid: nat, did: nat, now: int, safe: ShapeCheck)
    requires Valid(db, Delete([lid], [did], now))
    ensures var row, r := db.licenses[lid], Effect(db, Delete([lid], [did], now), safe);
            && r.Ok? && r.value.licenses == db.licenses - {lid}
            && |r.value.events| == |db.events| + 1
            && var e := r.value.events[|db.events|];
               e.licenseId.None? && e.productId == Some(row.productId) && e.kind.LicenseDeleted? &&
               Tells(e.kind.facts, db, row)
  {
    OneDeletion(db, lid, did, now);
  }

  lemma {:induction false} OneDeletion(db: Db, lid: nat, did: nat, now: int)
    requires lid in db.licenses && CanDelete(db, [lid])
    ensures lid in [lid] && StageDeletes(db, [lid], [did], now) == StageDelete(db, lid, did, now)
  {
    assert [lid][1..] == [] && [did][1..] == [];
    var one := StageDelete(db, lid, did, now);
    assert StageDeletes(one, [], [], now) == one;
  }

  /** It queues one notice with what the row said exactly when it had a webhook. */
  lemma {:induction false} DeleteNotice(db: Db, lid: nat, did: nat, now: int, safe: ShapeCheck)
    requires Valid(db, Delete([lid], [did], now))
    ensures var row := db.licenses[lid];
            var after := Effect(db, Delete([lid], [did], now), safe).value.deliveries;
            if !HasWebhook(row) then after == db.deliveries
            else
              && OneMore(db.deliveries, after, did) && QueuedFor(after[did], did, row, "license.deleted", now)
              && var notice := after[did].identity.payload.data;
                 notice.LicenseDeleted? && Tells(notice.facts, db, row)
  {
    OneDeletion(db, lid, did, now);
    assert did in [did];
  }

  /** A deleted product is logged last, with the number of licenses that went with it, and its slug is free. */
  lemma ProductDeletionIsLogged(db: Db, pid: nat, lids: seq<nat>, dids: seq<nat>, now: int, safe: ShapeCheck)
    requires Valid(db, DeleteProduct(pid, lids, dids, now))
    ensures var r := Effect(db, DeleteProduct(pid, lids, dids, now), safe);
            && r.Ok? && r.value.events != []
            && r.value.events[|r.value.events| - 1] == Event(None, None, ProductDeleted(pid, |lids|))
            && r.value.slugs == db.slugs - {pid}
  {
    DeletesKeepSlugs(db, lids, dids, now);
  }

  lemma {:induction false} DeletesKeepSlugs(db: Db, lids: seq<nat>, dids: seq<nat>, now: int)
    requires |dids| == |lids| && CanDelete(db, lids)
    ensures StageDeletes(db, lids, dids, now).slugs == db.slugs
    decreases |lids|
  {
    if lids != [] {
      DeletesKeepSlugs(StageDelete(db, lids[0], dids[0], now), lids[1..], dids[1..], now);
    }
  }

  /** Stripe's extension of a license: thirty days from its date or from now, whichever is later, and active. */
  lemma StripeEffect(db: Db, lid: nat, now: int, safe: ShapeCheck)
    requires lid in db.licenses
    ensures var row, r := db.licenses[lid], Effect(db, StripeExtend(lid, now), safe);
            var until := (if row.validUntil >= now then row.validUntil else now) + 30 * 86400;
            && r.Ok? && r.value.licenses == db.licenses[lid := row.(validUntil := until, status := Active)]
            && r.value.events == db.events + [Event(Some(row.id), Some(row.productId), Extended(until))]
            && r.value.deliveries == db.deliveries
  {
  }
}
