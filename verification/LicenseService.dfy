/** The license services as the source runs them: a session stages changes one statement at a
    time, one commit publishes them, and webhook attempts are scheduled afterwards
    (app/services/licenses.py, app/services/products.py, app/services/check.py). */
module LicenseService {
  import opened Common
  import opened LicenseModel
  import D = Deliveries

  /** What a crash right after one statement would leave behind. */
  datatype Moment = Moment(durable: Db, scheduled: seq<nat>)

  /** Every crash point between `before` and `after`: nothing published and nothing scheduled yet, or
      everything published, with scheduled attempts only for rows that are already durable. */
  ghost predicate CrashSafe(crashes: seq<Moment>, before: Db, scheduled: seq<nat>, after: Db) {
    forall m :: m in crashes ==>
      || m == Moment(before, scheduled)
      || (m.durable == after && scheduled <= m.scheduled &&
          forall i :: |scheduled| <= i < |m.scheduled| ==> m.scheduled[i] in after.deliveries)
  }

  /** The delivery ids a batch hands to the scheduler, in order. */
  function Present(ids: seq<Option<nat>>): seq<nat> {
    if ids == [] then [] else (if ids[0].Some? then [ids[0].value] else []) + Present(ids[1..])
  }

  class Session {
    var durable: Db
    var staged: Db
    var scheduled: seq<nat>
    ghost var crashes: seq<Moment>

    constructor (db: Db)
      ensures durable == db && staged == db && scheduled == [] && crashes == []
    {
      durable, staged, scheduled, crashes := db, db, [], [];
    }

    /** One statement on the session's copy: an attribute assignment, an add or a flush. */
    method Write(db: Db)
      requires Unpublished()
      modifies this`staged, this`crashes
      ensures staged == db && |crashes| == |old(crashes)| + 1 && Unpublished()
    {
      staged := db;
      crashes := crashes + [Moment(durable, scheduled)];
    }

    method Commit()
      requires Unpublished()
      modifies this`durable, this`crashes
      ensures durable == staged && |crashes| == |old(crashes)| + 1
      ensures CrashSafe(crashes, old(durable), scheduled, durable)
    {
      durable := staged;
      crashes := crashes + [Moment(durable, scheduled)];
    }

    /** The exception path: the session closes without a commit. */
    method Discard()
      modifies this`staged
      ensures staged == durable
    {
      staged := durable;
    }

    method Schedule(did: nat)
      modifies this`scheduled, this`crashes
      ensures scheduled == old(scheduled) + [did]
      ensures crashes == old(crashes) + [Moment(durable, scheduled)]
    {
      scheduled := scheduled + [did];
      crashes := crashes + [Moment(durable, scheduled)];
    }

    ghost predicate Fresh()
      reads this
    {
      staged == durable && crashes == []
    }

    /** A crash anywhere so far leaves the durable tables untouched and nothing scheduled. */
    ghost predicate Unpublished()
      reads this
    {
      forall m :: m in crashes ==> m == Moment(durable, scheduled)
    }

    /** `issue_license`, once its customer is resolved; `base` carries the remaining columns. */
    method IssueLicense(base: License, webhookUrl: Option<string>, allowHttp: bool, minted: string, safe: ShapeCheck)
      returns (ok: bool)
      requires Fresh() && base.id !in durable.licenses
      modifies this
      ensures var r := StageIssue(old(durable), base, webhookUrl, allowHttp, minted, safe);
              ok == r.Ok? && durable == if ok then r.value else old(durable)
      ensures staged == durable && scheduled == old(scheduled)
      ensures CrashSafe(crashes, old(durable), old(scheduled), durable)
    {
      var url := if webhookUrl.Some? then OrNone(Strip(webhookUrl.value)) else None;
      if url.Some? && !safe(url.value, allowHttp) {
        return false;
      }
      var lic := base.(status := Active, url := url, allowHttp := allowHttp);
      lic := lic.(secret := if url.Some? then Some(minted) else None);
      lic := lic.(source := if url.Some? then Admin else Self);
      assert StageIssue(staged, base, webhookUrl, allowHttp, minted, safe) ==
             Ok(staged.(licenses := staged.licenses[base.id := lic],
                        events := staged.events + [Event(None, Some(base.productId), Issued)]));
      Write(staged.(licenses := staged.licenses[base.id := lic]));
      Write(staged.(events := staged.events + [Event(None, Some(base.productId), Issued)]));
      Commit();
      return true;
    }

    /** `test_webhook`; the send itself happens before the row is staged and queues no attempt. */
    method TestWebhook(lid: nat, did: nat, reply: D.Reply, now: int) returns (ok: bool)
      requires Fresh() && lid in durable.licenses
      modifies this
      ensures var r := StageTest(old(durable), lid, did, reply, now);
              ok == r.Ok? && durable == if ok then r.value else old(durable)
      ensures staged == durable && scheduled == old(scheduled)
      ensures CrashSafe(crashes, old(durable), old(scheduled), durable)
    {
      var lic := staged.licenses[lid];
      if !Truthy(lic.url) || !Truthy(lic.secret) {
        return false;
      }
      var identity := D.Identity(did, lic.url.value, lic.secret.value, D.TEST_EVENT,
          D.Json(D.Probe(FactsOf(staged, lic))));
      var row := D.Row(identity, 1, if reply.ok then D.Delivered else D.Abandoned, now, Some(now),
                       if reply.ok then Some(now) else None,
                       if reply.ok then None else Some(D.ErrorText(reply.error)),
                       reply.status, D.Excerpt(reply));
      Write(staged.(deliveries := staged.deliveries[did := row]));
      Commit();
      return true;
    }

    method SetStatus(lid: nat, status: Status, did: nat, now: int)
      requires Fresh() && lid in durable.licenses
      modifies this
      ensures durable == StageStatus(old(durable), lid, status, did, now) && staged == durable
      ensures scheduled == old(scheduled) + if Notifies(old(durable).licenses[lid]) then [did] else []
      ensures CrashSafe(crashes, old(durable), old(scheduled), durable)
    {
      var lic := staged.licenses[lid];
      var previous := lic.status;
      var facts := FactsOf(staged, lic);
      Write(staged.(licenses := staged.licenses[lid := lic.(status := status)]));
      Write(WithEvent(staged, lic, StatusSet(status)));
      var queued := Notifies(lic);
      if queued {
        Write(Queued(staged, lic, did, EVENT_STATUS_CHANGED,
                     D.StatusChanged(facts, StatusName(previous), StatusName(status)), now));
      }
      Commit();
      if queued {
        Schedule(did);
      }
    }

    /** `apply_webhook_config`: changes the staged row, or raises before touching it. */
    method ApplyWebhookConfig(lid: nat, url: Option<string>, rotate: bool, mintOnUrlChange: bool, source: Source,
                              allowHttp: Option<bool>, minted: string, safe: ShapeCheck) returns (ok: bool)
      requires lid in staged.licenses && Unpublished()
      modifies this`staged, this`crashes
      ensures var r := Configured(old(staged).licenses[lid], url, rotate, mintOnUrlChange, source, allowHttp, minted,
              safe);
              ok == r.Ok? &&
              staged == if ok then old(staged).(licenses := old(staged).licenses[lid := r.value])
                        else old(staged)
      ensures Unpublished()
    {
      var lic := staged.licenses[lid];
      if Truthy(url) {
        var effective := if allowHttp.Some? then allowHttp.value else lic.allowHttp;
        if !safe(url.value, effective) {
          return false;
        }
        var mint := rotate || !Truthy(lic.secret) || (mintOnUrlChange && lic.url != url);
        if mint {
          lic := lic.(secret := Some(minted));
        }
        lic := lic.(url := url);
        lic := lic.(source := source);
        if allowHttp.Some? {
          lic := lic.(allowHttp := allowHttp.value);
        }
      } else {
        lic := lic.(url := None);
        lic := lic.(secret := None);
        lic := lic.(source := Self);
        lic := lic.(allowHttp := false);
      }
      Write(staged.(licenses := staged.licenses[lid := lic]));
      return true;
    }

    /** The webhook half of `edit_license`, after the plain fields are assigned. */
    method EditWebhook(lid: nat, f: EditForm, minted: string, safe: ShapeCheck) returns (ok: bool)
      requires lid in staged.licenses && Unpublished()
      modifies this`staged, this`crashes
      ensures var r := EditedWebhook(old(staged).licenses[lid], f, minted, safe);
              ok == r.Ok? && (ok ==> staged == old(staged).(licenses := old(staged).licenses[lid := r.value]))
      ensures Unpublished()
    {
      var lic := staged.licenses[lid];
      var newUrl := OrNone(Strip(f.webhookUrl));
      var urlChanged := newUrl != lic.url;
      if urlChanged || f.rotate {
        ok := ApplyWebhookConfig(lid, newUrl, f.rotate, true, if urlChanged then Admin else lic.source,
                                 f.allowHttp, minted, safe);
        return;
      }
      if newUrl.Some? && !Truthy(lic.secret) {
        lic := lic.(secret := Some(minted));
        Write(staged.(licenses := staged.licenses[lid := lic]));
      }
      if f.allowHttp.Some? && lic.allowHttp != f.allowHttp.value {
        if newUrl.Some? && !safe(newUrl.value, f.allowHttp.value) {
          return false;
        }
        lic := lic.(allowHttp := f.allowHttp.value);
        Write(staged.(licenses := staged.licenses[lid := lic]));
      }
      assert staged.licenses == old(staged).licenses[lid := lic];
      return true;
    }

    method EditLicense(lid: nat, f: EditForm, did: nat, now: int, minted: string, safe: ShapeCheck) returns (ok: bool)
      requires Fresh() && lid in durable.licenses
      modifies this
      ensures var r := StageEdit(old(durable), lid, f, minted, did, now, safe);
              ok == r.Ok? && durable == if ok then r.value else old(durable)
      ensures staged == durable
      ensures scheduled == old(scheduled) +
        if ok && ChangedFields(old(durable).licenses[lid], f) != [] &&
            Notifies(durable.licenses[lid]) then [did] else []
      ensures CrashSafe(crashes, old(durable), old(scheduled), durable)
    {
      if f.features.None? || f.validUntil.None? {
        return false;
      }
      var lic := staged.licenses[lid];
      var changed := ChangedFields(lic, f);
      var before := lic.secret;
      var done := EditRow(lid, f, minted, safe);
      if !done {
        Discard();
        return false;
      }
      lic := staged.licenses[lid];
      var queued := PublishEdit(lid, changed, Edited(Strip(f.webhookUrl) != "", lic.secret != before), did, now);
      return true;
    }

    /** The assignments of `edit_license`: the plain fields, then the webhook. */
    method EditRow(lid: nat, f: EditForm, minted: string, safe: ShapeCheck) returns (ok: bool)
      requires lid in staged.licenses && Unpublished() && f.features.Some? && f.validUntil.Some?
      modifies this`staged, this`crashes
      ensures var r := EditedLicense(old(staged).licenses[lid], f, minted, safe);
              ok == r.Ok? && (ok ==> staged == old(staged).(licenses := old(staged).licenses[lid := r.value]))
      ensures Unpublished()
    {
      var lic := staged.licenses[lid];
      lic := lic.(plan := f.plan, maxUsers := f.maxUsers);
      lic := lic.(validUntil := f.validUntil.value, features := f.features.value);
      Write(staged.(licenses := staged.licenses[lid := lic]));
      ok := EditWebhook(lid, f, minted, safe);
      assert ok ==> staged.licenses == old(staged).licenses[lid := staged.licenses[lid]];
    }

    /** The tail of `edit_license`: audit event, queued notice, commit, schedule. */
    method PublishEdit(lid: nat, changed: seq<string>, kind: EventKind, did: nat, now: int) returns (queued: bool)
      requires lid in staged.licenses && Unpublished()
      modifies this
      ensures var lic := old(staged).licenses[lid]; var db1 := WithEvent(old(staged), lic, kind);
              queued == (changed != [] && Notifies(lic)) &&
              durable == (if queued then Queued(db1, lic, did, EVENT_UPDATED,
                            D.Updated(FactsOf(old(staged), lic), StatusName(lic.status), changed), now) else db1)
      ensures staged == durable && scheduled == old(scheduled) + if queued then [did] else []
      ensures CrashSafe(crashes, old(durable), old(scheduled), durable)
    {
      var lic := staged.licenses[lid];
      var facts := FactsOf(staged, lic);
      Write(WithEvent(staged, lic, kind));
      queued := changed != [] && Notifies(lic);
      if queued {
        Write(Queued(staged, lic, did, EVENT_UPDATED, D.Updated(facts, StatusName(lic.status), changed), now));
      }
      Commit();
      if queued {
        Schedule(did);
      }
    }

    method ConfigureWebhook(lid: nat, url: Option<string>, rotate: bool, mint: bool, source: Source,
                            allowHttp: Option<bool>, minted: string, safe: ShapeCheck) returns (ok: bool)
      requires Fresh() && lid in durable.licenses
      modifies this
      ensures var r := StageConfigure(old(durable), lid, url, rotate, mint, source, allowHttp, minted, safe);
              ok == r.Ok? && durable == if ok then r.value else old(durable)
      ensures staged == durable && scheduled == old(scheduled)
      ensures CrashSafe(crashes, old(durable), old(scheduled), durable)
    {
      ok := ApplyWebhookConfig(lid, url, rotate, mint, source, allowHttp, minted, safe);
      if !ok {
        return;
      }
      Write(WithEvent(staged, staged.licenses[lid], WebhookUpdated(Truthy(url))));
      Commit();
    }

    method ConvertWebhookToSelf(lid: nat, minted: string) returns (ok: bool)
      requires Fresh() && lid in durable.licenses
      modifies this
      ensures var r := StageConvert(old(durable), lid, minted);
              ok == r.Ok? && durable == if ok then r.value else old(durable)
      ensures staged == durable && scheduled == old(scheduled)
      ensures CrashSafe(crashes, old(durable), old(scheduled), durable)
    {
      var lic := staged.licenses[lid];
      if !Truthy(lic.url) || lic.source != Admin {
        return false;
      }
      var before := lic.secret;
      Write(staged.(licenses := staged.licenses[lid := lic.(source := Self)]));
      lic := staged.licenses[lid];
      Write(staged.(licenses := staged.licenses[lid := lic.(secret := Some(minted))]));
      Write(WithEvent(staged, lic, ConvertedToSelf(Truthy(before))));
      Commit();
      return true;
    }

    /** `_delete_license_in_tx`: stages one deletion, never commits. */
    method DeleteInTx(lid: nat, did: nat, now: int) returns (queued: Option<nat>)
      requires lid in staged.licenses && Unpublished()
      modifies this`staged, this`crashes
      ensures staged == StageDelete(old(staged), lid, did, now) && Unpublished()
      ensures queued == if Notifies(old(staged).licenses[lid]) then Some(did) else None
    {
      var lic := staged.licenses[lid];
      var facts := FactsOf(staged, lic);
      queued := None;
      Write(staged.(events := staged.events + [Event(None, Some(lic.productId), LicenseDeleted(facts))]));
      if Notifies(lic) {
        Write(Queued(staged, lic, did, EVENT_DELETED, D.LicenseDeleted(facts), now));
        queued := Some(did);
      }
      Write(staged.(events := Unlinked(staged.events, lid)));
      Write(staged.(installs := WithoutInstalls(staged.installs, lid)));
      Write(staged.(licenses := staged.licenses - {lid}));
    }

    method StageAll(lids: seq<nat>, dids: seq<nat>, now: int) returns (pairs: seq<Option<nat>>)
      requires Fresh() && |dids| == |lids| && CanDelete(durable, lids)
      modifies this`staged, this`crashes
      ensures staged == StageDeletes(durable, lids, dids, now)
      ensures pairs == DeletionIds(durable, lids, dids)
      ensures Unpublished()
    {
      pairs := [];
      var i := 0;
      while i < |lids|
        invariant 0 <= i <= |lids| && |pairs| == i
        invariant forall j :: i <= j < |lids| ==>
                    lids[j] in staged.licenses && staged.licenses[lids[j]] == durable.licenses[lids[j]]
        invariant StageDeletes(staged, lids[i..], dids[i..], now) == StageDeletes(durable, lids, dids, now)
        invariant forall j :: 0 <= j < i ==> pairs[j] == DeletionIds(durable, lids, dids)[j]
        invariant Unpublished()
      {
        assert lids[i..][1..] == lids[i + 1..] && dids[i..][1..] == dids[i + 1..];
        var queued := DeleteInTx(lids[i], dids[i], now);
        pairs := pairs + [queued];
        i := i + 1;
      }
    }

    method ScheduleAll(pairs: seq<Option<nat>>)
      modifies this`scheduled, this`crashes
      ensures scheduled == old(scheduled) + Present(pairs)
      ensures |old(crashes)| <= |crashes| && crashes[..|old(crashes)|] == old(crashes)
      ensures forall i :: |old(crashes)| <= i < |crashes| ==>
                crashes[i].durable == durable && old(scheduled) <= crashes[i].scheduled <= scheduled
    {
      var i := 0;
      while i < |pairs|
        invariant 0 <= i <= |pairs|
        invariant scheduled + Present(pairs[i..]) == old(scheduled) + Present(pairs)
        invariant old(scheduled) <= scheduled
        invariant |old(crashes)| <= |crashes| && crashes[..|old(crashes)|] == old(crashes)
        invariant forall j :: |old(crashes)| <= j < |crashes| ==>
                    crashes[j].durable == durable && old(scheduled) <= crashes[j].scheduled <= scheduled
      {
        assert pairs[i..][1..] == pairs[i + 1..];
        if pairs[i].Some? {
          Schedule(pairs[i].value);
        }
        i := i + 1;
      }
    }

    method DeleteLicensesBulk(lids: seq<nat>, dids: seq<nat>, now: int)
      requires Fresh() && |dids| == |lids| && CanDelete(durable, lids)
      modifies this
      ensures durable == StageDeletes(old(durable), lids, dids, now) && staged == durable
      ensures scheduled == old(scheduled) + Present(DeletionIds(old(durable), lids, dids))
      ensures CrashSafe(crashes, old(durable), old(scheduled), durable)
    {
      var pairs := StageAll(lids, dids, now);
      PresentQueued(durable, lids, dids, now);
      PublishDeletions(pairs);
    }

    /** The one commit of a batch, and its scheduled attempts after it. */
    method PublishDeletions(pairs: seq<Option<nat>>)
      requires Unpublished() && forall did :: did in Present(pairs) ==> did in staged.deliveries
      modifies this
      ensures durable == old(staged) && staged == durable
      ensures scheduled == old(scheduled) + Present(pairs)
      ensures CrashSafe(crashes, old(durable), old(scheduled), durable)
    {
      Commit();
      ghost var committed := |crashes|;
      ScheduleAll(pairs);
      assert crashes == crashes[..committed] + crashes[committed..];
    }

    /** `delete_product`; `lids` is the answer of the query for the product's licenses. */
    method DeleteProduct(pid: nat, lids: seq<nat>, dids: seq<nat>, now: int)
      requires Fresh() && |dids| == |lids| && CanDelete(durable, lids)
      modifies this
      ensures durable == StageProductDelete(old(durable), pid, lids, dids, now) && staged == durable
      ensures scheduled == old(scheduled) + Present(DeletionIds(old(durable), lids, dids))
      ensures CrashSafe(crashes, old(durable), old(scheduled), durable)
    {
      var pairs := StageAll(lids, dids, now);
      ghost var mid := staged;
      Write(staged.(events := staged.events + [Event(None, None, ProductDeleted(pid, |lids|))]));
      var flushed := |durable.events| + FlushedEvents(pairs);
      Write(staged.(events := Unowned(staged.events, pid, flushed)));
      UnownedAppend(mid.events, pid, flushed, Event(None, None, ProductDeleted(pid, |lids|)));
      Write(staged.(presets := PresetsWithout(staged.presets, pid)));
      Write(staged.(slugs := staged.slugs - {pid}));
      PresentQueued(durable, lids, dids, now);
      PublishDeletions(pairs);
    }

    /** Self-registration and auto-heal inside `check_license`; false when the URL is refused. */
    method CheckWebhook(lid: nat, publicUrl: Option<string>, minted: string, safe: ShapeCheck) returns (ok: bool)
      requires lid in staged.licenses && Unpublished()
      modifies this`staged, this`crashes
      ensures var lic := old(staged).licenses[lid]; var r := CheckedWebhook(lic, publicUrl, minted);
              ok == !CandidateRefused(lic, publicUrl, safe) &&
              staged == if ok then old(staged).(licenses := old(staged).licenses[lid := r.0],
                                                events := old(staged).events + LicenseEvents(lic, r.1))
                        else old(staged)
      ensures Unpublished()
    {
      var lic := staged.licenses[lid];
      var stripped := if publicUrl.Some? then Strip(publicUrl.value) else "";
      if stripped != "" {
        var candidate := TrimRight(stripped, IsSlash);
        if |candidate| > MAX_URL || !safe(candidate, lic.allowHttp) {
          return false;
        }
        if lic.url != Some(candidate) {
          if lic.source == Admin {
            Write(WithEvent(staged, lic, OverrideRefused(candidate)));
          } else {
            Write(WithEvent(staged, lic, SelfRegistered(lic.url, candidate)));
            lic := lic.(url := Some(candidate));
            lic := lic.(source := Self);
            if !Truthy(lic.secret) {
              lic := lic.(secret := Some(minted));
            }
          }
        } else if lic.source == Self && !Truthy(lic.secret) {
          lic := lic.(secret := Some(minted));
          Write(WithEvent(staged, lic, SecretBackfilled));
        }
      }
      Write(staged.(licenses := staged.licenses[lid := lic]));
      return true;
    }

    /** `check_license`: one heartbeat. */
    method CheckLicense(found: Option<nat>, installId: string, version: string, publicUrl: Option<string>,
                        now: int, minted: string, safe: ShapeCheck) returns (ok: bool)
      requires Fresh() && (found.Some? ==> found.value in durable.licenses)
      modifies this
      ensures var r := StageCheck(old(durable), found, installId, version, publicUrl, now, minted, safe);
              ok == r.Ok? && durable == if ok then r.value else old(durable)
      ensures staged == durable && scheduled == old(scheduled)
      ensures CrashSafe(crashes, old(durable), old(scheduled), durable)
    {
      if found.None? {
        return false;
      }
      var lid := found.value;
      var lic := staged.licenses[lid];
      if lic.status == Revoked || lic.status == Disabled || lic.validUntil < now {
        return false;
      }
      ok := CheckWebhook(lid, publicUrl, minted, safe);
      if !ok {
        return;
      }
      Write(staged.(installs := Upserted(staged.installs, Install(lic.id, installId, version, now))));
      Write(WithEvent(staged, lic, Heartbeat(version, installId)));
      Commit();
    }
  }

  /** Every id a batch schedules names a delivery row the batch has queued. */
  /** The attempts scheduled after a batch are for exactly the rows the batch queued. */
  lemma {:induction false} ScheduledAreQueued(db: Db, lids: seq<nat>, dids: seq<nat>, now: int)
    requires |dids| == |lids| && CanDelete(db, lids)
    ensures forall did :: did in StageDeletes(db, lids, dids, now).deliveries <==>
                          did in db.deliveries || did in Present(DeletionIds(db, lids, dids))
    decreases |lids|
  {
    if lids != [] {
      var db1 := StageDelete(db, lids[0], dids[0], now);
      OneQueued(db, lids[0], dids[0], now);
      ScheduledAreQueued(db1, lids[1..], dids[1..], now);
      assert DeletionIds(db, lids, dids)[1..] == DeletionIds(db1, lids[1..], dids[1..]);
      assert db1.deliveries.Keys ==
             db.deliveries.Keys + if Notifies(db.licenses[lids[0]]) then {dids[0]} else {};
    }
  }

  lemma {:induction false} PresentQueued(db: Db, lids: seq<nat>, dids: seq<nat>, now: int)
    requires |dids| == |lids| && CanDelete(db, lids)
    ensures db.deliveries.Keys <= StageDeletes(db, lids, dids, now).deliveries.Keys
    ensures forall did :: did in Present(DeletionIds(db, lids, dids)) ==>
            did in StageDeletes(db, lids, dids, now).deliveries
    decreases |lids|
  {
    if lids != [] {
      var db1 := StageDelete(db, lids[0], dids[0], now);
      OneQueued(db, lids[0], dids[0], now);
      PresentQueued(db1, lids[1..], dids[1..], now);
      assert DeletionIds(db, lids, dids)[1..] == DeletionIds(db1, lids[1..], dids[1..]);
    }
  }

  lemma OneQueued(db: Db, lid: nat, did: nat, now: int)
    requires lid in db.licenses
    ensures var db1 := StageDelete(db, lid, did, now);
            && db.deliveries.Keys <= db1.deliveries.Keys && db1.licenses == db.licenses - {lid}
            && (Notifies(db.licenses[lid]) ==> did in db1.deliveries)
  {
  }
}
