/** The rows the license services read and write, and what each service call stages on them
    (app/models.py, app/services/licenses.py, app/services/check.py). A stage function maps the
    durable tables to the tables the call would commit, or to the exception it raises. */
module LicenseModel {
  import opened Common
  import D = Deliveries

  type Status = LicenseStatus

  datatype Source = Admin | Self

  datatype License = License(
    id: nat, productId: nat, customerId: nat, key: string,
    plan: string, maxUsers: int, features: string, validUntil: int, status: Status,
    url: Option<string>, secret: Option<string>, source: Source, allowHttp: bool)

  datatype Install = Install(licenseId: nat, installId: string, version: string, lastSeenAt: int)

  datatype EventKind =
    | Issued
    | StatusSet(status: Status)
    | Edited(webhook: bool, secretChanged: bool)
    | WebhookUpdated(isSet: bool)
    | ConvertedToSelf(oldSecretInvalidated: bool)
    | LicenseDeleted(facts: D.Facts)
    | ProductDeleted(productId: nat, count: nat)
    | OverrideRefused(attempted: string)
    | SelfRegistered(previous: Option<string>, url: string)
    | SecretBackfilled
    | Heartbeat(version: string, installId: string)
    | Extended(validUntil: int)

  datatype Event = Event(licenseId: Option<nat>, productId: Option<nat>, kind: EventKind)

  datatype Db = Db(
    slugs: map<nat, string>, emails: map<nat, string>, presets: map<nat, nat>,
    licenses: map<nat, License>, installs: seq<Install>, events: seq<Event>, deliveries: map<nat, D.Row>)

  datatype Failure =
    | UnsafeUrl
    | Invalid(reason: string)
    | CheckRejected(reason: string)

  /** `is_safe_url_shape`, as an oracle of the URL and the row's http flag. */
  type ShapeCheck = (string, bool) -> bool

  // ----- strings and truthiness ----------------------------------------------------------------

  predicate IsSlash(c: char) {
    c == '/'
  }

  /** The empty string counts as no value. */
  function OrNone(s: string): Option<string> {
    if s == "" then None else Some(s)
  }

  predicate Truthy(o: Option<string>) {
    o.Some? && o.value != ""
  }

  // ----- webhook configuration -------------------------------------------------------------------

  predicate Notifies(lic: License) {
    Truthy(lic.url) && Truthy(lic.secret)
  }

  /** `apply_webhook_config`; `minted` is the secret used if one is minted. */
  function Configured(lic: License, url: Option<string>, rotate: bool, mintOnUrlChange: bool, source: Source,
                      allowHttp: Option<bool>, minted: string, safe: ShapeCheck): Result<License, Failure> {
    if !Truthy(url) then
      Ok(lic.(url := None, secret := None, source := Self, allowHttp := false))
    else
      var flag := if allowHttp.Some? then allowHttp.value else lic.allowHttp;
      if !safe(url.value, flag) then Err(UnsafeUrl)
      else
        var mint := rotate || !Truthy(lic.secret) || (mintOnUrlChange && lic.url != url);
        Ok(lic.(url := url, secret := if mint then Some(minted) else lic.secret, source := source, allowHttp := flag))
  }

  datatype EditForm = EditForm(
    plan: string, maxUsers: int, validUntil: Option<int>, features: Option<string>,
    webhookUrl: string, allowHttp: Option<bool>, rotate: bool)

  /** The fields `edit_license` reports as changed; a form that parses is assumed. */
  function ChangedFields(lic: License, f: EditForm): seq<string> {
    (if lic.plan != f.plan then ["plan"] else [])
    + (if lic.maxUsers != f.maxUsers then ["max_users"] else [])
    + (if Some(lic.validUntil) != f.validUntil then ["valid_until"] else [])
    + (if Some(lic.features) != f.features then ["features"] else [])
  }

  /** The webhook half of `edit_license`. */
  function EditedWebhook(lic: License, f: EditForm, minted: string, safe: ShapeCheck): Result<License, Failure> {
    var newUrl := OrNone(Strip(f.webhookUrl));
    if newUrl != lic.url || f.rotate then
      Configured(lic, newUrl, f.rotate, true, if newUrl != lic.url then Admin else lic.source, f.allowHttp, minted,
          safe)
    else
      var healed := if newUrl.Some? && !Truthy(lic.secret) then lic.(secret := Some(minted)) else lic;
      if f.allowHttp.Some? && lic.allowHttp != f.allowHttp.value then
        if newUrl.Some? && !safe(newUrl.value, f.allowHttp.value) then Err(UnsafeUrl)
        else Ok(healed.(allowHttp := f.allowHttp.value))
      else Ok(healed)
  }

  function EditedLicense(lic: License, f: EditForm, minted: string, safe: ShapeCheck): Result<License, Failure> {
    if f.features.None? then Err(Invalid("invalid features json"))
    else if f.validUntil.None? then Err(Invalid("invalid valid_until"))
    else EditedWebhook(lic.(plan := f.plan, maxUsers := f.maxUsers, validUntil := f.validUntil.value,
                            features := f.features.value), f, minted, safe)
  }

  function ConvertedLicense(lic: License, minted: string): Result<License, Failure> {
    if !Truthy(lic.url) then Err(Invalid("no webhook url to convert"))
    else if lic.source != Admin then Err(Invalid("already self-registered"))
    else Ok(lic.(source := Self, secret := Some(minted)))
  }

  /** The webhook columns `issue_license` gives a new row. */
  function IssuedLicense(base: License, webhookUrl: Option<string>, allowHttp: bool, minted: string,
                         safe: ShapeCheck): Result<License, Failure> {
    var url := if webhookUrl.None? then None else OrNone(Strip(webhookUrl.value));
    if url.Some? && !safe(url.value, allowHttp) then Err(UnsafeUrl)
    else Ok(base.(status := Active, url := url, secret := if url.Some? then Some(minted) else None,
                  source := if url.Some? then Admin else Self, allowHttp := allowHttp))
  }

  // ----- heartbeat ---------------------------------------------------------------------------------

  const MAX_URL := 500

  function Candidate(publicUrl: Option<string>): Option<string> {
    if publicUrl.None? || Strip(publicUrl.value) == "" then None
    else Some(TrimRight(Strip(publicUrl.value), IsSlash))
  }

  predicate CandidateRefused(lic: License, publicUrl: Option<string>, safe: ShapeCheck) {
    var c := Candidate(publicUrl);
    c.Some? && (|c.value| > MAX_URL || !safe(c.value, lic.allowHttp))
  }

  /** The webhook half of `check_license`: the row and the audit events it adds. */
  function CheckedWebhook(lic: License, publicUrl: Option<string>, minted: string): (License, seq<EventKind>) {
    var c := Candidate(publicUrl);
    if c.None? then (lic, [])
    else if lic.url != c then
      if lic.source == Admin then (lic, [OverrideRefused(c.value)])
      else (lic.(url := c, source := Self, secret := if Truthy(lic.secret) then lic.secret else Some(minted)),
            [SelfRegistered(lic.url, c.value)])
    else if lic.source == Self && !Truthy(lic.secret) then (lic.(secret := Some(minted)), [SecretBackfilled])
    else (lic, [])
  }

  function RejectReason(lic: License, publicUrl: Option<string>, now: int, safe: ShapeCheck): Option<string> {
    if lic.status == Revoked then Some("revoked")
    else if lic.status == Disabled then Some("disabled")
    else if lic.validUntil < now then Some("expired")
    else if CandidateRefused(lic, publicUrl, safe) then Some("invalid_public_url")
    else None
  }

  /** Install upsert: the matching row is refreshed in place, else one is added. */
  function Upserted(installs: seq<Install>, row: Install): seq<Install> {
    if installs == [] then [row]
    else if installs[0].licenseId == row.licenseId && installs[0].installId == row.installId then [row] + installs[1..]
    else [installs[0]] + Upserted(installs[1..], row)
  }

  // ----- rows staged by a call ------------------------------------------------------------------

  function FactsOf(db: Db, lic: License): D.Facts {
    D.Facts(lic.id, lic.key,
            if lic.productId in db.slugs then Some(db.slugs[lic.productId]) else None,
            if lic.customerId in db.emails then Some(db.emails[lic.customerId]) else None)
  }

  function StatusName(s: Status): string {
    match s
    case Active => "active"
    case Delinquent => "delinquent"
    case Disabled => "disabled"
    case Revoked => "revoked"
  }

  const EVENT_STATUS_CHANGED := "license.status.changed"
  const EVENT_DELETED := "license.deleted"
  const EVENT_UPDATED := "license.updated"

  function WithEvent(db: Db, lic: License, kind: EventKind): Db {
    db.(events := db.events + [Event(Some(lic.id), Some(lic.productId), kind)])
  }

  function LicenseEvents(lic: License, kinds: seq<EventKind>): seq<Event> {
    if kinds == [] then []
    else [Event(Some(lic.id), Some(lic.productId), kinds[0])] + LicenseEvents(lic, kinds[1..])
  }

  /** `enqueue`: the notice goes to the URL and secret the row holds now. */
  function Queued(db: Db, lic: License, did: nat, eventType: string, notice: D.Notice, now: int): Db
    requires Notifies(lic)
  {
    db.(deliveries := db.deliveries[did :=
          D.Enqueued(D.Identity(did, lic.url.value, lic.secret.value, eventType, D.Json(notice)), now)])
  }

  function StageStatus(db: Db, lid: nat, status: Status, did: nat, now: int): Db
    requires lid in db.licenses
  {
    var lic := db.licenses[lid];
    var db1 := WithEvent(db.(licenses := db.licenses[lid := lic.(status := status)]), lic, StatusSet(status));
    if Notifies(lic) then
      Queued(db1, lic, did, EVENT_STATUS_CHANGED,
             D.StatusChanged(FactsOf(db, lic), StatusName(lic.status), StatusName(status)), now)
    else db1
  }

  function StageEdit(db: Db, lid: nat, f: EditForm, minted: string, did: nat, now: int, safe: ShapeCheck)
    : Result<Db, Failure>
    requires lid in db.licenses
  {
    var edited := EditedLicense(db.licenses[lid], f, minted, safe);
    if edited.Err? then Err(edited.error) else Ok(WithEdit(db, lid, edited.value, f, did, now))
  }

  /** The edited row with its event and, when a plain field changed, its notice. */
  function WithEdit(db: Db, lid: nat, lic: License, f: EditForm, did: nat, now: int): Db
    requires lid in db.licenses
  {
    var before := db.licenses[lid];
    var db1 := WithEvent(db.(licenses := db.licenses[lid := lic]), lic,
                         Edited(Strip(f.webhookUrl) != "", lic.secret != before.secret));
    if ChangedFields(before, f) != [] && Notifies(lic) then
      Queued(db1, lic, did, EVENT_UPDATED,
             D.Updated(FactsOf(db, lic), StatusName(lic.status), ChangedFields(before, f)), now)
    else db1
  }

  function StageConfigure(db: Db, lid: nat, url: Option<string>, rotate: bool, mint: bool, source: Source,
                          allowHttp: Option<bool>, minted: string, safe: ShapeCheck): Result<Db, Failure>
    requires lid in db.licenses
  {
    var r := Configured(db.licenses[lid], url, rotate, mint, source, allowHttp, minted, safe);
    if r.Err? then Err(r.error)
    else Ok(WithEvent(db.(licenses := db.licenses[lid := r.value]), r.value, WebhookUpdated(Truthy(url))))
  }

  function StageConvert(db: Db, lid: nat, minted: string): Result<Db, Failure>
    requires lid in db.licenses
  {
    var lic := db.licenses[lid];
    var r := ConvertedLicense(lic, minted);
    if r.Err? then Err(r.error)
    else Ok(WithEvent(db.(licenses := db.licenses[lid := r.value]), r.value, ConvertedToSelf(Truthy(lic.secret))))
  }

  /** Audit rows of a deleted license survive with their pointer nulled. */
  function Unlinked(events: seq<Event>, lid: nat): seq<Event> {
    seq(|events|, i requires 0 <= i < |events| =>
      if events[i].licenseId == Some(lid) then events[i].(licenseId := None) else events[i])
  }

  function WithoutInstalls(installs: seq<Install>, lid: nat): seq<Install> {
    if installs == [] then []
    else (if installs[0].licenseId == lid then [] else [installs[0]]) + WithoutInstalls(installs[1..], lid)
  }

  /** `_delete_license_in_tx`. The bulk event update reaches the rows already flushed; the new audit
      row carries no license pointer, so its own flush time does not matter. */
  function StageDelete(db: Db, lid: nat, did: nat, now: int): Db
    requires lid in db.licenses
  {
    var lic := db.licenses[lid];
    var facts := FactsOf(db, lic);
    var db1 := db.(events := Unlinked(db.events + [Event(None, Some(lic.productId), LicenseDeleted(facts))], lid),
                   installs := WithoutInstalls(db.installs, lid),
                   licenses := db.licenses - {lid});
    if Notifies(lic) then Queued(db1, lic, did, EVENT_DELETED, D.LicenseDeleted(facts), now) else db1
  }

  predicate Distinct<T(==)>(s: seq<T>) {
    forall i, j :: 0 <= i < j < |s| ==> s[i] != s[j]
  }

  predicate CanDelete(db: Db, lids: seq<nat>) {
    Distinct(lids) && forall lid :: lid in lids ==> lid in db.licenses
  }

  function StageDeletes(db: Db, lids: seq<nat>, dids: seq<nat>, now: int): Db
    requires |dids| == |lids| && CanDelete(db, lids)
    decreases |lids|
  {
    if lids == [] then db
    else StageDeletes(StageDelete(db, lids[0], dids[0], now), lids[1..], dids[1..], now)
  }

  function DeletionIds(db: Db, lids: seq<nat>, dids: seq<nat>): seq<Option<nat>>
    requires |dids| == |lids| && forall lid :: lid in lids ==> lid in db.licenses
  {
    seq(|lids|, i requires 0 <= i < |lids| => if Notifies(db.licenses[lids[i]]) then Some(dids[i]) else None)
  }

  /** How many of a batch's deletion events the session has flushed: queueing a notice flushes what came
      before it, and nothing else does before the commit. */
  function FlushedEvents(pairs: seq<Option<nat>>): nat {
    if pairs == [] then 0
    else if pairs[|pairs| - 1].Some? then |pairs|
    else FlushedEvents(pairs[..|pairs| - 1])
  }

  /** The bulk update that drops the product's pointers reaches the first `flushed` events. */
  function Unowned(events: seq<Event>, pid: nat, flushed: nat): seq<Event> {
    seq(|events|, i requires 0 <= i < |events| =>
      if i < flushed && events[i].productId == Some(pid) then events[i].(productId := None) else events[i])
  }

  lemma UnownedAppend(events: seq<Event>, pid: nat, flushed: nat, e: Event)
    requires e.productId.None?
    ensures Unowned(events + [e], pid, flushed) == Unowned(events, pid, flushed) + [e]
  {
  }

  /** Feature presets, by the product that owns them. */
  function PresetsWithout(presets: map<nat, nat>, pid: nat): map<nat, nat> {
    map p | p in presets && presets[p] != pid :: presets[p]
  }

  function StageProductDelete(db: Db, pid: nat, lids: seq<nat>, dids: seq<nat>, now: int): Db
    requires |dids| == |lids| && CanDelete(db, lids)
  {
    var db1 := StageDeletes(db, lids, dids, now);
    var flushed := |db.events| + FlushedEvents(DeletionIds(db, lids, dids));
    db1.(events := Unowned(db1.events, pid, flushed) + [Event(None, None, ProductDeleted(pid, |lids|))],
         presets := PresetsWithout(db1.presets, pid), slugs := db1.slugs - {pid})
  }

  /** The link of the "issued" event is left out: the row has no id when the event is built. */
  function StageIssue(db: Db, base: License, webhookUrl: Option<string>, allowHttp: bool, minted: string,
                      safe: ShapeCheck): Result<Db, Failure> {
    var r := IssuedLicense(base, webhookUrl, allowHttp, minted, safe);
    if r.Err? then Err(r.error)
    else Ok(db.(licenses := db.licenses[base.id := r.value],
                events := db.events + [Event(None, Some(base.productId), Issued)]))
  }

  /** A license created by a paid Stripe invoice: column defaults for the webhook fields. */
  function StripeLicense(base: License): License {
    base.(status := Active, url := None, secret := None, source := Self, allowHttp := false)
  }

  function StageCheck(db: Db, found: Option<nat>, installId: string, version: string, publicUrl: Option<string>,
                      now: int, minted: string, safe: ShapeCheck): Result<Db, Failure>
    requires found.Some? ==> found.value in db.licenses
  {
    if found.None? then Err(CheckRejected("invalid_key"))
    else
      var lic := db.licenses[found.value];
      var why := RejectReason(lic, publicUrl, now, safe);
      if why.Some? then Err(CheckRejected(why.value))
      else
        var (lic', kinds) := CheckedWebhook(lic, publicUrl, minted);
        Ok(db.(licenses := db.licenses[found.value := lic'],
               installs := Upserted(db.installs, Install(lic.id, installId, version, now)),
               events := db.events + LicenseEvents(lic, kinds) +
                         [Event(Some(lic.id), Some(lic.productId), Heartbeat(version, installId))]))
  }

  /** `test_webhook`: one terminal row for a send that has already happened; the license is untouched. */
  function StageTest(db: Db, lid: nat, did: nat, reply: D.Reply, now: int): Result<Db, Failure>
    requires lid in db.licenses
  {
    var lic := db.licenses[lid];
    if !Notifies(lic) then Err(Invalid("no webhook configured"))
    else
      var identity := D.Identity(did, lic.url.value, lic.secret.value, D.TEST_EVENT, D.Json(D.Probe(FactsOf(db, lic))));
      Ok(db.(deliveries := db.deliveries[did := D.TestRow(identity, reply, now)]))
  }
}
