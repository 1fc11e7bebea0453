/** License calls whose sessions overlap (app/services/licenses.py, app/services/check.py). No call locks its
    row: it loads the row, works on its own copy and at commit writes the columns it changed, so a heartbeat
    and an operator's call on one license can interleave, and a session may die before it commits. */
module LicenseOverlap {
  import opened Common
  import opened LicenseModel
  import R = LicenseRuns

  /** An open call on one license and the row as it loaded it. A call on several rows is a session per row. */
  datatype Txn = Txn(lid: nat, op: R.Op, loaded: License)

  /** The durable rows, the open sessions, and the licenses of the accepted heartbeats in order. */
  datatype Table = Table(rows: map<nat, License>, open: map<nat, Txn>, beats: seq<nat>)

  datatype Step =
    | Insert(lic: License)
    | Remove(lid: nat)
    | Begin(k: nat, lid: nat, op: R.Op)
    | Commit(k: nat)
    | Abort(k: nat)

  /** The operation works on row `lid`; a secret it may mint is not empty. */
  predicate On(op: R.Op, lid: nat) {
    match op
    case StripeExtend(l, _) => l == lid
    case StripeStatus(lids, _) => lid in lids
    case SetStatus(l, _, _, _) => l == lid
    case Edit(l, _, minted, _, _) => l == lid && minted != ""
    case Configure(l, _, _, _, _, _, minted) => l == lid && minted != ""
    case Convert(l, minted) => l == lid && minted != ""
    case Check(found, _, _, _, _, minted) => found == Some(lid) && minted != ""
    case _ => false
  }

  predicate Raises(t: Txn, safe: ShapeCheck) {
    R.RowAfter(t.op, t.loaded, safe).Err?
  }

  /** The session's copy at its commit. */
  function Current(t: Txn, safe: ShapeCheck): License
    requires !Raises(t, safe)
  {
    R.RowAfter(t.op, t.loaded, safe).value
  }

  /** The durable row after a flush: only the columns that differ from what was loaded are written. */
  function Flushed(durable: License, loaded: License, current: License): License {
    durable.(plan := Column(durable.plan, loaded.plan, current.plan),
             maxUsers := Column(durable.maxUsers, loaded.maxUsers, current.maxUsers),
             features := Column(durable.features, loaded.features, current.features),
             validUntil := Column(durable.validUntil, loaded.validUntil, current.validUntil),
             status := Column(durable.status, loaded.status, current.status),
             url := Column(durable.url, loaded.url, current.url),
             secret := Column(durable.secret, loaded.secret, current.secret),
             source := Column(durable.source, loaded.source, current.source),
             allowHttp := Column(durable.allowHttp, loaded.allowHttp, current.allowHttp))
  }

  predicate NoneOpenOn(t: Table, lid: nat) {
    forall k :: k in t.open ==> t.open[k].lid != lid
  }

  /** A new row has a fresh id and a consistent configuration, as issuing and Stripe creation give it. */
  predicate Enabled(t: Table, s: Step, safe: ShapeCheck) {
    match s
    case Insert(lic) => lic.id !in t.rows && NoneOpenOn(t, lic.id) && R.ConfigOk(lic, safe)
    case Remove(lid) => lid in t.rows
    case Begin(k, lid, op) => k !in t.open && lid in t.rows && On(op, lid)
    case Commit(k) => k in t.open && t.open[k].lid in t.rows && !Raises(t.open[k], safe)
    case Abort(k) => k in t.open
  }

  function Next(t: Table, s: Step, safe: ShapeCheck): Table
    requires Enabled(t, s, safe)
  {
    match s
    case Insert(lic) => t.(rows := t.rows[lic.id := lic])
    case Remove(lid) => t.(rows := t.rows - {lid})
    case Begin(k, lid, op) => t.(open := t.open[k := Txn(lid, op, t.rows[lid])])
    case Commit(k) =>
      var x := t.open[k];
      Table(t.rows[x.lid := Flushed(t.rows[x.lid], x.loaded, Current(x, safe))], t.open - {k},
            t.beats + if x.op.Check? then [x.lid] else [])
    case Abort(k) => t.(open := t.open - {k})
  }

  predicate IsRun(t: Table, steps: seq<Step>, safe: ShapeCheck)
    decreases |steps|
  {
    steps == [] || (Enabled(t, steps[0], safe) && IsRun(Next(t, steps[0], safe), steps[1..], safe))
  }

  function Final(t: Table, steps: seq<Step>, safe: ShapeCheck): Table
    requires IsRun(t, steps, safe)
    decreases |steps|
  {
    if steps == [] then t else Final(Next(t, steps[0], safe), steps[1..], safe)
  }

  // ----- when a commit keeps the webhook columns consistent ----------------------------------------------

  /** A session that writes just one of URL and secret finds the row configured as its copy is. */
  predicate KeepsPair(durable: License, loaded: License, current: License) {
    (current.url != loaded.url) == (current.secret != loaded.secret) || durable.url.Some? == current.url.Some?
  }

  /** Ownership taken over an unwritten URL finds one, and a URL cleared under an unwritten source finds none
      of an operator's. */
  predicate KeepsOwner(durable: License, loaded: License, current: License) {
    && (current.url == loaded.url && current.source == Admin && loaded.source != Admin ==> durable.url.Some?)
    && (current.url.None? && loaded.url.Some? && current.source == loaded.source ==> durable.source == Self)
  }

  /** A URL written alone is safe under the flag it meets, and a flag written alone suits the URL it meets. */
  predicate KeepsSafe(durable: License, loaded: License, current: License, safe: ShapeCheck) {
    && (current.url != loaded.url && current.url.Some? && current.allowHttp == loaded.allowHttp ==>
          safe(current.url.value, durable.allowHttp))
    && (current.url == loaded.url && durable.url.Some? && current.allowHttp != loaded.allowHttp ==>
          safe(durable.url.value, current.allowHttp))
  }

  predicate Harmless(durable: License, loaded: License, current: License, safe: ShapeCheck) {
    KeepsPair(durable, loaded, current) && KeepsOwner(durable, loaded, current) &&
        KeepsSafe(durable, loaded, current, safe)
  }

  lemma CommitKeepsConfigIff(durable: License, loaded: License, current: License, safe: ShapeCheck)
    requires R.ConfigOk(durable, safe) && R.ConfigOk(loaded, safe) && R.ConfigOk(current, safe)
    ensures R.ConfigOk(Flushed(durable, loaded, current), safe) <==> Harmless(durable, loaded, current, safe)
  {
  }

  /** A heartbeat breaks the row exactly when it registers a URL that meets a row since cleared, or a flag that
      forbids it. */
  lemma HeartbeatKeepsConfigIff(durable: License, loaded: License, op: R.Op, lid: nat, safe: ShapeCheck)
    requires R.RejectsEmpty(safe) && R.ConfigOk(durable, safe) && R.ConfigOk(loaded, safe)
    requires op.Check? && On(op, lid) && R.RowAfter(op, loaded, safe).Ok?
    ensures var c := Candidate(op.publicUrl);
            R.ConfigOk(Flushed(durable, loaded, R.RowAfter(op, loaded, safe).value), safe) <==>
            !Registers(loaded, op) ||
            ((loaded.secret.Some? ==> durable.secret.Some?) && safe(c.value, durable.allowHttp))
  {
  }

  /** The heartbeat takes the branch that writes the row's URL. */
  predicate Registers(loaded: License, op: R.Op)
    requires op.Check?
  {
    var c := Candidate(op.publicUrl);
    c.Some? && c != loaded.url && loaded.source == Self
  }

  lemma CopyKeepsConfig(op: R.Op, lid: nat, row: License, safe: ShapeCheck)
    requires R.RejectsEmpty(safe) && R.ConfigOk(row, safe) && On(op, lid) && R.RowAfter(op, row, safe).Ok?
    ensures R.ConfigOk(R.RowAfter(op, row, safe).value, safe) && R.RowAfter(op, row, safe).value.id == row.id
  {
    match op
    case Edit(_, form, minted, _, _) => R.EditKeepsConfig(row, form, minted, safe);
    case Configure(_, url, rotate, mint, source, flag, minted) =>
      R.ConfiguredKeepsConfig(row, url, rotate, mint, source, flag, minted, safe);
    case Check(_, _, _, publicUrl, _, minted) => R.CheckKeepsConfig(row, publicUrl, minted, safe);
    case _ =>
  }

  ghost predicate RowsOk(t: Table, safe: ShapeCheck) {
    forall lid :: lid in t.rows ==> R.ConfigOk(t.rows[lid], safe)
  }

  /** What open sessions have loaded was consistent, and they work on the row they loaded. */
  ghost predicate OpenOk(t: Table, safe: ShapeCheck) {
    forall k :: k in t.open ==> On(t.open[k].op, t.open[k].lid) && R.ConfigOk(t.open[k].loaded, safe)
  }

  /** The rows are consistent now and after every step. */
  ghost predicate AlwaysOk(t: Table, steps: seq<Step>, safe: ShapeCheck)
    requires IsRun(t, steps, safe)
    decreases |steps|
  {
    RowsOk(t, safe) && (steps == [] || AlwaysOk(Next(t, steps[0], safe), steps[1..], safe))
  }

  predicate CommitHarmless(t: Table, k: nat, safe: ShapeCheck)
    requires Enabled(t, Commit(k), safe)
  {
    Harmless(t.rows[t.open[k].lid], t.open[k].loaded, Current(t.open[k], safe), safe)
  }

  predicate AllHarmless(t: Table, steps: seq<Step>, safe: ShapeCheck)
    requires IsRun(t, steps, safe)
    decreases |steps|
  {
    steps == [] ||
    ((steps[0].Commit? ==> CommitHarmless(t, steps[0].k, safe)) &&
        AllHarmless(Next(t, steps[0], safe), steps[1..], safe))
  }

  lemma StepKeepsRowsIff(t: Table, s: Step, safe: ShapeCheck)
    requires R.RejectsEmpty(safe) && RowsOk(t, safe) && OpenOk(t, safe) && Enabled(t, s, safe)
    ensures OpenOk(Next(t, s, safe), safe)
    ensures RowsOk(Next(t, s, safe), safe) <==> (s.Commit? ==> CommitHarmless(t, s.k, safe))
  {
    if s.Commit? {
      var x := t.open[s.k];
      CopyKeepsConfig(x.op, x.lid, x.loaded, safe);
      CommitKeepsConfigIff(t.rows[x.lid], x.loaded, Current(x, safe), safe);
      assert Next(t, s, safe).rows[x.lid] == Flushed(t.rows[x.lid], x.loaded, Current(x, safe));
    }
  }

  /** Over every interleaving: the webhook columns stay consistent throughout exactly when every commit is
      harmless to the row it meets. */
  lemma {:induction false} RunKeepsConfigIff(t: Table, steps: seq<Step>, safe: ShapeCheck)
    requires R.RejectsEmpty(safe) && RowsOk(t, safe) && OpenOk(t, safe) && IsRun(t, steps, safe)
    ensures AlwaysOk(t, steps, safe) <==> AllHarmless(t, steps, safe)
    decreases |steps|
  {
    if steps != [] {
      StepKeepsRowsIff(t, steps[0], safe);
      if RowsOk(Next(t, steps[0], safe), safe) {
        RunKeepsConfigIff(Next(t, steps[0], safe), steps[1..], safe);
      }
    }
  }

  // ----- runs without overlap on a row ---------------------------------------------------------------------

  /** No session opens on a row that another open session has loaded. */
  predicate NoOverlap(t: Table, steps: seq<Step>, safe: ShapeCheck)
    requires IsRun(t, steps, safe)
    decreases |steps|
  {
    steps == [] ||
    ((steps[0].Begin? ==> NoneOpenOn(t, steps[0].lid)) && NoOverlap(Next(t, steps[0], safe), steps[1..], safe))
  }

  ghost predicate Serial(t: Table) {
    && (forall k :: k in t.open && t.open[k].lid in t.rows ==> t.open[k].loaded == t.rows[t.open[k].lid])
    && (forall j, k :: j in t.open && k in t.open && t.open[j].lid == t.open[k].lid ==> j == k)
  }

  lemma FlushOfFreshCopy(loaded: License, current: License)
    requires current.id == loaded.id && current.productId == loaded.productId
    requires current.customerId == loaded.customerId && current.key == loaded.key
    ensures Flushed(loaded, loaded, current) == current
  {
  }

  lemma CopyKeepsIdentity(op: R.Op, row: License, safe: ShapeCheck)
    requires R.RowAfter(op, row, safe).Ok?
    ensures var after := R.RowAfter(op, row, safe).value;
            && after.id == row.id && after.productId == row.productId
            && after.customerId == row.customerId && after.key == row.key
  {
  }

  /** A commit that finds the row as it was loaded leaves what the call run as one step leaves. */
  lemma FreshCommitIsEffect(db: Db, op: R.Op, lid: nat, safe: ShapeCheck)
    requires R.Valid(db, op) && lid in db.licenses && On(op, lid) && !op.StripeStatus?
    ensures R.Effect(db, op, safe).Ok? <==> R.RowAfter(op, db.licenses[lid], safe).Ok?
    ensures R.Effect(db, op, safe).Ok? ==>
              var row := db.licenses[lid];
              R.Effect(db, op, safe).value.licenses ==
              db.licenses[lid := Flushed(row, row, R.RowAfter(op, row, safe).value)]
  {
    var row := db.licenses[lid];
    if R.RowAfter(op, row, safe).Ok? {
      CopyKeepsIdentity(op, row, safe);
      FlushOfFreshCopy(row, R.RowAfter(op, row, safe).value);
    }
  }

  /** Without overlap on a row every commit is harmless, so the columns stay consistent. */
  lemma {:induction false} RunKeepsConfigWithoutOverlap(t: Table, steps: seq<Step>, safe: ShapeCheck)
    requires R.RejectsEmpty(safe) && RowsOk(t, safe) && OpenOk(t, safe) && Serial(t)
    requires IsRun(t, steps, safe) && NoOverlap(t, steps, safe)
    ensures AlwaysOk(t, steps, safe)
    decreases |steps|
  {
    if steps != [] {
      StepKeepsRowsIff(t, steps[0], safe);
      if steps[0].Commit? {
        var x := t.open[steps[0].k];
        CopyKeepsConfig(x.op, x.lid, x.loaded, safe);
        FreshCommitIsHarmless(x.loaded, Current(x, safe), safe);
      }
      RunKeepsConfigWithoutOverlap(Next(t, steps[0], safe), steps[1..], safe);
    }
  }

  lemma FreshCommitIsHarmless(loaded: License, current: License, safe: ShapeCheck)
    requires R.ConfigOk(loaded, safe) && R.ConfigOk(current, safe)
    ensures Harmless(loaded, loaded, current, safe)
  {
  }

  // ----- a webhook an operator set -----------------------------------------------------------------------

  /** A heartbeat's commit on an operator's row leaves its webhook columns exactly when it had loaded an
      operator's row, carries no URL, or with a secret in hand repeats a URL it loaded or meets. */
  lemma HeartbeatKeepsAdminIff(durable: License, loaded: License, op: R.Op, lid: nat, safe: ShapeCheck)
    requires durable.source == Admin && op.Check? && On(op, lid) && R.RowAfter(op, loaded, safe).Ok?
    ensures R.SameWebhook(durable, Flushed(durable, loaded, R.RowAfter(op, loaded, safe).value)) <==>
            SparesAdmin(durable, loaded, op)
  {
  }

  predicate SparesAdmin(durable: License, loaded: License, op: R.Op)
    requires op.Check?
  {
    var c := Candidate(op.publicUrl);
    || loaded.source == Admin
    || c.None?
    || (c in {loaded.url, durable.url} && (Truthy(loaded.secret) || durable.secret == Some(op.minted)))
  }

  /** A heartbeat's commit leaves the secret it meets exactly when it mints none: it carries no URL, or loaded an
      operator's row or one with a secret. */
  lemma HeartbeatKeepsSecretIff(durable: License, loaded: License, op: R.Op, lid: nat, safe: ShapeCheck)
    requires op.Check? && On(op, lid) && R.RowAfter(op, loaded, safe).Ok?
    ensures Flushed(durable, loaded, R.RowAfter(op, loaded, safe).value).secret == durable.secret <==>
            Candidate(op.publicUrl).None? || loaded.source == Admin || Truthy(loaded.secret) ||
            durable.secret == Some(op.minted)
  {
  }

  /** No step deletes `lid` or opens an operator's call on it: only heartbeats, status changes and Stripe. */
  predicate NoOperator(steps: seq<Step>, lid: nat) {
    forall i :: 0 <= i < |steps| ==>
      steps[i] != Remove(lid) && (steps[i].Begin? && steps[i].lid == lid ==> !R.TouchesWebhook(steps[i].op, lid))
  }

  ghost predicate NoOperatorOpen(t: Table, lid: nat) {
    forall k :: k in t.open && t.open[k].lid == lid ==> On(t.open[k].op, lid) && !R.TouchesWebhook(t.open[k].op, lid)
  }

  /** `lid` holds the webhook of `lic` now and after every step. */
  ghost predicate AlwaysWebhook(t: Table, steps: seq<Step>, lid: nat, lic: License, safe: ShapeCheck)
    requires IsRun(t, steps, safe)
    decreases |steps|
  {
    && lid in t.rows && R.SameWebhook(lic, t.rows[lid])
    && (steps == [] || AlwaysWebhook(Next(t, steps[0], safe), steps[1..], lid, lic, safe))
  }

  predicate AllSpareAdmin(t: Table, steps: seq<Step>, lid: nat, safe: ShapeCheck)
    requires IsRun(t, steps, safe)
    decreases |steps|
  {
    steps == [] ||
    ((steps[0].Commit? && t.open[steps[0].k].lid == lid && t.open[steps[0].k].op.Check? ==>
        SparesAdmin(t.rows[lid], t.open[steps[0].k].loaded, t.open[steps[0].k].op)) &&
     AllSpareAdmin(Next(t, steps[0], safe), steps[1..], lid, safe))
  }

  lemma StepKeepsAdminIff(t: Table, s: Step, lid: nat, safe: ShapeCheck)
    requires Enabled(t, s, safe) && lid in t.rows && t.rows[lid].source == Admin && NoOperatorOpen(t, lid)
    requires NoOperator([s], lid)
    ensures lid in Next(t, s, safe).rows && NoOperatorOpen(Next(t, s, safe), lid)
    ensures R.SameWebhook(t.rows[lid], Next(t, s, safe).rows[lid]) <==>
            (s.Commit? && t.open[s.k].lid == lid && t.open[s.k].op.Check? ==>
               SparesAdmin(t.rows[lid], t.open[s.k].loaded, t.open[s.k].op))
  {
    assert [s][0] == s;
    if s.Commit? && t.open[s.k].lid == lid && t.open[s.k].op.Check? {
      HeartbeatKeepsAdminIff(t.rows[lid], t.open[s.k].loaded, t.open[s.k].op, lid, safe);
    }
  }

  /** Over every interleaving without an operator's call on it, an operator's webhook stays as set exactly
      when every heartbeat that commits on it spares it. */
  lemma {:induction false} AdminWebhookStaysIff(t: Table, steps: seq<Step>, lid: nat, safe: ShapeCheck)
    requires IsRun(t, steps, safe) && lid in t.rows && t.rows[lid].source == Admin
    requires NoOperator(steps, lid) && NoOperatorOpen(t, lid)
    ensures AlwaysWebhook(t, steps, lid, t.rows[lid], safe) <==> AllSpareAdmin(t, steps, lid, safe)
    decreases |steps|
  {
    if steps != [] {
      assert NoOperator([steps[0]], lid);
      StepKeepsAdminIff(t, steps[0], lid, safe);
      var t' := Next(t, steps[0], safe);
      if R.SameWebhook(t.rows[lid], t'.rows[lid]) {
        AdminWebhookStaysIff(t', steps[1..], lid, safe);
        SameReference(t', steps[1..], lid, t.rows[lid], t'.rows[lid], safe);
      } else {
        assert !AlwaysWebhook(t', steps[1..], lid, t.rows[lid], safe);
      }
    }
  }

  lemma {:induction false} SameReference(t: Table, steps: seq<Step>, lid: nat, a: License, b: License, safe: ShapeCheck)
    requires IsRun(t, steps, safe) && R.SameWebhook(a, b)
    ensures AlwaysWebhook(t, steps, lid, a, safe) <==> AlwaysWebhook(t, steps, lid, b, safe)
    decreases |steps|
  {
    if steps != [] {
      SameReference(Next(t, steps[0], safe), steps[1..], lid, a, b, safe);
    }
  }

  /** Every open heartbeat on `lid` has loaded it as an operator's. */
  ghost predicate AllLoadedAdmin(t: Table, lid: nat) {
    forall k :: k in t.open && t.open[k].lid == lid ==> t.open[k].loaded.source == Admin
  }

  /** So once no session is left that loaded the row before it became an operator's, nothing but an operator
      changes its webhook. */
  lemma {:induction false} AdminWebhookStays(t: Table, steps: seq<Step>, lid: nat, safe: ShapeCheck)
    requires IsRun(t, steps, safe) && lid in t.rows && t.rows[lid].source == Admin
    requires NoOperator(steps, lid) && NoOperatorOpen(t, lid) && AllLoadedAdmin(t, lid)
    ensures AlwaysWebhook(t, steps, lid, t.rows[lid], safe)
    decreases |steps|
  {
    if steps != [] {
      assert NoOperator([steps[0]], lid);
      StepKeepsAdminIff(t, steps[0], lid, safe);
      var t' := Next(t, steps[0], safe);
      AdminWebhookStays(t', steps[1..], lid, safe);
      SameReference(t', steps[1..], lid, t.rows[lid], t'.rows[lid], safe);
    }
  }

  // ----- heartbeats of a disabled or revoked license --------------------------------------------------------

  predicate Locked(t: Table, lid: nat) {
    lid in t.rows ==> t.rows[lid].status == Disabled || t.rows[lid].status == Revoked
  }

  /** The open heartbeats of the license that are past their checks and will be accepted. */
  function Early(t: Table, lid: nat, safe: ShapeCheck): set<nat> {
    set k | k in t.open && t.open[k].lid == lid && t.open[k].op.Check? && !Raises(t.open[k], safe)
  }

  function Beats(beats: seq<nat>, lid: nat): nat {
    if beats == [] then 0
    else Beats(beats[..|beats| - 1], lid) + if beats[|beats| - 1] == lid then 1 else 0
  }

  /** No step opens a call that sets the status of `lid` or creates it anew. */
  predicate NoReviver(steps: seq<Step>, lid: nat) {
    forall i :: 0 <= i < |steps| ==>
      && (steps[i].Insert? ==> steps[i].lic.id != lid)
      && (steps[i].Begin? && steps[i].lid == lid ==> !R.MayRevive(steps[i].op, lid))
  }

  ghost predicate NoReviverOpen(t: Table, lid: nat) {
    forall k :: k in t.open && t.open[k].lid == lid ==> On(t.open[k].op, lid) && !R.MayRevive(t.open[k].op, lid)
  }

  lemma StepKeepsLocked(t: Table, s: Step, lid: nat, safe: ShapeCheck)
    requires Enabled(t, s, safe) && Locked(t, lid) && NoReviver([s], lid) && NoReviverOpen(t, lid)
    ensures Locked(Next(t, s, safe), lid) && NoReviverOpen(Next(t, s, safe), lid)
  {
    assert [s][0] == s;
  }

  lemma SessionEnds(t: Table, t': Table, k: nat, lid: nat, safe: ShapeCheck)
    requires t'.open == t.open - {k}
    ensures |Early(t', lid, safe)| == |Early(t, lid, safe)| - if k in Early(t, lid, safe) then 1 else 0
  {
    assert Early(t', lid, safe) == Early(t, lid, safe) - {k};
    if k !in Early(t, lid, safe) {
      assert Early(t', lid, safe) == Early(t, lid, safe);
    }
  }

  lemma {:induction false} BeatsOf(beats: seq<nat>, l: nat, lid: nat)
    ensures Beats(beats + [l], lid) == Beats(beats, lid) + if l == lid then 1 else 0
  {
    assert (beats + [l])[..|beats|] == beats;
  }

  lemma {:induction false} CommitCountsEarly(t: Table, k: nat, lid: nat, safe: ShapeCheck)
    requires Enabled(t, Commit(k), safe)
    ensures var t' := Next(t, Commit(k), safe);
            Beats(t'.beats, lid) + |Early(t', lid, safe)| == Beats(t.beats, lid) + |Early(t, lid, safe)|
  {
    SessionEnds(t, Next(t, Commit(k), safe), k, lid, safe);
    BeatsOf(t.beats, t.open[k].lid, lid);
    assert t.beats + [] == t.beats;
  }

  lemma BeginCountsEarly(t: Table, k: nat, l: nat, op: R.Op, lid: nat, safe: ShapeCheck)
    requires Enabled(t, Begin(k, l, op), safe) && Locked(t, lid)
    ensures Early(Next(t, Begin(k, l, op), safe), lid, safe) == Early(t, lid, safe)
  {
  }

  lemma {:induction false} StepCountsEarly(t: Table, s: Step, lid: nat, safe: ShapeCheck)
    requires Enabled(t, s, safe) && Locked(t, lid)
    ensures var t' := Next(t, s, safe);
            Beats(t'.beats, lid) + |Early(t', lid, safe)| <= Beats(t.beats, lid) + |Early(t, lid, safe)|
  {
    match s
    case Commit(k) => CommitCountsEarly(t, k, lid, safe);
    case Abort(k) => SessionEnds(t, Next(t, s, safe), k, lid, safe);
    case Begin(k, l, op) => BeginCountsEarly(t, k, l, op, lid, safe);
    case _ => assert Early(Next(t, s, safe), lid, safe) == Early(t, lid, safe);
  }

  /** From a committed disable or revoke to the next call that sets the status, the only heartbeats accepted
      are ones that had loaded the row before: each open one at most once, a later one never. */
  lemma {:induction false} LockedAcceptsOnlyEarly(t: Table, steps: seq<Step>, lid: nat, safe: ShapeCheck)
    requires IsRun(t, steps, safe) && Locked(t, lid) && NoReviver(steps, lid) && NoReviverOpen(t, lid)
    ensures Locked(Final(t, steps, safe), lid)
    ensures Beats(Final(t, steps, safe).beats, lid) <= Beats(t.beats, lid) + |Early(t, lid, safe)|
    decreases |steps|
  {
    if steps != [] {
      assert NoReviver([steps[0]], lid);
      StepKeepsLocked(t, steps[0], lid, safe);
      StepCountsEarly(t, steps[0], lid, safe);
      LockedAcceptsOnlyEarly(Next(t, steps[0], safe), steps[1..], lid, safe);
    }
  }

  // ----- runs of two overlapping calls ------------------------------------------------------------------------

  /** Both calls load the row, then `second` commits, then `first`. */
  function Crossed(lid: nat, first: R.Op, second: R.Op): seq<Step> {
    [Begin(0, lid, first), Begin(1, lid, second), Commit(1), Commit(0)]
  }

  lemma CrossedRuns(row: License, first: R.Op, second: R.Op, safe: ShapeCheck)
    requires On(first, row.id) && On(second, row.id)
    requires R.RowAfter(first, row, safe).Ok? && R.RowAfter(second, row, safe).Ok?
    ensures var t := Table(map[row.id := row], map[], []);
            && IsRun(t, Crossed(row.id, first, second), safe)
            && (var after := Final(t, Crossed(row.id, first, second), safe);
                && row.id in after.rows
                && after.rows[row.id] ==
                   Flushed(Flushed(row, row, R.RowAfter(second, row, safe).value), row,
                       R.RowAfter(first, row, safe).value)
                && (first.Check? ==> after.beats != [] && after.beats[|after.beats| - 1] == row.id))
  {
    var t := Table(map[row.id := row], map[], []);
    var t1 := Next(t, Begin(0, row.id, first), safe);
    BothCommit(row, first, second, safe);
    FirstStep(t1, Begin(1, row.id, second), [Commit(1), Commit(0)], safe);
    FirstStep(t, Begin(0, row.id, first), [Begin(1, row.id, second), Commit(1), Commit(0)], safe);
  }

  /** Both sessions open on the row as they loaded it. */
  function BothOpen(row: License, first: R.Op, second: R.Op): Table {
    Table(map[row.id := row], map[0 := Txn(row.id, first, row), 1 := Txn(row.id, second, row)], [])
  }

  lemma BothCommit(row: License, first: R.Op, second: R.Op, safe: ShapeCheck)
    requires R.RowAfter(first, row, safe).Ok? && R.RowAfter(second, row, safe).Ok?
    ensures var t := BothOpen(row, first, second);
            && IsRun(t, [Commit(1), Commit(0)], safe)
            && (var after := Final(t, [Commit(1), Commit(0)], safe);
                && row.id in after.rows
                && after.rows[row.id] ==
                   Flushed(Flushed(row, row, R.RowAfter(second, row, safe).value), row,
                       R.RowAfter(first, row, safe).value)
                && (first.Check? ==> after.beats != [] && after.beats[|after.beats| - 1] == row.id))
  {
    var t2 := BothOpen(row, first, second);
    var t3 := Next(t2, Commit(1), safe);
    FirstStep(t3, Commit(0), [], safe);
    FirstStep(t2, Commit(1), [Commit(0)], safe);
  }

  lemma {:induction false} FirstStep(t: Table, s: Step, rest: seq<Step>, safe: ShapeCheck)
    requires Enabled(t, s, safe) && IsRun(Next(t, s, safe), rest, safe)
    ensures IsRun(t, [s] + rest, safe) && Final(t, [s] + rest, safe) == Final(Next(t, s, safe), rest, safe)
  {
    assert ([s] + rest)[1..] == rest;
  }

  /** A heartbeat that carries `url` as its own address. */
  function Beat(lid: nat, url: string, minted: string): R.Op {
    R.Check(Some(lid), "install", "1.0", Some(url), 0, minted)
  }

  /** An address a heartbeat would register: trimmed, short and acceptable with or without the http flag. */
  predicate Registrable(url: string, safe: ShapeCheck) {
    Candidate(Some(url)) == Some(url) && |url| <= MAX_URL && url != "" && safe(url, false) && safe(url, true)
  }

  /** A heartbeat moves a self-registered URL while an operator clears it: the row ends with a URL and no
      secret. */
  lemma ClearedUnderHeartbeat(row: License, url: string, minted: string, safe: ShapeCheck)
    requires R.ConfigOk(row, safe) && row.url.Some? && row.source == Self && row.url != Some(url)
    requires Registrable(url, safe) && row.status == Active && row.validUntil >= 0 && minted != ""
    ensures var clear := R.Configure(row.id, None, false, true, Admin, None, minted);
            var steps := Crossed(row.id, Beat(row.id, url, minted), clear);
            var t := Table(map[row.id := row], map[], []);
            && IsRun(t, steps, safe) && row.id in Final(t, steps, safe).rows
            && (var after := Final(t, steps, safe).rows[row.id];
                after.url == Some(url) && after.secret.None? && !R.ConfigOk(after, safe))
  {
    CrossedRuns(row, Beat(row.id, url, minted), R.Configure(row.id, None, false, true, Admin, None, minted), safe);
  }

  /** A heartbeat registers its URL while an operator configures another: the row ends as the operator's, with
      the heartbeat's URL. */
  lemma OperatorOverwritten(row: License, chosen: string, url: string, minted: string, safe: ShapeCheck)
    requires R.ConfigOk(row, safe) && row.url.None? && row.status == Active && row.validUntil >= 0 && minted != ""
    requires Registrable(url, safe) && Registrable(chosen, safe) && url != chosen
    ensures var configure := R.Configure(row.id, Some(chosen), false, true, Admin, None, minted);
            var steps := Crossed(row.id, Beat(row.id, url, minted), configure);
            var t := Table(map[row.id := row], map[], []);
            && IsRun(t, steps, safe) && row.id in Final(t, steps, safe).rows
            && (var after := Final(t, steps, safe).rows[row.id]; after.source == Admin && after.url == Some(url))
  {
    CrossedRuns(row, Beat(row.id, url, minted), R.Configure(row.id, Some(chosen), false, true, Admin, None, minted),
        safe);
  }

  /** Two heartbeats that both register a license's first URL: the second commit replaces the secret that the
      first one's client was given. */
  lemma SecretReplaced(row: License, url: string, first: string, second: string, safe: ShapeCheck)
    requires R.ConfigOk(row, safe) && row.url.None? && row.status == Active && row.validUntil >= 0
    requires Registrable(url, safe) && first != "" && second != "" && first != second
    ensures R.RowAfter(Beat(row.id, url, first), row, safe).value.secret == Some(first)
    ensures var steps := Crossed(row.id, Beat(row.id, url, second), Beat(row.id, url, first));
            var t := Table(map[row.id := row], map[], []);
            && IsRun(t, steps, safe) && row.id in Final(t, steps, safe).rows
            && Final(t, steps, safe).rows[row.id].secret == Some(second)
  {
    CrossedRuns(row, Beat(row.id, url, second), Beat(row.id, url, first), safe);
  }

  /** A heartbeat that loaded the row before a disable commits is accepted after it. */
  lemma AcceptedAfterDisable(row: License, url: string, minted: string, did: nat, safe: ShapeCheck)
    requires R.ConfigOk(row, safe) && Registrable(url, safe) && row.status == Active && row.validUntil >= 0 &&
             minted != ""
    ensures var steps := Crossed(row.id, Beat(row.id, url, minted), R.SetStatus(row.id, Disabled, did, 0));
            var t := Table(map[row.id := row], map[], []);
            && IsRun(t, steps, safe) && row.id in Final(t, steps, safe).rows
            && (var after := Final(t, steps, safe);
                after.rows[row.id].status == Disabled && after.beats != [] && after.beats[|after.beats| - 1] == row.id)
  {
    CrossedRuns(row, Beat(row.id, url, minted), R.SetStatus(row.id, Disabled, did, 0), safe);
  }
}
