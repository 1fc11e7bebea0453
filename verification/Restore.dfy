/** Full-replace restore (app/backup.py, app/services/backups.py): wipe children first, load parents
    first, one transaction, with a snapshot of the previous state taken before. */
module Restore {
  import opened Common
  import opened Backup
  import Utf8

  // ----- referential integrity --------------------------------------------------------------------

  /** Foreign keys point to tables earlier in the schema order; keys and foreign keys name columns. */
  predicate ParentsFirst(schema: Schema) {
    forall t :: 0 <= t < |schema| ==>
      schema[t].key < |schema[t].columns| &&
      forall f :: f in schema[t].foreignKeys ==> f.parent < t && f.column < |schema[t].columns|
  }

  predicate Shaped(schema: Schema, db: Db) {
    |db| == |schema| && forall t, r :: 0 <= t < |schema| && r in db[t] ==> |r| == |schema[t].columns|
  }

  predicate Resolves(schema: Schema, db: Db, row: Row, f: ForeignKey)
    requires ParentsFirst(schema) && Shaped(schema, db) && f.parent < |schema| && f.column < |row|
  {
    row[f.column] == NULL || exists p :: p in db[f.parent] && p[schema[f.parent].key] == row[f.column]
  }

  ghost predicate Integrity(schema: Schema, db: Db)
    requires ParentsFirst(schema) && Shaped(schema, db)
  {
    forall t, r, f :: 0 <= t < |schema| && r in db[t] && f in schema[t].foreignKeys ==> Resolves(schema, db, r, f)
  }

  /** A database of the schema's shape with every foreign key resolved. */
  ghost predicate Closed(schema: Schema, db: Db) {
    ParentsFirst(schema) && Shaped(schema, db) && Integrity(schema, db)
  }

  /** The first `n` tables of `db`, the others empty. */
  function Upto(db: Db, n: nat): Db
    requires n <= |db|
  {
    seq(|db|, t requires 0 <= t < |db| => if t < n then db[t] else [])
  }

  /** Every prefix of a closed database is closed: children are emptied before their parents. */
  lemma PrefixKeepsIntegrity(schema: Schema, db: Db, n: nat)
    requires n <= |db|
    ensures Closed(schema, db) ==> Closed(schema, Upto(db, n))
  {
    if Closed(schema, db) {
      var cut := Upto(db, n);
      assert Shaped(schema, cut);
      forall t, r, f | 0 <= t < |schema| && r in cut[t] && f in schema[t].foreignKeys
        ensures Resolves(schema, cut, r, f)
      {
        assert t < n && r in db[t];
        assert Resolves(schema, db, r, f);
        assert f.parent < n && cut[f.parent] == db[f.parent];
      }
    }
  }

  // ----- the audit events a restore adds ------------------------------------------------------------

  /** Appends a row to table `t`. */
  function WithRow(db: Db, t: nat, row: Row): Db
    requires t < |db|
  {
    db[t := db[t] + [row]]
  }

  // ----- restore ------------------------------------------------------------------------------------

  const RESTORE_PHRASE := "RESTORE LICENSE SERVER"

  /** What a deployment fixes: its container, schema, live revision, and the index of its events table. */
  datatype Deployment = Deployment(container: Container, schema: Schema, revision: Option<string>, events: nat)

  predicate DeploymentOk(d: Deployment) {
    d.events < |d.schema| && SchemaOk(d.schema) && ParentsFirst(d.schema)
  }

  /** The outcome of one restore: the database it leaves, the safety snapshot if one was written. */
  datatype Outcome = Outcome(db: Db, snapshot: Option<seq<Utf8.Byte>>, result: Result<(), Failure>)

  /** Statement number `failAt` raises: a delete per table, then an insert per table that has rows. */
  predicate Fails(rows: Db, failAt: Option<nat>) {
    failAt.Some? && (failAt.value < |rows| ||
                     (failAt.value < 2 * |rows| && rows[failAt.value - |rows|] != []))
  }

  /** `restore_backup`: phrase, manifest, snapshot, then checks, wipe and load; `created` and `restored`
      are the two audit rows. */
  function Restored(d: Deployment, db: Db, data: seq<Utf8.Byte>, phrase: string, created: Row, restored: Row,
                    failAt: Option<nat>): Outcome
    requires DeploymentOk(d) && DbOk(d.schema, db)
  {
    if Strip(phrase) != RESTORE_PHRASE then Outcome(db, None, Err(ConfirmationMismatch))
    else
      var archive := ReadArchive(d.container, data);
      if archive.Err? then Outcome(db, None, Err(archive.error))
      else
        var snapshot := Some(Wrap(d.container, d.container.pack(Export(d.schema, d.revision, db))));
        var marked := WithRow(db, d.events, created);
        var rows := ParseArchive(d.schema, d.revision, archive.value);
        if rows.Err? then Outcome(marked, snapshot, Err(rows.error))
        else if Fails(rows.value, failAt) then Outcome(marked, snapshot, Err(DatabaseError))
        else
          ArchivedLength(d.schema, archive.value);
          Outcome(WithRow(rows.value, d.events, restored), snapshot, Ok(()))
  }

  lemma {:induction false} ArchivedLength(schema: Schema, a: Archive)
    ensures ArchivedRows(schema, a).Some? ==> |ArchivedRows(schema, a).value| == |schema|
    decreases |schema|
  {
    if schema != [] {
      ArchivedLength(schema[..|schema| - 1], a);
    }
  }

  class Store {
    var durable: Db
    var staged: Db
    /** Every state the load transaction passes through. */
    ghost var passed: seq<Db>

    constructor (db: Db)
      ensures durable == db && staged == db && passed == []
    {
      durable, staged, passed := db, db, [];
    }

    method Execute(t: nat, rows: seq<Row>)
      requires t < |staged|
      modifies this`staged, this`passed
      ensures staged == old(staged)[t := rows] && passed == old(passed) + [staged]
    {
      staged := staged[t := rows];
      passed := passed + [staged];
    }

    method Commit()
      modifies this`durable
      ensures durable == staged
    {
      durable := staged;
    }

    /** The wipe and load of `import_archive`; statement number `failAt`, if any, raises. */
    method Load(schema: Schema, rows: Db, failAt: Option<nat>) returns (ok: bool)
      requires staged == durable && passed == [] && |durable| == |rows| == |schema|
      modifies this
      ensures durable == (if ok then rows else old(durable)) && staged == durable
      ensures ok <==> !Fails(rows, failAt)
      ensures Closed(schema, old(durable)) && Closed(schema, rows) ==> forall s :: s in passed ==> Closed(schema, s)
    {
      var n := |schema|;
      var i := n;
      while i > 0
        invariant durable == old(durable) && 0 <= i <= n && staged == Upto(durable, i)
        invariant failAt.None? || failAt.value >= n - i
        invariant Closed(schema, durable) ==> forall s :: s in passed ==> Closed(schema, s)
      {
        if failAt == Some(n - i) {
          staged := durable;
          return false;
        }
        i := i - 1;
        PrefixKeepsIntegrity(schema, durable, i);
        Execute(i, []);
        assert staged == Upto(durable, i);
      }
      assert staged == Upto(rows, 0);
      while i < n
        invariant 0 <= i <= n && staged == Upto(rows, i) && durable == old(durable)
        invariant Fails(rows, failAt) ==> failAt.value >= n + i
        invariant Closed(schema, durable) && Closed(schema, rows) ==> forall s :: s in passed ==> Closed(schema, s)
      {
        PrefixKeepsIntegrity(schema, rows, i + 1);
        if rows[i] != [] {
          if failAt == Some(n + i) {
            staged := durable;
            return false;
          }
          Execute(i, rows[i]);
        }
        assert staged == Upto(rows, i + 1);
        i := i + 1;
      }
      assert staged == rows;
      Commit();
      return true;
    }

    /** `restore_backup`: each audit row is committed on its own. */
    method RestoreBackup(d: Deployment, data: seq<Utf8.Byte>, phrase: string, created: Row, restored: Row,
                         failAt: Option<nat>)
      returns (snapshot: Option<seq<Utf8.Byte>>, result: Result<(), Failure>)
      requires staged == durable && passed == [] && DeploymentOk(d) && DbOk(d.schema, durable)
      modifies this
      ensures Outcome(durable, snapshot, result) ==
              Restored(d, old(durable), data, phrase, created, restored, failAt)
      ensures Closed(d.schema, WithRow(old(durable), d.events, created)) && ArchiveClosed(d, data) ==>
                forall s :: s in passed ==> Closed(d.schema, s)
    {
      if Strip(phrase) != RESTORE_PHRASE {
        return None, Err(ConfirmationMismatch);
      }
      var archive := ReadArchive(d.container, data);
      if archive.Err? {
        return None, Err(archive.error);
      }
      snapshot := Some(Wrap(d.container, d.container.pack(Export(d.schema, d.revision, durable))));
      staged := WithRow(staged, d.events, created);
      Commit();
      var rows := ParseArchive(d.schema, d.revision, archive.value);
      if rows.Err? {
        return snapshot, Err(rows.error);
      }
      ArchivedLength(d.schema, archive.value);
      var ok := Load(d.schema, rows.value, failAt);
      if !ok {
        return snapshot, Err(DatabaseError);
      }
      staged := WithRow(staged, d.events, restored);
      Commit();
      return snapshot, Ok(());
    }
  }

  /** The archive, when it parses, is closed under foreign keys. */
  ghost predicate ArchiveClosed(d: Deployment, data: seq<Utf8.Byte>) {
    var archive := ReadArchive(d.container, data);
    archive.Ok? && ParseArchive(d.schema, d.revision, archive.value).Ok? ==>
      Closed(d.schema, ParseArchive(d.schema, d.revision, archive.value).value)
  }

  // ----- undo -----------------------------------------------------------------------------------------

  lemma {:induction false} TrimRightFixed(s: string)
    requires s == "" || !IsSpace(s[|s| - 1])
    ensures TrimRight(s, IsSpace) == s
  {
  }

  lemma PhraseConfirms()
    ensures Strip(RESTORE_PHRASE) == RESTORE_PHRASE
  {
    assert RESTORE_PHRASE[0] == 'R' && RESTORE_PHRASE[|RESTORE_PHRASE| - 1] == 'R';
    TrimRightFixed(RESTORE_PHRASE);
  }

  /** A restore succeeds exactly on the typed phrase, a readable archive that fits the live schema, and a load in
      which no statement fails; then the data is the archive's, plus the restore's own audit row. */
  lemma {:induction false} RestoreSucceedsIff(d: Deployment, db: Db, data: seq<Utf8.Byte>, phrase: string, created: Row,
                                              restored: Row, failAt: Option<nat>)
    requires DeploymentOk(d) && DbOk(d.schema, db)
    ensures var o := Restored(d, db, data, phrase, created, restored, failAt);
            var archive := ReadArchive(d.container, data);
            && (o.result.Ok? <==>
                  Strip(phrase) == "RESTORE LICENSE SERVER" && archive.Ok? &&
                  ParseArchive(d.schema, d.revision, archive.value).Ok? &&
                  !Fails(ParseArchive(d.schema, d.revision, archive.value).value, failAt))
            && (o.result.Ok? ==>
                  var rows := ParseArchive(d.schema, d.revision, archive.value).value;
                  |rows| == |d.schema| && o.db == rows[d.events := rows[d.events] + [restored]] &&
                  o.snapshot == Some(Wrap(d.container, d.container.pack(Export(d.schema, d.revision, db)))))
            && (o.result == Err(ConfirmationMismatch) <== Strip(phrase) != "RESTORE LICENSE SERVER")
  {
    if ReadArchive(d.container, data).Ok? {
      ArchivedLength(d.schema, ReadArchive(d.container, data).value);
    }
  }

  /** A refused or failed restore leaves the data as it was, but for the snapshot's own audit row once the
      snapshot has been taken. */
  lemma FailedRestoreKeepsData(d: Deployment, db: Db, data: seq<Utf8.Byte>, phrase: string, created: Row, restored: Row,
                               failAt: Option<nat>)
    requires DeploymentOk(d) && DbOk(d.schema, db)
    requires Restored(d, db, data, phrase, created, restored, failAt).result.Err?
    ensures var o := Restored(d, db, data, phrase, created, restored, failAt);
            && (o.snapshot.Some? <==> Strip(phrase) == RESTORE_PHRASE && ReadArchive(d.container, data).Ok?)
            && o.db == if o.snapshot.Some? then WithRow(db, d.events, created) else db
  {
  }

  /** An archive of another schema revision is refused, and yet leaves a snapshot and its audit row. */
  lemma SchemaMismatchLeavesSnapshot(d: Deployment, db: Db, revision: string, created: Row, restored: Row,
                                     failAt: Option<nat>)
    requires DeploymentOk(d) && DbOk(d.schema, db) && Lawful(d.container)
    requires d.revision.Some? && d.revision.value != revision
    ensures var data := Wrap(d.container, d.container.pack(Export(d.schema, Some(revision), db)));
            var o := Restored(d, db, data, RESTORE_PHRASE, created, restored, failAt);
            o.result == Err(SchemaMismatch) && o.snapshot.Some? && o.db == WithRow(db, d.events, created) && o.db != db
  {
    PhraseConfirms();
    WrapRoundTrip(d.container, Export(d.schema, Some(revision), db));
    assert |WithRow(db, d.events, created)[d.events]| == |db[d.events]| + 1;
  }

  /** A bad restore is one more restore away from undone: restoring the safety snapshot gives exactly the
      state before the first restore, plus one audit row. */
  lemma SnapshotUndoesRestore(d: Deployment, db: Db, data: seq<Utf8.Byte>, phrase: string, created: Row, restored: Row,
                              failAt: Option<nat>, created': Row, restored': Row)
    requires DeploymentOk(d) && DbOk(d.schema, db) && Lawful(d.container)
    requires Restored(d, db, data, phrase, created, restored, failAt).result.Ok?
    requires RowOk(d.schema[d.events].columns, restored)
    ensures DbOk(d.schema, Restored(d, db, data, phrase, created, restored, failAt).db)
    ensures var first := Restored(d, db, data, phrase, created, restored, failAt);
            var undo := Restored(d, first.db, first.snapshot.value, RESTORE_PHRASE, created', restored', None);
            undo.result.Ok? && undo.db == WithRow(db, d.events, restored')
  {
    var archive := ReadArchive(d.container, data).value;
    ParsedRowsOk(d.schema, archive);
    var after := Restored(d, db, data, phrase, created, restored, failAt).db;
    assert DbOk(d.schema, after);
    SnapshotRestores(d, db, after, created', restored');
  }

  /** Restoring a snapshot of `db` over any state `now`. */
  lemma SnapshotRestores(d: Deployment, db: Db, now: Db, created: Row, restored: Row)
    requires DeploymentOk(d) && DbOk(d.schema, db) && DbOk(d.schema, now) && Lawful(d.container)
    ensures var snapshot := Wrap(d.container, d.container.pack(Export(d.schema, d.revision, db)));
            var undo := Restored(d, now, snapshot, RESTORE_PHRASE, created, restored, None);
            undo.result.Ok? && undo.db == WithRow(db, d.events, restored)
  {
    PhraseConfirms();
    BackupRoundTrip(d.container, d.schema, d.revision, db);
  }
}
