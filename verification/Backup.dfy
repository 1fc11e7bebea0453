/** The logical backup archive (app/backup.py): one JSON line per row, one file per table, re-typed
    from column metadata on import. Tables are indexed in foreign-key order, parents first. */
module Backup {
  import opened Common
  import J = JsonText
  import T = IsoTime
  import Utf8

  /** A column value: a timestamp, or what JSON represents as itself (NULL included). */
  datatype Value = Time(t: T.DateTime) | Plain(j: J.Json)

  const NULL: Value := Plain(J.Null)

  datatype Column = Column(name: string, isTime: bool)

  /** A foreign key: the column holding it and the index of the parent table. */
  datatype ForeignKey = ForeignKey(column: nat, parent: nat)

  datatype Table = Table(name: string, columns: seq<Column>, key: nat, foreignKeys: seq<ForeignKey>)

  type Schema = seq<Table>
  type Row = seq<Value>

  /** The rows of each table of the schema, in its order. */
  type Db = seq<seq<Row>>

  // ----- lines ------------------------------------------------------------------------------------

  /** The line boundaries of `str.splitlines`. */
  predicate IsBreak(c: char) {
    10 <= c as int <= 13 || 28 <= c as int <= 30 || c as int in {0x85, 0x2028, 0x2029}
  }

  /** `splitlines`, with `current` the part of the present line already read. */
  function SplitLines(s: string, current: string): seq<string> {
    if s == "" then (if current == "" then [] else [current])
    else if s[0] == '\r' && |s| > 1 && s[1] == '\n' then [current] + SplitLines(s[2..], "")
    else if IsBreak(s[0]) then [current] + SplitLines(s[1..], "")
    else SplitLines(s[1..], current + [s[0]])
  }

  function JoinLines(lines: seq<string>): string {
    if lines == [] then "" else if |lines| == 1 then lines[0] else lines[0] + "\n" + JoinLines(lines[1..])
  }

  predicate IsLine(s: string) {
    s != "" && forall i :: 0 <= i < |s| ==> !IsBreak(s[i])
  }

  lemma {:induction false} ReadLine(line: string, rest: string, current: string)
    requires forall i :: 0 <= i < |line| ==> !IsBreak(line[i])
    ensures SplitLines(line + rest, current) == SplitLines(rest, current + line)
    decreases |line|
  {
    if line == "" {
      assert line + rest == rest && current + line == current;
    } else {
      assert (line + rest)[1..] == line[1..] + rest;
      ReadLine(line[1..], rest, current + [line[0]]);
      assert current + [line[0]] + line[1..] == current + line;
    }
  }

  lemma {:induction false} ReadBreak(rest: string, current: string)
    ensures SplitLines("\n" + rest, current) == [current] + SplitLines(rest, "")
  {
    assert ("\n" + rest)[0] == '\n' && ("\n" + rest)[1..] == rest;
  }

  lemma {:induction false} JoinMore(lines: seq<string>)
    requires |lines| > 1
    ensures JoinLines(lines) == lines[0] + ("\n" + JoinLines(lines[1..]))
  {
  }

  lemma {:induction false} LinesRoundTrip(lines: seq<string>)
    requires forall i :: 0 <= i < |lines| ==> IsLine(lines[i])
    ensures SplitLines(JoinLines(lines), "") == lines
    decreases |lines|
  {
    if lines != [] {
      var line := lines[0];
      assert "" + line == line;
      if |lines| == 1 {
        ReadLine(line, "", "");
        assert line + "" == line;
        assert lines == [line];
      } else {
        var rest := JoinLines(lines[1..]);
        JoinMore(lines);
        ReadLine(line, "\n" + rest, "");
        ReadBreak(rest, line);
        LinesRoundTrip(lines[1..]);
        assert [line] + lines[1..] == lines;
      }
    }
  }

  // ----- rows -------------------------------------------------------------------------------------

  predicate ValueOk(c: Column, v: Value) {
    v == NULL || match v
      case Time(t) => c.isTime && T.Valid(t)
      case Plain(j) => !c.isTime && J.WellFormed(j)
  }

  predicate RowOk(columns: seq<Column>, row: Row) {
    |row| == |columns| && forall i :: 0 <= i < |row| ==> ValueOk(columns[i], row[i])
  }

  predicate DistinctNames(columns: seq<Column>) {
    forall i, j :: 0 <= i < j < |columns| ==> columns[i].name != columns[j].name
  }

  /** `_encode_value`. */
  function EncodeValue(v: Value): J.Json
    requires v.Time? ==> T.Valid(v.t)
  {
    match v
    case Time(t) => J.Str(T.Iso(t))
    case Plain(j) => j
  }

  function Fields(columns: seq<Column>, row: Row): seq<(string, J.Json)>
    requires RowOk(columns, row)
  {
    seq(|columns|, i requires 0 <= i < |columns| => (columns[i].name, EncodeValue(row[i])))
  }

  function Line(columns: seq<Column>, row: Row): string
    requires RowOk(columns, row)
  {
    J.Dumps(J.Obj(Fields(columns, row)))
  }

  /** A column's value in a parsed line: the last of repeated names, NULL when missing. */
  function Lookup(fields: seq<(string, J.Json)>, name: string): J.Json {
    if fields == [] then J.Null
    else if fields[|fields| - 1].0 == name then fields[|fields| - 1].1
    else Lookup(fields[..|fields| - 1], name)
  }

  /** Column-typed decoding; None when `fromisoformat` raises. */
  function DecodeValue(c: Column, j: J.Json): Option<Value> {
    if j.Null? || !c.isTime then Some(Plain(j))
    else if !j.Str? then None
    else
      var t := T.Parse(j.text);
      if t.None? then None else Some(Time(t.value))
  }

  function DecodeRow(columns: seq<Column>, fields: seq<(string, J.Json)>): Option<Row> {
    if columns == [] then Some([])
    else
      var v, rest := DecodeValue(columns[0], Lookup(fields, columns[0].name)), DecodeRow(columns[1..], fields);
      if v.None? || rest.None? then None else Some([v.value] + rest.value)
  }

  function DecodeLine(columns: seq<Column>, line: string): Option<Row> {
    var j := J.Loads(line);
    if j.None? || !j.value.Obj? then None else DecodeRow(columns, j.value.fields)
  }

  lemma ValueRoundTrip(c: Column, v: Value)
    requires ValueOk(c, v)
    ensures DecodeValue(c, EncodeValue(v)) == Some(v) && J.WellFormed(EncodeValue(v))
  {
    if v.Time? {
      T.RoundTrip(v.t);
    }
  }

  lemma {:induction false} LookupField(fields: seq<(string, J.Json)>, i: nat)
    requires i < |fields| && forall j, k :: 0 <= j < k < |fields| ==> fields[j].0 != fields[k].0
    ensures Lookup(fields, fields[i].0) == fields[i].1
    decreases |fields|
  {
    if i < |fields| - 1 {
      LookupField(fields[..|fields| - 1], i);
    }
  }

  lemma {:induction false} RowFromFields(columns: seq<Column>, row: Row, fields: seq<(string, J.Json)>)
    requires RowOk(columns, row)
    requires forall i :: 0 <= i < |columns| ==> Lookup(fields, columns[i].name) == EncodeValue(row[i])
    ensures DecodeRow(columns, fields) == Some(row)
    decreases |columns|
  {
    if columns != [] {
      ValueRoundTrip(columns[0], row[0]);
      RowFromFields(columns[1..], row[1..], fields);
      assert [row[0]] + row[1..] == row;
    }
  }

  /** A typed row survives its line. */
  lemma LineRoundTrip(columns: seq<Column>, row: Row)
    requires RowOk(columns, row) && DistinctNames(columns)
    ensures DecodeLine(columns, Line(columns, row)) == Some(row) && IsLine(Line(columns, row))
  {
    var fields := Fields(columns, row);
    forall i | 0 <= i < |fields| ensures J.WellFormed(fields[i].1) &&
        Lookup(fields, columns[i].name) == EncodeValue(row[i]) {
      ValueRoundTrip(columns[i], row[i]);
      LookupField(fields, i);
    }
    RowFromFields(columns, row, fields);
    J.LoadsDumps(J.Obj(fields));
    J.DumpsPrintable(J.Obj(fields));
    J.DumpsStart(J.Obj(fields));
  }

  // ----- table files --------------------------------------------------------------------------------

  predicate RowsOk(columns: seq<Column>, rows: seq<Row>) {
    forall i :: 0 <= i < |rows| ==> RowOk(columns, rows[i])
  }

  function Lines(columns: seq<Column>, rows: seq<Row>): seq<string>
    requires RowsOk(columns, rows)
  {
    seq(|rows|, i requires 0 <= i < |rows| => Line(columns, rows[i]))
  }

  function TableFile(columns: seq<Column>, rows: seq<Row>): seq<Utf8.Byte>
    requires RowsOk(columns, rows)
  {
    Utf8.Encode(JoinLines(Lines(columns, rows)))
  }

  /** Every non-blank line decoded; None when one does not parse. */
  function DecodeLines(columns: seq<Column>, lines: seq<string>): Option<seq<Row>> {
    if lines == [] then Some([])
    else if Strip(lines[0]) == "" then DecodeLines(columns, lines[1..])
    else
      var row, rest := DecodeLine(columns, lines[0]), DecodeLines(columns, lines[1..]);
      if row.None? || rest.None? then None else Some([row.value] + rest.value)
  }

  function DecodeFile(columns: seq<Column>, bytes: seq<Utf8.Byte>): Option<seq<Row>> {
    var text := Utf8.Decode(bytes);
    if text.None? then None else DecodeLines(columns, SplitLines(text.value, ""))
  }

  lemma LineIsNotBlank(columns: seq<Column>, row: Row)
    requires RowOk(columns, row)
    ensures Strip(Line(columns, row)) != ""
  {
    var s := Line(columns, row);
    assert s[0] == '{';
    assert TrimLeft(s) == s;
    TrimRightKeepsFirst(s);
  }

  lemma {:induction false} TrimRightKeepsFirst(s: string)
    requires s != "" && !IsSpace(s[0])
    ensures TrimRight(s, IsSpace) != ""
    decreases |s|
  {
    if |s| > 1 {
      TrimRightKeepsFirst(s[..|s| - 1]);
    }
  }

  lemma {:induction false} DecodeWrittenLines(columns: seq<Column>, rows: seq<Row>)
    requires RowsOk(columns, rows) && DistinctNames(columns)
    ensures DecodeLines(columns, Lines(columns, rows)) == Some(rows)
    decreases |rows|
  {
    if rows != [] {
      LineRoundTrip(columns, rows[0]);
      LineIsNotBlank(columns, rows[0]);
      DecodeWrittenLines(columns, rows[1..]);
      assert Lines(columns, rows)[1..] == Lines(columns, rows[1..]);
      assert [rows[0]] + rows[1..] == rows;
    }
  }

  lemma FileRoundTrip(columns: seq<Column>, rows: seq<Row>)
    requires RowsOk(columns, rows) && DistinctNames(columns)
    ensures DecodeFile(columns, TableFile(columns, rows)) == Some(rows)
  {
    Utf8.RoundTrip(JoinLines(Lines(columns, rows)));
    forall i | 0 <= i < |rows| ensures IsLine(Lines(columns, rows)[i]) {
      LineRoundTrip(columns, rows[i]);
    }
    LinesRoundTrip(Lines(columns, rows));
    DecodeWrittenLines(columns, rows);
  }

  // ----- archives -----------------------------------------------------------------------------------

  const FORMAT_NAME := "yg-license-server-backup"
  const FORMAT_VERSION := 1
  const MAGIC: seq<Utf8.Byte> := [89, 71, 76, 83, 66, 65, 75, 49]
  const GZIP: seq<Utf8.Byte> := [31, 139]

  datatype Manifest = Manifest(format: string, version: int, revision: Option<string>, tables: set<string>)

  /** The members of the tar file: the manifest and one file per table name. */
  datatype Archive = Archive(manifest: Manifest, files: map<string, seq<Utf8.Byte>>)

  /** tar.gz packing and the backup key's cipher; `keyed` says whether a KEK is configured. */
  datatype Container = Container(
    pack: Archive -> seq<Utf8.Byte>, unpack: seq<Utf8.Byte> -> Option<Archive>,
    keyed: bool, encrypt: seq<Utf8.Byte> -> seq<Utf8.Byte>, decrypt: seq<Utf8.Byte> -> Option<seq<Utf8.Byte>>)

  ghost predicate Lawful(c: Container) {
    && (forall a :: c.unpack(c.pack(a)) == Some(a) && GZIP <= c.pack(a))
    && (forall b :: c.decrypt(c.encrypt(b)) == Some(b))
  }

  datatype Failure =
    | Unrecognized
    | EncryptedWithoutKey
    | DecryptFailed
    | UnsupportedVersion
    | SchemaMismatch
    | Malformed
    | ConfirmationMismatch
    | DatabaseError

  function Wrap(c: Container, raw: seq<Utf8.Byte>): seq<Utf8.Byte> {
    if c.keyed then MAGIC + c.encrypt(raw) else raw
  }

  function Unwrap(c: Container, data: seq<Utf8.Byte>): Result<seq<Utf8.Byte>, Failure> {
    if MAGIC <= data then
      if !c.keyed then Err(EncryptedWithoutKey)
      else
        var raw := c.decrypt(data[|MAGIC|..]);
        if raw.None? then Err(DecryptFailed) else Ok(raw.value)
    else if GZIP <= data then Ok(data)
    else Err(Unrecognized)
  }

  /** `read_manifest`, returning the archive whose manifest passed. */
  function ReadArchive(c: Container, data: seq<Utf8.Byte>): Result<Archive, Failure> {
    var raw := Unwrap(c, data);
    if raw.Err? then Err(raw.error)
    else
      var a := c.unpack(raw.value);
      if a.None? || a.value.manifest.format != FORMAT_NAME then Err(Unrecognized)
      else if a.value.manifest.version != FORMAT_VERSION then Err(UnsupportedVersion)
      else Ok(a.value)
  }

  predicate SchemaOk(schema: Schema) {
    && (forall t :: 0 <= t < |schema| ==> DistinctNames(schema[t].columns))
    && (forall s, t :: 0 <= s < t < |schema| ==> schema[s].name != schema[t].name)
  }

  predicate DbOk(schema: Schema, db: Db) {
    |db| == |schema| && forall t :: 0 <= t < |schema| ==> RowsOk(schema[t].columns, db[t])
  }

  function Files(schema: Schema, db: Db): map<string, seq<Utf8.Byte>>
    requires DbOk(schema, db)
    decreases |schema|
  {
    if schema == [] then map[]
    else
      var n := |schema| - 1;
      Files(schema[..n], db[..n])[schema[n].name := TableFile(schema[n].columns, db[n])]
  }

  function Names(schema: Schema): set<string> {
    set t | 0 <= t < |schema| :: schema[t].name
  }

  function Export(schema: Schema, revision: Option<string>, db: Db): Archive
    requires DbOk(schema, db)
  {
    Archive(Manifest(FORMAT_NAME, FORMAT_VERSION, revision, Names(schema)), Files(schema, db))
  }

  /** The rows an archive holds for one table; a table it does not list becomes empty. */
  function TableRows(t: Table, a: Archive): Option<seq<Row>> {
    if t.name !in a.manifest.tables then Some([])
    else if t.name !in a.files then None
    else DecodeFile(t.columns, a.files[t.name])
  }

  /** The rows an archive holds for each table of the live schema. */
  function ArchivedRows(schema: Schema, a: Archive): Option<Db> {
    if schema == [] then Some([])
    else
      var n := |schema| - 1;
      var rows, rest := TableRows(schema[n], a), ArchivedRows(schema[..n], a);
      if rows.None? || rest.None? then None else Some(rest.value + [rows.value])
  }

  /** The checks and the parsing of `import_archive`, before it touches a table. */
  function ParseArchive(schema: Schema, revision: Option<string>, a: Archive): Result<Db, Failure> {
    if revision.Some? && a.manifest.revision.Some? && revision != a.manifest.revision then Err(SchemaMismatch)
    else if !(a.manifest.tables <= Names(schema)) then Err(SchemaMismatch)
    else
      var db := ArchivedRows(schema, a);
      if db.None? then Err(Malformed) else Ok(db.value)
  }

  lemma WrapRoundTrip(c: Container, a: Archive)
    requires Lawful(c)
    ensures Unwrap(c, Wrap(c, c.pack(a))) == Ok(c.pack(a))
  {
    var raw := c.pack(a);
    if c.keyed {
      assert (MAGIC + c.encrypt(raw))[|MAGIC|..] == c.encrypt(raw);
    } else {
      assert raw[0] == GZIP[0];
    }
  }

  lemma {:induction false} FilesAt(schema: Schema, db: Db, t: nat)
    requires DbOk(schema, db) && SchemaOk(schema) && t < |schema|
    ensures schema[t].name in Files(schema, db)
    ensures Files(schema, db)[schema[t].name] == TableFile(schema[t].columns, db[t])
    decreases |schema|
  {
    var n := |schema| - 1;
    if t < n {
      FilesAt(schema[..n], db[..n], t);
    }
  }

  lemma {:induction false} ArchivedRowsOf(schema: Schema, a: Archive, db: Db)
    requires |db| == |schema| && forall t :: 0 <= t < |schema| ==> TableRows(schema[t], a) == Some(db[t])
    ensures ArchivedRows(schema, a) == Some(db)
    decreases |schema|
  {
    if schema != [] {
      var n := |schema| - 1;
      ArchivedRowsOf(schema[..n], a, db[..n]);
      assert db == db[..n] + [db[n]];
    } else {
      assert db == [];
    }
  }

  /** Importing the export, encrypted or not, rebuilds every table's rows exactly. */
  lemma BackupRoundTrip(c: Container, schema: Schema, revision: Option<string>, db: Db)
    requires Lawful(c) && SchemaOk(schema) && DbOk(schema, db)
    ensures var a := ReadArchive(c, Wrap(c, c.pack(Export(schema, revision, db))));
            a.Ok? && ParseArchive(schema, revision, a.value) == Ok(db)
  {
    var a := Export(schema, revision, db);
    WrapRoundTrip(c, a);
    forall t | 0 <= t < |schema| ensures TableRows(schema[t], a) == Some(db[t]) {
      FilesAt(schema, db, t);
      FileRoundTrip(schema[t].columns, db[t]);
    }
    ArchivedRowsOf(schema, a, db);
  }

  // ----- what an import accepts -------------------------------------------------------------------------

  /** The bytes after the marker when they carry it, the bytes themselves when they are a gzip file. */
  lemma UnwrapOutcome(c: Container, data: seq<Utf8.Byte>)
    ensures var marked := |data| >= 8 && data[..8] == [89, 71, 76, 83, 66, 65, 75, 49];
            var gzip := |data| >= 2 && data[0] == 31 && data[1] == 139;
            && (Unwrap(c, data) == Err(Unrecognized) <==> !marked && !gzip)
            && (Unwrap(c, data) == Err(EncryptedWithoutKey) <==> marked && !c.keyed)
            && (Unwrap(c, data) == Err(DecryptFailed) <==> marked && c.keyed && c.decrypt(data[8..]).None?)
            && (Unwrap(c, data).Ok? ==>
                  Some(Unwrap(c, data).value) == if marked then c.decrypt(data[8..]) else Some(data))
  {
  }

  /** An archive is read exactly when its bytes unwrap and unpack, and its manifest names this format, version 1. */
  lemma ReadArchiveIff(c: Container, data: seq<Utf8.Byte>)
    ensures var raw, r := Unwrap(c, data), ReadArchive(c, data);
            && (r.Ok? <==> raw.Ok? && c.unpack(raw.value).Some? &&
                           c.unpack(raw.value).value.manifest.format == "yg-license-server-backup" &&
                           c.unpack(raw.value).value.manifest.version == 1)
            && (r.Ok? ==> c.unpack(raw.value) == Some(r.value))
            && (r == Err(UnsupportedVersion) <==>
                  raw.Ok? && c.unpack(raw.value).Some? &&
                  c.unpack(raw.value).value.manifest.format == "yg-license-server-backup" &&
                  c.unpack(raw.value).value.manifest.version != 1)
  {
    UnwrapOutcome(c, data);
  }

  lemma {:induction false} ArchivedRowsAre(schema: Schema, a: Archive)
    ensures ArchivedRows(schema, a).Some? <==> forall t :: 0 <= t < |schema| ==> TableRows(schema[t], a).Some?
    ensures ArchivedRows(schema, a).Some? ==>
              |ArchivedRows(schema, a).value| == |schema| &&
              forall t :: 0 <= t < |schema| ==> TableRows(schema[t], a) == Some(ArchivedRows(schema, a).value[t])
    decreases |schema|
  {
    if schema != [] {
      var n := |schema| - 1;
      ArchivedRowsAre(schema[..n], a);
      assert forall t :: 0 <= t < n ==> schema[..n][t] == schema[t];
    }
  }

  ghost predicate IsTable(schema: Schema, name: string) {
    exists t :: 0 <= t < |schema| && schema[t].name == name
  }

  /** The table's file is in the archive and decodes. */
  predicate Readable(t: Table, a: Archive) {
    t.name in a.files && DecodeFile(t.columns, a.files[t.name]).Some?
  }

  /** An archive's rows are accepted exactly when its revision is the live one, where both are known, it lists no
      unknown table, and every table it lists has a file that decodes. A table it does not list ends empty. */
  lemma {:induction false} ParseArchiveIff(schema: Schema, revision: Option<string>, a: Archive)
    ensures var r := ParseArchive(schema, revision, a);
            var known := forall name :: name in a.manifest.tables ==> IsTable(schema, name);
            var readable := forall t :: 0 <= t < |schema| && schema[t].name in a.manifest.tables ==>
                              Readable(schema[t], a);
            var same := revision.Some? && a.manifest.revision.Some? ==> revision.value == a.manifest.revision.value;
            && (r == Err(SchemaMismatch) <==> !same || !known)
            && (r.Ok? <==> same && known && readable)
            && (r.Ok? ==> |r.value| == |schema| && forall t :: 0 <= t < |schema| ==>
                  if schema[t].name in a.manifest.tables
                  then DecodeFile(schema[t].columns, a.files[schema[t].name]) == Some(r.value[t]) else r.value[t] == [])
  {
    ArchivedRowsAre(schema, a);
    forall t | 0 <= t < |schema|
      ensures TableRows(schema[t], a).Some? <==>
              schema[t].name !in a.manifest.tables || Readable(schema[t], a)
    {
    }
    assert (a.manifest.tables <= Names(schema)) <==>
           forall name :: name in a.manifest.tables ==> IsTable(schema, name);
  }

  predicate LastOf(fields: seq<(string, J.Json)>, name: string, i: nat)
    requires i < |fields|
  {
    fields[i].0 == name && forall k :: i < k < |fields| ==> fields[k].0 != name
  }

  /** A decoded row takes each column by name from the line's object: the last of a repeated name, ... */
  lemma {:induction false} LastOneCounts(fields: seq<(string, J.Json)>, name: string, i: nat)
    requires i < |fields| && LastOf(fields, name, i)
    ensures Lookup(fields, name) == fields[i].1
    decreases |fields|
  {
    if i < |fields| - 1 {
      assert fields[|fields| - 1].0 != name;
      LastOneCounts(fields[..|fields| - 1], name, i);
    }
  }

  /** ... and NULL for a missing one. */
  lemma {:induction false} MissingIsNull(fields: seq<(string, J.Json)>, name: string)
    requires forall i :: 0 <= i < |fields| ==> fields[i].0 != name
    ensures Lookup(fields, name) == J.Null
    decreases |fields|
  {
    if fields != [] {
      assert fields[|fields| - 1].0 != name;
      MissingIsNull(fields[..|fields| - 1], name);
    }
  }

  lemma {:induction false} DecodedColumns(columns: seq<Column>, fields: seq<(string, J.Json)>, i: nat)
    requires DecodeRow(columns, fields).Some? && i < |columns|
    ensures var row := DecodeRow(columns, fields).value; var j := Lookup(fields, columns[i].name);
            && |row| == |columns|
            && (if j.Null? || !columns[i].isTime then row[i] == Plain(j)
                else j.Str? && T.Parse(j.text).Some? && row[i] == Time(T.Parse(j.text).value))
    decreases |columns|
  {
    if |columns| > 1 {
      DecodedColumns(columns[1..], fields, if i == 0 then 0 else i - 1);
    }
  }

  // ----- whatever an import accepts is well typed ------------------------------------------------------

  lemma {:induction false} LookupWellFormed(fields: seq<(string, J.Json)>, name: string)
    requires forall i :: 0 <= i < |fields| ==> J.WellFormed(fields[i].1)
    ensures J.WellFormed(Lookup(fields, name))
    decreases |fields|
  {
    if fields != [] {
      LookupWellFormed(fields[..|fields| - 1], name);
    }
  }

  lemma {:induction false} DecodedRowOk(columns: seq<Column>, fields: seq<(string, J.Json)>)
    requires DecodeRow(columns, fields).Some? && forall i :: 0 <= i < |fields| ==> J.WellFormed(fields[i].1)
    ensures RowOk(columns, DecodeRow(columns, fields).value)
    decreases |columns|
  {
    if columns != [] {
      DecodedRowOk(columns[1..], fields);
      LookupWellFormed(fields, columns[0].name);
    }
  }

  lemma {:induction false} DecodedLinesOk(columns: seq<Column>, lines: seq<string>)
    requires DecodeLines(columns, lines).Some?
    ensures RowsOk(columns, DecodeLines(columns, lines).value)
    decreases |lines|
  {
    if lines != [] {
      DecodedLinesOk(columns, lines[1..]);
      if Strip(lines[0]) != "" {
        J.LoadsWellFormed(lines[0]);
        DecodedRowOk(columns, J.Loads(lines[0]).value.fields);
      }
    }
  }

  lemma {:induction false} ParsedRowsOk(schema: Schema, a: Archive)
    requires ArchivedRows(schema, a).Some?
    ensures DbOk(schema, ArchivedRows(schema, a).value)
    decreases |schema|
  {
    if schema != [] {
      var n := |schema| - 1;
      ParsedRowsOk(schema[..n], a);
      var t := schema[n];
      if t.name in a.manifest.tables {
        DecodedLinesOk(t.columns, SplitLines(Utf8.Decode(a.files[t.name]).value, ""));
      }
    }
  }
}
