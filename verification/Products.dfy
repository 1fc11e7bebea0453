/** Product creation, editing and deletion (app/services/products.py): unique slugs, and an edit
    history whose diffs replay to the current row. */
module Products {
  import opened Common

  datatype Field = Slug | Name | KeyPrefix | JwtIssuer | Description

  const FIELDS: seq<Field> := [Slug, Name, KeyPrefix, JwtIssuer, Description]

  datatype Product = Product(slug: string, name: string, keyPrefix: string, jwtIssuer: string,
                             description: Option<string>)

  function Get(p: Product, f: Field): Option<string> {
    match f
    case Slug => Some(p.slug)
    case Name => Some(p.name)
    case KeyPrefix => Some(p.keyPrefix)
    case JwtIssuer => Some(p.jwtIssuer)
    case Description => p.description
  }

  /** `setattr`; only the description column takes NULL, and no diff of an edit offers another column one. */
  function Set(p: Product, f: Field, v: Option<string>): Product {
    if f == Description then p.(description := v)
    else if v.None? then p
    else
      match f
      case Slug => p.(slug := v.value)
      case Name => p.(name := v.value)
      case KeyPrefix => p.(keyPrefix := v.value)
      case JwtIssuer => p.(jwtIssuer := v.value)
      case Description => p
  }

  /** One entry of a diff: the field, its old and its new value. */
  datatype Change = Change(field: Field, before: Option<string>, after: Option<string>)

  predicate ChangeOk(c: Change) {
    c.field == Description || (c.before.Some? && c.after.Some?)
  }

  /** The keyword arguments of an edit: None is "not given". */
  datatype Edit = Edit(slug: Option<string>, name: Option<string>, keyPrefix: Option<string>,
                       jwtIssuer: Option<string>, description: Option<string>)

  datatype Failure = NotFound | Required(field: Field) | BadFormat(field: Field) | Conflict

  /** The slug and key-prefix patterns, as oracles. */
  datatype Format = Format(slug: string -> bool, prefix: string -> bool)

  /** Product rows by id, and the `product:edited` diffs of each product in order. */
  datatype Db = Db(rows: map<nat, Product>, created: map<nat, Product>, diffs: map<nat, seq<seq<Change>>>)

  predicate SlugTaken(db: Db, slug: string) {
    exists id :: id in db.rows && db.rows[id].slug == slug
  }

  predicate SlugsUnique(db: Db) {
    forall a, b :: a in db.rows && b in db.rows && db.rows[a].slug == db.rows[b].slug ==> a == b
  }

  function IssuerFor(slug: string): string {
    slug + "-license-server"
  }

  /** An empty issuer or description takes its default. */
  function NewProduct(slug: string, name: string, keyPrefix: string, jwtIssuer: string, description: string): Product {
    Product(slug, name, keyPrefix, if jwtIssuer == "" then IssuerFor(slug) else jwtIssuer,
            if description == "" then None else Some(description))
  }

  /** The value an edit proposes for a field: the outer None leaves it alone. */
  function Proposed(p: Product, e: Edit, f: Field): Option<Option<string>> {
    var given := match f
      case Slug => e.slug
      case Name => e.name
      case KeyPrefix => e.keyPrefix
      case JwtIssuer => e.jwtIssuer
      case Description => e.description;
    if given.None? then None
    else if f == JwtIssuer && given.value == "" then
      Some(Some(IssuerFor(if e.slug.Some? then e.slug.value else p.slug)))
    else if f == Description && given.value == "" then Some(None)
    else Some(given)
  }

  function Refusal(db: Db, p: Product, e: Edit, format: Format): Option<Failure> {
    if e.slug == Some("") then Some(Required(Slug))
    else if e.name == Some("") then Some(Required(Name))
    else if e.keyPrefix == Some("") then Some(Required(KeyPrefix))
    else if e.slug.Some? && e.slug.value != p.slug && !format.slug(e.slug.value) then Some(BadFormat(Slug))
    else if e.slug.Some? && e.slug.value != p.slug && SlugTaken(db, e.slug.value) then Some(Conflict)
    else if e.keyPrefix.Some? && e.keyPrefix.value != p.keyPrefix &&
        !format.prefix(e.keyPrefix.value) then Some(BadFormat(KeyPrefix))
    else None
  }

  /** What an edit records of one field: nothing when it is not given or keeps its value. */
  function ChangeOf(p: Product, e: Edit, f: Field): seq<Change> {
    var v := Proposed(p, e, f);
    if v.Some? && v.value != Get(p, f) then [Change(f, Get(p, f), v.value)] else []
  }

  /** The diff over `fields`: proposals that differ from the row. */
  function Diff(p: Product, e: Edit, fields: seq<Field>): seq<Change> {
    if fields == [] then [] else ChangeOf(p, e, fields[0]) + Diff(p, e, fields[1..])
  }

  /** Assigning every new value of a diff. */
  function Applied(p: Product, diff: seq<Change>): Product
    decreases |diff|
  {
    if diff == [] then p else Applied(Set(p, diff[0].field, diff[0].after), diff[1..])
  }

  lemma Regroup<T>(a: seq<T>, b: seq<T>, c: seq<T>)
    ensures a + (b + c) == a + b + c && a + [] == a
  {
  }

  /** The loop over the candidates. */
  method BuildDiff(p: Product, e: Edit, fields: seq<Field>) returns (changes: seq<Change>)
    ensures changes == Diff(p, e, fields)
  {
    changes := [];
    var i := 0;
    while i < |fields|
      invariant 0 <= i <= |fields| && changes + Diff(p, e, fields[i..]) == Diff(p, e, fields)
    {
      var f := fields[i];
      assert fields[i..][0] == f && fields[i..][1..] == fields[i + 1..];
      var v := Proposed(p, e, f);
      ghost var before := changes;
      if v.Some? {
        if v.value != Get(p, f) {
          changes := changes + [Change(f, Get(p, f), v.value)];
        }
      }
      Regroup(before, ChangeOf(p, e, f), Diff(p, e, fields[i + 1..]));
      i := i + 1;
    }
  }

  /** The loop of attribute assignments. */
  method Assign(p: Product, changes: seq<Change>) returns (row: Product)
    ensures row == Applied(p, changes)
  {
    row := p;
    var k := 0;
    while k < |changes|
      invariant 0 <= k <= |changes| && Applied(row, changes[k..]) == Applied(p, changes)
    {
      assert changes[k..][1..] == changes[k + 1..];
      row := Set(row, changes[k].field, changes[k].after);
      k := k + 1;
    }
  }

  class Catalog {
    var db: Db

    constructor ()
      ensures db == Db(map[], map[], map[])
    {
      db := Db(map[], map[], map[]);
    }

    /** `create_product` under a fresh id. */
    method Create(id: nat, slug: string, name: string, keyPrefix: string, jwtIssuer: string, description: string,
                  validate: bool, format: Format) returns (r: Result<(), Failure>)
      requires id !in db.rows
      modifies this
      ensures (db, r) == Created(old(db), id, slug, name, keyPrefix, jwtIssuer, description, validate, format)
    {
      if validate {
        if !format.slug(slug) {
          return Err(BadFormat(Slug));
        }
        if !format.prefix(keyPrefix) {
          return Err(BadFormat(KeyPrefix));
        }
      }
      if SlugTaken(db, slug) {
        return Err(Conflict);
      }
      var p := NewProduct(slug, name, keyPrefix, jwtIssuer, description);
      db := Db(db.rows[id := p], db.created[id := p], db.diffs[id := []]);
      return Ok(());
    }

    /** `update_product` of the row the slug query found. */
    method Update(id: nat, e: Edit, format: Format) returns (r: Result<(), Failure>)
      requires id in db.rows && id in db.diffs
      modifies this
      ensures (db, r) == Updated(old(db), id, e, format)
    {
      var p := db.rows[id];
      var refusal := Refusal(db, p, e, format);
      if refusal.Some? {
        return Err(refusal.value);
      }
      var changes := BuildDiff(p, e, FIELDS);
      if changes == [] {
        return Ok(());
      }
      var row := Assign(p, changes);
      db := db.(rows := db.rows[id := row], diffs := db.diffs[id := db.diffs[id] + [changes]]);
      return Ok(());
    }
  }

  function Created(db: Db, id: nat, slug: string, name: string, keyPrefix: string, jwtIssuer: string,
                   description: string,
                   validate: bool, format: Format): (Db, Result<(), Failure>) {
    if validate && !format.slug(slug) then (db, Err(BadFormat(Slug)))
    else if validate && !format.prefix(keyPrefix) then (db, Err(BadFormat(KeyPrefix)))
    else if SlugTaken(db, slug) then (db, Err(Conflict))
    else
      var p := NewProduct(slug, name, keyPrefix, jwtIssuer, description);
      (Db(db.rows[id := p], db.created[id := p], db.diffs[id := []]), Ok(()))
  }

  function Updated(db: Db, id: nat, e: Edit, format: Format): (Db, Result<(), Failure>)
    requires id in db.rows && id in db.diffs
  {
    var p := db.rows[id];
    if Refusal(db, p, e, format).Some? then (db, Err(Refusal(db, p, e, format).value))
    else
      var diff := Diff(p, e, FIELDS);
      if diff == [] then (db, Ok(()))
      else (db.(rows := db.rows[id := Applied(p, diff)], diffs := db.diffs[id := db.diffs[id] + [diff]]), Ok(()))
  }

  function Deleted(db: Db, id: nat): Db {
    Db(db.rows - {id}, db.created - {id}, db.diffs - {id})
  }

  // ----- what a call answers ------------------------------------------------------------------------

  /** The slug is some product's. */
  ghost predicate Used(db: Db, slug: string) {
    exists id :: id in db.rows && db.rows[id].slug == slug
  }

  /** A product is created exactly when its slug is unused and, where formats are checked, slug and prefix fit. The
      row has an issuer, by default named after the slug, and no description when none is given. */
  lemma CreateOutcome(db: Db, id: nat, slug: string, name: string, keyPrefix: string, jwtIssuer: string,
                      description: string, validate: bool, format: Format)
    requires id !in db.rows
    ensures var (after, r) := Created(db, id, slug, name, keyPrefix, jwtIssuer, description, validate, format);
            && (r.Ok? <==> !Used(db, slug) && (validate ==> format.slug(slug) && format.prefix(keyPrefix)))
            && (r.Err? ==> after == db)
            && (r == Err(Conflict) <==>
                  Used(db, slug) && (validate ==> format.slug(slug) && format.prefix(keyPrefix)))
            && (r == Err(BadFormat(Slug)) <==> validate && !format.slug(slug))
            && (r == Err(BadFormat(KeyPrefix)) <==> validate && format.slug(slug) && !format.prefix(keyPrefix))
            && (r.Ok? ==>
                  after.rows.Keys == db.rows.Keys + {id} &&
                  (forall j :: j in db.rows ==> after.rows[j] == db.rows[j]) &&
                  var p := after.rows[id];
                  p.slug == slug && p.name == name && p.keyPrefix == keyPrefix &&
                  p.jwtIssuer == (if jwtIssuer != "" then jwtIssuer else slug + "-license-server") &&
                  (p.description.None? <==> description == "") &&
                  (description != "" ==> p.description == Some(description)))
  {
  }

  /** The row an accepted edit aims at: each text given replaces the old one; an empty issuer means the default for
      the slug the product then has, an empty description none. */
  function Target(p: Product, e: Edit): Product {
    var slug := if e.slug.Some? then e.slug.value else p.slug;
    Product(slug, if e.name.Some? then e.name.value else p.name,
            if e.keyPrefix.Some? then e.keyPrefix.value else p.keyPrefix,
            if e.jwtIssuer.None? then p.jwtIssuer
            else if e.jwtIssuer.value == "" then slug + "-license-server" else e.jwtIssuer.value,
            if e.description.None? then p.description
            else if e.description.value == "" then None else e.description)
  }

  /** An edit is refused for an empty slug, name or prefix, for a new slug or prefix that does not fit, and for a new
      slug that another product uses; a value that stays is not checked. */
  lemma RefusedIff(db: Db, id: nat, e: Edit, format: Format)
    requires id in db.rows && id in db.diffs && SlugsUnique(db)
    ensures var p, t := db.rows[id], Target(db.rows[id], e);
            var empty := e.slug == Some("") || e.name == Some("") || e.keyPrefix == Some("");
            var taken := exists j :: j in db.rows && j != id && db.rows[j].slug == t.slug;
            Updated(db, id, e, format).1.Err? <==>
            empty || (t.slug != p.slug && (!format.slug(t.slug) || taken)) ||
            (t.keyPrefix != p.keyPrefix && !format.prefix(t.keyPrefix))
  {
    var p, t := db.rows[id], Target(db.rows[id], e);
    if t.slug != p.slug {
      assert SlugTaken(db, t.slug) <==> exists j :: j in db.rows && j != id && db.rows[j].slug == t.slug;
    }
  }

  lemma ProposedIs(p: Product, e: Edit, f: Field)
    ensures (if Proposed(p, e, f).Some? then Proposed(p, e, f).value else Get(p, f)) == Get(Target(p, e), f)
  {
  }

  lemma SameFields(a: Product, b: Product)
    requires forall f :: Get(a, f) == Get(b, f)
    ensures a == b
  {
    assert Get(a, Slug) == Get(b, Slug) && Get(a, Name) == Get(b, Name) && Get(a, KeyPrefix) == Get(b, KeyPrefix);
    assert Get(a, JwtIssuer) == Get(b, JwtIssuer) && Get(a, Description) == Get(b, Description);
  }

  // ----- runs -----------------------------------------------------------------------------------------

  datatype Op =
    | Create(id: nat, slug: string, name: string, keyPrefix: string, jwtIssuer: string, description: string,
        validate: bool)
    | Update(id: nat, edit: Edit)
    | Delete(id: nat)

  /** An operation on a product that is not there is answered "not found" and changes nothing. */
  function Next(db: Db, op: Op, format: Format): Db {
    match op
    case Create(id, slug, name, keyPrefix, jwtIssuer, description, validate) =>
      if id in db.rows then db else Created(db, id, slug, name, keyPrefix, jwtIssuer, description, validate, format).0
    case Update(id, edit) => if id in db.rows && id in db.diffs then Updated(db, id, edit, format).0 else db
    case Delete(id) => Deleted(db, id)
  }

  function Final(db: Db, ops: seq<Op>, format: Format): Db
    decreases |ops|
  {
    if ops == [] then db else Final(Next(db, ops[0], format), ops[1..], format)
  }

  // ----- replay ---------------------------------------------------------------------------------------

  /** A diff whose old values are what the row holds, each field changed once and really changed. */
  predicate Fits(p: Product, diff: seq<Change>) {
    && diff != []
    && (forall i :: 0 <= i < |diff| ==>
          ChangeOk(diff[i]) && diff[i].before == Get(p, diff[i].field) && diff[i].before != diff[i].after)
    && (forall i, j :: 0 <= i < j < |diff| ==> diff[i].field != diff[j].field)
  }

  /** Replaying the diffs from the creation values; None when one does not fit the row it meets. */
  function Replay(p: Product, diffs: seq<seq<Change>>): Option<Product>
    decreases |diffs|
  {
    if diffs == [] then Some(p)
    else
      var before := Replay(p, diffs[..|diffs| - 1]);
      var diff := diffs[|diffs| - 1];
      if before.None? || !Fits(before.value, diff) then None else Some(Applied(before.value, diff))
  }

  ghost predicate Inv(db: Db) {
    && SlugsUnique(db) && db.rows.Keys == db.created.Keys == db.diffs.Keys
    && forall id :: id in db.rows ==> Replay(db.created[id], db.diffs[id]) == Some(db.rows[id])
  }

  predicate NoRepeats(fields: seq<Field>) {
    forall i, j :: 0 <= i < j < |fields| ==> fields[i] != fields[j]
  }

  lemma {:induction false} DiffFits(p: Product, e: Edit, fields: seq<Field>)
    requires NoRepeats(fields)
    ensures Diff(p, e, fields) != [] ==> Fits(p, Diff(p, e, fields))
    ensures forall c :: c in Diff(p, e, fields) ==> c.field in fields
    decreases |fields|
  {
    if fields != [] {
      var rest := Diff(p, e, fields[1..]);
      DiffFits(p, e, fields[1..]);
      forall c | c in rest ensures c.field in fields && c.field != fields[0] {
        var j :| 0 <= j < |fields[1..]| && fields[1..][j] == c.field;
        assert fields[j + 1] == c.field;
      }
      assert forall i :: 0 <= i < |rest| ==> rest[i] in rest;
    }
  }

  /** After a diff is applied a listed field holds its new value and every other field what it held. */
  lemma {:induction false} DiffReaches(p: Product, e: Edit, fields: seq<Field>, q: Product, f: Field)
    requires NoRepeats(fields)
    ensures Get(Applied(q, Diff(p, e, fields)), f) ==
            if f in fields && ChangeOf(p, e, f) != [] then Proposed(p, e, f).value else Get(q, f)
    decreases |fields|
  {
    if fields != [] {
      var f0, rest := fields[0], fields[1..];
      assert f in fields <==> f == f0 || f in rest;
      assert f0 !in rest;
      if ChangeOf(p, e, f0) == [] {
        assert Diff(p, e, fields) == Diff(p, e, rest);
        DiffReaches(p, e, rest, q, f);
      } else {
        var c := ChangeOf(p, e, f0)[0];
        assert Diff(p, e, fields)[1..] == Diff(p, e, rest);
        DiffReaches(p, e, rest, Set(q, f0, c.after), f);
      }
    }
  }

  /** An accepted edit leaves every field at the value proposed for it, or as it was when none is given. */
  lemma {:induction false} EditReaches(p: Product, e: Edit, f: Field)
    ensures Get(Applied(p, Diff(p, e, FIELDS)), f) ==
            if Proposed(p, e, f).Some? then Proposed(p, e, f).value else Get(p, f)
  {
    AllFields(f);
    DiffReaches(p, e, FIELDS, p, f);
  }

  lemma AllFields(f: Field)
    ensures NoRepeats(FIELDS) && f in FIELDS
  {
    assert FIELDS[0] == Slug && FIELDS[1] == Name && FIELDS[2] == KeyPrefix && FIELDS[3] == JwtIssuer &&
        FIELDS[4] == Description;
  }

  lemma {:induction false} ReplayExtends(p: Product, diffs: seq<seq<Change>>, row: Product, diff: seq<Change>)
    requires Replay(p, diffs) == Some(row) && Fits(row, diff)
    ensures Replay(p, diffs + [diff]) == Some(Applied(row, diff))
  {
    assert (diffs + [diff])[..|diffs|] == diffs;
  }

  /** An accepted edit never takes the slug of another product. */
  lemma {:induction false} EditKeepsSlugFree(db: Db, id: nat, e: Edit, format: Format, other: nat)
    requires SlugsUnique(db) && id in db.rows && other in db.rows && other != id
    requires Refusal(db, db.rows[id], e, format).None?
    ensures Applied(db.rows[id], Diff(db.rows[id], e, FIELDS)).slug != db.rows[other].slug
  {
    EditReaches(db.rows[id], e, Slug);
  }

  lemma {:induction false} ReplaceKeepsInv(db: Db, id: nat, row: Product, diff: seq<Change>)
    requires Inv(db) && id in db.rows && Fits(db.rows[id], diff) && row == Applied(db.rows[id], diff)
    requires forall other :: other in db.rows && other != id ==> db.rows[other].slug != row.slug
    ensures Inv(Db(db.rows[id := row], db.created, db.diffs[id := db.diffs[id] + [diff]]))
  {
    ReplayExtends(db.created[id], db.diffs[id], db.rows[id], diff);
  }

  lemma UpdateKeepsInv(db: Db, id: nat, e: Edit, format: Format)
    requires Inv(db) && id in db.rows
    ensures Inv(Updated(db, id, e, format).0)
  {
    var p := db.rows[id];
    var diff := Diff(p, e, FIELDS);
    if Refusal(db, p, e, format).None? && diff != [] {
      AllFields(Slug);
      DiffFits(p, e, FIELDS);
      forall other | other in db.rows && other != id ensures db.rows[other].slug != Applied(p, diff).slug {
        EditKeepsSlugFree(db, id, e, format, other);
      }
      ReplaceKeepsInv(db, id, Applied(p, diff), diff);
    }
  }

  lemma InsertKeepsInv(db: Db, id: nat, p: Product)
    requires Inv(db) && id !in db.rows && !SlugTaken(db, p.slug)
    ensures Inv(Db(db.rows[id := p], db.created[id := p], db.diffs[id := []]))
  {
  }

  lemma StepKeepsInv(db: Db, op: Op, format: Format)
    requires Inv(db)
    ensures Inv(Next(db, op, format))
  {
    match op
    case Create(id, slug, name, keyPrefix, jwtIssuer, description, validate) =>
      if id !in db.rows && !SlugTaken(db, slug) {
        InsertKeepsInv(db, id, NewProduct(slug, name, keyPrefix, jwtIssuer, description));
      }
    case Update(id, e) =>
      if id in db.rows {
        UpdateKeepsInv(db, id, e, format);
      }
    case Delete(_) =>
  }

  lemma {:induction false} RunKeepsInv(db: Db, ops: seq<Op>, format: Format)
    requires Inv(db)
    ensures Inv(Final(db, ops, format))
    decreases |ops|
  {
    if ops != [] {
      StepKeepsInv(db, ops[0], format);
      RunKeepsInv(Next(db, ops[0], format), ops[1..], format);
    }
  }

  /** After any run: slugs are unique, and folding a product's recorded diffs over its creation values, each
      old value matching the state it meets, gives its current fields. */
  lemma {:induction false} HistoryReplays(ops: seq<Op>, format: Format, id: nat)
    requires id in Final(Db(map[], map[], map[]), ops, format).rows
    ensures var db := Final(Db(map[], map[], map[]), ops, format);
            && SlugsUnique(db) && id in db.created && id in db.diffs
            && Replay(db.created[id], db.diffs[id]) == Some(db.rows[id])
  {
    RunKeepsInv(Db(map[], map[], map[]), ops, format);
  }

  /** An edit that proposes only current values records nothing, and only such an edit does. */
  lemma NoOpEditRecordsNothing(db: Db, id: nat, e: Edit, format: Format)
    requires id in db.rows && id in db.diffs && Updated(db, id, e, format).1.Ok?
    ensures Updated(db, id, e, format).0 == db <==>
            forall i :: 0 <= i < |FIELDS| ==>
                Proposed(db.rows[id], e, FIELDS[i]) in {None, Some(Get(db.rows[id], FIELDS[i]))}
  {
    var p := db.rows[id];
    EmptyDiff(p, e, FIELDS);
    var diff := Diff(p, e, FIELDS);
    if diff != [] {
      assert |Updated(db, id, e, format).0.diffs[id]| == |db.diffs[id]| + 1;
    }
  }

  lemma {:induction false} EmptyDiff(p: Product, e: Edit, fields: seq<Field>)
    ensures Diff(p, e, fields) == [] <==>
            forall i :: 0 <= i < |fields| ==> Proposed(p, e, fields[i]) in {None, Some(Get(p, fields[i]))}
    decreases |fields|
  {
    if fields != [] {
      EmptyDiff(p, e, fields[1..]);
      assert forall i :: 1 <= i < |fields| ==> fields[i] == fields[1..][i - 1];
      if forall i :: 0 <= i < |fields[1..]| ==> Proposed(p, e, fields[1..][i]) in {None, Some(Get(p, fields[1..][i]))} {
      } else {
        var i :| 0 <= i < |fields[1..]| && Proposed(p, e, fields[1..][i]) !in {None, Some(Get(p, fields[1..][i]))};
        assert fields[i + 1] == fields[1..][i];
      }
    }
  }

  // ----- edits that overlap ---------------------------------------------------------------------------

  /** The row after an edit's flush: only the columns that differ from what it loaded are written. */
  function Flushed(durable: Product, loaded: Product, current: Product): Product {
    Product(Column(durable.slug, loaded.slug, current.slug), Column(durable.name, loaded.name, current.name),
            Column(durable.keyPrefix, loaded.keyPrefix, current.keyPrefix),
            Column(durable.jwtIssuer, loaded.jwtIssuer, current.jwtIssuer),
            Column(durable.description, loaded.description, current.description))
  }

  /** An edit that is not refused leaves the row it aims at, and nothing else of the rows. */
  lemma {:induction false} EditLeavesTarget(db: Db, id: nat, e: Edit, format: Format)
    requires id in db.rows && id in db.diffs
    ensures var (after, r) := Updated(db, id, e, format);
            if r.Err? then after == db
            else after.rows == db.rows[id := Target(db.rows[id], e)] && after.created == db.created
  {
    var p := db.rows[id];
    forall f ensures Get(Applied(p, Diff(p, e, FIELDS)), f) == Get(Target(p, e), f) {
      EditReaches(p, e, f);
      ProposedIs(p, e, f);
    }
    SameFields(Applied(p, Diff(p, e, FIELDS)), Target(p, e));
    assert Diff(p, e, FIELDS) == [] ==> Applied(p, Diff(p, e, FIELDS)) == p;
  }

  /** What a flush writes is what applying the recorded diff to the row it meets would write. */
  lemma {:induction false} FlushAppliesDiff(now: Product, loaded: Product, e: Edit)
    ensures Flushed(now, loaded, Applied(loaded, Diff(loaded, e, FIELDS))) == Applied(now, Diff(loaded, e, FIELDS))
  {
    var diff := Diff(loaded, e, FIELDS);
    forall f ensures Get(Flushed(now, loaded, Applied(loaded, diff)), f) == Get(Applied(now, diff), f) {
      AllFields(f);
      DiffReaches(loaded, e, FIELDS, loaded, f);
      DiffReaches(loaded, e, FIELDS, now, f);
    }
    SameFields(Flushed(now, loaded, Applied(loaded, diff)), Applied(now, diff));
  }

  /** An edit that loaded the row before others committed keeps the history replayable exactly when every field
      it changes still holds what it loaded. */
  lemma {:induction false} OverlappingEditReplaysIff(created: Product, diffs: seq<seq<Change>>, now: Product,
                                                     loaded: Product, e: Edit)
    requires Replay(created, diffs) == Some(now) && Diff(loaded, e, FIELDS) != []
    ensures var diff := Diff(loaded, e, FIELDS);
            Replay(created, diffs + [diff]) == Some(Flushed(now, loaded, Applied(loaded, diff))) <==>
            forall c :: c in diff ==> Get(now, c.field) == Get(loaded, c.field)
  {
    var diff := Diff(loaded, e, FIELDS);
    AllFields(Slug);
    DiffFits(loaded, e, FIELDS);
    FlushAppliesDiff(now, loaded, e);
    assert (diffs + [diff])[..|diffs|] == diffs;
    assert forall i :: 0 <= i < |diff| ==> diff[i] in diff;
  }

  /** Two overlapping renames: the second diff claims an old name the row no longer has. */
  lemma {:induction false} OverlappingRenames(p: Product, first: string, second: string)
    requires first != p.name && second != p.name && first != ""
    ensures var a, b := Edit(None, Some(first), None, None, None), Edit(None, Some(second), None, None, None);
            var renamed := Flushed(p, p, Applied(p, Diff(p, a, FIELDS)));
            && Replay(p, [Diff(p, a, FIELDS)]) == Some(renamed) && renamed.name == first
            && Replay(p, [Diff(p, a, FIELDS)] + [Diff(p, b, FIELDS)]) !=
               Some(Flushed(renamed, p, Applied(p, Diff(p, b, FIELDS))))
  {
    var a, b := Edit(None, Some(first), None, None, None), Edit(None, Some(second), None, None, None);
    var renamed := Flushed(p, p, Applied(p, Diff(p, a, FIELDS)));
    RenameDiff(p, first);
    RenameDiff(p, second);
    assert [] + [Diff(p, a, FIELDS)] == [Diff(p, a, FIELDS)];
    OverlappingEditReplaysIff(p, [], p, p, a);
    OverlappingEditReplaysIff(p, [Diff(p, a, FIELDS)], renamed, p, b);
    assert Change(Name, Some(p.name), Some(second)) in Diff(p, b, FIELDS);
    assert Get(renamed, Name) == Some(first);
  }

  lemma {:induction false} RenameDiff(p: Product, name: string)
    requires name != p.name
    ensures var e := Edit(None, Some(name), None, None, None);
            Diff(p, e, FIELDS) == [Change(Name, Some(p.name), Some(name))]
  {
    var e := Edit(None, Some(name), None, None, None);
    assert FIELDS[1..] == [Name, KeyPrefix, JwtIssuer, Description];
    assert [Name, KeyPrefix, JwtIssuer, Description][1..] == [KeyPrefix, JwtIssuer, Description];
    assert [KeyPrefix, JwtIssuer, Description][1..] == [JwtIssuer, Description];
    assert [JwtIssuer, Description][1..] == [Description] && [Description][1..] == [];
    assert Diff(p, e, [Description]) == [] && Diff(p, e, [JwtIssuer, Description]) == [];
    assert Diff(p, e, [KeyPrefix, JwtIssuer, Description]) == [];
    assert Diff(p, e, [Name, KeyPrefix, JwtIssuer, Description]) == [Change(Name, Some(p.name), Some(name))];
  }
}
