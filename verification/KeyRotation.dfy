/** The KEK envelope and its rotation (app/keystore.py, app/scripts/rewrap_secrets.py). A Fernet key
    is a pair of functions; encryption takes the nonce it would draw. */
module KeyRotation {
  import opened Common

  const PREFIX := "enc:v1:"

  /** Encryption and decryption under any key, as oracles. */
  datatype Cipher = Cipher(encrypt: (nat, nat, string) -> string, decrypt: (nat, string) -> Option<string>)

  /** A token opens under its own key to its plaintext, and under no other key. */
  ghost predicate Lawful(c: Cipher) {
    && (forall key, nonce, text :: c.decrypt(key, c.encrypt(key, nonce, text)) == Some(text))
    && (forall key, other, nonce, text :: other != key ==> c.decrypt(other, c.encrypt(key, nonce, text)) == None)
  }

  /** A configured key setting: unset, not a Fernet key, or a usable key. */
  datatype Setting = Unset | Invalid(raw: string) | Usable(key: nat)

  datatype Settings = Settings(current: Setting, previous: Setting, requireKek: bool)

  function Loaded(s: Setting): Option<nat> {
    if s.Usable? then Some(s.key) else None
  }

  predicate IsEncrypted(stored: string) {
    |stored| >= |PREFIX| && stored[..|PREFIX|] == PREFIX
  }

  /** `encrypt_secret`; None when it raises. The guard asks whether the current KEK is unset or unusable. */
  function EncryptSecret(c: Cipher, s: Settings, nonce: nat, text: string): Option<string> {
    if IsEncrypted(text) then Some(text)
    else match Loaded(s.current)
      case None => if s.requireKek then None else Some(text)
      case Some(key) => Some(PREFIX + c.encrypt(key, nonce, text))
  }

  /** `_decrypt_with` on an encrypted value. */
  function DecryptWith(c: Cipher, key: nat, stored: string): Option<string>
    requires IsEncrypted(stored)
  {
    c.decrypt(key, stored[|PREFIX|..])
  }

  /** `decrypt_secret`: what a reader of the stored value sees. */
  function DecryptSecret(c: Cipher, s: Settings, stored: string): Option<string> {
    if !IsEncrypted(stored) then Some(stored)
    else if Loaded(s.current).None? then None
    else DecryptWith(c, Loaded(s.current).value, stored)
  }

  /** A stored text that is no token reads as itself; a token reads as its plaintext exactly under the key it was
      made with, and otherwise the reader raises. */
  lemma ReaderSees(c: Cipher, s: Settings, key: nat, nonce: nat, text: string)
    requires Lawful(c)
    ensures !(PREFIX <= text) ==> DecryptSecret(c, s, text) == Some(text)
    ensures DecryptSecret(c, s, PREFIX + c.encrypt(key, nonce, text)) ==
            if s.current == Usable(key) then Some(text) else None
  {
    TokenShape(c.encrypt(key, nonce, text));
  }

  /** A product's three secret columns; the first is never NULL in the database. */
  datatype Product = Product(slug: string, privateKey: Option<string>, webhookSecret: Option<string>,
                             apiKey: Option<string>)

  /** The new value of a field; the outer None is an exception, `changed` holds unless it passed through. */
  datatype Rewrap = Rewrap(value: Option<string>, changed: bool)

  function RewrapField(c: Cipher, s: Settings, nonce: nat, value: Option<string>): Option<Rewrap> {
    if value.None? then Some(Rewrap(None, false))
    else if IsEncrypted(value.value) then Some(Rewrap(value, false))
    else
      var e := EncryptSecret(c, s, nonce, value.value);
      if e.None? then None else Some(Rewrap(e, true))
  }

  function RewrapFieldMigrate(c: Cipher, s: Settings, previous: nat, nonce: nat,
                              value: Option<string>): Option<Rewrap> {
    if value.None? then Some(Rewrap(None, false))
    else
      var plain := if IsEncrypted(value.value) then DecryptWith(c, previous, value.value) else value;
      var e := if plain.None? then None else EncryptSecret(c, s, nonce, plain.value);
      if e.None? then None else Some(Rewrap(e, true))
  }

  /** Which mode the script runs in; migration carries the loaded previous key. */
  datatype Mode = FirstEncrypt | Migrate(previous: nat)

  function RewrapOne(c: Cipher, s: Settings, mode: Mode, nonce: nat, value: Option<string>): Option<Rewrap> {
    match mode
    case FirstEncrypt => RewrapField(c, s, nonce, value)
    case Migrate(previous) => RewrapFieldMigrate(c, s, previous, nonce, value)
  }

  /** A product's new columns and whether any of them changed; None when one field raises. */
  function RewrapProduct(c: Cipher, s: Settings, mode: Mode, nonce: nat, p: Product): Option<(Product, bool)> {
    var a, b, d := RewrapOne(c, s, mode, nonce, p.privateKey), RewrapOne(c, s, mode, nonce + 1, p.webhookSecret),
                   RewrapOne(c, s, mode, nonce + 2, p.apiKey);
    if a.None? || b.None? || d.None? then None
    else Some((p.(privateKey := a.value.value, webhookSecret := b.value.value, apiKey := d.value.value),
               a.value.changed || b.value.changed || d.value.changed))
  }

  /** One product's rewrap, at the nonces the loop has reached. */
  type Rewrapper = (nat, Product) -> Option<(Product, bool)>

  function RewrapperOf(c: Cipher, s: Settings, mode: Mode): Rewrapper {
    (nonce: nat, p: Product) => RewrapProduct(c, s, mode, nonce, p)
  }

  function Prepended(done: seq<Product>, rest: Option<seq<Product>>): Option<seq<Product>> {
    if rest.None? then None else Some(done + rest.value)
  }

  /** All products in order; None when one of them raises. */
  function MapAll(f: Rewrapper, nonce: nat, ps: seq<Product>): Option<seq<Product>>
    decreases |ps|
  {
    if ps == [] then Some([])
    else
      var first := f(nonce, ps[0]);
      if first.None? then None else Prepended([first.value.0], MapAll(f, nonce + 3, ps[1..]))
  }

  function RewrapAll(c: Cipher, s: Settings, mode: Mode, nonce: nat, ps: seq<Product>): Option<seq<Product>> {
    MapAll(RewrapperOf(c, s, mode), nonce, ps)
  }

  /** A product reported as unchanged is unchanged. */
  ghost predicate HonestFlags(f: Rewrapper) {
    forall nonce, p :: f(nonce, p).Some? && !f(nonce, p).value.1 ==> f(nonce, p).value.0 == p
  }

  /** The script's guards: an exit code, or the mode to loop in. */
  function Start(s: Settings, migrateFromPrev: bool): Result<Mode, int> {
    if s.current.Unset? then Err(2)
    else if !migrateFromPrev then Ok(FirstEncrypt)
    else if s.previous.Unset? then Err(2)
    else if s.previous == s.current then Err(0)
    else if Loaded(s.previous).None? then Err(2)
    else Ok(Migrate(s.previous.key))
  }

  /** The exit code of a run and the table it leaves. */
  function Outcome(c: Cipher, s: Settings, dryRun: bool, migrateFromPrev: bool, nonce: nat, ps: seq<Product>)
    : (int, seq<Product>) {
    var start := Start(s, migrateFromPrev);
    if start.Err? then (start.error, ps)
    else
      var after := RewrapAll(c, s, start.value, nonce, ps);
      if after.None? then (1, ps) else (0, if dryRun then ps else after.value)
  }

  class ProductTable {
    var rows: seq<Product>

    constructor (products: seq<Product>)
      ensures rows == products
    {
      rows := products;
    }

    /** `run`: one transaction over every product; any exception rolls the whole batch back. */
    method Run(c: Cipher, s: Settings, dryRun: bool, migrateFromPrev: bool, nonce: nat) returns (code: int)
      modifies this
      ensures (code, rows) == Outcome(c, s, dryRun, migrateFromPrev, nonce, old(rows))
    {
      if s.current.Unset? {
        return 2;
      }
      var mode := FirstEncrypt;
      if migrateFromPrev {
        if s.previous.Unset? {
          return 2;
        }
        if s.previous == s.current {
          return 0;
        }
        var previous := Loaded(s.previous);
        if previous.None? {
          return 2;
        }
        mode := Migrate(previous.value);
      }
      var staged, changed := Stage(RewrapperOf(c, s, mode), dryRun, nonce, rows);
      if staged.None? {
        return 1;
      }
      if dryRun {
        return 0;
      }
      if changed == 0 {
        return 0;
      }
      rows := staged.value;
      return 0;
    }

    /** The loop over the products; a dry run counts nothing and stages nothing. */
    static method Stage(f: Rewrapper, dryRun: bool, nonce: nat, products: seq<Product>)
      returns (staged: Option<seq<Product>>, changed: nat)
      requires HonestFlags(f)
      ensures staged.None? <==> MapAll(f, nonce, products).None?
      ensures staged.Some? ==> staged.value == if dryRun then products else MapAll(f, nonce, products).value
      ensures staged.Some? && changed == 0 ==> staged.value == products
    {
      var rows := products;
      ghost var done: seq<Product> := [];
      changed := 0;
      PrependedNothing(MapAll(f, nonce, products));
      assert products[0..] == products;
      var i, at := 0, nonce;
      while i < |products|
        invariant 0 <= i <= |products| && |done| == i
        invariant dryRun ==> rows == products
        invariant !dryRun ==> rows == done + products[i..]
        invariant Prepended(done, MapAll(f, at, products[i..])) == MapAll(f, nonce, products)
        invariant changed == 0 ==> rows == products
      {
        var next := f(at, products[i]);
        MapNext(f, at, products, done);
        if next.None? {
          return None, 0;
        }
        ReplaceAt(done, products, next.value.0);
        assert !next.value.1 ==> next.value.0 == products[i];
        done := done + [next.value.0];
        if next.value.1 && !dryRun {
          rows := rows[i := next.value.0];
          changed := changed + 1;
        }
        i, at := i + 1, at + 3;
      }
      assert products[i..] == [] && done + [] == done;
      staged := Some(rows);
    }
  }

  lemma MapFirst(f: Rewrapper, nonce: nat, ps: seq<Product>)
    requires ps != []
    ensures MapAll(f, nonce, ps) == if f(nonce, ps[0]).None? then None
                                    else Prepended([f(nonce, ps[0]).value.0], MapAll(f, nonce + 3, ps[1..]))
  {
  }

  lemma PrependedMore(done: seq<Product>, p: Product, rest: Option<seq<Product>>)
    ensures Prepended(done, Prepended([p], rest)) == Prepended(done + [p], rest)
  {
    if rest.Some? {
      assert done + ([p] + rest.value) == done + [p] + rest.value;
    }
  }

  /** The loop's next product either stops the run or moves from those to do to those done. */
  lemma {:induction false} MapNext(f: Rewrapper, at: nat, products: seq<Product>, done: seq<Product>)
    requires |done| < |products|
    ensures var i, next := |done|, f(at, products[|done|]);
            Prepended(done, MapAll(f, at, products[i..])) ==
            if next.None? then None else Prepended(done + [next.value.0], MapAll(f, at + 3, products[i + 1..]))
  {
    var i, next := |done|, f(at, products[|done|]);
    MapFirst(f, at, products[i..]);
    assert products[i..][1..] == products[i + 1..];
    if next.Some? {
      PrependedMore(done, next.value.0, MapAll(f, at + 3, products[i + 1..]));
    }
  }

  lemma ReplaceAt(done: seq<Product>, products: seq<Product>, p: Product)
    requires |done| < |products|
    ensures (done + products[|done|..])[|done| := p] == done + [p] + products[|done| + 1..]
    ensures p == products[|done|] ==> done + products[|done|..] == done + [p] + products[|done| + 1..]
  {
  }

  lemma PrependedNothing(rest: Option<seq<Product>>)
    ensures Prepended([], rest) == rest
  {
    if rest.Some? {
      assert [] + rest.value == rest.value;
    }
  }

  // ----- rotation preserves meaning --------------------------------------------------------------------

  /** The secret a stored field stands for when encrypted fields are read under `key`. */
  function Meaning(c: Cipher, key: nat, value: Option<string>): Option<Option<string>> {
    if value.None? then Some(None)
    else if !IsEncrypted(value.value) then Some(value)
    else
      var p := DecryptWith(c, key, value.value);
      if p.None? then None else Some(p)
  }

  /** The field's plaintext is not itself shaped like a token. */
  predicate PlainShaped(c: Cipher, key: nat, value: Option<string>) {
    var m := Meaning(c, key, value);
    m.Some? && m.value.Some? ==> !IsEncrypted(m.value.value)
  }

  lemma TokenShape(token: string)
    ensures IsEncrypted(PREFIX + token) && (PREFIX + token)[|PREFIX|..] == token
  {
  }

  /** A migrated field keeps its secret, now encrypted under the new key, exactly when the current KEK
      loads; with an unusable KEK and no strict mode the script would store the plaintext itself. */
  lemma MigratedFieldMeaning(c: Cipher, s: Settings, previous: nat, nonce: nat, value: Option<string>)
    requires Lawful(c) && PlainShaped(c, previous, value) && value.Some?
    requires RewrapFieldMigrate(c, s, previous, nonce, value).Some?
    ensures var r := RewrapFieldMigrate(c, s, previous, nonce, value).value;
            && r.value.Some? && DecryptSecret(c, s, r.value.value) == Meaning(c, previous, value).value
            && (IsEncrypted(r.value.value) <==> Loaded(s.current).Some?)
            && (Loaded(s.current).None? ==> r.value == Meaning(c, previous, value).value)
  {
    var plain := Meaning(c, previous, value).value.value;
    if Loaded(s.current).Some? {
      TokenShape(c.encrypt(Loaded(s.current).value, nonce, plain));
    }
  }

  ghost predicate SameSecrets(c: Cipher, a: Product, oldKey: nat, b: Product, newKey: nat) {
    && b.slug == a.slug
    && Meaning(c, newKey, b.privateKey) == Meaning(c, oldKey, a.privateKey)
    && Meaning(c, newKey, b.webhookSecret) == Meaning(c, oldKey, a.webhookSecret)
    && Meaning(c, newKey, b.apiKey) == Meaning(c, oldKey, a.apiKey)
  }

  predicate Sealed(value: Option<string>) {
    value.Some? ==> IsEncrypted(value.value)
  }

  predicate AllSealed(p: Product) {
    Sealed(p.privateKey) && Sealed(p.webhookSecret) && Sealed(p.apiKey)
  }

  predicate ProductPlainShaped(c: Cipher, key: nat, p: Product) {
    PlainShaped(c, key, p.privateKey) && PlainShaped(c, key, p.webhookSecret) && PlainShaped(c, key, p.apiKey)
  }

  /** What a reader of the stored field sees under the settings; the outer None is an exception. */
  function Read(c: Cipher, s: Settings, value: Option<string>): Option<Option<string>> {
    if value.None? then Some(None)
    else
      var text := DecryptSecret(c, s, value.value);
      if text.None? then None else Some(text)
  }

  /** `b` reads under the settings as `a` did under `oldKey`. */
  ghost predicate SecretsRead(c: Cipher, s: Settings, a: Product, oldKey: nat, b: Product) {
    && b.slug == a.slug
    && Read(c, s, b.privateKey) == Meaning(c, oldKey, a.privateKey)
    && Read(c, s, b.webhookSecret) == Meaning(c, oldKey, a.webhookSecret)
    && Read(c, s, b.apiKey) == Meaning(c, oldKey, a.apiKey)
  }

  predicate NoSecrets(p: Product) {
    p.privateKey.None? && p.webhookSecret.None? && p.apiKey.None?
  }

  predicate AllPlainShaped(c: Cipher, key: nat, ps: seq<Product>) {
    forall i :: 0 <= i < |ps| ==> ProductPlainShaped(c, key, ps[i])
  }

  predicate EverySealed(ps: seq<Product>) {
    forall i :: 0 <= i < |ps| ==> AllSealed(ps[i])
  }

  predicate NoneSecret(ps: seq<Product>) {
    forall i :: 0 <= i < |ps| ==> NoSecrets(ps[i])
  }

  lemma SplitFirst(p: Product, rest: seq<Product>)
    ensures EverySealed([p] + rest) <==> AllSealed(p) && EverySealed(rest)
    ensures NoneSecret([p] + rest) <==> NoSecrets(p) && NoneSecret(rest)
  {
    var ps := [p] + rest;
    assert ps[0] == p;
    forall i | 0 <= i < |rest|
      ensures EverySealed(ps) ==> AllSealed(rest[i])
      ensures NoneSecret(ps) ==> NoSecrets(rest[i])
    {
      assert ps[i + 1] == rest[i];
    }
  }

  lemma MigratedField(c: Cipher, s: Settings, previous: nat, nonce: nat, value: Option<string>)
    requires Lawful(c) && PlainShaped(c, previous, value) && RewrapFieldMigrate(c, s, previous, nonce, value).Some?
    ensures var r := RewrapFieldMigrate(c, s, previous, nonce, value).value;
            Read(c, s, r.value) == Meaning(c, previous, value) &&
            (Sealed(r.value) <==> Loaded(s.current).Some? || value.None?)
  {
    if value.Some? {
      MigratedFieldMeaning(c, s, previous, nonce, value);
    }
  }

  lemma MigratedProduct(c: Cipher, s: Settings, previous: nat, nonce: nat, p: Product)
    requires Lawful(c) && ProductPlainShaped(c, previous, p) && RewrapProduct(c, s, Migrate(previous), nonce, p).Some?
    ensures var after := RewrapProduct(c, s, Migrate(previous), nonce, p).value.0;
            SecretsRead(c, s, p, previous, after) && (AllSealed(after) <==> Loaded(s.current).Some? || NoSecrets(p))
  {
    MigratedField(c, s, previous, nonce, p.privateKey);
    MigratedField(c, s, previous, nonce + 1, p.webhookSecret);
    MigratedField(c, s, previous, nonce + 2, p.apiKey);
  }

  /** A migration that goes through leaves every product's three secrets readable as they were. It leaves them
      all encrypted exactly when the current KEK loads, or there are no secrets at all. */
  lemma {:induction false} MigrationKeepsSecrets(c: Cipher, s: Settings, previous: nat, nonce: nat, ps: seq<Product>)
    requires Lawful(c) && RewrapAll(c, s, Migrate(previous), nonce, ps).Some?
    requires forall i :: 0 <= i < |ps| ==> ProductPlainShaped(c, previous, ps[i])
    ensures var after := RewrapAll(c, s, Migrate(previous), nonce, ps).value;
            && |after| == |ps| && (forall i :: 0 <= i < |ps| ==> SecretsRead(c, s, ps[i], previous, after[i]))
            && (EverySealed(after) <==> Loaded(s.current).Some? || NoneSecret(ps))
    decreases |ps|
  {
    if ps != [] {
      MigratedProduct(c, s, previous, nonce, ps[0]);
      MigrationKeepsSecrets(c, s, previous, nonce + 3, ps[1..]);
      var after, rest := RewrapAll(c, s, Migrate(previous), nonce, ps).value,
                         RewrapAll(c, s, Migrate(previous), nonce + 3, ps[1..]).value;
      assert after == [after[0]] + rest && ps == [ps[0]] + ps[1..];
      SplitFirst(after[0], rest);
      SplitFirst(ps[0], ps[1..]);
    }
  }

  /** A run the script accepts with a current KEK that is set but not a key: it writes the plaintext. */
  lemma MigrationStoresPlaintext(c: Cipher, nonce: nat)
    requires Lawful(c)
    ensures var s := Settings(Invalid("not a key"), Usable(1), false);
            var p := Product("app", Some(PREFIX + c.encrypt(1, 0, "PEM")), None, None);
            && Start(s, true) == Ok(Migrate(1))
            && RewrapAll(c, s, Migrate(1), nonce, [p]) == Some([p.(privateKey := Some("PEM"))])
  {
    var s := Settings(Invalid("not a key"), Usable(1), false);
    var p := Product("app", Some(PREFIX + c.encrypt(1, 0, "PEM")), None, None);
    TokenShape(c.encrypt(1, 0, "PEM"));
    assert [p][1..] == [];
    assert MapAll(RewrapperOf(c, s, Migrate(1)), nonce + 3, []) == Some([]);
    assert [p.(privateKey := Some("PEM"))] + [] == [p.(privateKey := Some("PEM"))];
  }

  // ----- when a run goes through -----------------------------------------------------------------------

  /** A text can be stored: there is a key to encrypt it with, or the strict setting is off, or it is a token. */
  predicate Storable(s: Settings, text: string) {
    Loaded(s.current).Some? || !s.requireKek || PREFIX <= text
  }

  /** A field goes through: none at all; in a default run one that is a token or can be stored; in a migration one
      that is plain or opens under the previous key, and whose text can be stored. */
  predicate GoesThrough(c: Cipher, s: Settings, mode: Mode, value: Option<string>) {
    value.Some? ==>
      match mode
      case FirstEncrypt => Storable(s, value.value)
      case Migrate(previous) =>
        if !(PREFIX <= value.value) then Storable(s, value.value)
        else
          var text := c.decrypt(previous, value.value[|PREFIX|..]);
          text.Some? && Storable(s, text.value)
  }

  predicate ProductGoesThrough(c: Cipher, s: Settings, mode: Mode, p: Product) {
    GoesThrough(c, s, mode, p.privateKey) && GoesThrough(c, s, mode, p.webhookSecret) &&
    GoesThrough(c, s, mode, p.apiKey)
  }

  lemma FieldGoesThroughIff(c: Cipher, s: Settings, mode: Mode, nonce: nat, value: Option<string>)
    ensures RewrapOne(c, s, mode, nonce, value).Some? <==> GoesThrough(c, s, mode, value)
  {
  }

  lemma {:induction false} AllGoThroughIff(c: Cipher, s: Settings, mode: Mode, nonce: nat, ps: seq<Product>)
    ensures RewrapAll(c, s, mode, nonce, ps).Some? <==>
            forall i :: 0 <= i < |ps| ==> ProductGoesThrough(c, s, mode, ps[i])
    decreases |ps|
  {
    if ps != [] {
      FieldGoesThroughIff(c, s, mode, nonce, ps[0].privateKey);
      FieldGoesThroughIff(c, s, mode, nonce + 1, ps[0].webhookSecret);
      FieldGoesThroughIff(c, s, mode, nonce + 2, ps[0].apiKey);
      AllGoThroughIff(c, s, mode, nonce + 3, ps[1..]);
      assert forall i :: 0 < i < |ps| ==> ps[i] == ps[1..][i - 1];
    }
  }

  /** The guards: a run needs a current KEK that is set, a migration also a previous one that is set, differs from
      it and loads; equal ones end the run as done. */
  lemma StartIff(s: Settings, migrateFromPrev: bool)
    ensures Start(s, migrateFromPrev) == Ok(FirstEncrypt) <==> s.current != Unset && !migrateFromPrev
    ensures forall k :: Start(s, migrateFromPrev) == Ok(Migrate(k)) <==>
              s.current != Unset && migrateFromPrev && s.previous == Usable(k) && s.current != Usable(k)
    ensures Start(s, migrateFromPrev) == Err(0) <==> s.current != Unset && migrateFromPrev && s.previous == s.current
    ensures Start(s, migrateFromPrev).Err? ==> Start(s, migrateFromPrev).error in {0, 2}
  {
  }

  /** A run past its guards exits 0 exactly when every field goes through; else it exits 1 and changes nothing. */
  lemma {:induction false} RunSucceedsIff(c: Cipher, s: Settings, dryRun: bool, migrateFromPrev: bool, nonce: nat,
                                          ps: seq<Product>)
    requires Start(s, migrateFromPrev).Ok?
    ensures var (code, after) := Outcome(c, s, dryRun, migrateFromPrev, nonce, ps);
            && (code == 0 <==>
                forall i :: 0 <= i < |ps| ==> ProductGoesThrough(c, s, Start(s, migrateFromPrev).value, ps[i]))
            && (code != 0 ==> code == 1 && after == ps)
  {
    AllGoThroughIff(c, s, Start(s, migrateFromPrev).value, nonce, ps);
  }

  lemma SealedField(c: Cipher, s: Settings, mode: Mode, nonce: nat, value: Option<string>)
    requires s.requireKek && RewrapOne(c, s, mode, nonce, value).Some?
    ensures Sealed(RewrapOne(c, s, mode, nonce, value).value.value)
  {
    if Loaded(s.current).Some? {
      var key := Loaded(s.current).value;
      forall text ensures IsEncrypted(PREFIX + c.encrypt(key, nonce, text)) {
        TokenShape(c.encrypt(key, nonce, text));
      }
    }
  }

  lemma {:induction false} StrictRewrapSeals(c: Cipher, s: Settings, mode: Mode, nonce: nat, ps: seq<Product>)
    requires s.requireKek && RewrapAll(c, s, mode, nonce, ps).Some?
    ensures EverySealed(RewrapAll(c, s, mode, nonce, ps).value)
    decreases |ps|
  {
    if ps != [] {
      SealedField(c, s, mode, nonce, ps[0].privateKey);
      SealedField(c, s, mode, nonce + 1, ps[0].webhookSecret);
      SealedField(c, s, mode, nonce + 2, ps[0].apiKey);
      StrictRewrapSeals(c, s, mode, nonce + 3, ps[1..]);
      var first := RewrapProduct(c, s, mode, nonce, ps[0]).value.0;
      SplitFirst(first, RewrapAll(c, s, mode, nonce + 3, ps[1..]).value);
    }
  }

  /** Under the strict setting a run that exits 0, is no dry run and finds two different KEKs leaves every field
      encrypted, and one without a loadable current KEK exits 0 only when there was nothing to write: a default
      run over tokens, a migration over no secrets at all. */
  lemma {:induction false} StrictRunSeals(c: Cipher, s: Settings, dryRun: bool, migrateFromPrev: bool, nonce: nat,
                                          ps: seq<Product>)
    requires s.requireKek && Start(s, migrateFromPrev).Ok?
    requires Outcome(c, s, dryRun, migrateFromPrev, nonce, ps).0 == 0
    ensures !dryRun ==> EverySealed(Outcome(c, s, dryRun, migrateFromPrev, nonce, ps).1)
    ensures !s.current.Usable? ==> EverySealed(ps)
    ensures !s.current.Usable? && migrateFromPrev && AllPlainShaped(c, s.previous.key, ps) ==> NoneSecret(ps)
  {
    var mode := Start(s, migrateFromPrev).value;
    StrictRewrapSeals(c, s, mode, nonce, ps);
    AllGoThroughIff(c, s, mode, nonce, ps);
  }

  /** Encrypted under `key` by this module. */
  ghost predicate IsTokenOf(c: Cipher, key: nat, value: Option<string>) {
    value.Some? && exists nonce, text :: value.value == PREFIX + c.encrypt(key, nonce, text)
  }

  lemma ForeignTokenStops(c: Cipher, s: Settings, previous: nat, nonce: nat, value: Option<string>, key: nat)
    requires Lawful(c) && key != previous && IsTokenOf(c, key, value)
    ensures RewrapFieldMigrate(c, s, previous, nonce, value).None?
  {
    var n, text :| value.value == PREFIX + c.encrypt(key, n, text);
    TokenShape(c.encrypt(key, n, text));
  }

  /** One field that does not open under the previous key stops the whole migration: a second migration
      over a table that holds a rotated field changes nothing. */
  lemma {:induction false} SecondMigrationStops(c: Cipher, s: Settings, previous: nat, nonce: nat, ps: seq<Product>,
                                                i: nat, key: nat)
    requires Lawful(c) && i < |ps| && key != previous
    requires IsTokenOf(c, key, ps[i].privateKey) || IsTokenOf(c, key, ps[i].webhookSecret) ||
             IsTokenOf(c, key, ps[i].apiKey)
    ensures RewrapAll(c, s, Migrate(previous), nonce, ps).None?
    decreases i
  {
    if i > 0 {
      SecondMigrationStops(c, s, previous, nonce + 3, ps[1..], i - 1, key);
    } else if IsTokenOf(c, key, ps[0].privateKey) {
      ForeignTokenStops(c, s, previous, nonce, ps[0].privateKey, key);
    } else if IsTokenOf(c, key, ps[0].webhookSecret) {
      ForeignTokenStops(c, s, previous, nonce + 1, ps[0].webhookSecret, key);
    } else {
      ForeignTokenStops(c, s, previous, nonce + 2, ps[0].apiKey, key);
    }
  }

  lemma DefaultProduct(c: Cipher, s: Settings, nonce: nat, p: Product)
    requires Lawful(c) && Loaded(s.current).Some? && RewrapProduct(c, s, FirstEncrypt, nonce, p).Some?
    ensures var after := RewrapProduct(c, s, FirstEncrypt, nonce, p).value.0;
            SameSecrets(c, p, Loaded(s.current).value, after, Loaded(s.current).value) && AllSealed(after)
  {
    DefaultField(c, s, nonce, p.privateKey);
    DefaultField(c, s, nonce + 1, p.webhookSecret);
    DefaultField(c, s, nonce + 2, p.apiKey);
  }

  lemma DefaultField(c: Cipher, s: Settings, nonce: nat, value: Option<string>)
    requires Lawful(c) && Loaded(s.current).Some? && RewrapField(c, s, nonce, value).Some?
    ensures var r, key := RewrapField(c, s, nonce, value).value, Loaded(s.current).value;
            Sealed(r.value) && Meaning(c, key, r.value) == Meaning(c, key, value)
  {
    if value.Some? {
      TokenShape(c.encrypt(Loaded(s.current).value, nonce, value.value));
    }
  }

  /** A default run under a usable KEK encrypts every field that was plain and leaves every secret readable
      as before. */
  lemma {:induction false} DefaultRunSeals(c: Cipher, s: Settings, nonce: nat, ps: seq<Product>)
    requires Lawful(c) && Loaded(s.current).Some? && RewrapAll(c, s, FirstEncrypt, nonce, ps).Some?
    ensures var after, key := RewrapAll(c, s, FirstEncrypt, nonce, ps).value, Loaded(s.current).value;
            |after| == |ps| &&
            forall i :: 0 <= i < |ps| ==> SameSecrets(c, ps[i], key, after[i], key) && AllSealed(after[i])
    decreases |ps|
  {
    if ps != [] {
      DefaultProduct(c, s, nonce, ps[0]);
      DefaultRunSeals(c, s, nonce + 3, ps[1..]);
    }
  }

  /** After a run in either mode left every field encrypted, a default run changes nothing. */
  lemma {:induction false} DefaultRerunIsNoOp(c: Cipher, s: Settings, nonce: nat, ps: seq<Product>)
    requires forall i :: 0 <= i < |ps| ==> AllSealed(ps[i])
    ensures RewrapAll(c, s, FirstEncrypt, nonce, ps) == Some(ps)
    decreases |ps|
  {
    if ps != [] {
      DefaultRerunIsNoOp(c, s, nonce + 3, ps[1..]);
      assert [ps[0]] + ps[1..] == ps;
    }
  }
}
