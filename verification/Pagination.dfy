/** Keyset paging over any strictly ordered key: what successive pages serve while the table may be
    a different one at every request. Tables are rows in query order, key descending. */
module Keyset {
  import opened Common

  datatype Row<+K, +V> = Row(key: K, data: V)

  /** A page and, when there is more, the key of its last row. */
  datatype Page<+K, +V> = Page(items: seq<Row<K, V>>, last: Option<K>)

  /** Marks the triples whose transitivity a proof needs. */
  ghost predicate Chain<K>(a: K, b: K, c: K) {
    true
  }

  ghost predicate StrictOrder<K(!new)>(less: (K, K) -> bool) {
    && (forall a :: !less(a, a))
    && (forall a, b, c {:trigger Chain(a, b, c)} :: Chain(a, b, c) && less(a, b) && less(b, c) ==> less(a, c))
  }

  lemma Transitive<K(!new)>(less: (K, K) -> bool, a: K, b: K, c: K)
    requires StrictOrder(less) && less(a, b) && less(b, c)
    ensures less(a, c)
  {
    assert Chain(a, b, c);
  }

  ghost predicate Descending<K, V>(rows: seq<Row<K, V>>, less: (K, K) -> bool) {
    forall i, j :: 0 <= i < j < |rows| ==> less(rows[j].key, rows[i].key)
  }

  predicate Within<K>(k: K, bound: Option<K>, less: (K, K) -> bool) {
    bound.None? || less(k, bound.value)
  }

  /** The WHERE clause of a decoded cursor. */
  function Below<K, V>(rows: seq<Row<K, V>>, bound: Option<K>, less: (K, K) -> bool): seq<Row<K, V>> {
    if bound.None? then rows
    else if rows == [] then []
    else (if less(rows[0].key, bound.value) then [rows[0]] else []) + Below(rows[1..], bound, less)
  }

  /** Fetch one row more than `limit`; cut it off again when it came. */
  function Cut<K, V>(found: seq<Row<K, V>>, limit: nat): Page<K, V>
    requires limit >= 1
  {
    var fetched := if |found| > limit + 1 then found[..limit + 1] else found;
    if |fetched| > limit then Page(fetched[..limit], Some(fetched[limit - 1].key)) else Page(fetched, None)
  }

  function PageOf<K, V>(rows: seq<Row<K, V>>, bound: Option<K>, limit: nat, less: (K, K) -> bool): Page<K, V>
    requires limit >= 1
  {
    Cut(Below(rows, bound, less), limit)
  }

  /** One request of a traversal: the table as it stands then, and its limit. */
  datatype Request<+K, +V> = Request(table: seq<Row<K, V>>, limit: nat)

  predicate LimitsOk<K, V>(requests: seq<Request<K, V>>) {
    forall t :: 0 <= t < |requests| ==> requests[t].limit >= 1
  }

  /** Pages of successive requests up to the first with nothing more. */
  function Pages<K, V>(requests: seq<Request<K, V>>, bound: Option<K>, less: (K, K) -> bool): seq<Page<K, V>>
    requires LimitsOk(requests)
    decreases |requests|
  {
    if requests == [] then []
    else
      var p := PageOf(requests[0].table, bound, requests[0].limit, less);
      [p] + if p.last.None? then [] else Pages(requests[1..], p.last, less)
  }

  function Items<K, V>(pages: seq<Page<K, V>>): seq<Row<K, V>> {
    if pages == [] then [] else pages[0].items + Items(pages[1..])
  }

  predicate Finished<K, V>(pages: seq<Page<K, V>>) {
    pages != [] && pages[|pages| - 1].last.None?
  }

  ghost predicate HasKey<K, V>(rows: seq<Row<K, V>>, k: K) {
    exists i :: 0 <= i < |rows| && rows[i].key == k
  }

  ghost predicate AllDescend<K, V>(requests: seq<Request<K, V>>, less: (K, K) -> bool) {
    forall t :: 0 <= t < |requests| ==> Descending(requests[t].table, less)
  }

  lemma {:induction false} BelowMember<K, V>(rows: seq<Row<K, V>>, bound: Option<K>, less: (K, K) -> bool, r: Row<K, V>)
    ensures r in Below(rows, bound, less) <==> r in rows && Within(r.key, bound, less)
    decreases |rows|
  {
    if bound.Some? && rows != [] {
      BelowMember(rows[1..], bound, less, r);
      assert rows == [rows[0]] + rows[1..];
    }
  }

  lemma {:induction false} BelowDescends<K, V>(rows: seq<Row<K, V>>, bound: Option<K>, less: (K, K) -> bool)
    requires Descending(rows, less)
    ensures Descending(Below(rows, bound, less), less)
    decreases |rows|
  {
    if bound.Some? && rows != [] {
      var tail := Below(rows[1..], bound, less);
      BelowDescends(rows[1..], bound, less);
      forall i | 0 <= i < |tail| ensures less(tail[i].key, rows[0].key) {
        BelowMember(rows[1..], bound, less, tail[i]);
        var j :| 0 <= j < |rows[1..]| && rows[1..][j] == tail[i];
        assert rows[j + 1] == tail[i];
      }
    }
  }

  /** `rows` can be served below `bound`: strictly descending and within it. */
  ghost predicate Servable<K, V>(rows: seq<Row<K, V>>, bound: Option<K>, less: (K, K) -> bool) {
    Descending(rows, less) && forall i :: 0 <= i < |rows| ==> Within(rows[i].key, bound, less)
  }

  lemma {:induction false} PageShape<K, V>(rows: seq<Row<K, V>>, bound: Option<K>, limit: nat, less: (K, K) -> bool)
    requires limit >= 1
    ensures var found, p := Below(rows, bound, less), PageOf(rows, bound, limit, less);
            && p.items == (if |found| > limit then found[..limit] else found)
            && p.last == if |found| > limit then Some(found[limit - 1].key) else None
  {
  }

  lemma PageServable<K, V>(rows: seq<Row<K, V>>, bound: Option<K>, limit: nat, less: (K, K) -> bool)
    requires limit >= 1 && Descending(rows, less)
    ensures var p := PageOf(rows, bound, limit, less);
            && Servable(p.items, bound, less)
            && (p.last.Some? ==> p.items != [] && p.last.value == p.items[|p.items| - 1].key)
  {
    var p := PageOf(rows, bound, limit, less);
    PageShape(rows, bound, limit, less);
    BelowDescends(rows, bound, less);
    forall i | 0 <= i < |p.items| ensures Within(p.items[i].key, bound, less) {
      BelowMember(rows, bound, less, Below(rows, bound, less)[i]);
    }
  }

  /** A matching row that a page leaves out lies below the page's last key. */
  lemma PageCovers<K, V>(rows: seq<Row<K, V>>, bound: Option<K>, limit: nat, less: (K, K) -> bool, r: Row<K, V>)
    requires limit >= 1 && Descending(rows, less) && r in rows && Within(r.key, bound, less)
    ensures var p := PageOf(rows, bound, limit, less);
            r in p.items || (p.last.Some? && less(r.key, p.last.value))
  {
    var found, p := Below(rows, bound, less), PageOf(rows, bound, limit, less);
    PageShape(rows, bound, limit, less);
    BelowDescends(rows, bound, less);
    BelowMember(rows, bound, less, r);
    var i :| 0 <= i < |found| && found[i] == r;
    if i < |p.items| {
      assert p.items[i] == r;
    }
  }

  lemma {:induction false} PagesUnfold<K, V>(requests: seq<Request<K, V>>, bound: Option<K>, less: (K, K) -> bool)
    requires LimitsOk(requests) && requests != []
    ensures var p := PageOf(requests[0].table, bound, requests[0].limit, less);
            var pages := Pages(requests, bound, less);
            && (p.last.None? ==> pages == [p] && Items(pages) == p.items && Finished(pages))
            && (p.last.Some? ==>
                  var later := Pages(requests[1..], p.last, less);
                  pages == [p] + later && Items(pages) == p.items + Items(later) && Finished(pages) == Finished(later))
  {
    var p := PageOf(requests[0].table, bound, requests[0].limit, less);
    var pages := Pages(requests, bound, less);
    if p.last.None? {
      assert pages == [p] && pages[1..] == [];
      assert p.items + [] == p.items;
    } else {
      assert pages[1..] == Pages(requests[1..], p.last, less);
    }
  }

  lemma Concatenate<K(!new), V>(items: seq<Row<K, V>>, rest: seq<Row<K, V>>, last: K, bound: Option<K>,
                                less: (K, K) -> bool)
    requires StrictOrder(less) && Servable(items, bound, less) && Servable(rest, Some(last), less)
    requires items != [] && last == items[|items| - 1].key
    ensures Servable(items + rest, bound, less)
  {
    forall i, j | 0 <= i < |items| && 0 <= j < |rest| ensures less(rest[j].key, items[i].key) {
      assert Within(rest[j].key, Some(last), less);
      if i < |items| - 1 {
        Transitive(less, rest[j].key, last, items[i].key);
      }
    }
    forall j | 0 <= j < |rest| ensures Within(rest[j].key, bound, less) {
      assert Within(rest[j].key, Some(last), less) && Within(items[|items| - 1].key, bound, less);
      if bound.Some? {
        Transitive(less, rest[j].key, last, bound.value);
      }
    }
  }

  /** The served rows are strictly descending, so none is served twice. */
  lemma {:induction false} PagesDescend<K(!new), V>(requests: seq<Request<K, V>>, bound: Option<K>,
                                                    less: (K, K) -> bool)
    requires LimitsOk(requests) && StrictOrder(less) && AllDescend(requests, less)
    ensures Servable(Items(Pages(requests, bound, less)), bound, less)
    decreases |requests|
  {
    if requests != [] {
      var table, limit := requests[0].table, requests[0].limit;
      var p := PageOf(table, bound, limit, less);
      PageServable(table, bound, limit, less);
      PagesUnfold(requests, bound, less);
      if p.last.Some? {
        PagesDescend(requests[1..], p.last, less);
        Concatenate(p.items, Items(Pages(requests[1..], p.last, less)), p.last.value, bound, less);
      }
    }
  }

  lemma KeysIn<K, V>(a: seq<Row<K, V>>, b: seq<Row<K, V>>, k: K)
    requires HasKey(a, k) || HasKey(b, k)
    ensures HasKey(a + b, k)
  {
    if HasKey(a, k) {
      var i :| 0 <= i < |a| && a[i].key == k;
      assert (a + b)[i].key == k;
    } else {
      var i :| 0 <= i < |b| && b[i].key == k;
      assert (a + b)[|a| + i].key == k;
    }
  }

  lemma KeyCovered<K, V>(rows: seq<Row<K, V>>, bound: Option<K>, limit: nat, less: (K, K) -> bool, k: K)
    requires limit >= 1 && Descending(rows, less) && HasKey(rows, k) && Within(k, bound, less)
    ensures var p := PageOf(rows, bound, limit, less);
            HasKey(p.items, k) || (p.last.Some? && Within(k, p.last, less))
  {
    var p := PageOf(rows, bound, limit, less);
    var i :| 0 <= i < |rows| && rows[i].key == k;
    PageCovers(rows, bound, limit, less, rows[i]);
    if rows[i] in p.items {
      var j :| 0 <= j < |p.items| && p.items[j] == rows[i];
      assert p.items[j].key == k;
    }
  }

  /** The key is in the table of every request. */
  ghost predicate AlwaysHasKey<K, V>(requests: seq<Request<K, V>>, k: K) {
    forall t :: 0 <= t < |requests| ==> HasKey(requests[t].table, k)
  }

  lemma LaterHaveKey<K, V>(requests: seq<Request<K, V>>, k: K)
    requires requests != [] && AlwaysHasKey(requests, k)
    ensures HasKey(requests[0].table, k) && AlwaysHasKey(requests[1..], k)
  {
    forall t | 0 <= t < |requests[1..]| ensures HasKey(requests[1..][t].table, k) {
      assert HasKey(requests[t + 1].table, k);
    }
  }

  /** Every key present at all requests is served, once the last page has been reached. */
  lemma {:induction false} PagesComplete<K, V>(requests: seq<Request<K, V>>, bound: Option<K>,
                                               less: (K, K) -> bool, k: K)
    requires LimitsOk(requests) && AllDescend(requests, less) && Finished(Pages(requests, bound, less))
    requires Within(k, bound, less) && AlwaysHasKey(requests, k)
    ensures HasKey(Items(Pages(requests, bound, less)), k)
    decreases |requests|
  {
    var p := PageOf(requests[0].table, bound, requests[0].limit, less);
    LaterHaveKey(requests, k);
    KeyCovered(requests[0].table, bound, requests[0].limit, less, k);
    PagesUnfold(requests, bound, less);
    if p.last.Some? {
      if !HasKey(p.items, k) {
        PagesComplete(requests[1..], p.last, less, k);
      }
      KeysIn(p.items, Items(Pages(requests[1..], p.last, less)), k);
    }
  }

  // ----- a table that does not change --------------------------------------------------------------

  function Same<T>(request: T, n: nat): seq<T> {
    seq(n, _ => request)
  }

  /** The least page count that fits `n` rows, at least one. */
  function PagesFor(n: nat, limit: nat): nat
    requires limit >= 1
  {
    if n <= limit then 1 else 1 + PagesFor(n - limit, limit)
  }

  lemma {:induction false} PagesForIsCeiling(n: nat, limit: nat)
    requires limit >= 1
    ensures n <= PagesFor(n, limit) * limit
    ensures n > 0 ==> (PagesFor(n, limit) - 1) * limit < n
    decreases n
  {
    if n > limit {
      PagesForIsCeiling(n - limit, limit);
      var q := PagesFor(n - limit, limit);
      assert (q + 1) * limit == q * limit + limit && q * limit == (q - 1) * limit + limit;
    }
  }

  lemma {:induction false} AllBelow<K, V>(rows: seq<Row<K, V>>, k: K, less: (K, K) -> bool)
    requires forall i :: 0 <= i < |rows| ==> less(rows[i].key, k)
    ensures Below(rows, Some(k), less) == rows
    decreases |rows|
  {
    if rows != [] {
      AllBelow(rows[1..], k, less);
    }
  }

  lemma {:induction false} BelowIsSuffix<K(!new), V>(rows: seq<Row<K, V>>, i: nat, less: (K, K) -> bool)
    requires StrictOrder(less) && Descending(rows, less) && i < |rows|
    ensures Below(rows, Some(rows[i].key), less) == rows[i + 1..]
    decreases |rows|
  {
    if i == 0 {
      AllBelow(rows[1..], rows[0].key, less);
    } else {
      if less(rows[0].key, rows[i].key) {
        Transitive(less, rows[i].key, rows[0].key, rows[i].key);
      }
      BelowIsSuffix(rows[1..], i - 1, less);
      assert rows[1..][i - 1] == rows[i] && rows[1..][i..] == rows[i + 1..];
    }
  }

  function BoundAt<K, V>(rows: seq<Row<K, V>>, from: nat): Option<K>
    requires from <= |rows|
  {
    if from == 0 then None else Some(rows[from - 1].key)
  }

  lemma PageFrom<K(!new), V>(rows: seq<Row<K, V>>, from: nat, limit: nat, less: (K, K) -> bool)
    requires limit >= 1 && StrictOrder(less) && Descending(rows, less) && from <= |rows|
    ensures PageOf(rows, BoundAt(rows, from), limit, less) ==
            if |rows| - from > limit then Page(rows[from..from + limit], BoundAt(rows, from + limit))
            else Page(rows[from..], None)
  {
    if from > 0 {
      BelowIsSuffix(rows, from - 1, less);
    }
    var found := rows[from..];
    assert Below(rows, BoundAt(rows, from), less) == found;
    if |found| > limit {
      assert found[..limit] == rows[from..from + limit];
      if |found| > limit + 1 {
        assert found[..limit + 1][..limit] == found[..limit];
      }
    }
  }

  lemma {:induction false} FixedTableFrom<K(!new), V>(rows: seq<Row<K, V>>, from: nat, limit: nat, n: nat,
                                                      less: (K, K) -> bool)
    requires limit >= 1 && StrictOrder(less) && Descending(rows, less) && from <= |rows|
    requires n == PagesFor(|rows| - from, limit)
    ensures var pages := Pages(Same(Request(rows, limit), n), BoundAt(rows, from), less);
            Items(pages) == rows[from..] && |pages| == n && Finished(pages)
    decreases n
  {
    if |rows| - from > limit {
      MiddlePage(rows, from, limit, n, less);
      FixedTableFrom(rows, from + limit, limit, n - 1, less);
      Splits(rows, from, from + limit);
    } else {
      LastPage(rows, from, limit, n, less);
    }
  }

  lemma Splits<T>(s: seq<T>, i: nat, j: nat)
    requires i <= j <= |s|
    ensures s[i..] == s[i..j] + s[j..]
  {
  }

  lemma MiddlePage<K(!new), V>(rows: seq<Row<K, V>>, from: nat, limit: nat, n: nat, less: (K, K) -> bool)
    requires limit >= 1 && n >= 1 && StrictOrder(less) && Descending(rows, less) && from + limit < |rows|
    ensures var pages := Pages(Same(Request(rows, limit), n), BoundAt(rows, from), less);
            var later := Pages(Same(Request(rows, limit), n - 1), BoundAt(rows, from + limit), less);
            |pages| == 1 + |later| && Items(pages) == rows[from..from + limit] + Items(later) &&
                Finished(pages) == Finished(later)
  {
    PageFrom(rows, from, limit, less);
    SameUnfold(rows, BoundAt(rows, from), limit, n, less);
  }

  lemma LastPage<K(!new), V>(rows: seq<Row<K, V>>, from: nat, limit: nat, n: nat, less: (K, K) -> bool)
    requires limit >= 1 && n >= 1 && StrictOrder(less) && Descending(rows, less) && from <= |rows| <= from + limit
    ensures var pages := Pages(Same(Request(rows, limit), n), BoundAt(rows, from), less);
            |pages| == 1 && Items(pages) == rows[from..] && Finished(pages)
  {
    PageFrom(rows, from, limit, less);
    SameUnfold(rows, BoundAt(rows, from), limit, n, less);
  }

  lemma {:induction false} SameUnfold<K, V>(rows: seq<Row<K, V>>, bound: Option<K>, limit: nat, n: nat,
                                            less: (K, K) -> bool)
    requires limit >= 1 && n >= 1
    ensures var p := PageOf(rows, bound, limit, less);
            var pages := Pages(Same(Request(rows, limit), n), bound, less);
            && (p.last.None? ==> pages == [p] && Items(pages) == p.items && Finished(pages))
            && (p.last.Some? ==>
                  var later := Pages(Same(Request(rows, limit), n - 1), p.last, less);
                  |pages| == 1 + |later| && Items(pages) == p.items + Items(later) &&
                      Finished(pages) == Finished(later))
  {
    var requests := Same(Request(rows, limit), n);
    assert requests[0] == Request(rows, limit) && requests[1..] == Same(Request(rows, limit), n - 1);
    PagesUnfold(requests, bound, less);
  }
}

/** Opaque-cursor keyset pagination (app/pagination.py). A table is its rows in the query's order,
    `(created_at, id)` descending; the table may be a different one at every request. */
module Pagination {
  import opened Common
  import opened IsoTime
  import opened Keyset
  import Utf8
  import Base64Url

  datatype Key = Key(createdAt: DateTime, id: string)

  const DEFAULT_LIMIT := 100
  const MAX_LIMIT := 500

  /** A raw `?limit=`: absent, not an integer, or an integer. */
  datatype RawLimit = Missing | NotANumber | Given(n: int)

  function ClampLimit(raw: RawLimit): (limit: nat)
    ensures 1 <= limit <= MAX_LIMIT
    ensures raw.Given? && 1 <= raw.n <= MAX_LIMIT ==> limit == raw.n
    ensures raw.Given? && raw.n > MAX_LIMIT ==> limit == MAX_LIMIT
    ensures !raw.Given? || raw.n < 1 ==> limit == DEFAULT_LIMIT
  {
    match raw
    case Given(n) => if n < 1 then DEFAULT_LIMIT else if n <= MAX_LIMIT then n else MAX_LIMIT
    case _ => DEFAULT_LIMIT
  }

  // ----- the cursor codec -----------------------------------------------------------------------

  predicate ValidKey(k: Key) {
    Valid(k.createdAt) && k.id != ""
  }

  function EncodeCursor(k: Key): string
    requires Valid(k.createdAt)
  {
    Base64Url.StripPad(Base64Url.Padded(Utf8.Encode(Iso(k.createdAt) + "|" + k.id)))
  }

  /** What stands before and after the first bar. */
  function Partition(s: string): (string, string) {
    if s == "" then ("", "")
    else if s[0] == '|' then ("", s[1..])
    else var rest := Partition(s[1..]); ([s[0]] + rest.0, rest.1)
  }

  function DecodeCursor(token: Option<string>): Option<Key> {
    if token.None? || token.value == "" then None
    else
      var bytes := Base64Url.Decode(token.value + Base64Url.PadFor(|token.value|));
      var raw := if bytes.None? then None else Utf8.Decode(bytes.value);
      if raw.None? then None
      else
        var (ts, id) := Partition(raw.value);
        if ts == "" || id == "" then None
        else
          var t := Parse(ts);
          if t.None? then None else Some(Key(t.value, id))
  }

  lemma {:induction false} PartitionAtFirstBar(a: string, b: string)
    requires forall i :: 0 <= i < |a| ==> a[i] != '|'
    ensures Partition(a + "|" + b) == (a, b)
    decreases |a|
  {
    var s := a + "|" + b;
    if a != "" {
      assert s[1..] == a[1..] + "|" + b;
      PartitionAtFirstBar(a[1..], b);
      assert [a[0]] + a[1..] == a;
    } else {
      assert s[1..] == b;
    }
  }

  /** Every valid timestamp and non-empty id survives the token, bars in the id included. */
  lemma CursorRoundTrip(k: Key)
    requires ValidKey(k)
    ensures EncodeCursor(k) != "" && DecodeCursor(Some(EncodeCursor(k))) == Some(k)
  {
    var raw := Iso(k.createdAt) + "|" + k.id;
    Utf8.RoundTrip(raw);
    Base64Url.StrippedRoundTrip(Utf8.Encode(raw));
    IsoCharset(k.createdAt);
    PartitionAtFirstBar(Iso(k.createdAt), k.id);
    IsoTime.RoundTrip(k.createdAt);
  }

  // ----- key order ------------------------------------------------------------------------------

  function TimeFields(t: DateTime): seq<int> {
    [t.year, t.month, t.day, t.hour, t.minute, t.second, t.micro]
  }

  function Codes(s: string): seq<int> {
    seq(|s|, i requires 0 <= i < |s| => s[i] as int)
  }

  /** Lexicographic order, a prefix before its extensions. */
  predicate Less(a: seq<int>, b: seq<int>) {
    b != [] && (a == [] || a[0] < b[0] || (a[0] == b[0] && Less(a[1..], b[1..])))
  }

  /** Older rows come after newer ones; rows of one instant are ordered by id. */
  predicate KeyLess(a: Key, b: Key) {
    Less(TimeFields(a.createdAt), TimeFields(b.createdAt)) ||
    (a.createdAt == b.createdAt && Less(Codes(a.id), Codes(b.id)))
  }

  lemma {:induction false} LessTotal(a: seq<int>, b: seq<int>)
    ensures !Less(a, a) && (a != b ==> Less(a, b) || Less(b, a))
    decreases |a| + |b|
  {
    if a != [] {
      LessTotal(a[1..], if b == [] then [] else b[1..]);
      if b != [] {
        assert a == [a[0]] + a[1..] && b == [b[0]] + b[1..];
      }
    }
  }

  lemma {:induction false} LessTransitive(a: seq<int>, b: seq<int>, c: seq<int>)
    requires Less(a, b) && Less(b, c)
    ensures Less(a, c)
    decreases |a|
  {
    if a != [] && a[0] == b[0] == c[0] {
      LessTransitive(a[1..], b[1..], c[1..]);
    }
  }

  lemma CodesInjective(a: string, b: string)
    requires Codes(a) == Codes(b)
    ensures a == b
  {
    assert |Codes(a)| == |a| && |Codes(b)| == |b|;
    forall i | 0 <= i < |a| ensures a[i] == b[i] {
      assert Codes(a)[i] == Codes(b)[i];
    }
  }

  lemma KeyTotal(a: Key, b: Key)
    ensures !KeyLess(a, a) && (a != b ==> KeyLess(a, b) || KeyLess(b, a))
  {
    LessTotal(TimeFields(a.createdAt), TimeFields(b.createdAt));
    LessTotal(Codes(a.id), Codes(b.id));
    if a != b && a.createdAt == b.createdAt && Codes(a.id) == Codes(b.id) {
      CodesInjective(a.id, b.id);
    }
    assert TimeFields(a.createdAt) == TimeFields(b.createdAt) ==> a.createdAt == b.createdAt by {
      var s, t := TimeFields(a.createdAt), TimeFields(b.createdAt);
      if s == t {
        assert s[0] == t[0] && s[1] == t[1] && s[2] == t[2] && s[3] == t[3] && s[4] == t[4] && s[5] == t[5] &&
            s[6] == t[6];
      }
    }
  }

  lemma KeyTransitive(a: Key, b: Key, c: Key)
    requires KeyLess(a, b) && KeyLess(b, c)
    ensures KeyLess(a, c)
  {
    if Less(TimeFields(a.createdAt), TimeFields(b.createdAt)) &&
        Less(TimeFields(b.createdAt), TimeFields(c.createdAt)) {
      LessTransitive(TimeFields(a.createdAt), TimeFields(b.createdAt), TimeFields(c.createdAt));
    } else if Less(Codes(a.id), Codes(b.id)) && Less(Codes(b.id), Codes(c.id)) {
      LessTransitive(Codes(a.id), Codes(b.id), Codes(c.id));
    }
  }

  // ----- pages by token -------------------------------------------------------------------------

  lemma KeyLessIsStrict()
    ensures StrictOrder(KeyLess)
  {
    forall a: Key ensures !KeyLess(a, a) {
      KeyTotal(a, a);
    }
    forall a: Key, b: Key, c: Key | KeyLess(a, b) && KeyLess(b, c) ensures KeyLess(a, c) {
      KeyTransitive(a, b, c);
    }
  }

  /** The first instant comes before the second: by the first of year, month, ..., microsecond that differs. */
  predicate Before(a: DateTime, b: DateTime) {
    if a.year != b.year then a.year < b.year
    else if a.month != b.month then a.month < b.month
    else if a.day != b.day then a.day < b.day
    else if a.hour != b.hour then a.hour < b.hour
    else if a.minute != b.minute then a.minute < b.minute
    else if a.second != b.second then a.second < b.second
    else a.micro < b.micro
  }

  lemma {:induction false} FieldsLessIff(s: seq<int>, t: seq<int>, n: nat)
    requires |s| == |t| && n < |s| && s[..n] == t[..n] && s[n] != t[n]
    ensures Less(s, t) <==> s[n] < t[n]
    decreases n
  {
    if n > 0 {
      assert s[0] == s[..n][0] && t[0] == t[..n][0];
      assert s[1..][..n - 1] == s[..n][1..] && t[1..][..n - 1] == t[..n][1..];
      FieldsLessIff(s[1..], t[1..], n - 1);
    }
  }

  predicate DifferFirstAt(a: string, b: string, n: nat) {
    |a| == |b| && n < |a| && a[..n] == b[..n] && a[n] != b[n]
  }

  /** Keys ascend with time, and at one instant with the first character in which two ids of a length differ:
      a descending table starts with its newest row. */
  lemma {:induction false} KeyOrder(a: Key, b: Key)
    ensures a.createdAt != b.createdAt ==> (KeyLess(a, b) <==> Before(a.createdAt, b.createdAt))
    ensures forall n: nat :: a.createdAt == b.createdAt && DifferFirstAt(a.id, b.id, n) ==>
              (KeyLess(a, b) <==> a.id[n] < b.id[n])
  {
    var s, t := TimeFields(a.createdAt), TimeFields(b.createdAt);
    if a.createdAt != b.createdAt {
      var n := FirstDifference(a.createdAt, b.createdAt);
      FieldsLessIff(s, t, n);
    } else {
      LessTotal(s, s);
      forall n: nat | DifferFirstAt(a.id, b.id, n)
        ensures KeyLess(a, b) <==> a.id[n] < b.id[n]
      {
        forall i | 0 <= i < n ensures Codes(a.id)[..n][i] == Codes(b.id)[..n][i] {
          assert a.id[i] == a.id[..n][i] && b.id[i] == b.id[..n][i];
        }
        FieldsLessIff(Codes(a.id), Codes(b.id), n);
      }
    }
  }

  lemma FirstDifference(a: DateTime, b: DateTime) returns (n: nat)
    requires a != b
    ensures n < 7 && TimeFields(a)[..n] == TimeFields(b)[..n] && TimeFields(a)[n] != TimeFields(b)[n]
    ensures Before(a, b) <==> TimeFields(a)[n] < TimeFields(b)[n]
  {
    n := if a.year != b.year then 0 else if a.month != b.month then 1 else if a.day != b.day then 2
         else if a.hour != b.hour then 3 else if a.minute != b.minute then 4 else if a.second != b.second then 5
         else 6;
  }

  /** Whatever a cursor decodes to is a timestamp and a non-empty id; an absent, empty or bar-less one is none. */
  lemma {:induction false} DecodedIsValid(token: Option<string>)
    ensures DecodeCursor(token).Some? ==> token.Some? && token.value != "" && ValidKey(DecodeCursor(token).value)
  {
  }

  datatype TokenPage<+V> = TokenPage(items: seq<Row<Key, V>>, nextCursor: Option<string>)

  predicate KeysValid<V>(rows: seq<Row<Key, V>>) {
    forall i :: 0 <= i < |rows| ==> ValidKey(rows[i].key)
  }

  predicate AllKeysValid<V>(requests: seq<Request<Key, V>>) {
    forall t :: 0 <= t < |requests| ==> KeysValid(requests[t].table)
  }

  predicate BoundValid(bound: Option<Key>) {
    bound.Some? ==> ValidKey(bound.value)
  }

  function Token(bound: Option<Key>): Option<string>
    requires BoundValid(bound)
  {
    if bound.None? then None else Some(EncodeCursor(bound.value))
  }

  /** `paginate`: a missing or malformed cursor starts from the beginning. */
  function Paginate<V>(rows: seq<Row<Key, V>>, cursor: Option<string>, limit: nat): TokenPage<V>
    requires limit >= 1 && KeysValid(rows)
  {
    LastIsValid(rows, DecodeCursor(cursor), limit);
    var p := PageOf(rows, DecodeCursor(cursor), limit, KeyLess);
    TokenPage(p.items, Token(p.last))
  }

  lemma LastIsValid<V>(rows: seq<Row<Key, V>>, bound: Option<Key>, limit: nat)
    requires limit >= 1 && KeysValid(rows)
    ensures BoundValid(PageOf(rows, bound, limit, KeyLess).last)
  {
    var found, p := Below(rows, bound, KeyLess), PageOf(rows, bound, limit, KeyLess);
    if p.last.Some? {
      assert p.last.value == found[limit - 1].key;
      BelowMember(rows, bound, KeyLess, found[limit - 1]);
    }
  }

  /** The pages a client fetches by feeding each next cursor back, up to the first page without one. */
  function TokenPages<V>(requests: seq<Request<Key, V>>, cursor: Option<string>): seq<TokenPage<V>>
    requires LimitsOk(requests) && AllKeysValid(requests)
    decreases |requests|
  {
    if requests == [] then []
    else
      var p := Paginate(requests[0].table, cursor, requests[0].limit);
      [p] + if p.nextCursor.None? then [] else TokenPages(requests[1..], p.nextCursor)
  }

  function Served<V>(pages: seq<TokenPage<V>>): seq<Row<Key, V>> {
    if pages == [] then [] else pages[0].items + Served(pages[1..])
  }

  predicate Ended<V>(pages: seq<TokenPage<V>>) {
    pages != [] && pages[|pages| - 1].nextCursor.None?
  }

  lemma PageMatches<V>(rows: seq<Row<Key, V>>, bound: Option<Key>, limit: nat)
    requires limit >= 1 && KeysValid(rows) && BoundValid(bound)
    ensures var p := PageOf(rows, bound, limit, KeyLess);
            BoundValid(p.last) && Paginate(rows, Token(bound), limit) == TokenPage(p.items, Token(p.last))
  {
    if bound.Some? {
      CursorRoundTrip(bound.value);
    }
    LastIsValid(rows, bound, limit);
  }

  lemma {:induction false} TokensUnfold<V>(requests: seq<Request<Key, V>>, bound: Option<Key>)
    requires LimitsOk(requests) && AllKeysValid(requests) && BoundValid(bound) && requests != []
    ensures var p := PageOf(requests[0].table, bound, requests[0].limit, KeyLess);
            var pages := TokenPages(requests, Token(bound));
            && BoundValid(p.last)
            && (p.last.None? ==> |pages| == 1 && Served(pages) == p.items && Ended(pages))
            && (p.last.Some? ==>
                  var later := TokenPages(requests[1..], Token(p.last));
                  |pages| == 1 + |later| && Served(pages) == p.items + Served(later) && Ended(pages) == Ended(later))
  {
    PageMatches(requests[0].table, bound, requests[0].limit);
    var p := PageOf(requests[0].table, bound, requests[0].limit, KeyLess);
    var pages := TokenPages(requests, Token(bound));
    if p.last.Some? {
      assert pages[1..] == TokenPages(requests[1..], Token(p.last));
    } else {
      assert pages[1..] == [];
      assert p.items + [] == p.items;
    }
  }

  ghost predicate Agree<V>(byToken: seq<TokenPage<V>>, byKey: seq<Page<Key, V>>) {
    |byToken| == |byKey| && Served(byToken) == Items(byKey) && Ended(byToken) == Finished(byKey)
  }

  /** The first pages agree, and so do the later ones if there are any. */
  lemma {:induction false} FirstPagesAgree<V>(requests: seq<Request<Key, V>>, bound: Option<Key>)
    requires LimitsOk(requests) && AllKeysValid(requests) && BoundValid(bound) && requests != []
    requires var last := PageOf(requests[0].table, bound, requests[0].limit, KeyLess).last;
             last.Some? ==>
               BoundValid(last) && Agree(TokenPages(requests[1..], Token(last)), Pages(requests[1..], last, KeyLess))
    ensures Agree(TokenPages(requests, Token(bound)), Pages(requests, bound, KeyLess))
  {
    TokensUnfold(requests, bound);
    PagesUnfold(requests, bound, KeyLess);
  }

  /** Passing positions as opaque tokens changes nothing. */
  lemma {:induction false} TokensMatchKeys<V>(requests: seq<Request<Key, V>>, bound: Option<Key>)
    requires LimitsOk(requests) && AllKeysValid(requests) && BoundValid(bound)
    ensures var byToken, byKey := TokenPages(requests, Token(bound)), Pages(requests, bound, KeyLess);
            |byToken| == |byKey| && Served(byToken) == Items(byKey) && Ended(byToken) == Finished(byKey)
    decreases |requests|
  {
    if requests != [] {
      var last := PageOf(requests[0].table, bound, requests[0].limit, KeyLess).last;
      LastIsValid(requests[0].table, bound, requests[0].limit);
      if last.Some? {
        TokensMatchKeys(requests[1..], last);
      }
      FirstPagesAgree(requests, bound);
    }
  }

  /** From the first page to the last, with any inserts and deletes in between and any limits: strictly
      descending, nothing twice, and every key present throughout is served exactly once. */
  lemma {:induction false} PagesServeExactlyOnce<V>(requests: seq<Request<Key, V>>, k: Key)
    requires LimitsOk(requests) && AllKeysValid(requests) && AllDescend(requests, KeyLess)
    requires Ended(TokenPages(requests, None)) && AlwaysHasKey(requests, k)
    ensures var rows := Served(TokenPages(requests, None));
            && Descending(rows, KeyLess) && HasKey(rows, k)
            && (forall i, j :: 0 <= i < j < |rows| ==> rows[i].key != rows[j].key)
  {
    KeyLessIsStrict();
    TokensMatchKeys(requests, None);
    PagesDescend(requests, None, KeyLess);
    PagesComplete(requests, None, KeyLess, k);
  }

  /** On an unchanging table the pages are the whole list, in max(1, ceil(n / limit)) requests. */
  lemma {:induction false} FixedTable<V>(rows: seq<Row<Key, V>>, limit: nat)
    requires limit >= 1 && KeysValid(rows) && Descending(rows, KeyLess)
    ensures var n := PagesFor(|rows|, limit);
            var pages := TokenPages(Same(Request(rows, limit), n), None);
            Served(pages) == rows && |pages| == n && Ended(pages)
  {
    KeyLessIsStrict();
    FixedTableFrom(rows, 0, limit, PagesFor(|rows|, limit), KeyLess);
    TokensMatchKeys(Same(Request(rows, limit), PagesFor(|rows|, limit)), None);
    assert rows[0..] == rows;
  }
}
