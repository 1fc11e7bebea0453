/** JSON text as `json.dumps` writes it (ASCII-escaped, default separators) and `json.loads` reads it.
    A number is its literal; the reader takes the longest run of number characters. */
module JsonText {
  import opened Common
  import Utf8

  datatype Json =
    | Null
    | Bool(value: bool)
    | Num(literal: string)
    | Str(text: string)
    | Arr(items: seq<Json>)
    | Obj(fields: seq<(string, Json)>)

  predicate IsNumberChar(c: char) {
    '0' <= c <= '9' || c in {'-', '+', '.', 'e', 'E'}
  }

  predicate IsNumber(literal: string) {
    literal != "" && ('0' <= literal[0] <= '9' || literal[0] == '-') &&
    forall i :: 0 <= i < |literal| ==> IsNumberChar(literal[i])
  }

  /** Every number inside is a number literal. */
  predicate WellFormed(j: Json) {
    match j
    case Num(literal) => IsNumber(literal)
    case Arr(items) => forall i :: 0 <= i < |items| ==> WellFormed(items[i])
    case Obj(fields) => forall i :: 0 <= i < |fields| ==> WellFormed(fields[i].1)
    case _ => true
  }

  // ----- strings --------------------------------------------------------------------------------

  function HexDigit(n: int): char
    requires 0 <= n < 16
  {
    if n < 10 then ('0' as int + n) as char else ('a' as int + n - 10) as char
  }

  function HexValue(c: char): Option<int> {
    if '0' <= c <= '9' then Some(c as int - '0' as int)
    else if 'a' <= c <= 'f' then Some(c as int - 'a' as int + 10)
    else if 'A' <= c <= 'F' then Some(c as int - 'A' as int + 10)
    else None
  }

  function Hex4(n: int): string
    requires 0 <= n < 0x1_0000
  {
    [HexDigit(n / 4096), HexDigit(n / 256 % 16), HexDigit(n / 16 % 16), HexDigit(n % 16)]
  }

  /** Value of the first four characters as hexadecimal. */
  function ReadHex4(s: string): Option<int>
    ensures ReadHex4(s).Some? ==> |s| >= 4 && 0 <= ReadHex4(s).value < 0x1_0000
  {
    if |s| < 4 then None
    else
      var a, b, c, d := HexValue(s[0]), HexValue(s[1]), HexValue(s[2]), HexValue(s[3]);
      if a.None? || b.None? || c.None? || d.None? then None
      else Some(a.value * 4096 + b.value * 256 + c.value * 16 + d.value)
  }

  /** The letter of a two-character escape. */
  function ShortEscape(c: char): Option<char> {
    if c == '"' then Some('"') else if c == '\\' then Some('\\')
    else if c as int == 8 then Some('b') else if c as int == 12 then Some('f')
    else if c == '\n' then Some('n') else if c == '\r' then Some('r') else if c == '\t' then Some('t')
    else None
  }

  function FromShortEscape(c: char): Option<char> {
    if c in {'"', '\\', '/'} then Some(c)
    else if c == 'b' then Some(8 as char) else if c == 'f' then Some(12 as char)
    else if c == 'n' then Some('\n') else if c == 'r' then Some('\r') else if c == 't' then Some('\t')
    else None
  }

  predicate IsPlain(c: char) {
    ' ' <= c <= '~' && c != '"' && c != '\\'
  }

  function EscapeChar(c: char): string {
    var n := c as int;
    if ShortEscape(c).Some? then ['\\', ShortEscape(c).value]
    else if IsPlain(c) then [c]
    else EscapeWide(n)
  }

  /** `\uXXXX`, as a surrogate pair beyond the basic plane. */
  function EscapeWide(n: int): string
    requires 0 <= n < 0x11_0000
  {
    if n < 0x1_0000 then "\\u" + Hex4(n)
    else "\\u" + Hex4(0xD800 + (n - 0x1_0000) / 1024) + ("\\u" + Hex4(0xDC00 + (n - 0x1_0000) % 1024))
  }

  function Escape(s: string): string {
    if s == "" then "" else EscapeChar(s[0]) + Escape(s[1..])
  }

  /** One character of a string body and how much text it takes; None on malformed text, a control
      character, or a lone surrogate. */
  function ReadChar(s: string): Option<(char, nat)>
    requires s != "" && s[0] != '"'
    ensures ReadChar(s).Some? ==> 1 <= ReadChar(s).value.1 <= |s|
  {
    if s[0] != '\\' then (if s[0] as int < 0x20 then None else Some((s[0], 1)))
    else if |s| < 2 then None
    else if s[1] != 'u' then
      var c := FromShortEscape(s[1]);
      if c.None? then None else Some((c.value, 2))
    else
      var hi := ReadHex4(s[2..]);
      if hi.None? then None
      else if Utf8.IsScalar(hi.value) then Some((hi.value as char, 6))
      else if hi.value < 0xDC00 && |s| >= 12 && s[6] == '\\' && s[7] == 'u' then
        var lo := ReadHex4(s[8..]);
        if lo.None? || !(0xDC00 <= lo.value < 0xE000) then None
        else Some((Combine(hi.value, lo.value) as char, 12))
      else None
  }

  function Combine(hi: int, lo: int): (n: int)
    ensures 0xD800 <= hi < 0xDC00 && 0xDC00 <= lo < 0xE000 ==> 0x1_0000 <= n < 0x11_0000
  {
    0x1_0000 + (hi - 0xD800) * 1024 + (lo - 0xDC00)
  }

  /** The body of a string up to its closing quote, and what follows. */
  function ReadString(s: string): Option<(string, string)>
    ensures ReadString(s).Some? ==> |ReadString(s).value.1| < |s|
    decreases |s|
  {
    if s == "" then None
    else if s[0] == '"' then Some(("", s[1..]))
    else
      var c := ReadChar(s);
      if c.None? then None
      else
        var rest := ReadString(s[c.value.1..]);
        if rest.None? then None else Some(([c.value.0] + rest.value.0, rest.value.1))
  }

  lemma HexRoundTrip(n: int, rest: string)
    requires 0 <= n < 0x1_0000
    ensures ReadHex4(Hex4(n) + rest) == Some(n)
  {
    var s := Hex4(n) + rest;
    assert s[0] == Hex4(n)[0] && s[1] == Hex4(n)[1] && s[2] == Hex4(n)[2] && s[3] == Hex4(n)[3];
    assert n / 16 / 16 == n / 256 && n / 256 / 16 == n / 4096;
  }

  lemma UnicodeEscape(n: int, rest: string)
    requires 0 <= n < 0x1_0000 && Utf8.IsScalar(n)
    ensures ReadChar("\\u" + Hex4(n) + rest) == Some((n as char, 6))
  {
    var s := "\\u" + Hex4(n) + rest;
    assert s[2..] == Hex4(n) + rest;
    HexRoundTrip(n, rest);
  }

  lemma ReadPair(h: string, l: string, rest: string, hi: int, lo: int)
    requires |h| == 4 && ReadHex4(h + ("\\u" + l + rest)) == Some(hi) && ReadHex4(l + rest) == Some(lo)
    requires 0xD800 <= hi < 0xDC00 && 0xDC00 <= lo < 0xE000 && |l| == 4
    ensures ReadChar("\\u" + h + ("\\u" + l) + rest) == Some((Combine(hi, lo) as char, 12))
  {
    var tail := "\\u" + l + rest;
    var s := "\\u" + h + ("\\u" + l) + rest;
    assert s[2..] == h + tail;
    assert s[8..] == l + rest;
    assert s[6] == '\\' && s[7] == 'u';
  }

  lemma SurrogateEscape(n: int, rest: string)
    requires 0x1_0000 <= n < 0x11_0000
    ensures ReadChar("\\u" + Hex4(0xD800 + (n - 0x1_0000) / 1024) +
                     ("\\u" + Hex4(0xDC00 + (n - 0x1_0000) % 1024)) + rest) == Some((n as char, 12))
  {
    var hi, lo := 0xD800 + (n - 0x1_0000) / 1024, 0xDC00 + (n - 0x1_0000) % 1024;
    HexRoundTrip(hi, "\\u" + Hex4(lo) + rest);
    HexRoundTrip(lo, rest);
    ReadPair(Hex4(hi), Hex4(lo), rest, hi, lo);
    assert Combine(hi, lo) == n;
  }

  lemma ShortEscapeInverse(c: char)
    requires ShortEscape(c).Some?
    ensures FromShortEscape(ShortEscape(c).value) == Some(c) && ShortEscape(c).value != 'u'
  {
  }

  lemma ShortRoundTrip(c: char, e: char, rest: string)
    requires FromShortEscape(e) == Some(c) && e != 'u'
    ensures ReadChar(['\\', e] + rest) == Some((c, 2))
  {
  }

  lemma PlainRoundTrip(c: char, rest: string)
    requires IsPlain(c)
    ensures ReadChar([c] + rest) == Some((c, 1))
  {
  }

  lemma EscapeStart(c: char)
    ensures EscapeChar(c) != "" && EscapeChar(c)[0] != '"'
  {
  }

  /** Reading one character from `text` gives `c` and takes `n` characters. */
  predicate ReadsChar(text: string, c: char, n: nat)
    requires text != "" && text[0] != '"'
  {
    ReadChar(text) == Some((c, n))
  }

  lemma AsciiRoundTrip(c: char, rest: string)
    requires ShortEscape(c).Some? || IsPlain(c)
    ensures ReadChar(EscapeChar(c) + rest) == Some((c, |EscapeChar(c)|))
  {
    if ShortEscape(c).Some? {
      ShortEscapeInverse(c);
      ShortRoundTrip(c, ShortEscape(c).value, rest);
    } else {
      PlainRoundTrip(c, rest);
    }
  }

  lemma WideRoundTrip(n: int, rest: string)
    requires 0 <= n < 0x11_0000 && Utf8.IsScalar(n)
    ensures ReadChar(EscapeWide(n) + rest) == Some((n as char, |EscapeWide(n)|))
  {
    if n < 0x1_0000 {
      UnicodeEscape(n, rest);
    } else {
      SurrogateEscape(n, rest);
    }
  }

  lemma CharRoundTrip(c: char, rest: string)
    ensures (EscapeChar(c) + rest)[0] != '"' && ReadsChar(EscapeChar(c) + rest, c, |EscapeChar(c)|)
  {
    EscapeStart(c);
    if ShortEscape(c).Some? || IsPlain(c) {
      AsciiRoundTrip(c, rest);
    } else {
      WideRoundTrip(c as int, rest);
    }
  }

  lemma {:induction false} StringRoundTrip(s: string, rest: string)
    ensures ReadString(Escape(s) + "\"" + rest) == Some((s, rest))
    decreases |s|
  {
    if s == "" {
      assert (Escape(s) + "\"" + rest)[1..] == rest;
    } else {
      var tail := Escape(s[1..]) + "\"" + rest;
      assert Escape(s) + "\"" + rest == EscapeChar(s[0]) + tail;
      CharRoundTrip(s[0], tail);
      EscapeStart(s[0]);
      assert (EscapeChar(s[0]) + tail)[|EscapeChar(s[0])|..] == tail;
      StringRoundTrip(s[1..], rest);
      assert [s[0]] + s[1..] == s;
    }
  }

  // ----- values ---------------------------------------------------------------------------------

  function Quoted(s: string): string {
    "\"" + Escape(s) + "\""
  }

  function Dumps(j: Json): string
    decreases j, 1
  {
    match j
    case Null => "null"
    case Bool(b) => if b then "true" else "false"
    case Num(literal) => literal
    case Str(s) => Quoted(s)
    case Arr(items) => if items == [] then "[]" else "[" + DumpItems(items)
    case Obj(fields) => if fields == [] then "{}" else "{" + DumpFields(fields)
  }

  /** The items of a non-empty array with its closing bracket. */
  function DumpItems(items: seq<Json>): string
    requires items != []
    decreases items, 0
  {
    Dumps(items[0]) + if |items| == 1 then "]" else ", " + DumpItems(items[1..])
  }

  function DumpFields(fields: seq<(string, Json)>): string
    requires fields != []
    decreases fields, 0
  {
    assert fields[0].1 < fields[0];
    Quoted(fields[0].0) + ": " + (Dumps(fields[0].1) + if |fields| == 1 then "}" else ", " + DumpFields(fields[1..]))
  }

  function SkipSpace(s: string): (r: string)
    ensures |r| <= |s|
  {
    if s != "" && s[0] in {' ', '\t', '\n', '\r'} then SkipSpace(s[1..]) else s
  }

  predicate StartsWith(s: string, prefix: string) {
    |s| >= |prefix| && s[..|prefix|] == prefix
  }

  function NumberRun(s: string): (n: nat)
    ensures n <= |s|
  {
    if s != "" && IsNumberChar(s[0]) then 1 + NumberRun(s[1..]) else 0
  }

  /** The value at the head of `s`, leading space allowed, and the text after it. */
  function ReadValue(s: string): (r: Option<(Json, string)>)
    ensures r.Some? ==> |r.value.1| < |s|
    decreases |s|, 1
  {
    var t := SkipSpace(s);
    if t == "" then None
    else if t[0] == '"' then
      var text := ReadString(t[1..]);
      if text.None? then None else Some((Str(text.value.0), text.value.1))
    else if t[0] == '[' then
      var u := SkipSpace(t[1..]);
      if u != "" && u[0] == ']' then Some((Arr([]), u[1..]))
      else
        var items := ReadItems(t[1..]);
        if items.None? then None else Some((Arr(items.value.0), items.value.1))
    else if t[0] == '{' then
      var u := SkipSpace(t[1..]);
      if u != "" && u[0] == '}' then Some((Obj([]), u[1..]))
      else
        var fields := ReadFields(t[1..]);
        if fields.None? then None else Some((Obj(fields.value.0), fields.value.1))
    else if t[0] == 'n' then (if StartsWith(t, "null") then Some((Null, t[4..])) else None)
    else if t[0] == 't' then (if StartsWith(t, "true") then Some((Bool(true), t[4..])) else None)
    else if t[0] == 'f' then (if StartsWith(t, "false") then Some((Bool(false), t[5..])) else None)
    else if ('0' <= t[0] <= '9' || t[0] == '-') &&
        NumberRun(t) > 0 then Some((Num(t[..NumberRun(t)]), t[NumberRun(t)..]))
    else None
  }

  function ReadItems(s: string): (r: Option<(seq<Json>, string)>)
    ensures r.Some? ==> |r.value.1| < |s|
    decreases |s|, 2
  {
    var v := ReadValue(s);
    if v.None? then None
    else
      var u := SkipSpace(v.value.1);
      if u == "" then None
      else if u[0] == ']' then Some(([v.value.0], u[1..]))
      else if u[0] != ',' then None
      else
        var more := ReadItems(u[1..]);
        if more.None? then None else Some(([v.value.0] + more.value.0, more.value.1))
  }

  function ReadFields(s: string): (r: Option<(seq<(string, Json)>, string)>)
    ensures r.Some? ==> |r.value.1| < |s|
    decreases |s|, 2
  {
    var t := SkipSpace(s);
    if t == "" || t[0] != '"' then None
    else
      var name := ReadString(t[1..]);
      if name.None? then None
      else
        var u := SkipSpace(name.value.1);
        if u == "" || u[0] != ':' then None
        else
          var v := ReadValue(u[1..]);
          if v.None? then None
          else
            var w := SkipSpace(v.value.1);
            if w == "" then None
            else if w[0] == '}' then Some(([(name.value.0, v.value.0)], w[1..]))
            else if w[0] != ',' then None
            else
              var more := ReadFields(w[1..]);
              if more.None? then None else Some(([(name.value.0, v.value.0)] + more.value.0, more.value.1))
  }

  /** `json.loads`: one value and nothing but space after it. */
  function Loads(s: string): Option<Json> {
    var v := ReadValue(s);
    if v.None? || SkipSpace(v.value.1) != "" then None else Some(v.value.0)
  }

  /** Text that ends a number written before it. */
  predicate EndsNumber(rest: string) {
    rest == "" || !IsNumberChar(rest[0])
  }

  lemma {:induction false} RunOfNumber(literal: string, rest: string)
    requires (forall i :: 0 <= i < |literal| ==> IsNumberChar(literal[i])) && EndsNumber(rest)
    ensures NumberRun(literal + rest) == |literal|
    decreases |literal|
  {
    if literal == "" {
      assert literal + rest == rest;
    } else {
      assert (literal + rest)[1..] == literal[1..] + rest;
      RunOfNumber(literal[1..], rest);
    }
  }

  predicate IsBlank(c: char) {
    c in {' ', '\t', '\n', '\r'}
  }

  /** A text that starts like a number is read as its longest run of number characters. */
  lemma {:induction false} ReadRun(s: string)
    requires s != "" && ('0' <= s[0] <= '9' || s[0] == '-')
    ensures ReadValue(s) == Some((Num(s[..NumberRun(s)]), s[NumberRun(s)..]))
  {
    assert SkipSpace(s) == s;
    assert NumberRun(s) > 0;
  }

  lemma {:induction false} ReadNumber(literal: string, rest: string)
    requires IsNumber(literal) && EndsNumber(rest)
    ensures ReadValue(literal + rest) == Some((Num(literal), rest))
  {
    var s := literal + rest;
    assert s[0] == literal[0];
    ReadRun(s);
    RunOfNumber(literal, rest);
    assert s[..|literal|] == literal && s[|literal|..] == rest;
  }

  lemma {:induction false} ReadWord(rest: string)
    ensures ReadValue("null" + rest) == Some((Null, rest))
    ensures ReadValue("true" + rest) == Some((Bool(true), rest))
    ensures ReadValue("false" + rest) == Some((Bool(false), rest))
  {
    var n, t, f := "null" + rest, "true" + rest, "false" + rest;
    assert n[0] == 'n' && SkipSpace(n) == n && n[..4] == "null" && n[4..] == rest;
    assert t[0] == 't' && SkipSpace(t) == t && t[..4] == "true" && t[4..] == rest;
    assert f[0] == 'f' && SkipSpace(f) == f && f[..5] == "false" && f[5..] == rest;
  }

  lemma {:induction false} ReadQuoted(s: string, rest: string)
    ensures ReadValue(Quoted(s) + rest) == Some((Str(s), rest))
  {
    var t := Quoted(s) + rest;
    assert t[0] == '"' && SkipSpace(t) == t;
    assert t[1..] == Escape(s) + "\"" + rest;
    StringRoundTrip(s, rest);
  }

  lemma {:induction false} ReadEmpty(rest: string)
    ensures ReadValue("[]" + rest) == Some((Arr([]), rest))
    ensures ReadValue("{}" + rest) == Some((Obj([]), rest))
  {
    var a, o := "[]" + rest, "{}" + rest;
    assert a[0] == '[' && SkipSpace(a) == a && a[1..][0] == ']' && SkipSpace(a[1..]) == a[1..] && a[1..][1..] == rest;
    assert o[0] == '{' && SkipSpace(o) == o && o[1..][0] == '}' && SkipSpace(o[1..]) == o[1..] && o[1..][1..] == rest;
  }

  /** A value's text starts with neither space nor a closing bracket. */
  lemma {:induction false} DumpsStart(j: Json)
    requires WellFormed(j)
    ensures Dumps(j) != "" && !IsBlank(Dumps(j)[0]) && Dumps(j)[0] != ']' && Dumps(j)[0] != '}'
  {
  }

  lemma {:induction false} SpaceBeforeValue(s: string)
    ensures ReadValue(" " + s) == ReadValue(s)
  {
    assert (" " + s)[1..] == s;
  }

  lemma {:induction false} ReadArray(t: string, items: seq<Json>, rest: string)
    requires t != "" && !IsBlank(t[0]) && t[0] != ']' && ReadItems(t) == Some((items, rest))
    ensures ReadValue("[" + t) == Some((Arr(items), rest))
  {
    assert ("[" + t)[1..] == t && SkipSpace("[" + t) == "[" + t && SkipSpace(t) == t;
  }

  lemma {:induction false} ReadObject(t: string, fields: seq<(string, Json)>, rest: string)
    requires t != "" && t[0] == '"' && ReadFields(t) == Some((fields, rest))
    ensures ReadValue("{" + t) == Some((Obj(fields), rest))
  {
    assert ("{" + t)[1..] == t && SkipSpace("{" + t) == "{" + t && SkipSpace(t) == t;
  }

  /** Reading `text` gives `j` and leaves `rest`. */
  predicate Reads(text: string, j: Json, rest: string) {
    ReadValue(text) == Some((j, rest))
  }

  lemma {:induction false} ArrayRoundTrip(items: seq<Json>, rest: string)
    requires items != [] && WellFormed(items[0]) && ReadItems(DumpItems(items) + rest) == Some((items, rest))
    ensures Reads(Dumps(Arr(items)) + rest, Arr(items), rest)
  {
    var t := DumpItems(items) + rest;
    DumpsStart(items[0]);
    assert t[0] == Dumps(items[0])[0];
    ReadArray(t, items, rest);
    assert Dumps(Arr(items)) + rest == "[" + t;
  }

  /** Reading `text` as fields gives `fields` and leaves `rest`. */
  predicate ReadsFields(text: string, fields: seq<(string, Json)>, rest: string) {
    text != "" && text[0] == '"' && ReadFields(text) == Some((fields, rest))
  }

  lemma {:induction false} ObjectRoundTrip(fields: seq<(string, Json)>, rest: string)
    requires fields != [] && ReadsFields(DumpFields(fields) + rest, fields, rest)
    ensures Reads(Dumps(Obj(fields)) + rest, Obj(fields), rest)
  {
    ReadObject(DumpFields(fields) + rest, fields, rest);
    DumpObject(fields, rest);
  }

  lemma {:induction false} DumpObject(fields: seq<(string, Json)>, rest: string)
    requires fields != []
    ensures Dumps(Obj(fields)) + rest == "{" + (DumpFields(fields) + rest)
  {
  }

  lemma {:induction false} ScalarRoundTrip(j: Json, rest: string)
    requires WellFormed(j) && EndsNumber(rest) && !j.Arr? && !j.Obj?
    ensures Reads(Dumps(j) + rest, j, rest)
  {
    match j
    case Null => ReadWord(rest);
    case Bool(b) => ReadWord(rest);
    case Num(literal) => ReadNumber(literal, rest);
    case Str(s) => ReadQuoted(s, rest);
  }

  lemma {:induction false} ValueRoundTrip(j: Json, rest: string)
    requires WellFormed(j) && EndsNumber(rest)
    ensures Reads(Dumps(j) + rest, j, rest)
    decreases j, 1
  {
    match j
    case Arr(items) =>
      if items == [] {
        ReadEmpty(rest);
      } else {
        ItemsRoundTrip(items, rest);
        ArrayRoundTrip(items, rest);
      }
    case Obj(fields) =>
      if fields == [] {
        ReadEmpty(rest);
      } else {
        FieldsRoundTrip(fields, rest);
        ObjectRoundTrip(fields, rest);
      }
    case _ => ScalarRoundTrip(j, rest);
  }

  lemma {:induction false} ItemsRoundTrip(items: seq<Json>, rest: string)
    requires items != [] && forall i :: 0 <= i < |items| ==> WellFormed(items[i])
    ensures ReadItems(DumpItems(items) + rest) == Some((items, rest))
    decreases items, 0
  {
    var head := Dumps(items[0]);
    if |items| == 1 {
      var tail := "]" + rest;
      assert DumpItems(items) + rest == head + tail;
      ValueRoundTrip(items[0], tail);
      assert SkipSpace(tail) == tail && tail[1..] == rest;
      assert [items[0]] == items;
    } else {
      var more := DumpItems(items[1..]) + rest;
      var tail := ", " + more;
      assert DumpItems(items) + rest == head + tail;
      ValueRoundTrip(items[0], tail);
      assert SkipSpace(tail) == tail && tail[1..] == " " + more;
      ItemsRoundTrip(items[1..], rest);
      SpaceBeforeItems(more);
      assert [items[0]] + items[1..] == items;
    }
  }

  lemma {:induction false} SpaceBeforeItems(s: string)
    ensures ReadItems(s).Some? ==> ReadItems(" " + s) == ReadItems(s)
  {
    SpaceBeforeValue(s);
  }

  lemma {:induction false} SpaceBeforeFields(s: string)
    ensures ReadFields(s).Some? ==> ReadFields(" " + s) == ReadFields(s)
  {
    assert (" " + s)[1..] == s;
  }

  lemma {:induction false} FieldsRoundTrip(fields: seq<(string, Json)>, rest: string)
    requires fields != [] && forall i :: 0 <= i < |fields| ==> WellFormed(fields[i].1)
    ensures ReadsFields(DumpFields(fields) + rest, fields, rest)
    decreases fields, 0
  {
    assert fields[0].1 < fields[0];
    if |fields| == 1 {
      ValueRoundTrip(fields[0].1, "}" + rest);
      OneField(fields, rest);
    } else {
      ValueRoundTrip(fields[0].1, ", " + (DumpFields(fields[1..]) + rest));
      FieldsRoundTrip(fields[1..], rest);
      var more := DumpFields(fields[1..]) + rest;
      NextField(fields[0], Dumps(fields[0].1) + (", " + more), more, fields, rest);
      DumpMore(fields, rest);
    }
  }

  lemma {:induction false} DumpOne(fields: seq<(string, Json)>, rest: string)
    requires |fields| == 1
    ensures DumpFields(fields) + rest == Quoted(fields[0].0) + (": " + (Dumps(fields[0].1) + ("}" + rest)))
  {
  }

  lemma {:induction false} DumpMore(fields: seq<(string, Json)>, rest: string)
    requires |fields| > 1
    ensures DumpFields(fields) + rest ==
            Quoted(fields[0].0) + (": " + (Dumps(fields[0].1) + (", " + (DumpFields(fields[1..]) + rest))))
  {
  }

  lemma {:induction false} OneField(fields: seq<(string, Json)>, rest: string)
    requires |fields| == 1 && Reads(Dumps(fields[0].1) + ("}" + rest), fields[0].1, "}" + rest)
    ensures ReadsFields(DumpFields(fields) + rest, fields, rest)
  {
    DumpOne(fields, rest);
    LastField(fields[0].0, fields[0].1, Dumps(fields[0].1) + ("}" + rest), rest);
    assert [(fields[0].0, fields[0].1)] == fields;
  }

  /** Reading a field whose name and colon are followed by `text`, the value and what comes after it. */
  lemma LastField(name: string, value: Json, text: string, rest: string)
    requires Reads(text, value, "}" + rest)
    ensures ReadsFields(Quoted(name) + (": " + text), [(name, value)], rest)
  {
    FieldText(name, text);
    SpaceBeforeValue(text);
    AfterValue("}", rest);
  }

  lemma NextField(field: (string, Json), text: string, more: string, fields: seq<(string, Json)>, rest: string)
    requires Reads(text, field.1, ", " + more) && fields != [] && field == fields[0] &&
             ReadsFields(more, fields[1..], rest)
    ensures ReadsFields(Quoted(field.0) + (": " + text), fields, rest)
  {
    FieldText(field.0, text);
    SpaceBeforeValue(text);
    AfterValue(", ", more);
    SpaceBeforeFields(more);
    assert ("," + (" " + more))[1..] == " " + more;
    assert [(field.0, field.1)] + fields[1..] == fields;
  }

  lemma {:induction false} AfterValue(mark: string, rest: string)
    requires mark != "" && !IsBlank(mark[0])
    ensures SkipSpace(mark + rest) == mark + rest && (mark + rest)[0] == mark[0] &&
            (mark + rest)[1..] == mark[1..] + rest
  {
  }

  lemma {:induction false} FieldText(name: string, text: string)
    ensures var s := Quoted(name) + (": " + text);
            && s != "" && s[0] == '"' && SkipSpace(s) == s && ReadString(s[1..]) == Some((name, ": " + text))
            && SkipSpace(": " + text) == ": " + text && (": " + text)[1..] == " " + text
  {
    FieldName(name, ": " + text);
    AfterValue(": ", text);
  }

  lemma FieldName(name: string, rest: string)
    ensures var s := Quoted(name) + rest;
            s != "" && s[0] == '"' && SkipSpace(s) == s && ReadString(s[1..]) == Some((name, rest))
  {
    var s := Quoted(name) + rest;
    assert s[1..] == Escape(name) + "\"" + rest;
    StringRoundTrip(name, rest);
  }

  /** Reading back what was written gives the value. */
  lemma {:induction false} LoadsDumps(j: Json)
    requires WellFormed(j)
    ensures Loads(Dumps(j)) == Some(j)
  {
    ValueRoundTrip(j, "");
    assert Dumps(j) + "" == Dumps(j);
  }

  /** Anything but space after a value is refused. */
  lemma {:induction false} LoadsRefusesTail(j: Json, rest: string)
    requires WellFormed(j) && EndsNumber(rest)
    ensures Loads(Dumps(j) + rest) == if SkipSpace(rest) == "" then Some(j) else None
  {
    ValueRoundTrip(j, rest);
  }

  // ----- one line of printable text ---------------------------------------------------------------

  predicate Printable(s: string) {
    forall i :: 0 <= i < |s| ==> ' ' <= s[i] <= '~'
  }

  lemma EscapePrintableChar(c: char)
    ensures Printable(EscapeChar(c))
  {
  }

  lemma {:induction false} EscapePrintable(s: string)
    ensures Printable(Escape(s))
    decreases |s|
  {
    if s != "" {
      EscapePrintableChar(s[0]);
      EscapePrintable(s[1..]);
    }
  }

  lemma {:induction false} DumpsPrintable(j: Json)
    requires WellFormed(j)
    ensures Printable(Dumps(j))
    decreases j, 1
  {
    match j
    case Str(s) => EscapePrintable(s);
    case Arr(items) => if items != [] { ItemsPrintable(items); }
    case Obj(fields) => if fields != [] { FieldsPrintable(fields); }
    case _ =>
  }

  lemma {:induction false} ItemsPrintable(items: seq<Json>)
    requires items != [] && forall i :: 0 <= i < |items| ==> WellFormed(items[i])
    ensures Printable(DumpItems(items))
    decreases items, 0
  {
    DumpsPrintable(items[0]);
    if |items| > 1 {
      ItemsPrintable(items[1..]);
    }
  }

  lemma {:induction false} FieldsPrintable(fields: seq<(string, Json)>)
    requires fields != [] && forall i :: 0 <= i < |fields| ==> WellFormed(fields[i].1)
    ensures Printable(DumpFields(fields))
    decreases fields, 0
  {
    assert fields[0].1 < fields[0];
    EscapePrintable(fields[0].0);
    DumpsPrintable(fields[0].1);
    if |fields| > 1 {
      FieldsPrintable(fields[1..]);
    }
  }

  // ----- whatever is read is well formed ----------------------------------------------------------

  lemma {:induction false} RunIsNumber(s: string)
    ensures forall i :: 0 <= i < NumberRun(s) ==> IsNumberChar(s[i])
    decreases |s|
  {
    if s != "" && IsNumberChar(s[0]) {
      RunIsNumber(s[1..]);
    }
  }

  lemma {:induction false} ReadWellFormed(s: string)
    ensures ReadValue(s).Some? ==> WellFormed(ReadValue(s).value.0)
    decreases |s|, 1
  {
    var t := SkipSpace(s);
    if t != "" {
      if t[0] == '[' {
        ReadItemsWellFormed(t[1..]);
      } else if t[0] == '{' {
        ReadFieldsWellFormed(t[1..]);
      } else if '0' <= t[0] <= '9' || t[0] == '-' {
        RunIsNumber(t);
      }
    }
  }

  lemma {:induction false} ReadItemsWellFormed(s: string)
    ensures ReadItems(s).Some? ==> forall i :: 0 <= i < |ReadItems(s).value.0| ==> WellFormed(ReadItems(s).value.0[i])
    decreases |s|, 2
  {
    var v := ReadValue(s);
    ReadWellFormed(s);
    if v.Some? {
      var u := SkipSpace(v.value.1);
      if u != "" && u[0] == ',' {
        ReadItemsWellFormed(u[1..]);
      }
    }
  }

  lemma {:induction false} ReadFieldsWellFormed(s: string)
    ensures ReadFields(s).Some? ==> forall i :: 0 <= i < |ReadFields(s).value.0| ==>
            WellFormed(ReadFields(s).value.0[i].1)
    decreases |s|, 2
  {
    var t := SkipSpace(s);
    if ReadFields(s).Some? {
      var u := SkipSpace(ReadString(t[1..]).value.1);
      ReadWellFormed(u[1..]);
      var w := SkipSpace(ReadValue(u[1..]).value.1);
      if w[0] == ',' {
        ReadFieldsWellFormed(w[1..]);
      }
    }
  }

  lemma LoadsWellFormed(s: string)
    ensures Loads(s).Some? ==> WellFormed(Loads(s).value)
    ensures Loads(s).Some? && Loads(s).value.Obj? ==>
              forall i :: 0 <= i < |Loads(s).value.fields| ==> WellFormed(Loads(s).value.fields[i].1)
  {
    ReadWellFormed(s);
  }
}
