/** UTF-8 as `str.encode()` writes it and `bytes.decode("utf-8")` reads it. */
module Utf8 {
  import opened Common

  type Byte = b: int | 0 <= b < 256

  function EncodeChar(c: char): seq<Byte> {
    var n := c as int;
    if n < 0x80 then [n]
    else if n < 0x800 then [0xC0 + n / 64, 0x80 + n % 64]
    else if n < 0x1_0000 then [0xE0 + n / 4096, 0x80 + n / 64 % 64, 0x80 + n % 64]
    else [0xF0 + n / 262144, 0x80 + n / 4096 % 64, 0x80 + n / 64 % 64, 0x80 + n % 64]
  }

  function Encode(s: string): seq<Byte> {
    if s == "" then [] else EncodeChar(s[0]) + Encode(s[1..])
  }

  predicate Continues(b: int) {
    0x80 <= b < 0xC0
  }

  predicate IsScalar(n: int) {
    0 <= n < 0xD800 || 0xE000 <= n < 0x11_0000
  }

  function Join2(a: int, b: int): int {
    (a - 0xC0) * 64 + (b - 0x80)
  }

  function Join3(a: int, b: int, c: int): int {
    (a - 0xE0) * 4096 + (b - 0x80) * 64 + (c - 0x80)
  }

  function Join4(a: int, b: int, c: int, d: int): int {
    (a - 0xF0) * 262144 + (b - 0x80) * 4096 + (c - 0x80) * 64 + (d - 0x80)
  }

  /** The first character and the number of bytes it takes; None on a malformed start. */
  function DecodeChar(bs: seq<Byte>): Option<(char, nat)>
    requires bs != []
  {
    var a := bs[0];
    if a < 0x80 then Some((a as char, 1))
    else if 0xC2 <= a < 0xE0 && |bs| >= 2 && Continues(bs[1]) then Some((Join2(a, bs[1]) as char, 2))
    else if 0xE0 <= a < 0xF0 && |bs| >= 3 && Continues(bs[1]) && Continues(bs[2]) then
      var n := Join3(a, bs[1], bs[2]);
      if n >= 0x800 && IsScalar(n) then Some((n as char, 3)) else None
    else if 0xF0 <= a < 0xF5 && |bs| >= 4 && Continues(bs[1]) && Continues(bs[2]) && Continues(bs[3]) then
      var n := Join4(a, bs[1], bs[2], bs[3]);
      if n >= 0x1_0000 && IsScalar(n) then Some((n as char, 4)) else None
    else None
  }

  function Decode(bs: seq<Byte>): Option<string>
    decreases |bs|
  {
    if bs == [] then Some("")
    else
      var first := DecodeChar(bs);
      if first.None? || first.value.1 > |bs| || first.value.1 == 0 then None
      else
        var rest := Decode(bs[first.value.1..]);
        if rest.None? then None else Some([first.value.0] + rest.value)
  }

  lemma Joins(n: int)
    requires 0 <= n
    ensures Join2(0xC0 + n / 64, 0x80 + n % 64) == n
    ensures Join3(0xE0 + n / 4096, 0x80 + n / 64 % 64, 0x80 + n % 64) == n
    ensures Join4(0xF0 + n / 262144, 0x80 + n / 4096 % 64, 0x80 + n / 64 % 64, 0x80 + n % 64) == n
  {
    assert n / 64 / 64 == n / 4096 && n / 4096 / 64 == n / 262144;
  }

  lemma CharRoundTrip(c: char, rest: seq<Byte>)
    ensures EncodeChar(c) != [] && DecodeChar(EncodeChar(c) + rest) == Some((c, |EncodeChar(c)|))
  {
    Joins(c as int);
  }

  lemma {:induction false} RoundTrip(s: string)
    ensures Decode(Encode(s)) == Some(s) && (s != "" ==> Encode(s) != [])
    decreases |s|
  {
    if s != "" {
      CharRoundTrip(s[0], Encode(s[1..]));
      RoundTrip(s[1..]);
      assert Encode(s)[|EncodeChar(s[0])|..] == Encode(s[1..]);
      assert [s[0]] + s[1..] == s;
    }
  }

  lemma Parts(a: int, b: int, c: int, d: int)
    requires 0x80 <= b < 0xC0 && 0x80 <= c < 0xC0 && 0x80 <= d < 0xC0
    ensures 0xC0 + Join2(a, b) / 64 == a && 0x80 + Join2(a, b) % 64 == b
    ensures var n := Join3(a, b, c); 0xE0 + n / 4096 == a && 0x80 + n / 64 % 64 == b && 0x80 + n % 64 == c
    ensures var n := Join4(a, b, c, d);
            0xF0 + n / 262144 == a && 0x80 + n / 4096 % 64 == b && 0x80 + n / 64 % 64 == c && 0x80 + n % 64 == d
  {
    var m := Join3(a, b, c);
    assert m / 64 == (a - 0xE0) * 64 + (b - 0x80);
    var n := Join4(a, b, c, d);
    assert n / 64 == (a - 0xF0) * 4096 + (b - 0x80) * 64 + (c - 0x80);
    assert n / 4096 == (a - 0xF0) * 64 + (b - 0x80);
  }

  lemma CharIsCanonical(bs: seq<Byte>)
    requires bs != [] && DecodeChar(bs).Some?
    ensures var (c, n) := DecodeChar(bs).value; 0 < n <= |bs| && EncodeChar(c) == bs[..n]
  {
    var n := DecodeChar(bs).value.1;
    if n == 2 {
      PairIsCanonical(bs);
    } else if n > 2 {
      LongIsCanonical(bs);
    }
  }

  lemma PairIsCanonical(bs: seq<Byte>)
    requires bs != [] && DecodeChar(bs).Some? && DecodeChar(bs).value.1 == 2
    ensures 2 <= |bs| && EncodeChar(DecodeChar(bs).value.0) == bs[..2]
  {
    Parts(bs[0], bs[1], 0x80, 0x80);
  }

  lemma LongIsCanonical(bs: seq<Byte>)
    requires bs != [] && DecodeChar(bs).Some? && DecodeChar(bs).value.1 > 2
    ensures var (c, n) := DecodeChar(bs).value; n <= |bs| && EncodeChar(c) == bs[..n]
  {
    Parts(bs[0], bs[1], bs[2], if |bs| >= 4 && DecodeChar(bs).value.1 == 4 then bs[3] else 0x80);
  }

  /** Bytes that are accepted at all are the encoding of what they are read as: nothing overlong, no surrogates. */
  lemma {:induction false} DecodeIsCanonical(bs: seq<Byte>)
    requires Decode(bs).Some?
    ensures Encode(Decode(bs).value) == bs
    decreases |bs|
  {
    if bs != [] {
      DecodeFirst(bs);
      CharIsCanonical(bs);
      var (c, n) := DecodeChar(bs).value;
      DecodeIsCanonical(bs[n..]);
      EncodeFirst(bs, c, n, Decode(bs[n..]).value);
    }
  }

  lemma {:induction false} DecodeFirst(bs: seq<Byte>)
    requires bs != [] && Decode(bs).Some?
    ensures DecodeChar(bs).Some? && 0 < DecodeChar(bs).value.1 <= |bs|
    ensures var (c, n) := DecodeChar(bs).value;
            Decode(bs[n..]).Some? && Decode(bs).value == [c] + Decode(bs[n..]).value
  {
  }

  lemma {:induction false} EncodeFirst(bs: seq<Byte>, c: char, n: nat, rest: string)
    requires n <= |bs| && EncodeChar(c) == bs[..n] && Encode(rest) == bs[n..]
    ensures Encode([c] + rest) == bs
  {
    assert ([c] + rest)[1..] == rest;
    assert bs == bs[..n] + bs[n..];
  }
}

/** URL-safe base64 (section 5 of RFC 4648) as Python's `base64` module writes and leniently reads it. */
module Base64Url {
  import opened Common
  import opened Utf8

  type Sextet = v: int | 0 <= v < 64

  function Symbol(v: Sextet): char {
    if v < 26 then ('A' as int + v) as char
    else if v < 52 then ('a' as int + v - 26) as char
    else if v < 62 then ('0' as int + v - 52) as char
    else if v == 62 then '-' else '_'
  }

  /** Symbols of both alphabets are read; anything else is skipped by the reader. */
  function ValueOf(c: char): Option<Sextet> {
    if 'A' <= c <= 'Z' then Some(c as int - 'A' as int)
    else if 'a' <= c <= 'z' then Some(c as int - 'a' as int + 26)
    else if '0' <= c <= '9' then Some(c as int - '0' as int + 52)
    else if c == '-' || c == '+' then Some(62)
    else if c == '_' || c == '/' then Some(63)
    else None
  }

  /** The bits of the bytes in groups of six, the last group filled with zero bits. */
  function Split(bs: seq<Byte>): seq<Sextet> {
    if bs == [] then []
    else if |bs| == 1 then [bs[0] / 4, bs[0] % 4 * 16]
    else if |bs| == 2 then [bs[0] / 4, bs[0] % 4 * 16 + bs[1] / 16, bs[1] % 16 * 4]
    else [bs[0] / 4, bs[0] % 4 * 16 + bs[1] / 16, bs[1] % 16 * 4 + bs[2] / 64, bs[2] % 64] + Split(bs[3..])
  }

  function Text(vs: seq<Sextet>): string {
    if vs == [] then "" else [Symbol(vs[0])] + Text(vs[1..])
  }

  /** `urlsafe_b64encode`: symbols padded to whole groups of four. */
  function Padded(bs: seq<Byte>): string {
    Text(Split(bs)) + PadFor(|Split(bs)|)
  }

  function StripPad(s: string): string {
    if s != "" && s[|s| - 1] == '=' then StripPad(s[..|s| - 1]) else s
  }

  /** The padding that completes `n` symbols to whole groups of four. */
  function PadFor(n: nat): string {
    seq((4 - n % 4) % 4, _ => '=')
  }

  function Emit(b: int, rest: Option<seq<Byte>>): Option<seq<Byte>>
    requires 0 <= b < 256
  {
    if rest.None? then None else Some([b] + rest.value)
  }

  /** How many bits the current group has left over. */
  predicate LeftOver(quad: nat, left: nat) {
    quad < 4 && left < (if quad == 2 then 16 else if quad == 3 then 4 else 64)
  }

  /** The reader's loop: `quad` symbols of the current group are read, `left` holds their unused low
      bits, `pads` counts padding characters seen since. None when the input ends inside a group. */
  function Read(s: string, quad: nat, left: nat, pads: nat): Option<seq<Byte>>
    requires LeftOver(quad, left)
  {
    if s == "" then (if quad == 0 then Some([]) else None)
    else if s[0] == '=' then
      if quad >= 2 && quad + pads + 1 >= 4 then Some([])
      else Read(s[1..], quad, left, if quad >= 2 then pads + 1 else pads)
    else
      var v := ValueOf(s[0]);
      if v.None? then Read(s[1..], quad, left, pads)
      else if quad == 0 then Read(s[1..], 1, v.value, 0)
      else if quad == 1 then Emit(left * 4 + v.value / 16, Read(s[1..], 2, v.value % 16, 0))
      else if quad == 2 then Emit(left * 16 + v.value / 4, Read(s[1..], 3, v.value % 4, 0))
      else Emit(left * 64 + v.value, Read(s[1..], 0, 0, 0))
  }

  predicate IsAscii(s: string) {
    forall i :: 0 <= i < |s| ==> s[i] as int < 128
  }

  function Decode(s: string): Option<seq<Byte>> {
    if IsAscii(s) then Read(s, 0, 0, 0) else None
  }

  /** The reader's loop on symbol values alone, ended by just enough padding. */
  function Join(vs: seq<Sextet>, quad: nat, left: nat): Option<seq<Byte>>
    requires LeftOver(quad, left)
  {
    if vs == [] then (if quad == 1 then None else Some([]))
    else if quad == 0 then Join(vs[1..], 1, vs[0])
    else if quad == 1 then Emit(left * 4 + vs[0] / 16, Join(vs[1..], 2, vs[0] % 16))
    else if quad == 2 then Emit(left * 16 + vs[0] / 4, Join(vs[1..], 3, vs[0] % 4))
    else Emit(left * 64 + vs[0], Join(vs[1..], 0, 0))
  }

  predicate IsSymbol(c: char) {
    c as int < 128 && c != '='
  }

  lemma SymbolValue(v: Sextet)
    ensures ValueOf(Symbol(v)) == Some(v) && IsSymbol(Symbol(v))
  {
  }

  lemma {:induction false} TextSymbols(vs: seq<Sextet>)
    ensures |Text(vs)| == |vs| && forall i :: 0 <= i < |vs| ==> IsSymbol(Text(vs)[i])
    decreases |vs|
  {
    if vs != [] {
      SymbolValue(vs[0]);
      TextSymbols(vs[1..]);
    }
  }

  lemma {:induction false} ReadPad(quad: nat, left: nat)
    requires LeftOver(quad, left) && quad != 1
    ensures Read(PadFor(quad), quad, left, 0) == Some([])
  {
    if quad == 2 {
      assert PadFor(quad) == "==" && "=="[1..] == "=";
      assert Read("=", 2, left, 1) == Some([]);
    } else if quad == 3 {
      assert PadFor(quad) == "=";
    } else {
      assert PadFor(quad) == "";
    }
  }

  /** The bits of a symbol read at `quad` that its byte does not take. */
  function Kept(v: Sextet, quad: nat): nat
    requires quad < 4
    ensures LeftOver((quad + 1) % 4, Kept(v, quad))
  {
    if quad == 0 then v else if quad == 1 then v % 16 else if quad == 2 then v % 4 else 0
  }

  /** What a symbol read at `quad` makes of what the rest of the input gives. */
  function Moved(v: Sextet, quad: nat, left: nat, rest: Option<seq<Byte>>): Option<seq<Byte>>
    requires LeftOver(quad, left)
  {
    if quad == 0 then rest
    else if quad == 1 then Emit(left * 4 + v / 16, rest)
    else if quad == 2 then Emit(left * 16 + v / 4, rest)
    else Emit(left * 64 + v, rest)
  }

  /** One symbol in front of `rest` moves the reader on by one place in its group. */
  lemma {:induction false} ReadSymbol(v: Sextet, rest: string, quad: nat, left: nat)
    requires LeftOver(quad, left)
    ensures Read([Symbol(v)] + rest, quad, left, 0) ==
            Moved(v, quad, left, Read(rest, (quad + 1) % 4, Kept(v, quad), 0))
  {
    SymbolValue(v);
    assert ([Symbol(v)] + rest)[1..] == rest;
  }

  lemma {:induction false} JoinSymbol(v: Sextet, rest: seq<Sextet>, quad: nat, left: nat)
    requires LeftOver(quad, left)
    ensures Join([v] + rest, quad, left) == Moved(v, quad, left, Join(rest, (quad + 1) % 4, Kept(v, quad)))
  {
    assert ([v] + rest)[1..] == rest;
  }

  lemma {:induction false} ReadText(vs: seq<Sextet>, quad: nat, left: nat, pad: string)
    requires LeftOver(quad, left) && (quad + |vs|) % 4 != 1 && pad == PadFor((quad + |vs|) % 4)
    ensures Read(Text(vs) + pad, quad, left, 0) == Join(vs, quad, left)
    decreases |vs|
  {
    if vs == [] {
      assert Text(vs) + pad == pad;
      ReadPad(quad, left);
    } else {
      var v, rest := vs[0], vs[1..];
      assert Text(vs) + pad == [Symbol(v)] + (Text(rest) + pad) && vs == [v] + rest;
      ReadText(rest, (quad + 1) % 4, Kept(v, quad), pad);
      ReadSymbol(v, Text(rest) + pad, quad, left);
      JoinSymbol(v, rest, quad, left);
    }
  }

  lemma {:induction false} JoinGroup(a: Sextet, b: Sextet, c: Sextet, d: Sextet, rest: seq<Sextet>)
    ensures Join([a, b, c, d] + rest, 0, 0) ==
            Emit(a * 4 + b / 16, Emit(b % 16 * 16 + c / 4, Emit(c % 4 * 64 + d, Join(rest, 0, 0))))
  {
    var s0, s1, s2, s3 := [a, b, c, d] + rest, [b, c, d] + rest, [c, d] + rest, [d] + rest;
    assert s0[1..] == s1 && s1[1..] == s2 && s2[1..] == s3 && s3[1..] == rest;
    assert Join(s2, 2, b % 16) == Emit(b % 16 * 16 + c / 4, Join(s3, 3, c % 4));
    assert Join(s1, 1, a) == Emit(a * 4 + b / 16, Join(s2, 2, b % 16));
  }

  lemma JoinTail(a: Sextet, b: Sextet, c: Sextet)
    ensures Join([a, b], 0, 0) == Some([a * 4 + b / 16])
    ensures Join([a, b, c], 0, 0) == Some([a * 4 + b / 16, b % 16 * 16 + c / 4])
  {
    assert [a, b][1..] == [b] && [b][1..] == [];
    assert [a * 4 + b / 16] + [] == [a * 4 + b / 16];
    assert [a, b, c][1..] == [b, c] && [b, c][1..] == [c] && [c][1..] == [];
    assert Join([b], 1, a) == Emit(a * 4 + b / 16, Join([], 2, b % 16));
    assert Join([c], 2, b % 16) == Emit(b % 16 * 16 + c / 4, Join([], 3, c % 4));
    assert Join([b, c], 1, a) == Emit(a * 4 + b / 16, Join([c], 2, b % 16));
    assert [a * 4 + b / 16] + ([b % 16 * 16 + c / 4] + []) == [a * 4 + b / 16, b % 16 * 16 + c / 4];
  }

  lemma Regroup(x: Byte, y: Byte, z: Byte)
    ensures var b, c := x % 4 * 16 + y / 16, y % 16 * 4 + z / 64;
            && x / 4 * 4 + b / 16 == x && b % 16 * 16 + c / 4 == y && c % 4 * 64 + z % 64 == z
  {
  }

  lemma {:induction false} JoinThree(x: Byte, y: Byte, z: Byte, rest: seq<Sextet>, bytes: seq<Byte>)
    requires Join(rest, 0, 0) == Some(bytes)
    ensures Join([x / 4, x % 4 * 16 + y / 16, y % 16 * 4 + z / 64, z % 64] + rest, 0, 0) == Some([x, y, z] + bytes)
  {
    Regroup(x, y, z);
    JoinGroup(x / 4, x % 4 * 16 + y / 16, y % 16 * 4 + z / 64, z % 64, rest);
    assert [x] + ([y] + ([z] + bytes)) == [x, y, z] + bytes;
  }

  lemma JoinShort(x: Byte, y: Byte)
    ensures Join([x / 4, x % 4 * 16], 0, 0) == Some([x])
    ensures Join([x / 4, x % 4 * 16 + y / 16, y % 16 * 4], 0, 0) == Some([x, y])
  {
    Regroup(x, 0, 0);
    JoinTail(x / 4, x % 4 * 16, 0);
    Regroup(x, y, 0);
    JoinTail(x / 4, x % 4 * 16 + y / 16, y % 16 * 4);
  }

  lemma {:induction false} JoinSplitGroup(bs: seq<Byte>)
    requires |bs| >= 3 && Join(Split(bs[3..]), 0, 0) == Some(bs[3..]) && |Split(bs[3..])| % 4 != 1
    ensures Join(Split(bs), 0, 0) == Some(bs) && |Split(bs)| % 4 != 1
  {
    JoinThree(bs[0], bs[1], bs[2], Split(bs[3..]), bs[3..]);
    assert bs == [bs[0], bs[1], bs[2]] + bs[3..];
  }

  lemma {:induction false} JoinSplitShort(bs: seq<Byte>)
    requires |bs| < 3
    ensures Join(Split(bs), 0, 0) == Some(bs) && |Split(bs)| % 4 != 1
  {
    if |bs| == 2 {
      JoinShort(bs[0], bs[1]);
      assert bs == [bs[0], bs[1]];
    } else if |bs| == 1 {
      JoinShort(bs[0], 0);
      assert bs == [bs[0]];
    }
  }

  lemma {:induction false} JoinSplit(bs: seq<Byte>)
    ensures Join(Split(bs), 0, 0) == Some(bs) && |Split(bs)| % 4 != 1
    decreases |bs|
  {
    if |bs| >= 3 {
      JoinSplit(bs[3..]);
      JoinSplitGroup(bs);
    } else {
      JoinSplitShort(bs);
    }
  }

  lemma {:induction false} StripExact(body: string, pad: string)
    requires body == "" || body[|body| - 1] != '='
    requires forall i :: 0 <= i < |pad| ==> pad[i] == '='
    ensures StripPad(body + pad) == body
    decreases |pad|
  {
    if pad == "" {
      assert body + pad == body;
    } else {
      var s := body + pad;
      assert s[..|s| - 1] == body + pad[..|pad| - 1];
      StripExact(body, pad[..|pad| - 1]);
    }
  }

  /** Dropping the padding and restoring it from the length alone loses nothing, and the reader inverts
      the result. */
  lemma StrippedRoundTrip(bs: seq<Byte>)
    ensures var t := StripPad(Padded(bs));
            t + PadFor(|t|) == Padded(bs) && Decode(t + PadFor(|t|)) == Some(bs) && (bs != [] ==> t != "")
  {
    var vs := Split(bs);
    TextSymbols(vs);
    StripExact(Text(vs), PadFor(|vs|));
    JoinSplit(bs);
    assert PadFor(|vs|) == PadFor(|vs| % 4);
    ReadText(vs, 0, 0, PadFor(|vs|));
  }
}

/** `datetime.isoformat()` of a naive timestamp, and its inverse on that form. */
module IsoTime {
  import opened Common

  datatype DateTime = DateTime(year: int, month: int, day: int, hour: int, minute: int, second: int, micro: int)

  predicate IsLeap(year: int) {
    year % 4 == 0 && (year % 100 != 0 || year % 400 == 0)
  }

  function DaysIn(year: int, month: int): int {
    if month == 2 then (if IsLeap(year) then 29 else 28)
    else if month in {4, 6, 9, 11} then 30 else 31
  }

  predicate Valid(t: DateTime) {
    && 1 <= t.year <= 9999 && 1 <= t.month <= 12 && 1 <= t.day <= DaysIn(t.year, t.month)
    && 0 <= t.hour < 24 && 0 <= t.minute < 60 && 0 <= t.second < 60 && 0 <= t.micro < 1_000_000
  }

  /** `n` as exactly `width` decimal digits. */
  function Digits(n: nat, width: nat): (s: string)
    ensures |s| == width
  {
    if width == 0 then "" else Digits(n / 10, width - 1) + [('0' as int + n % 10) as char]
  }

  function Number(s: string): Option<nat> {
    if s == "" then Some(0)
    else
      var high, c := Number(s[..|s| - 1]), s[|s| - 1];
      if high.None? || !('0' <= c <= '9') then None else Some(high.value * 10 + (c as int - '0' as int))
  }

  function Power10(k: nat): nat {
    if k == 0 then 1 else 10 * Power10(k - 1)
  }

  lemma {:induction false} NumberOfDigits(n: nat, width: nat)
    requires n < Power10(width)
    ensures Number(Digits(n, width)) == Some(n)
    decreases width
  {
    if width > 0 {
      NumberOfDigits(n / 10, width - 1);
      var s := Digits(n, width);
      assert s[..|s| - 1] == Digits(n / 10, width - 1);
    }
  }

  /** `n` zero-padded to the width of `template`. */
  function Field(n: nat, template: string): (s: string)
    ensures |s| == |template|
  {
    Digits(n, |template|)
  }

  lemma {:induction false} FieldValue(n: nat, template: string)
    requires n < Power10(|template|)
    ensures Number(Field(n, template)) == Some(n)
  {
    NumberOfDigits(n, |template|);
  }

  function Iso(t: DateTime): string
    requires Valid(t)
  {
    Field(t.year, "YYYY") + "-" + Field(t.month, "MM") + "-" + Field(t.day, "DD") + "T" +
    Field(t.hour, "HH") + ":" + Field(t.minute, "MM") + ":" + Field(t.second, "SS") +
    if t.micro == 0 then "" else "." + Field(t.micro, "ffffff")
  }

  function Parse(s: string): Option<DateTime> {
    if |s| != 19 && |s| != 26 then None
    else if s[4] != '-' || s[7] != '-' || s[10] != 'T' || s[13] != ':' || s[16] != ':' then None
    else if |s| == 26 && s[19] != '.' then None
    else
      ParseFields(s[0..4], s[5..7], s[8..10], s[11..13], s[14..16], s[17..19], if |s| == 26 then s[20..26] else "")
  }

  /** An empty `us` is the missing fraction, read as zero microseconds. */
  function ParseFields(y: string, mo: string, d: string, h: string, mi: string, sec: string,
                       us: string): Option<DateTime> {
    var date, time := (Number(y), Number(mo), Number(d)), (Number(h), Number(mi), Number(sec), Number(us));
    if date.0.None? || date.1.None? || date.2.None? then None
    else if time.0.None? || time.1.None? || time.2.None? || time.3.None? then None
    else
      var t := DateTime(date.0.value, date.1.value, date.2.value, time.0.value, time.1.value, time.2.value,
          time.3.value);
      if Valid(t) then Some(t) else None
  }

  lemma {:induction false} DigitsOfNumber(s: string)
    requires Number(s).Some?
    ensures Digits(Number(s).value, |s|) == s
    decreases |s|
  {
    if s != "" {
      DigitsOfNumber(s[..|s| - 1]);
      assert s == s[..|s| - 1] + [s[|s| - 1]];
    }
  }

  /** The fixed-width text put together again from its fields. */
  lemma Reassembled(s: string)
    requires |s| >= 19 && s[4] == '-' && s[7] == '-' && s[10] == 'T' && s[13] == ':' && s[16] == ':'
    ensures s[..19] == s[0..4] + "-" + s[5..7] + "-" + s[8..10] + "T" + s[11..13] + ":" + s[14..16] + ":" + s[17..19]
  {
    assert s[..10] == s[0..4] + "-" + s[5..7] + "-" + s[8..10];
    assert s[..16] == s[..10] + "T" + s[11..13] + ":" + s[14..16];
    assert s[..19] == s[..16] + ":" + s[17..19];
  }

  lemma {:induction false} FieldsOfNumbers(s: string)
    requires Parse(s).Some?
    ensures var t := Parse(s).value;
            && Valid(t) && |s| >= 19
            && Field(t.year, "YYYY") == s[0..4] && Field(t.month, "MM") == s[5..7] && Field(t.day, "DD") == s[8..10]
            && Field(t.hour, "HH") == s[11..13] && Field(t.minute, "MM") == s[14..16]
            && Field(t.second, "SS") == s[17..19]
            && (if |s| == 26 then Field(t.micro, "ffffff") == s[20..26] else |s| == 19 && t.micro == 0)
  {
    DigitsOfNumber(s[0..4]);
    DigitsOfNumber(s[5..7]);
    DigitsOfNumber(s[8..10]);
    DigitsOfNumber(s[11..13]);
    DigitsOfNumber(s[14..16]);
    DigitsOfNumber(s[17..19]);
    if |s| == 26 {
      DigitsOfNumber(s[20..26]);
    }
  }

  /** A text read as a timestamp is the form written for it, or that form with six zeros for no microseconds. */
  lemma {:induction false} ParsedIsWritten(s: string)
    requires Parse(s).Some?
    ensures var t := Parse(s).value;
            Valid(t) && (s == Iso(t) || (t.micro == 0 && s == Iso(t) + ".000000"))
  {
    var t := Parse(s).value;
    FieldsOfNumbers(s);
    Reassembled(s);
    if |s| == 26 {
      NoMicros();
      assert s == s[..19] + ("." + s[20..26]);
      assert t.micro == 0 ==> "." + s[20..26] == ".000000";
      assert t.micro == 0 ==> Iso(t) == s[..19] + "" == s[..19];
    } else {
      assert s == s[..19] + "";
    }
  }

  lemma {:induction false} NoMicros()
    ensures Digits(0, 6) == "000000"
  {
  }

  lemma PowersOfTen()
    ensures Power10(2) == 100 && Power10(4) == 10_000 && Power10(6) == 1_000_000
  {
    assert Power10(2) == 10 * (10 * Power10(0));
    assert Power10(4) == 10 * (10 * Power10(2));
    assert Power10(6) == 10 * (10 * Power10(4));
  }

  /** Where the fields of the fixed-width form sit. */
  lemma Fields(y: string, mo: string, d: string, h: string, mi: string, sec: string, us: string)
    requires |y| == 4 && |mo| == 2 && |d| == 2 && |h| == 2 && |mi| == 2 && |sec| == 2
    ensures var s := y + "-" + mo + "-" + d + "T" + h + ":" + mi + ":" + sec + us;
            && |s| == 19 + |us| && s[4] == '-' && s[7] == '-' && s[10] == 'T' && s[13] == ':' && s[16] == ':'
            && s[0..4] == y && s[5..7] == mo && s[8..10] == d && s[11..13] == h && s[14..16] == mi && s[17..19] == sec
            && s[19..] == us
  {
    var s := y + "-" + mo + "-" + d + "T" + h + ":" + mi + ":" + sec + us;
    assert s[0..4] == y && s[5..7] == mo;
    assert s[8..10] == d;
    assert s[11..13] == h;
    assert s[14..16] == mi;
    assert s[17..19] == sec;
  }

  function Fraction(t: DateTime): string
    requires Valid(t)
  {
    if t.micro == 0 then "" else Field(t.micro, "ffffff")
  }

  lemma {:induction false} FieldsParsed(t: DateTime, y: string, mo: string, d: string, h: string, mi: string,
                                        sec: string, us: string)
    requires Valid(t) && Number(y) == Some(t.year) && Number(mo) == Some(t.month) && Number(d) == Some(t.day)
    requires Number(h) == Some(t.hour) && Number(mi) == Some(t.minute) && Number(sec) == Some(t.second)
    requires Number(us) == Some(t.micro)
    ensures ParseFields(y, mo, d, h, mi, sec, us) == Some(t)
  {
  }

  lemma FieldsRoundTrip(t: DateTime)
    requires Valid(t)
    ensures ParseFields(Field(t.year, "YYYY"), Field(t.month, "MM"), Field(t.day, "DD"), Field(t.hour, "HH"),
                        Field(t.minute, "MM"), Field(t.second, "SS"), Fraction(t)) == Some(t)
  {
    PowersOfTen();
    FieldValue(t.year, "YYYY");
    FieldValue(t.month, "MM");
    FieldValue(t.day, "DD");
    FieldValue(t.hour, "HH");
    FieldValue(t.minute, "MM");
    FieldValue(t.second, "SS");
    FieldValue(t.micro, "ffffff");
    FieldsParsed(t, Field(t.year, "YYYY"), Field(t.month, "MM"), Field(t.day, "DD"), Field(t.hour, "HH"),
                 Field(t.minute, "MM"), Field(t.second, "SS"), Fraction(t));
  }

  lemma RoundTrip(t: DateTime)
    requires Valid(t)
    ensures Parse(Iso(t)) == Some(t)
  {
    FieldsRoundTrip(t);
    var us := if t.micro == 0 then "" else "." + Field(t.micro, "ffffff");
    Fields(Field(t.year, "YYYY"), Field(t.month, "MM"), Field(t.day, "DD"),
           Field(t.hour, "HH"), Field(t.minute, "MM"), Field(t.second, "SS"), us);
    if t.micro != 0 {
      assert Iso(t)[19] == us[0] && Iso(t)[20..26] == us[1..] == Fraction(t);
    }
  }

  predicate IsIsoChar(c: char) {
    '0' <= c <= '9' || c in {'-', 'T', ':', '.'}
  }

  lemma {:induction false} DigitsAreIso(n: nat, width: nat)
    ensures forall i :: 0 <= i < width ==> IsIsoChar(Digits(n, width)[i])
    decreases width
  {
    if width > 0 {
      DigitsAreIso(n / 10, width - 1);
    }
  }

  lemma FieldIsIso(n: nat, template: string)
    ensures forall i :: 0 <= i < |template| ==> IsIsoChar(Field(n, template)[i])
  {
    DigitsAreIso(n, |template|);
  }

  lemma IsoCharset(t: DateTime)
    requires Valid(t)
    ensures Iso(t) != "" && forall i :: 0 <= i < |Iso(t)| ==> IsIsoChar(Iso(t)[i])
  {
    FieldIsIso(t.year, "YYYY");
    FieldIsIso(t.month, "MM");
    FieldIsIso(t.day, "DD");
    FieldIsIso(t.hour, "HH");
    FieldIsIso(t.minute, "MM");
    FieldIsIso(t.second, "SS");
    FieldIsIso(t.micro, "ffffff");
  }
}
