/** Written forms that other programs read: base64url, UTF-8, timestamps, JSON and cursor tokens, on examples
    (app/pagination.py, app/backup.py). */
module KnownTexts {
  import opened Common
  import B = Base64Url
  import T = IsoTime
  import J = JsonText
  import P = Pagination
  import U = Utf8

  lemma {:induction false} KnownPadding()
    ensures B.Padded([102, 111, 111]) == "Zm9v" && B.Padded([102, 111]) == "Zm8=" && B.Padded([102]) == "Zg=="
  {
  }

  lemma {:induction false} KnownSymbols()
    ensures B.Padded([0xfb, 0xef, 0xff]) == "--__"
  {
  }

  lemma {:induction false} KnownUtf8()
    ensures U.EncodeChar('a') == [97] && U.EncodeChar('\U{e9}') == [0xc3, 0xa9]
    ensures U.EncodeChar('\U{20ac}') == [0xe2, 0x82, 0xac] && U.EncodeChar('\U{1f600}') == [0xf0, 0x9f, 0x98, 0x80]
  {
  }

  /** Every fourth year but three of four centuries has a 29 February. */
  lemma {:induction false} KnownCalendar()
    ensures T.DaysIn(2024, 2) == 29 && T.DaysIn(2023, 2) == 28 && T.DaysIn(1900, 2) == 28 && T.DaysIn(2000, 2) == 29
    ensures forall y, m :: 1 <= m <= 12 && m != 2 ==> T.DaysIn(y, m) == if m in {4, 6, 9, 11} then 30 else 31
  {
  }

  lemma {:induction false} KnownYear()
    ensures T.Digits(2024, 4) == "2024"
  {
  }

  lemma {:induction false} KnownDay()
    ensures T.Digits(2, 2) == "02" && T.Digits(29, 2) == "29" && T.Digits(0, 2) == "00"
  {
  }

  lemma {:induction false} KnownTime()
    ensures T.Digits(7, 2) == "07" && T.Digits(5, 2) == "05"
  {
  }

  lemma {:induction false} KnownMicros()
    ensures T.Digits(120, 6) == "000120"
  {
  }

  /** Date and time with a `T` between, microseconds only when there are any. */
  lemma {:induction false} KnownTimestamps()
    ensures T.Iso(T.DateTime(2024, 2, 29, 7, 5, 0, 0)) ==
            "2024" + "-" + "02" + "-" + "29" + "T" + "07" + ":" + "05" + ":" + "00" + ""
  {
    KnownYear();
    KnownDay();
    KnownTime();
  }

  lemma {:induction false} KnownFraction()
    ensures T.Iso(T.DateTime(2024, 2, 29, 7, 5, 0, 120)) ==
            "2024" + "-" + "02" + "-" + "29" + "T" + "07" + ":" + "05" + ":" + "00" + ("." + "000120")
  {
    KnownYear();
    KnownDay();
    KnownTime();
    KnownMicros();
  }

  lemma {:induction false} KnownWords()
    ensures J.Dumps(J.Bool(true)) == "true" && J.Dumps(J.Bool(false)) == "false" && J.Dumps(J.Null) == "null"
    ensures J.Dumps(J.Num("-1.5")) == "-1.5" && J.Dumps(J.Arr([])) == "[]" && J.Dumps(J.Obj([])) == "{}"
  {
  }

  lemma {:induction false} KnownItems()
    ensures J.Dumps(J.Arr([J.Num("1"), J.Null])) == "[1, null]"
  {
    var items := [J.Num("1"), J.Null];
    assert items[1..] == [J.Null];
    assert J.DumpItems([J.Null]) == "null]";
  }

  lemma {:induction false} KnownFields()
    ensures J.Dumps(J.Obj([("a", J.Num("1")), ("b", J.Num("2"))])) == "{\"a\": 1, \"b\": 2}"
  {
    var fields := [("a", J.Num("1")), ("b", J.Num("2"))];
    assert J.Escape("a") == "a" && J.Escape("b") == "b" && fields[1..] == [fields[1]];
    assert J.DumpFields([fields[1]]) == "\"b\": 2}";
  }

  lemma {:induction false} KnownEscapes()
    ensures J.EscapeChar('x') == "x" && J.EscapeChar('"') == "\\\"" && J.EscapeChar('\\') == "\\\\"
    ensures J.EscapeChar('\n') == "\\n"
  {
  }

  lemma {:induction false} KnownWideEscapes()
    ensures J.EscapeChar('\U{e9}') == "\\u00e9"
  {
  }

  lemma {:induction false} KnownHex()
    ensures J.Hex4(0xd83d) == "d83d" && J.Hex4(0xde00) == "de00"
  {
  }

  lemma {:induction false} KnownPairEscape()
    ensures J.EscapeChar('\U{1f600}') == "\\u" + "d83d" + ("\\u" + "de00")
  {
    KnownHex();
  }

  /** A string is its characters' escapes in a pair of quotes. */
  lemma {:induction false} EscapesInOrder(c: char, rest: string)
    ensures J.Dumps(J.Str("")) == "\"\""
    ensures J.Dumps(J.Str([c] + rest)) == "\"" + (J.EscapeChar(c) + J.Escape(rest)) + "\""
  {
    assert ([c] + rest)[1..] == rest;
  }

  /** A cursor token is the base64url of "timestamp|id", its padding dropped. */
  lemma {:induction false} TokenIs(k: P.Key)
    requires P.ValidKey(k)
    ensures var token := P.EncodeCursor(k);
            && token + B.PadFor(|token|) == B.Padded(U.Encode(T.Iso(k.createdAt) + "|" + k.id))
            && (forall i :: 0 <= i < |token| ==> token[i] != '=')
  {
    var bytes := U.Encode(T.Iso(k.createdAt) + "|" + k.id);
    B.StrippedRoundTrip(bytes);
    B.TextSymbols(B.Split(bytes));
    B.StripExact(B.Text(B.Split(bytes)), B.PadFor(|B.Split(bytes)|));
  }
}
