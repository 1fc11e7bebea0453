/** Stock datatypes and string helpers used by several modules. */
module Common {

  datatype Option<+T> = None | Some(value: T)

  datatype Result<+T, +E> = Ok(value: T) | Err(error: E)

  /** `licenses.status`. */
  datatype LicenseStatus = Active | Delinquent | Disabled | Revoked

  /** One column after a flush: a session writes it only when its copy differs from what was loaded. */
  function Column<T(==)>(durable: T, loaded: T, current: T): T {
    if current == loaded then durable else current
  }

  // ----- str.strip and friends, on one-byte white space ------------------------------------------

  predicate IsSpace(c: char) {
    c == ' ' || 9 <= c as int <= 13 || 28 <= c as int <= 31 || c as int == 133 || c as int == 160
  }

  function TrimLeft(s: string): string {
    if s != "" && IsSpace(s[0]) then TrimLeft(s[1..]) else s
  }

  function TrimRight(s: string, drop: char -> bool): string {
    if s != "" && drop(s[|s| - 1]) then TrimRight(s[..|s| - 1], drop) else s
  }

  function Strip(s: string): string {
    TrimRight(TrimLeft(s), IsSpace)
  }

  predicate AllOf(s: string, drop: char -> bool) {
    forall i :: 0 <= i < |s| ==> drop(s[i])
  }

  /** Trimming on the right cuts a tail of dropped characters, and as long a one as there is. */
  lemma {:induction false} TrimRightIs(s: string, drop: char -> bool)
    ensures var t := TrimRight(s, drop);
            t <= s && AllOf(s[|t|..], drop) && (t != "" ==> !drop(t[|t| - 1]))
    decreases |s|
  {
    if s != "" && drop(s[|s| - 1]) {
      TrimRightIs(s[..|s| - 1], drop);
      var t := TrimRight(s, drop);
      assert s[|t|..] == s[..|s| - 1][|t|..] + [s[|s| - 1]];
    }
  }

  lemma {:induction false} TrimLeftIs(s: string)
    ensures var t := TrimLeft(s);
            |t| <= |s| && s == s[..|s| - |t|] + t && AllOf(s[..|s| - |t|], IsSpace) && (t != "" ==> !IsSpace(t[0]))
    decreases |s|
  {
    if s != "" && IsSpace(s[0]) {
      TrimLeftIs(s[1..]);
      var t := TrimLeft(s);
      assert s[..|s| - |t|] == [s[0]] + s[1..][..|s| - 1 - |t|];
    }
  }

  /** A text is white space, its stripped part, and white space; the stripped part starts and ends with none. */
  lemma {:induction false} StripIs(s: string) returns (left: string, right: string)
    ensures s == left + Strip(s) + right && AllOf(left, IsSpace) && AllOf(right, IsSpace)
    ensures Strip(s) != "" ==> !IsSpace(Strip(s)[0]) && !IsSpace(Strip(s)[|Strip(s)| - 1])
  {
    var t := TrimLeft(s);
    TrimLeftIs(s);
    TrimRightIs(t, IsSpace);
    left, right := s[..|s| - |t|], t[|Strip(s)|..];
    assert t == Strip(s) + right;
  }
}
