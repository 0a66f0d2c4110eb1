/**
 * The JavaScript string and number built-ins the pages rely on, on
 * `seq<char>`: `Number.prototype.toString` on integers, `padStart`,
 * `slice`, `trim`, `toLowerCase` and `includes`.
 */
module JsText {

  function Min(a: int, b: int): (m: int)
    ensures m <= a && m <= b && (m == a || m == b)
  {
    if a <= b then a else b
  }

  // ---------------------------------------------------------------- digits

  predicate IsDigit(c: char) { '0' <= c <= '9' }

  predicate AllDigits(s: string) { forall i :: 0 <= i < |s| ==> IsDigit(s[i]) }

  function DigitChar(d: nat): (c: char)
    requires d < 10
    ensures IsDigit(c)
  {
    (48 + d) as char
  }

  function DigitValue(c: char): (d: nat)
    requires IsDigit(c)
    ensures d < 10 && DigitChar(d) == c
  {
    c as int - 48
  }

  /** The number a string of decimal digits denotes (the empty string denotes 0). */
  function DecimalValue(s: string): (v: nat)
    requires AllDigits(s)
  {
    if s == [] then 0 else DecimalValue(s[..|s| - 1]) * 10 + DigitValue(s[|s| - 1])
  }

  // ------------------------------------------------- Number.prototype.toString

  /** `n.toString()` for a non-negative integer: its decimal digits without leading zeros. */
  function NatToString(n: nat): (s: string)
    ensures AllDigits(s) && 1 <= |s|
    ensures |s| == 1 <==> n < 10
    decreases n
  {
    if n < 10 then [DigitChar(n)] else NatToString(n / 10) + [DigitChar(n % 10)]
  }

  /** `n.toString()` (and `${n}`) for an integer: a minus sign for negative values. */
  function IntToString(n: int): (r: string)
    ensures 1 <= |r| && (r[0] == '-' <==> n < 0)
    ensures n >= 0 ==> AllDigits(r)
    ensures n < 0 ==> AllDigits(r[1..]) && 2 <= |r|
  {
    if n < 0 then "-" + NatToString(-n) else NatToString(n)
  }

  /** NatToString is read back by DecimalValue, and writes no leading zero. */
  lemma {:induction false} NatToStringValue(n: nat)
    ensures DecimalValue(NatToString(n)) == n
    ensures NatToString(n)[0] == '0' ==> n == 0
    decreases n
  {
    if n >= 10 {
      var s := NatToString(n);
      NatToStringValue(n / 10);
      assert s[..|s| - 1] == NatToString(n / 10);
      assert s[0] == NatToString(n / 10)[0];
    }
  }

  /** IntToString's output is an optional minus sign followed by the digits of |n|. */
  lemma IntToStringValue(n: int)
    ensures var s := IntToString(n);
      if n >= 0 then AllDigits(s) && DecimalValue(s) == n
      else |s| >= 2 && s[0] == '-' && AllDigits(s[1..]) && DecimalValue(s[1..]) == -n
  {
    if n >= 0 {
      NatToStringValue(n);
    } else {
      NatToStringValue(-n);
      assert IntToString(n)[1..] == NatToString(-n);
    }
  }

  // ------------------------------------------------------------- padStart

  /** `s.padStart(targetLength, fill)` with a one-character pad string. */
  function PadStart(s: string, targetLength: nat, fill: char): (r: string)
    ensures |r| == if |s| >= targetLength then |s| else targetLength
    ensures r[|r| - |s|..] == s
    ensures forall i :: 0 <= i < |r| - |s| ==> r[i] == fill
  {
    if |s| >= targetLength then s else seq(targetLength - |s|, _ => fill) + s
  }

  /** `String(n).padStart(2, '0')` for 0 <= n < 100 is exactly two digits that read back as n. */
  lemma PadTwoDigits(n: int)
    requires 0 <= n < 100
    ensures var p := PadStart(IntToString(n), 2, '0');
      |p| == 2 && AllDigits(p) && DecimalValue(p) == n
  {
    var p := PadStart(IntToString(n), 2, '0');
    if n < 10 {
      assert p == ['0', DigitChar(n)];
      assert p[..1] == ['0'] && ['0'][..0] == [];
      assert DecimalValue(['0']) == 0;
      assert DigitValue(DigitChar(n)) == n;
    } else {
      NatToStringValue(n);
    }
  }

  // ---------------------------------------------------------------- slice

  /** `s.slice(start, end)` for non-negative bounds: both are clamped to the length. */
  function Slice(s: string, start: nat, end: nat): (r: string)
    ensures |r| <= end && |r| <= |s|
    ensures start <= end <= |s| ==> r == s[start..end]
    ensures end >= |s| && start == 0 ==> r == s
  {
    var e := Min(end, |s|);
    var b := Min(start, e);
    s[b..e]
  }

  // ----------------------------------------------------------------- trim

  /** The characters `String.prototype.trim` removes: WhiteSpace and LineTerminator. */
  predicate IsJsWhiteSpace(c: char)
  {
    || c == '\t' || c == '\n' || c == '\U{000B}' || c == '\U{000C}' || c == '\r' || c == ' '
    || c == '\U{00A0}' || c == '\U{1680}' || ('\U{2000}' <= c <= '\U{200A}')
    || c == '\U{2028}' || c == '\U{2029}' || c == '\U{202F}' || c == '\U{205F}'
    || c == '\U{3000}' || c == '\U{FEFF}'
  }

  predicate IsBlank(s: string) { forall i :: 0 <= i < |s| ==> IsJsWhiteSpace(s[i]) }

  /** Drops leading white space: the result is a suffix of `s` that starts with a non-space. */
  function TrimStart(s: string): (r: string)
    ensures |r| <= |s| && r == s[|s| - |r|..]
    ensures IsBlank(s[..|s| - |r|])
    ensures r != [] ==> !IsJsWhiteSpace(r[0])
    decreases |s|
  {
    if s != [] && IsJsWhiteSpace(s[0]) then
      var r := TrimStart(s[1..]);
      assert s[..|s| - |r|] == [s[0]] + s[1..][..|s[1..]| - |r|];
      r
    else s
  }

  /** Drops trailing white space: the result is a prefix of `s` that ends with a non-space. */
  function TrimEnd(s: string): (r: string)
    ensures |r| <= |s| && r == s[..|r|]
    ensures IsBlank(s[|r|..])
    ensures r != [] ==> !IsJsWhiteSpace(r[|r| - 1])
    decreases |s|
  {
    if s != [] && IsJsWhiteSpace(s[|s| - 1]) then
      var r := TrimEnd(s[..|s| - 1]);
      assert s[|r|..] == s[..|s| - 1][|r|..] + [s[|s| - 1]];
      r
    else s
  }

  /**
   * `s.trim()`: a contiguous piece of `s` with only white space around it,
   * and with no white space at either end.
   */
  function Trim(s: string): (r: string)
    ensures exists i :: Surrounded(s, r, i)
    ensures r != [] ==> !IsJsWhiteSpace(r[0]) && !IsJsWhiteSpace(r[|r| - 1])
  {
    var t := TrimStart(s);
    TrimmedPiece(s, t, TrimEnd(t));
    TrimEnd(t)
  }

  /** `r` occurs in `s` at `i`, with only white space before and after it. */
  predicate Surrounded(s: string, r: string, i: int)
  {
    OccursAt(s, r, i) && IsBlank(s[..i]) && IsBlank(s[i + |r|..])
  }

  /** A prefix `r` of a suffix `t` of `s`, with white space cut off around it, is a piece of `s` with white space around it. */
  lemma TrimmedPiece(s: string, t: string, r: string)
    requires |t| <= |s| && t == s[|s| - |t|..] && IsBlank(s[..|s| - |t|])
    requires |r| <= |t| && r == t[..|r|] && IsBlank(t[|r|..])
    ensures Surrounded(s, r, |s| - |t|)
  {
    var i := |s| - |t|;
    assert s[i..i + |r|] == t[..|r|];
    assert s[i + |r|..] == t[|r|..];
  }

  /** `s.trim() === ""` holds exactly when every character of `s` is white space. */
  lemma TrimEmptyIffBlank(s: string)
    ensures Trim(s) == [] <==> IsBlank(s)
  {
  }

  // ---------------------------------------------------------- toLowerCase

  /**
   * The lower-case mapping of `toLowerCase` on the Basic Latin and Latin-1
   * letters (U+00D7, the multiplication sign, is not a letter).
   */
  function LowerChar(c: char): (l: char)
    ensures IsUpperLetter(c) ==> l as int == c as int + 32 && !IsUpperLetter(l)
    ensures !IsUpperLetter(c) ==> l == c
  {
    if 'A' <= c <= 'Z' || ('\U{00C0}' <= c <= '\U{00DE}' && c != '\U{00D7}') then (c as int + 32) as char
    else c
  }

  predicate IsUpperLetter(c: char) { 'A' <= c <= 'Z' || ('\U{00C0}' <= c <= '\U{00DE}' && c != '\U{00D7}') }

  function ToLowerCase(s: string): (r: string)
    ensures |r| == |s|
    ensures forall i :: 0 <= i < |r| ==> !IsUpperLetter(r[i])
    ensures forall i :: 0 <= i < |r| ==> !IsUpperLetter(s[i]) ==> r[i] == s[i]
    ensures forall i :: 0 <= i < |r| ==> (IsUpperLetter(s[i]) ==> r[i] as int == s[i] as int + 32)
  {
    seq(|s|, i requires 0 <= i < |s| => LowerChar(s[i]))
  }

  /** Lower-casing twice is lower-casing once. */
  lemma ToLowerCaseIdempotent(s: string)
    ensures ToLowerCase(ToLowerCase(s)) == ToLowerCase(s)
  {
  }

  // ------------------------------------------------------------- includes

  /**
   * `s.includes(needle)`, scanning the start positions from left to right.
   * The empty string is included in every string, and nothing longer than
   * `s` is included in it.
   */
  predicate Includes(s: string, needle: string)
    ensures needle == [] ==> Includes(s, needle)
    ensures Includes(s, needle) ==> |needle| <= |s|
    decreases |s|
  {
    needle <= s || (s != [] && Includes(s[1..], needle))
  }

  /** `needle` occurs in `s` starting at position `i`. */
  predicate OccursAt(s: string, needle: string, i: int)
  {
    0 <= i && i + |needle| <= |s| && s[i..i + |needle|] == needle
  }

  /** An occurrence one position further in `s` is an occurrence in the tail of `s`. */
  lemma OccursShift(s: string, needle: string, i: nat)
    requires s != []
    ensures OccursAt(s, needle, i + 1) <==> OccursAt(s[1..], needle, i)
  {
    if i + 1 + |needle| <= |s| {
      assert s[i + 1..i + 1 + |needle|] == s[1..][i..i + |needle|];
    }
  }

  /** Includes holds exactly when `needle` occurs in `s` at some position. */
  lemma {:induction false} IncludesIffOccurs(s: string, needle: string)
    ensures Includes(s, needle) <==> exists i :: OccursAt(s, needle, i)
    decreases |s|
  {
    if needle <= s {
      assert OccursAt(s, needle, 0);
    } else if s != [] {
      IncludesIffOccurs(s[1..], needle);
      if exists i :: OccursAt(s, needle, i) {
        var i :| OccursAt(s, needle, i);
        assert i != 0;
        OccursShift(s, needle, i - 1);
      }
      if Includes(s[1..], needle) {
        var j :| OccursAt(s[1..], needle, j);
        OccursShift(s, needle, j);
      }
    }
  }
}
