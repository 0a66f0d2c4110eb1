/**
 * The contact-phone mask of the event form on the admin dashboard: keep the
 * ASCII digits of what was typed, at most eleven of them (area code plus
 * nine digits), and lay them out as the Brazilian mask "(XX) XXXXX-XXXX".
 */
module PhoneMask {
  import opened JsText

  const MaxDigits := 11

  /** `value.replace(/\D/g, '')`: the ASCII digits of `s`, in order. */
  function Digits(s: string): (r: string)
    ensures AllDigits(r) && |r| <= |s|
  {
    if s == [] then [] else (if IsDigit(s[0]) then [s[0]] else []) + Digits(s[1..])
  }

  /** The mask characters: everything in a formatted number that is not a digit. */
  predicate IsMaskChar(c: char) { c == '(' || c == ')' || c == ' ' || c == '-' }

  /** The digits the mask keeps: the first (at most) eleven digits of the input. */
  function KeptDigits(value: string): (d: string)
    ensures AllDigits(d) && |d| == Min(MaxDigits, |Digits(value)|)
    ensures d == Digits(value)[..|d|]
  {
    Digits(value)[..Min(MaxDigits, |Digits(value)|)]
  }

  /** formatPhoneNumber. Its output never exceeds 15 characters, inside the field's maxLength of 16. */
  function FormatPhoneNumber(value: string): (r: string)
    ensures |r| <= 15
  {
    var numbers := Digits(value);
    var limitedNumbers := Slice(numbers, 0, MaxDigits);
    if |limitedNumbers| > 0 then
      if |limitedNumbers| > 2 then
        if |limitedNumbers| > 7 then
          "(" + limitedNumbers[..2] + ") " + limitedNumbers[2..7] + "-" + limitedNumbers[7..]
        else
          "(" + limitedNumbers[..2] + ") " + limitedNumbers[2..]
      else
        "(" + limitedNumbers + ")"
    else
      limitedNumbers
  }

  lemma {:induction false} DigitsConcat(a: string, b: string)
    ensures Digits(a + b) == Digits(a) + Digits(b)
  {
    if a == [] {
      assert a + b == b;
    } else {
      var ab := a + b;
      assert ab[0] == a[0] && ab[1..] == a[1..] + b;
      DigitsConcat(a[1..], b);
      var h := if IsDigit(a[0]) then [a[0]] else [];
      assert Digits(ab) == h + (Digits(a[1..]) + Digits(b));
      assert Digits(a) == h + Digits(a[1..]);
    }
  }

  /** The filter keeps every ASCII digit of `s` as often as it occurs, and no other character. */
  lemma {:induction false} DigitsCounts(s: string)
    ensures forall c :: multiset(Digits(s))[c] == if IsDigit(c) then multiset(s)[c] else 0
  {
    if s != [] {
      DigitsCounts(s[1..]);
      assert s == [s[0]] + s[1..];
      assert multiset(s) == multiset{s[0]} + multiset(s[1..]);
    }
  }

  lemma {:induction false} DigitsOfDigits(s: string)
    requires AllDigits(s)
    ensures Digits(s) == s
  {
    if s != [] {
      DigitsOfDigits(s[1..]);
    }
  }

  lemma {:induction false} DigitsOfMask(s: string)
    requires forall i :: 0 <= i < |s| ==> IsMaskChar(s[i])
    ensures Digits(s) == []
  {
    if s != [] {
      DigitsOfMask(s[1..]);
    }
  }

  /** The slice the source takes is the prefix of at most eleven digits. */
  lemma LimitedIsKept(value: string)
    ensures Slice(Digits(value), 0, MaxDigits) == KeptDigits(value)
  {
  }

  /**
   * The output spelled out case by case: no digits gives "", one or two give
   * "(d)", three to seven "(dd) d…", eight to eleven "(dd) ddddd-d…".
   */
  lemma FormatShape(value: string)
    ensures var d := KeptDigits(value); var r := FormatPhoneNumber(value);
      && (|d| == 0 ==> r == "")
      && (1 <= |d| <= 2 ==> r == "(" + d + ")")
      && (3 <= |d| <= 7 ==> r == "(" + d[..2] + ") " + d[2..])
      && (8 <= |d| ==> r == "(" + d[..2] + ") " + d[2..7] + "-" + d[7..])
  {
    LimitedIsKept(value);
  }

  lemma DigitsOfShortMask(d: string)
    requires AllDigits(d)
    ensures Digits("(" + d + ")") == d
  {
    DigitsOfDigits(d);
    DigitsOfMask("(");
    DigitsOfMask(")");
    DigitsConcat("(", d);
    DigitsConcat("(" + d, ")");
  }

  lemma DigitsOfMediumMask(d: string)
    requires AllDigits(d) && 2 <= |d|
    ensures Digits("(" + d[..2] + ") " + d[2..]) == d
  {
    DigitsOfDigits(d[..2]);
    DigitsOfDigits(d[2..]);
    DigitsOfMask("(");
    DigitsOfMask(") ");
    DigitsConcat("(", d[..2]);
    DigitsConcat("(" + d[..2], ") ");
    DigitsConcat("(" + d[..2] + ") ", d[2..]);
    assert d[..2] + d[2..] == d;
  }

  lemma DigitsOfFullMaskParts(a: string, b: string, c: string)
    requires AllDigits(a) && AllDigits(b) && AllDigits(c)
    ensures Digits("(" + a + ") " + b + "-" + c) == a + b + c
  {
    DigitsOfDigits(a);
    DigitsOfDigits(b);
    DigitsOfDigits(c);
    DigitsOfMask("(");
    DigitsOfMask(") ");
    DigitsOfMask("-");
    var p1 := "(" + a;
    DigitsConcat("(", a);
    assert Digits(p1) == a;
    var p2 := p1 + ") ";
    DigitsConcat(p1, ") ");
    assert Digits(p2) == a;
    var p3 := p2 + b;
    DigitsConcat(p2, b);
    assert Digits(p3) == a + b;
    var p4 := p3 + "-";
    DigitsConcat(p3, "-");
    assert Digits(p4) == a + b;
    DigitsConcat(p4, c);
  }

  lemma DigitsOfFullMask(d: string)
    requires AllDigits(d) && 7 <= |d|
    ensures Digits("(" + d[..2] + ") " + d[2..7] + "-" + d[7..]) == d
  {
    DigitsOfFullMaskParts(d[..2], d[2..7], d[7..]);
    assert d[..2] + d[2..7] + d[7..] == d;
  }

  /** In order, the digits of the output are exactly the digits the mask keeps. */
  lemma FormatKeepsDigits(value: string)
    ensures Digits(FormatPhoneNumber(value)) == KeptDigits(value)
  {
    var d := KeptDigits(value);
    FormatShape(value);
    if |d| == 0 {
    } else if |d| <= 2 {
      DigitsOfShortMask(d);
    } else if |d| <= 7 {
      DigitsOfMediumMask(d);
    } else {
      DigitsOfFullMask(d);
    }
  }

  /** Every output character is a digit or one of "(", ")", " ", "-"; with FormatKeepsDigits and DigitsCounts, no other input character survives. */
  lemma FormatAddsOnlyMask(value: string)
    ensures var r := FormatPhoneNumber(value);
      forall i :: 0 <= i < |r| ==> IsDigit(r[i]) || IsMaskChar(r[i])
  {
    FormatShape(value);
  }

  /**
   * Formatting a formatted number changes nothing, which is what lets the
   * form apply the mask both to the displayed value and to each change.
   */
  lemma FormatIdempotent(value: string)
    ensures FormatPhoneNumber(FormatPhoneNumber(value)) == FormatPhoneNumber(value)
  {
    var r := FormatPhoneNumber(value);
    FormatKeepsDigits(value);
    assert KeptDigits(r) == KeptDigits(value);
    FormatShape(value);
    FormatShape(r);
  }
}
