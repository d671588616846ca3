/**
 * Python's `float()` as the numeric cleaners use it.  Every cleaner first
 * deletes all characters other than ASCII digits, `.` and (in one variant) `-`,
 * so `float()` only ever sees strings over those characters; on them it accepts
 * exactly an optional leading minus followed by digits with at most one point
 * and at least one digit.  Values are exact reals: IEEE rounding is not modelled.
 */
module PyFloat {
  import opened Wrappers
  import opened PyText

  /** The characters a cleaner may leave behind. */
  predicate IsNumberChar(c: char) {
    IsAsciiDigit(c) || c == '.' || c == '-'
  }

  /** The value of the decimal text `intPart.frac`. */
  function DecimalValue(intPart: string, frac: string): real {
    DigitsValue(intPart) as real + DigitsValue(frac) as real / Pow10(|frac|) as real
  }

  /** Unsigned decimal text: digits, optionally a point and more digits, at least one digit in all. */
  function ParseUnsigned(s: string): (r: Option<real>)
    ensures r.Some? ==> r.value >= 0.0
  {
    var intPart := IntPart(s);
    var frac := FracPart(s);
    if AllDigits(intPart) && AllDigits(frac) && |intPart| + |frac| > 0
    then Some(DecimalValue(intPart, frac))
    else None
  }

  /** The text before the first point (all of it when there is none). */
  function IntPart(s: string): string {
    s[..IndexOf(s, '.')]
  }

  /** The text after the first point (empty when there is none). */
  function FracPart(s: string): string {
    var k := IndexOf(s, '.');
    if k < |s| then s[k + 1..] else ""
  }

  /**
   * `float(s)`; `None` stands for the `ValueError` it raises.  Only a leading
   * minus can make the value negative.
   */
  function ParseFloat(s: string): (r: Option<real>)
    ensures r.Some? && r.value < 0.0 ==> |s| > 0 && s[0] == '-'
  {
    if |s| > 0 && s[0] == '-' then
      match ParseUnsigned(s[1..])
      case Some(v) => Some(-v)
      case None => None
    else
      ParseUnsigned(s)
  }

  /** No minus sign at position `from` or after it. */
  predicate NoMinusFrom(s: string, from: nat) {
    forall i :: from <= i < |s| ==> s[i] != '-'
  }

  /** No two points. */
  predicate AtMostOnePoint(s: string) {
    forall i, j :: 0 <= i < j < |s| ==> !(s[i] == '.' && s[j] == '.')
  }

  /** At least one digit. */
  predicate HasDigit(s: string) {
    exists i :: 0 <= i < |s| && IsAsciiDigit(s[i])
  }

  /** The grammar `float()` accepts on strings over digits, `.` and `-`, stated independently of the parser. */
  predicate IsDecimalText(s: string) {
    NoMinusFrom(s, 1) && AtMostOnePoint(s) && HasDigit(s)
  }

  /** On the strings the cleaners produce, `float()` succeeds exactly on the decimal grammar. */
  lemma ParseFloatAcceptsDecimalText(s: string)
    requires forall i :: 0 <= i < |s| ==> IsNumberChar(s[i])
    ensures ParseFloat(s).Some? <==> IsDecimalText(s)
  {
    if |s| > 0 && s[0] == '-' {
      var t := s[1..];
      assert forall i :: 0 <= i < |t| ==> IsNumberChar(t[i]) by {
        forall i | 0 <= i < |t| ensures IsNumberChar(t[i]) { assert t[i] == s[i + 1]; }
      }
      UnsignedAccepts(t);
      DropSign(s);
    } else {
      UnsignedAccepts(s);
      assert NoMinusFrom(s, 0) <==> NoMinusFrom(s, 1);
    }
  }

  /** Dropping a leading minus keeps the grammar's three conditions as they were. */
  lemma DropSign(s: string)
    requires |s| > 0 && s[0] == '-'
    ensures NoMinusFrom(s[1..], 0) <==> NoMinusFrom(s, 1)
    ensures AtMostOnePoint(s[1..]) <==> AtMostOnePoint(s)
    ensures HasDigit(s[1..]) <==> HasDigit(s)
  {
    var t := s[1..];
    assert forall i :: 0 <= i < |t| ==> t[i] == s[i + 1];
    if NoMinusFrom(t, 0) {
      forall i | 1 <= i < |s| ensures s[i] != '-' { assert s[i] == t[i - 1]; }
    }
    if AtMostOnePoint(t) {
      forall i, j | 0 <= i < j < |s| ensures !(s[i] == '.' && s[j] == '.') {
        if i > 0 { assert s[i] == t[i - 1] && s[j] == t[j - 1]; }
      }
    }
    if HasDigit(s) {
      var i :| 0 <= i < |s| && IsAsciiDigit(s[i]);
      assert i > 0 && t[i - 1] == s[i];
    }
    if HasDigit(t) {
      var i :| 0 <= i < |t| && IsAsciiDigit(t[i]);
      assert s[i + 1] == t[i];
    }
  }

  /** The unsigned grammar: no minus at all, at most one point, at least one digit. */
  lemma UnsignedAccepts(t: string)
    requires forall i :: 0 <= i < |t| ==> IsNumberChar(t[i])
    ensures ParseUnsigned(t).Some? <==> NoMinusFrom(t, 0) && AtMostOnePoint(t) && HasDigit(t)
  {
    if AllDigits(IntPart(t)) && AllDigits(FracPart(t)) {
      DigitSidesNoMinus(t);
      DigitSidesOnePoint(t);
      DigitSidesHasDigit(t);
    }
    if NoMinusFrom(t, 0) && AtMostOnePoint(t) {
      GrammarDigitSides(t);
    }
  }

  /** Digits on both sides of the first point leave no room for a minus. */
  lemma DigitSidesNoMinus(t: string)
    requires AllDigits(IntPart(t)) && AllDigits(FracPart(t))
    ensures NoMinusFrom(t, 0)
  {
    var k := IndexOf(t, '.');
    forall i | 0 <= i < |t| ensures t[i] != '-' {
      if i < k { assert t[i] == IntPart(t)[i]; }
      else if i > k { assert t[i] == FracPart(t)[i - k - 1]; }
    }
  }

  /** Digits on both sides of the first point leave no room for a second point. */
  lemma DigitSidesOnePoint(t: string)
    requires AllDigits(IntPart(t)) && AllDigits(FracPart(t))
    ensures AtMostOnePoint(t)
  {
    var k := IndexOf(t, '.');
    forall i, j | 0 <= i < j < |t| ensures !(t[i] == '.' && t[j] == '.') {
      if j < k { assert t[j] == IntPart(t)[j]; }
      else if j > k { assert t[j] == FracPart(t)[j - k - 1]; }
      else { assert i < k && t[i] == IntPart(t)[i]; }
    }
  }

  /** With digits on both sides of the first point, the text has a digit exactly when the sides are not both empty. */
  lemma DigitSidesHasDigit(t: string)
    requires AllDigits(IntPart(t)) && AllDigits(FracPart(t))
    ensures HasDigit(t) <==> |IntPart(t)| + |FracPart(t)| > 0
  {
    var k := IndexOf(t, '.');
    if |IntPart(t)| > 0 { assert IsAsciiDigit(t[0]) by { assert t[0] == IntPart(t)[0]; } }
    else if |FracPart(t)| > 0 { assert IsAsciiDigit(t[k + 1]) by { assert t[k + 1] == FracPart(t)[0]; } }
    if HasDigit(t) {
      var i :| 0 <= i < |t| && IsAsciiDigit(t[i]);
      assert i != k;
    }
  }

  /** Over digits, points and minus signs, no minus and no second point leave digits on both sides of the first point. */
  lemma GrammarDigitSides(t: string)
    requires forall i :: 0 <= i < |t| ==> IsNumberChar(t[i])
    requires NoMinusFrom(t, 0) && AtMostOnePoint(t)
    ensures AllDigits(IntPart(t)) && AllDigits(FracPart(t))
  {
    var k := IndexOf(t, '.');
    forall i | 0 <= i < |IntPart(t)| ensures IsAsciiDigit(IntPart(t)[i]) {
      assert IntPart(t)[i] == t[i];
    }
    forall i | 0 <= i < |FracPart(t)| ensures IsAsciiDigit(FracPart(t)[i]) {
      assert t[k] == '.' && FracPart(t)[i] == t[k + 1 + i];
    }
  }

  /** `float(str(n))` is `n`: the natural partner of the parser. */
  lemma ParseFloatNatural(n: nat)
    ensures ParseFloat(NatToDigits(n)) == Some(n as real)
  {
    var s := NatToDigits(n);
    NatToDigitsRoundTrip(n);
    assert s[0] != '-';
    var k := IndexOf(s, '.');
    assert forall j :: 0 <= j < |s| ==> s[j] != '.';
    assert k == |s|;
    assert s[..k] == s;
  }

  /** `float("a.b")` for digit strings `a` and `b`, not both empty, is the decimal's value. */
  lemma ParseFloatDecimal(a: string, b: string)
    requires AllDigits(a) && AllDigits(b) && |a| + |b| > 0
    ensures ParseFloat(a + "." + b) == Some(DecimalValue(a, b))
  {
    var s := a + "." + b;
    ParseUnsignedDecimal(a, b);
    assert s[0] != '-' by {
      if |a| > 0 { assert s[0] == a[0]; } else { assert s[0] == '.'; }
    }
  }

  /** `float("-a.b")` is minus the decimal's value. */
  lemma ParseFloatNegativeDecimal(a: string, b: string)
    requires AllDigits(a) && AllDigits(b) && |a| + |b| > 0
    ensures ParseFloat("-" + a + "." + b) == Some(-DecimalValue(a, b))
  {
    var s := a + "." + b;
    assert ("-" + a + "." + b)[1..] == s;
    ParseUnsignedDecimal(a, b);
  }

  lemma ParseUnsignedDecimal(a: string, b: string)
    requires AllDigits(a) && AllDigits(b) && |a| + |b| > 0
    ensures ParseUnsigned(a + "." + b) == Some(DecimalValue(a, b))
  {
    var s := a + "." + b;
    var k := IndexOf(s, '.');
    assert s[|a|] == '.';
    assert forall j :: 0 <= j < |a| ==> s[j] == a[j];
    assert k == |a|;
    assert s[..k] == a;
    assert s[k + 1..] == b;
  }
}
