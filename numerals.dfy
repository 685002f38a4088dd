/**
 * Python's `float()` applied to a string, which is how a coordinate given
 * as text becomes a number: surrounding whitespace is ignored, then an
 * optional sign, then "inf", "infinity" or "nan" in any letter case, or a
 * decimal literal with optional point and exponent whose digit runs may be
 * split by single underscores. Values are exact (no rounding to a double).
 */
module Numerals {
  import opened Wrappers
  import opened Geo
  import opened Text

  /** `s` without its leading whitespace. */
  function StripStart(s: string): (t: string)
    ensures |t| <= |s| && t == s[|s| - |t|..]
    ensures t == "" || !IsSpace(t[0])
    ensures forall i :: 0 <= i < |s| - |t| ==> IsSpace(s[i])
  {
    if s != [] && IsSpace(s[0]) then StripStart(s[1..]) else s
  }

  /** `s` without its trailing whitespace. */
  function StripEnd(s: string): (t: string)
    ensures |t| <= |s| && t == s[..|t|]
    ensures t == "" || !IsSpace(t[|t| - 1])
    ensures forall i :: |t| <= i < |s| ==> IsSpace(s[i])
  {
    if s != [] && IsSpace(s[|s| - 1]) then StripEnd(s[..|s| - 1]) else s
  }

  /** `t` is the run of `s` from `k` on, with only whitespace before and after it. */
  predicate SpaceAround(s: string, k: int, t: string)
  {
    && 0 <= k <= |s| - |t| && t == s[k..k + |t|]
    && (forall i :: 0 <= i < k ==> IsSpace(s[i]))
    && (forall i :: k + |t| <= i < |s| ==> IsSpace(s[i]))
  }

  /** `s.strip()`: starts and ends with no whitespace; `StripKeepsRun` says what of `s` it keeps. */
  function Strip(s: string): (t: string)
    ensures t == "" || (!IsSpace(t[0]) && !IsSpace(t[|t| - 1]))
  {
    StripAround(s);
    StripEnd(StripStart(s))
  }

  /** `s.strip()` is a run of `s` with only whitespace around it. */
  lemma StripKeepsRun(s: string)
    ensures exists k :: SpaceAround(s, k, Strip(s))
  {
    StripAround(s);
    assert SpaceAround(s, |s| - |StripStart(s)|, Strip(s));
  }

  /** Stripping the start, then the end, leaves the run of `s` after its leading whitespace. */
  lemma StripAround(s: string)
    ensures var t := StripEnd(StripStart(s));
      && SpaceAround(s, |s| - |StripStart(s)|, t)
      && (t == "" || (!IsSpace(t[0]) && !IsSpace(t[|t| - 1])))
  {
    var a := StripStart(s);
    RunAround(s, |s| - |a|, a, StripEnd(a));
  }

  /** The front `t` of the tail `a` of `s` from `k` on, with whitespace before `k` and after `t` in `a`, has whitespace around it in `s`. */
  lemma RunAround(s: string, k: int, a: string, t: string)
    requires 0 <= k <= |s| && a == s[k..]
    requires forall i :: 0 <= i < k ==> IsSpace(s[i])
    requires |t| <= |a| && t == a[..|t|]
    requires forall i :: |t| <= i < |a| ==> IsSpace(a[i])
    ensures SpaceAround(s, k, t)
    ensures t != "" ==> t[0] == a[0]
  {
    assert t == s[k..k + |t|];
    forall i | k + |t| <= i < |s|
      ensures IsSpace(s[i])
    {
      assert s[i] == a[i - k];
    }
  }

  /** Python's `digitpart`, `digit (["_"] digit)*`: digits, with single underscores between them. */
  predicate IsDigitPart(s: string)
    decreases |s|
  {
    && s != [] && IsDigit(s[0])
    && (|s| == 1 || IsDigitPart(s[1..]) || (s[1] == '_' && IsDigitPart(s[2..])))
  }

  predicate AllDigits(s: string)
  {
    forall i :: 0 <= i < |s| ==> IsDigit(s[i])
  }

  /** The digits of a digit part in order, its underscores left out. */
  function DigitsOf(s: string): (ds: string)
    requires IsDigitPart(s)
    ensures ds != "" && AllDigits(ds) && |ds| <= |s|
    decreases |s|
  {
    if |s| == 1 then [s[0]]
    else if s[1] == '_' then
      assert s[1..][0] == '_' && !IsDigitPart(s[1..]);
      [s[0]] + DigitsOf(s[2..])
    else [s[0]] + DigitsOf(s[1..])
  }

  /** The natural number a run of decimal digits denotes, most significant first. */
  function DigitsValue(ds: string): nat
    requires AllDigits(ds)
  {
    if ds == [] then 0 else 10 * DigitsValue(ds[..|ds| - 1]) + DigitValue(ds[|ds| - 1])
  }

  /** A run of decimal digits. */
  type Digits = s: string | AllDigits(s)

  /** A decimal number without its sign: the integer its `digits` spell, times ten to the power `exponent`. */
  datatype Decimal = Decimal(digits: Digits, exponent: int)

  /** The real number a decimal denotes: its integer, multiplied or divided by ten once per unit of exponent. */
  function Magnitude(d: Decimal): real
    decreases if d.exponent < 0 then -d.exponent else d.exponent
  {
    if d.exponent == 0 then DigitsValue(d.digits) as real
    else if d.exponent > 0 then 10.0 * Magnitude(Decimal(d.digits, d.exponent - 1))
    else Magnitude(Decimal(d.digits, d.exponent + 1)) / 10.0
  }

  /** The real number a decimal denotes under a sign. */
  function SignedMagnitude(negative: bool, d: Decimal): real
  {
    if negative then -Magnitude(d) else Magnitude(d)
  }

  /** The digits of a digit part, or none for a part left out as in ".5" or "5.". */
  function PartDigits(s: string): (ds: string)
    requires s == "" || IsDigitPart(s)
    ensures AllDigits(ds)
  {
    if s == "" then "" else DigitsOf(s)
  }

  /**
   * Python's `number`: `digitpart ["."]` or `[digitpart] "." digitpart`; its
   * digits read as one integer, scaled down by the digits after the point.
   */
  function ParseMantissa(s: string): Option<Decimal>
  {
    var d := IndexOf(s, '.');
    if d < 0 then
      if IsDigitPart(s) then Some(Decimal(DigitsOf(s), 0)) else None
    else PointMantissa(s[..d], s[d + 1..])
  }

  /** A mantissa with a point: the digit parts before and after it, either (but not both) left out. */
  function PointMantissa(whole: string, fraction: string): Option<Decimal>
  {
    if whole == "" && fraction == "" then None
    else if (whole == "" || IsDigitPart(whole)) && (fraction == "" || IsDigitPart(fraction)) then
      var ds := PartDigits(whole) + PartDigits(fraction);
      assert AllDigits(ds);
      Some(Decimal(ds, -|PartDigits(fraction)|))
    else None
  }

  /** The digits after "e" or "E": an optional sign and a digit part. */
  function ParseExponent(s: string): Option<int>
  {
    var negative := s != "" && s[0] == '-';
    var digits := if s != "" && (s[0] == '-' || s[0] == '+') then s[1..] else s;
    if IsDigitPart(digits) then
      var n: int := DigitsValue(DigitsOf(digits));
      Some(if negative then -n else n)
    else None
  }

  /** Python's `floatnumber`: a mantissa, then an exponent when an "e" or "E" follows it. */
  function ParseUnsigned(s: string): Option<Decimal>
  {
    var e := IndexOf(Lower(s), 'e');
    var mantissa := if e < 0 then s else s[..e];
    match ParseMantissa(mantissa)
    case None => None
    case Some(m) =>
      if e < 0 then Some(m)
      else
        match ParseExponent(s[e + 1..])
        case None => None
        case Some(x) => Some(Decimal(m.digits, m.exponent + x))
  }

  /** `float(s)` for a string `s`: the number it denotes, or None where Python raises ValueError. */
  function ParseFloat(s: string): (r: Option<Float>)
    ensures Strip(s) == "" ==> r.None?
  {
    if Strip(s) == "" then EmptyBody(); ParseSigned(Strip(s)) else ParseSigned(Strip(s))
  }

  /** A stripped string: an optional sign, then the rest. */
  function ParseSigned(t: string): Option<Float>
  {
    if t != "" && (t[0] == '-' || t[0] == '+') then Signed(t[0] == '-', t[1..]) else Signed(false, t)
  }

  /** What follows the sign: "inf", "infinity" or "nan" in any letter case, or a decimal literal. */
  function Signed(negative: bool, body: string): Option<Float>
  {
    var word := Lower(body);
    if word == "inf" || word == "infinity" then Some(Infinity(negative))
    else if word == "nan" then Some(NaN)
    else
      match ParseUnsigned(body)
      case None => None
      case Some(d) => Some(Finite(SignedMagnitude(negative, d)))
  }

  // ---------------------------------------------------------------- lemmas

  /** A non-empty run of plain digits is a digit part and its own digits. */
  lemma {:induction false} PlainDigitPart(s: string)
    requires s != "" && AllDigits(s)
    ensures IsDigitPart(s) && DigitsOf(s) == s
    decreases |s|
  {
    if |s| > 1 {
      PlainDigitPart(s[1..]);
      assert s == [s[0]] + s[1..];
    }
  }

  /** A string that neither starts nor ends with whitespace is its own strip. */
  lemma StripUnspaced(s: string)
    requires s != "" && !IsSpace(s[0]) && !IsSpace(s[|s| - 1])
    ensures Strip(s) == s
  {
  }

  /** Whitespace written around a value does not change it. */
  lemma SurroundingSpaceIgnored(s: string)
    ensures ParseFloat(" " + s) == ParseFloat(s)
    ensures ParseFloat(s + " ") == ParseFloat(s)
  {
    StripLeadingSpace(s);
    StripTrailingSpace(s);
  }

  lemma StripLeadingSpace(s: string)
    ensures Strip(" " + s) == Strip(s)
  {
    assert (" " + s)[1..] == s;
    assert StripStart(" " + s) == StripStart(s);
  }

  lemma StripEndSpace(s: string)
    ensures StripEnd(s + " ") == StripEnd(s)
  {
    assert (s + " ")[..|s|] == s;
  }

  /** Stripping `s + " "` strips to what `s` strips to. */
  lemma {:induction false} StripTrailingSpace(s: string)
    ensures Strip(s + " ") == Strip(s)
  {
    if s == [] {
      assert " "[1..] == "";
      assert StripStart(" ") == StripStart("");
    } else if IsSpace(s[0]) {
      assert (s + " ")[1..] == s[1..] + " ";
      assert StripStart(s + " ") == StripStart(s[1..] + " ");
      assert StripStart(s) == StripStart(s[1..]);
      StripTrailingSpace(s[1..]);
    } else {
      assert StripStart(s + " ") == s + " ";
      assert StripStart(s) == s;
      StripEndSpace(s);
    }
  }

  /** A body that starts with a digit is no special word, so the literal decides. */
  lemma SignedLiteral(negative: bool, body: string)
    requires body != "" && IsDigit(body[0])
    ensures Signed(negative, body) ==
      match ParseUnsigned(body)
      case None => None
      case Some(d) => Some(Finite(SignedMagnitude(negative, d)))
  {
    assert Lower(body)[0] == body[0];
    assert "inf"[0] == 'i' && "infinity"[0] == 'i' && "nan"[0] == 'n';
  }

  /** Without an "e" or "E" the whole literal is the mantissa. */
  lemma UnsignedWithoutExponent(body: string)
    requires forall i :: 0 <= i < |body| ==> body[i] == '.' || IsDigit(body[i])
    ensures ParseUnsigned(body) == ParseMantissa(body)
  {
    assert 'e' !in Lower(body) by {
      forall i | 0 <= i < |body| ensures Lower(body)[i] != 'e' {
        assert body[i] == '.' || IsDigit(body[i]);
      }
    }
  }

  /** A mantissa whose first point separates two digit parts. */
  lemma MantissaAtPoint(body: string, whole: string, fraction: string)
    requires IsDigitPart(whole) && IsDigitPart(fraction)
    requires IndexOf(body, '.') == |whole| && body[..|whole|] == whole && body[|whole| + 1..] == fraction
    ensures ParseMantissa(body) == Some(Decimal(DigitsOf(whole) + DigitsOf(fraction), -|DigitsOf(fraction)|))
  {
    assert ParseMantissa(body) == PointMantissa(whole, fraction);
    PointOfParts(whole, fraction);
  }

  /** Two digit parts around a point give all their digits, scaled by those after the point. */
  lemma PointOfParts(whole: string, fraction: string)
    requires IsDigitPart(whole) && IsDigitPart(fraction)
    ensures PointMantissa(whole, fraction) == Some(Decimal(DigitsOf(whole) + DigitsOf(fraction), -|DigitsOf(fraction)|))
  {
  }

  /** Where the point sits in digits, a point and digits. */
  lemma PointOfDigits(whole: string, fraction: string)
    requires AllDigits(whole)
    ensures var body := whole + "." + fraction;
      IndexOf(body, '.') == |whole| && body[..|whole|] == whole && body[|whole| + 1..] == fraction
  {
    var body := whole + "." + fraction;
    assert '.' !in whole by {
      forall i | 0 <= i < |whole| ensures whole[i] != '.' { assert IsDigit(whole[i]); }
    }
    assert body == whole + ['.'] + fraction;
    IndexOfAfter(whole, '.', fraction);
    assert body[..|whole|] == whole;
    assert body[|whole| + 1..] == fraction;
  }

  /** Digits, a point and more digits: all the digits read as one integer, scaled by the digits after the point. */
  lemma MantissaWithPoint(whole: string, fraction: string)
    requires whole != "" && AllDigits(whole) && fraction != "" && AllDigits(fraction)
    ensures ParseMantissa(whole + "." + fraction) == Some(Decimal(whole + fraction, -|fraction|))
  {
    PlainDigitPart(whole);
    PlainDigitPart(fraction);
    PointOfDigits(whole, fraction);
    MantissaAtPoint(whole + "." + fraction, whole, fraction);
  }

  /** Digits alone, as a mantissa. */
  lemma MantissaOfWhole(whole: string)
    requires whole != "" && AllDigits(whole)
    ensures ParseMantissa(whole) == Some(Decimal(whole, 0))
  {
    PlainDigitPart(whole);
    assert '.' !in whole by {
      forall i | 0 <= i < |whole| ensures whole[i] != '.' { assert IsDigit(whole[i]); }
    }
  }

  /** Digits, optionally followed by a point and more digits, as a mantissa. */
  lemma MantissaOfDigits(whole: string, fraction: string)
    requires whole != "" && AllDigits(whole) && AllDigits(fraction)
    ensures ParseMantissa(whole + (if fraction == "" then "" else "." + fraction)) ==
      Some(Decimal(whole + fraction, -|fraction|))
  {
    if fraction != "" {
      assert whole + ("." + fraction) == whole + "." + fraction;
      MantissaWithPoint(whole, fraction);
    } else {
      assert whole + "" == whole;
      MantissaOfWhole(whole);
    }
  }

  /** The characters of digits written with an optional point. */
  lemma LiteralCharacters(whole: string, fraction: string)
    requires whole != "" && AllDigits(whole) && AllDigits(fraction)
    ensures var body := whole + (if fraction == "" then "" else "." + fraction);
      && body != "" && IsDigit(body[0]) && IsDigit(body[|body| - 1])
      && forall i :: 0 <= i < |body| ==> body[i] == '.' || IsDigit(body[i])
  {
    var body := whole + (if fraction == "" then "" else "." + fraction);
    assert body[0] == whole[0];
    if fraction != "" {
      assert body[|body| - 1] == fraction[|fraction| - 1];
    }
    forall i | 0 <= i < |body| ensures body[i] == '.' || IsDigit(body[i]) {
      if i >= |whole| && fraction != "" {
        assert i == |whole| || body[i] == fraction[i - |whole| - 1];
      }
    }
  }

  /** Signed digits parse as their body does, with the sign applied. */
  lemma SignedDigits(negative: bool, body: string)
    requires body != "" && IsDigit(body[0]) && IsDigit(body[|body| - 1])
    ensures ParseFloat((if negative then "-" else "") + body) ==
      match ParseUnsigned(body)
      case None => None
      case Some(d) => Some(Finite(SignedMagnitude(negative, d)))
  {
    var s := (if negative then "-" else "") + body;
    assert s[0] == (if negative then '-' else body[0]);
    assert s[|s| - 1] == body[|body| - 1];
    StripUnspaced(s);
    if negative {
      assert s[1..] == body;
    } else {
      assert s == body;
    }
    SignedLiteral(negative, body);
  }

  /**
   * An optionally signed run of digits, optionally with a point and a
   * fractional part, denotes all its digits read as one integer and scaled
   * down by ten for each digit after the point.
   */
  lemma DecimalLiteral(whole: string, fraction: string, negative: bool)
    requires whole != "" && AllDigits(whole) && AllDigits(fraction)
    ensures var s := (if negative then "-" else "") + whole + (if fraction == "" then "" else "." + fraction);
      ParseFloat(s) == Some(Finite(SignedMagnitude(negative, Decimal(whole + fraction, -|fraction|))))
  {
    var body := whole + (if fraction == "" then "" else "." + fraction);
    assert (if negative then "-" else "") + whole + (if fraction == "" then "" else "." + fraction)
      == (if negative then "-" else "") + body;
    LiteralCharacters(whole, fraction);
    UnsignedWithoutExponent(body);
    MantissaOfDigits(whole, fraction);
    SignedDecimal(negative, body, Decimal(whole + fraction, -|fraction|));
  }

  /** A signed literal whose unsigned part parses as `d` denotes `d` with the sign applied. */
  lemma SignedDecimal(negative: bool, body: string, d: Decimal)
    requires body != "" && IsDigit(body[0]) && IsDigit(body[|body| - 1])
    requires ParseUnsigned(body) == Some(d)
    ensures ParseFloat((if negative then "-" else "") + body) == Some(Finite(SignedMagnitude(negative, d)))
  {
    SignedDigits(negative, body);
  }

  /** A string that is its own strip parses as its sign and body do. */
  lemma StrippedText(s: string)
    requires Strip(s) == s
    ensures ParseFloat(s) == ParseSigned(s)
  {
  }

  /** The coordinates of a masjid written as text convert as Python converts them. */
  lemma CoordinateTextExamples()
    ensures ParseFloat("34.05") == Some(Finite(34.05))
    ensures ParseFloat("-118.24") == Some(Finite(-118.24))
  {
    LatitudeText();
    LongitudeText();
  }

  lemma LatitudeText()
    ensures ParseFloat("34.05") == Some(Finite(34.05))
  {
    DecimalLiteral("34", "05", false);
    LatitudeSpelling();
    LatitudeValue();
  }

  lemma LatitudeSpelling()
    ensures (if false then "-" else "") + "34" + (if "05" == "" then "" else "." + "05") == "34.05"
    ensures "34" + "05" == "3405"
  {
  }

  lemma LatitudeValue()
    ensures SignedMagnitude(false, Decimal("3405", -2)) == 34.05
  {
    assert "3405"[..3] == "340" && "340"[..2] == "34" && "34"[..1] == "3" && "3"[..0] == "";
    assert DigitsValue("3405") == 3405;
    assert Magnitude(Decimal("3405", -1)) == 340.5;
  }

  lemma LongitudeText()
    ensures ParseFloat("-118.24") == Some(Finite(-118.24))
  {
    DecimalLiteral("118", "24", true);
    LongitudeSpelling();
    LongitudeValue();
  }

  lemma LongitudeSpelling()
    ensures (if true then "-" else "") + "118" + (if "24" == "" then "" else "." + "24") == "-118.24"
    ensures "118" + "24" == "11824"
  {
  }

  lemma LongitudeValue()
    ensures SignedMagnitude(true, Decimal("11824", -2)) == -118.24
  {
    assert "11824"[..4] == "1182" && "1182"[..3] == "118" && "118"[..2] == "11" && "11"[..1] == "1" && "1"[..0] == "";
    assert DigitsValue("11824") == 11824;
    assert Magnitude(Decimal("11824", -1)) == 1182.4;
  }

  /** Letters that spell no number are refused. */
  lemma LettersRefused()
    ensures ParseFloat("abc") == None
  {
    StripUnspaced("abc");
    StrippedText("abc");
    LettersUnsigned();
    LettersNoWord();
  }

  lemma LettersUnsigned()
    ensures ParseSigned("abc") == Signed(false, "abc")
  {
  }

  lemma LettersNoWord()
    ensures Signed(false, "abc") == None
  {
    LowerOfLowercase("abc");
    LettersNoLiteral();
  }

  lemma LettersNoLiteral()
    ensures ParseUnsigned("abc") == None
  {
    LowerOfLowercase("abc");
    assert IndexOf("abc", 'e') == -1;
    assert IndexOf("abc", '.') == -1;
    assert !IsDigitPart("abc");
  }

  /** The empty string, and so a blank one, is refused. */
  lemma EmptyRefused()
    ensures ParseFloat("") == None
  {
    assert Strip("") == "";
  }

  /** Nothing after the sign is no number. */
  lemma EmptyBody()
    ensures ParseSigned("") == None
  {
    assert Lower("") == "";
    assert IndexOf("", '.') == -1;
  }
}
