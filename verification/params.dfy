/** Schema-lite coercion of path parameters: `src/params.rs`. */
module Params {
  import opened Decimal
  import opened Numbers

  /** What a path segment becomes on the Python side. A float keeps the exact decimal value
      of its literal. */
  datatype ParamValue = BoolParam(b: bool) | IntParam(i: int) | FloatParam(x: real) | StrParam(s: string)

  predicate FitsI64(i: int) {
    I64_MIN <= i <= I64_MAX
  }

  predicate IsValidIntegerLiteral(s: string) {
    if s == "" then false
    else
      var isNeg := s[0] == '-';
      var digits := if isNeg then s[1..] else s;
      if digits == "" then false
      else if |digits| > 1 && digits[0] == '0' then false
      else if isNeg && digits == "0" then false
      else AllDigits(digits)
  }

  /** Number of `sep` in `s`. */
  function CountOf(s: string, sep: char): nat {
    if s == "" then 0 else (if s[0] == sep then 1 else 0) + CountOf(s[1..], sep)
  }

  /** Index of the first `sep`, or the length of the string. */
  function IndexOf(s: string, sep: char): (i: nat)
    ensures i <= |s|
    ensures i < |s| ==> s[i] == sep
    ensures sep !in s[..i]
  {
    if s == "" || s[0] == sep then 0 else
      var j := IndexOf(s[1..], sep);
      assert s[..j + 1] == [s[0]] + s[1..][..j];
      j + 1
  }

  function Unsigned(s: string): string {
    if s != "" && s[0] == '-' then s[1..] else s
  }

  predicate IsValidFloatLiteral(s: string) {
    if s == "" then false
    else
      var digits := Unsigned(s);
      if CountOf(digits, '.') != 1 then false
      else
        var dot := IndexOf(digits, '.');
        if dot == |digits| then false else
        var intPart, fracPart := digits[..dot], digits[dot + 1..];
        if intPart == "" || fracPart == "" then false
        else if |intPart| > 1 && intPart[0] == '0' then false
        else AllDigits(intPart) && AllDigits(fracPart)
  }

  function Pow10(n: nat): nat {
    if n == 0 then 1 else 10 * Pow10(n - 1)
  }

  lemma Pow10Positive(n: nat)
    ensures Pow10(n) > 0
  {}

  /** `str::parse::<i64>` on a literal already known to be well formed. */
  function ParseI64(s: string): (i: int)
    requires IsValidIntegerLiteral(s)
  {
    if s[0] == '-' then 0 - ReadNat(s[1..]) else ReadNat(s)
  }

  /** `str::parse::<f64>` before rounding. */
  function ParseDecimal(s: string): real
    requires IsValidFloatLiteral(s)
  {
    var digits := Unsigned(s);
    var dot := IndexOf(digits, '.');
    var fracPart := digits[dot + 1..];
    Pow10Positive(|fracPart|);
    var magnitude := ReadNat(digits[..dot]) as real + ReadNat(fracPart) as real / Pow10(|fracPart|) as real;
    if s[0] == '-' then -magnitude else magnitude
  }

  /** `value_for_path_param`. */
  function ValueForPathParam(s: string): ParamValue {
    if s == "true" then BoolParam(true)
    else if s == "false" then BoolParam(false)
    else if IsValidIntegerLiteral(s) && FitsI64(ParseI64(s)) then IntParam(ParseI64(s))
    else if IsValidFloatLiteral(s) then FloatParam(ParseDecimal(s))
    else StrParam(s)
  }

  lemma PrintedIsLiteral(i: int)
    ensures IsValidIntegerLiteral(PrintInt(i)) && ParseI64(PrintInt(i)) == i
  {
    var s := PrintInt(i);
    if i < 0 {
      ReadAfterPrint(-i);
      assert s[1..] == PrintNat(-i);
    } else {
      ReadAfterPrint(i);
    }
  }

  lemma LiteralIsPrinted(s: string)
    requires IsValidIntegerLiteral(s)
    ensures PrintInt(ParseI64(s)) == s
  {
    if s[0] == '-' {
      PrintAfterRead(s[1..]);
      assert s == "-" + s[1..];
    } else {
      PrintAfterRead(s);
    }
  }

  /** The accepted literals are exactly the printed integers. */
  lemma IntegerLiteralIsPrintedInteger(s: string)
    ensures IsValidIntegerLiteral(s) ==> PrintInt(ParseI64(s)) == s
    ensures forall i :: s == PrintInt(i) ==> IsValidIntegerLiteral(s) && ParseI64(s) == i
  {
    if IsValidIntegerLiteral(s) {
      LiteralIsPrinted(s);
    }
    forall i | s == PrintInt(i) ensures IsValidIntegerLiteral(s) && ParseI64(s) == i {
      PrintedIsLiteral(i);
    }
  }

  /** A segment becomes the integer `i` exactly when it is the canonical decimal printing of
      `i` and `i` fits in 64 bits; printing is therefore inverse to coercion both ways. */
  lemma CoercedToIntegerExactly(s: string, i: int)
    ensures ValueForPathParam(s) == IntParam(i) <==> s == PrintInt(i) && FitsI64(i)
  {
    IntegerLiteralIsPrintedInteger(s);
    if s == PrintInt(i) {
      assert s != "true" && s != "false" by {
        assert IsValidIntegerLiteral(s);
        assert s[0] == '-' || IsDigit(s[0]);
      }
    }
  }

  /** Two distinct segments never collide on one integer. */
  lemma DistinctSegmentsDistinctIntegers(s: string, t: string)
    requires ValueForPathParam(s).IntParam? && ValueForPathParam(s) == ValueForPathParam(t)
    ensures s == t
  {
    CoercedToIntegerExactly(s, ValueForPathParam(s).i);
    CoercedToIntegerExactly(t, ValueForPathParam(s).i);
  }

  /** An optional minus sign, a canonical integer part, a point and at least one digit. */
  predicate FloatShape(s: string, neg: bool, intPart: string, fracPart: string) {
    && s == (if neg then "-" else "") + intPart + "." + fracPart
    && Canonical(intPart)
    && fracPart != "" && AllDigits(fracPart)
  }

  lemma {:induction false} NoneOf(s: string, sep: char)
    requires sep !in s
    ensures CountOf(s, sep) == 0 && IndexOf(s, sep) == |s|
  {
    if s != "" {
      NoneOf(s[1..], sep);
    }
  }

  lemma {:induction false} CountAround(a: string, sep: char, b: string)
    requires sep !in a
    ensures CountOf(a + [sep] + b, sep) == 1 + CountOf(b, sep)
    ensures IndexOf(a + [sep] + b, sep) == |a|
  {
    var s := a + [sep] + b;
    if a == "" {
      assert s[1..] == b;
    } else {
      assert s[1..] == a[1..] + [sep] + b;
      CountAround(a[1..], sep, b);
    }
  }

  lemma LiteralHasShape(s: string)
    requires IsValidFloatLiteral(s)
    ensures exists neg, intPart, fracPart :: FloatShape(s, neg, intPart, fracPart)
  {
    var digits := Unsigned(s);
    var dot := IndexOf(digits, '.');
    var intPart, fracPart := digits[..dot], digits[dot + 1..];
    assert digits == intPart + "." + fracPart;
    var neg := s[0] == '-';
    var sign := if neg then "-" else "";
    assert s == sign + digits;
    SignedParts(sign, intPart, fracPart);
    assert FloatShape(s, neg, intPart, fracPart);
  }

  lemma SignedParts(sign: string, intPart: string, fracPart: string)
    ensures sign + (intPart + "." + fracPart) == sign + intPart + "." + fracPart
  {}

  lemma ShapeIsUnsigned(s: string, neg: bool, intPart: string, fracPart: string)
    requires FloatShape(s, neg, intPart, fracPart)
    ensures Unsigned(s) == intPart + "." + fracPart
  {
    if neg {
      assert s[0] == '-' && s[1..] == intPart + "." + fracPart;
    } else {
      assert s[0] == intPart[0] && s == intPart + "." + fracPart;
    }
  }

  lemma ShapeIsLiteral(s: string, neg: bool, intPart: string, fracPart: string)
    requires FloatShape(s, neg, intPart, fracPart)
    ensures IsValidFloatLiteral(s)
  {
    ShapeIsUnsigned(s, neg, intPart, fracPart);
    assert '.' !in intPart && '.' !in fracPart;
    CountAround(intPart, '.', fracPart);
    NoneOf(fracPart, '.');
    var digits := Unsigned(s);
    assert digits[..|intPart|] == intPart && digits[|intPart| + 1..] == fracPart;
  }

  /** The float branch accepts the grammar `-? int . digit+` and nothing else: no exponent,
      no bare point, no `nan` or `inf`, no leading zero. */
  lemma FloatLiteralShape(s: string)
    ensures IsValidFloatLiteral(s) <==>
            exists neg, intPart, fracPart :: FloatShape(s, neg, intPart, fracPart)
  {
    if IsValidFloatLiteral(s) {
      LiteralHasShape(s);
    }
    forall neg, intPart, fracPart | FloatShape(s, neg, intPart, fracPart) ensures IsValidFloatLiteral(s) {
      ShapeIsLiteral(s, neg, intPart, fracPart);
    }
  }

  /** Text that is no boolean and fits neither grammar reaches the handler unchanged, and only
      such text does: leading zeros, a plus sign, 64-bit overflow and the like stay strings. */
  lemma KeptAsTextExactly(s: string)
    ensures ValueForPathParam(s).StrParam? <==>
            && s !in {"true", "false"}
            && (forall i | FitsI64(i) :: s != PrintInt(i))
            && !(exists neg, intPart, fracPart :: FloatShape(s, neg, intPart, fracPart))
    ensures ValueForPathParam(s).StrParam? ==> ValueForPathParam(s).s == s
  {
    FloatLiteralShape(s);
    IntegerLiteralIsPrintedInteger(s);
    forall i | FitsI64(i) && s == PrintInt(i)
      ensures !ValueForPathParam(s).StrParam?
    {
      CoercedToIntegerExactly(s, i);
    }
    if !ValueForPathParam(s).StrParam? && ValueForPathParam(s).IntParam? {
      CoercedToIntegerExactly(s, ValueForPathParam(s).i);
    }
  }

  // ---- The value of a float ----------------------------------------------------------------------

  /** Digits in a row are read as the first ones shifted by the others. */
  lemma {:induction false} DigitsInARow(a: string, b: string)
    requires AllDigits(a) && AllDigits(b)
    ensures AllDigits(a + b) && ReadNat(a + b) == ReadNat(a) * Pow10(|b|) + ReadNat(b)
  {
    if b == "" {
      assert a + b == a;
    } else {
      var s, front := a + b, b[..|b| - 1];
      assert s[..|s| - 1] == a + front && s[|s| - 1] == b[|b| - 1];
      DigitsInARow(a, front);
      assert ReadNat(s) == 10 * ReadNat(a + front) + DigitValue(b[|b| - 1]);
      Shift(ReadNat(a), Pow10(|front|));
    }
  }

  lemma Shift(a: int, p: int)
    ensures 10 * (a * p) == a * (10 * p)
  {}

  /** A fraction over `p` with its whole part. */
  lemma MixedFraction(whole: int, part: int, p: int, sum: int)
    requires p > 0 && sum == whole * p + part
    ensures sum as real / p as real == whole as real + part as real / p as real
  {
    var q := p as real;
    assert (whole * p) as real == whole as real * q;
    assert (whole as real * q) / q == whole as real;
    assert sum as real / q == (whole as real * q) / q + part as real / q;
  }

  /** The digits of a float, the point left out, over the power of ten of those after the point. */
  function FloatOf(neg: bool, intPart: string, fracPart: string): real
    requires AllDigits(intPart + fracPart)
  {
    Pow10Positive(|fracPart|);
    var magnitude := ReadNat(intPart + fracPart) as real / Pow10(|fracPart|) as real;
    if neg then -magnitude else magnitude
  }

  lemma SplitAtPoint(s: string, neg: bool, intPart: string, fracPart: string)
    requires FloatShape(s, neg, intPart, fracPart)
    ensures var digits := Unsigned(s);
            && IndexOf(digits, '.') == |intPart|
            && digits[..|intPart|] == intPart && digits[|intPart| + 1..] == fracPart
            && (s[0] == '-' <==> neg)
  {
    ShapeIsUnsigned(s, neg, intPart, fracPart);
    assert '.' !in intPart;
    CountAround(intPart, '.', fracPart);
    if !neg {
      assert s[0] == intPart[0];
    }
  }

  lemma FloatValue(s: string, neg: bool, intPart: string, fracPart: string)
    requires FloatShape(s, neg, intPart, fracPart) && IsValidFloatLiteral(s)
    ensures AllDigits(intPart + fracPart) && ParseDecimal(s) == FloatOf(neg, intPart, fracPart)
  {
    SplitAtPoint(s, neg, intPart, fracPart);
    DigitsInARow(intPart, fracPart);
    Pow10Positive(|fracPart|);
    MixedFraction(ReadNat(intPart), ReadNat(fracPart), Pow10(|fracPart|), ReadNat(intPart + fracPart));
  }

  /** `true` and `false` are the only booleans, and a float has the value of its digits. */
  lemma CoercedByShape(s: string)
    ensures ValueForPathParam("true") == BoolParam(true) && ValueForPathParam("false") == BoolParam(false)
    ensures ValueForPathParam(s).BoolParam? ==> s == "true" || s == "false"
    ensures ValueForPathParam(s).FloatParam? ==>
              exists neg, intPart, fracPart ::
                FloatShape(s, neg, intPart, fracPart) && AllDigits(intPart + fracPart)
                && ValueForPathParam(s).x == FloatOf(neg, intPart, fracPart)
  {
    if ValueForPathParam(s).FloatParam? {
      LiteralHasShape(s);
      var neg, intPart, fracPart :| FloatShape(s, neg, intPart, fracPart);
      FloatValue(s, neg, intPart, fracPart);
    }
  }
}
