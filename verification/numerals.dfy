/** Numbers as the rent advisor reads and rounds them: Python's `float()` on
    plain decimal numerals, `round(x, 2)` and `int(x)`. Money is an exact
    `real`; binary floating point is not modelled (see README). */
module Numerals {
  import opened Wrappers
  import opened Text

  predicate IsDigit(c: char) { '0' <= c <= '9' }

  predicate AllDigits(s: string) {
    forall i :: 0 <= i < |s| ==> IsDigit(s[i])
  }

  function Pow10(n: nat): (r: nat)
    ensures r >= 1
  {
    if n == 0 then 1 else 10 * Pow10(n - 1)
  }

  lemma {:induction false} Pow10Monotone(a: nat, b: nat)
    requires a <= b
    ensures Pow10(a) <= Pow10(b)
    decreases b
  {
    if a < b {
      Pow10Monotone(a, b - 1);
    }
  }

  /** The value of a string of decimal digits, most significant first. */
  function DigitsValue(s: string): (v: nat)
    requires AllDigits(s)
    ensures v < Pow10(|s|)
  {
    if s == [] then 0
    else DigitsValue(s[..|s| - 1]) * 10 + (s[|s| - 1] as int - '0' as int)
  }

  /** Position of the first '.' in `s`, or `|s|` when there is none. */
  function DotIndex(s: string): (k: nat)
    ensures k <= |s|
    ensures forall i :: 0 <= i < k ==> s[i] != '.'
    ensures k < |s| ==> s[k] == '.'
  {
    if s == [] then 0
    else if s[0] == '.' then 0
    else 1 + DotIndex(s[1..])
  }

  /** An unsigned decimal numeral: digits, optionally one '.', more digits;
      at least one digit in all ("12", "12.5", "12.", ".5"). */
  function ParseUnsigned(s: string): (r: Option<real>)
    ensures r.Some? ==> r.value >= 0.0
  {
    var k := DotIndex(s);
    var whole := s[..k];
    var frac := if k < |s| then s[k + 1..] else "";
    if AllDigits(whole) && AllDigits(frac) && |whole| + |frac| > 0 then
      Some(DigitsValue(whole) as real + DigitsValue(frac) as real / Pow10(|frac|) as real)
    else None
  }

  /** A decimal numeral with an optional sign, as Python's `float()` reads
      it once surrounding whitespace is gone. */
  function ParseDecimal(s: string): Option<real>
  {
    if s != [] && (s[0] == '-' || s[0] == '+') then
      match ParseUnsigned(s[1..])
      case Some(v) => Some(if s[0] == '-' then -v else v)
      case None => None
    else ParseUnsigned(s)
  }

  /** Python's `float(s)` on text: surrounding whitespace is ignored, then a
      plain decimal numeral is required; `None` stands for `ValueError`. */
  function PyFloat(s: string): Option<real>
  {
    ParseDecimal(Strip(s))
  }

  /** A numeral needs a digit: text without any digit never parses. */
  lemma ParseNeedsDigit(s: string)
    requires forall i :: 0 <= i < |s| ==> !IsDigit(s[i])
    ensures ParseDecimal(s).None?
  {
    if s != [] && (s[0] == '-' || s[0] == '+') {
      NoDigitsUnsigned(s[1..]);
    } else {
      NoDigitsUnsigned(s);
    }
  }

  lemma NoDigitsUnsigned(s: string)
    requires forall i :: 0 <= i < |s| ==> !IsDigit(s[i])
    ensures ParseUnsigned(s).None?
  {
  }

  /** A non-empty string of digits reads as the whole number it spells. */
  lemma DigitsParse(s: string)
    requires s != [] && AllDigits(s)
    ensures ParseDecimal(s) == Some(DigitsValue(s) as real)
  {
    assert s[0] != '-' && s[0] != '+';
    NoDot(s);
    assert s[..DotIndex(s)] == s;
    assert DigitsValue("") == 0;
    assert ParseUnsigned(s) == Some(DigitsValue(s) as real + 0.0 / 1.0);
  }

  /** "1200" reads as 1200. */
  lemma TwelveHundred()
    ensures PyFloat("1200") == Some(1200.0)
  {
    StripStripped("1200");
    DigitsParse("1200");
    TwelveHundredDigits();
  }

  lemma TwelveHundredDigits()
    ensures AllDigits("1200") && DigitsValue("1200") == 1200
  {
    assert "1200"[..3] == "120" && "120"[..2] == "12" && "12"[..1] == "1" && "1"[..0] == "";
  }

  /** Digits, a '.', and digits read as the whole part plus the fraction
      scaled by the number of fraction digits. */
  lemma {:induction false} DecimalParse(w: string, f: string)
    requires AllDigits(w) && AllDigits(f) && |w| + |f| > 0
    ensures ParseDecimal(w + "." + f) ==
              Some(DigitsValue(w) as real + DigitsValue(f) as real / Pow10(|f|) as real)
  {
    var s := w + "." + f;
    DotAfterDigits(w, f);
    DecimalPieces(w, f);
    assert AllDigits(s[..|w|]) && AllDigits(s[|w| + 1..]);
    UnsignedAt(s, |w|);
    assert ParseUnsigned(s) == Some(DigitsValue(w) as real + DigitsValue(f) as real / Pow10(|f|) as real);
    Unsigned(s);
  }

  lemma DecimalPieces(w: string, f: string)
    requires AllDigits(w)
    ensures var s := w + "." + f;
            s[..|w|] == w && s[|w| + 1..] == f && s[0] != '-' && s[0] != '+'
  {
    var s := w + "." + f;
    if w != [] {
      assert s[0] == w[0];
    }
  }

  lemma Unsigned(s: string)
    requires s != [] && s[0] != '-' && s[0] != '+'
    ensures ParseDecimal(s) == ParseUnsigned(s)
  {
  }

  lemma {:induction false} UnsignedAt(s: string, k: nat)
    requires k < |s| && DotIndex(s) == k
    requires AllDigits(s[..k]) && AllDigits(s[k + 1..]) && |s| > 1
    ensures ParseUnsigned(s) == Some(DigitsValue(s[..k]) as real + DigitsValue(s[k + 1..]) as real / Pow10(|s| - k - 1) as real)
  {
    var frac := s[k + 1..];
    assert |frac| == |s| - k - 1;
    assert |s[..k]| + |frac| > 0;
  }

  lemma {:induction false} DotAfterDigits(w: string, f: string)
    requires AllDigits(w)
    ensures DotIndex(w + "." + f) == |w|
  {
    if w != [] {
      DotAfterDigits(w[1..], f);
      assert (w + "." + f)[1..] == w[1..] + "." + f;
    }
  }

  /** "1200.50" reads as 1200.5. */
  lemma TwelveHundredFifty()
    ensures PyFloat("1200.50") == Some(1200.5)
  {
    StripStripped("1200.50");
    TwelveHundredFiftyParse();
  }

  lemma TwelveHundredFiftyParse()
    ensures ParseDecimal("1200.50") == Some(1200.5)
  {
    TwelveHundredFiftySplit();
    TwelveHundredFiftyPieces("1200", "50");
  }

  lemma TwelveHundredFiftyPieces(w: string, f: string)
    requires w == "1200" && f == "50"
    ensures ParseDecimal(w + "." + f) == Some(1200.5)
  {
    TwelveHundredDigits();
    FiftyDigits();
    DecimalParse(w, f);
    assert Pow10(|f|) == 100;
  }

  lemma TwelveHundredFiftySplit()
    ensures "1200.50" == "1200" + "." + "50"
  {
  }

  lemma FiftyDigits()
    ensures AllDigits("50") && DigitsValue("50") == 50
  {
    assert "50"[..1] == "5" && "5"[..0] == "";
  }

  lemma NoDot(s: string)
    requires AllDigits(s)
    ensures DotIndex(s) == |s|
  {
    if s != [] {
      NoDot(s[1..]);
    }
  }

  /** Half-to-even rounding of `y` to an integer, as Python 3's `round`. */
  function RoundHalfEven(y: real): (n: int)
    ensures -0.5 <= n as real - y <= 0.5
    ensures (n as real - y == 0.5 || y - n as real == 0.5) ==> n % 2 == 0
  {
    var f := y.Floor;
    var d := y - f as real;
    if d < 0.5 then f
    else if d > 0.5 then f + 1
    else if f % 2 == 0 then f else f + 1
  }

  /** `round(x, 2)`: the nearest whole number of cents, ties to even. */
  function RoundCents(x: real): (r: real)
    ensures (r * 100.0).Floor as real == r * 100.0
    ensures -0.005 <= r - x <= 0.005
    ensures x >= 0.0 ==> r >= 0.0
  {
    var n := RoundHalfEven(x * 100.0);
    assert n as real / 100.0 * 100.0 == n as real;
    n as real / 100.0
  }

  /** A value already in whole cents is left alone by `RoundCents`. */
  lemma RoundCentsWhole(n: int)
    ensures RoundCents(n as real / 100.0) == n as real / 100.0
  {
    assert n as real / 100.0 * 100.0 == n as real;
  }

  /** Python's `int(x)`: truncation toward zero. */
  function TruncToInt(x: real): (n: int)
    ensures x >= 0.0 ==> 0.0 <= n as real <= x < n as real + 1.0
    ensures x < 0.0 ==> n as real - 1.0 < x <= n as real <= 0.0
  {
    if x >= 0.0 then x.Floor else -((-x).Floor)
  }
}
