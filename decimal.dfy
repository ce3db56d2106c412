/**
 * Exact decimal prices: reading a price field, rounding half-up to cents, and
 * printing a price with exactly two decimals.
 */
module Decimal {
  import opened Wrappers
  import opened Text

  /** The value of the digits after a decimal point: `0.d1 d2 ...`, in `[0, 1)`. */
  function FractionValue(frac: string): (v: real)
    requires AllDigits(frac)
    ensures 0.0 <= v < 1.0
  {
    if frac == [] then 0.0 else (DigitValue(frac[0]) as real + FractionValue(frac[1..])) / 10.0
  }

  /** The position of the first `c` in `s`, or `|s|` when there is none. */
  function IndexOf(s: string, c: char): (i: nat)
    ensures i <= |s|
    ensures i < |s| ==> s[i] == c
  {
    if s == [] then 0 else if s[0] == c then 0 else 1 + IndexOf(s[1..], c)
  }

  /** An unsigned decimal numeral `digits [. digits]` with at least one digit. */
  function ParseUnsigned(s: string): (r: Option<real>)
    ensures r.Some? ==> r.value >= 0.0
  {
    var k := IndexOf(s, '.');
    var whole := s[..k];
    var frac := if k < |s| then s[k + 1..] else [];
    if AllDigits(whole) && AllDigits(frac) && |whole| + |frac| > 0 then
      Some(PointValue(whole, frac))
    else
      None
  }

  /** The value of the digits `whole`, a point, and the digits `frac`. */
  function PointValue(whole: string, frac: string): (v: real)
    requires AllDigits(whole) && AllDigits(frac)
    ensures v >= 0.0
  {
    DigitsValue(whole) as real + FractionValue(frac)
  }

  /**
   * The price field as `Double.parseDouble` reads a plain decimal numeral: an optional
   * sign, then digits with at most one decimal point. `None` is a `NumberFormatException`.
   */
  function ParseDecimal(s: string): (r: Option<real>)
    ensures r.Some? ==> s != []
    ensures r.Some? && r.value < 0.0 ==> s[0] == '-'
  {
    if |s| > 0 && (s[0] == '+' || s[0] == '-') then
      match ParseUnsigned(s[1..])
      case None => None
      case Some(v) => Some(if s[0] == '-' then -v else v)
    else
      ParseUnsigned(s)
  }

  /**
   * `BigDecimal.setScale(2, RoundingMode.HALF_UP)` measured in cents: the nearest
   * whole number of cents, a tie going away from zero.
   */
  function RoundHalfUpCents(p: real): (c: int)
    ensures p >= 0.0 ==> 100.0 * p - 0.5 < c as real <= 100.0 * p + 0.5
    ensures p < 0.0 ==> 100.0 * p - 0.5 <= c as real < 100.0 * p + 0.5
  {
    if p >= 0.0 then (100.0 * p + 0.5).Floor else -((0.5 - 100.0 * p).Floor)
  }

  function Abs(x: real): real {
    if x < 0.0 then -x else x
  }

  /** Rounding is nearest-cent: no other whole number of cents is closer to the exact price. */
  lemma RoundHalfUpIsNearest(p: real, other: int)
    ensures Abs(RoundHalfUpCents(p) as real - 100.0 * p) <= 0.5
    ensures Abs(RoundHalfUpCents(p) as real - 100.0 * p) <= Abs(other as real - 100.0 * p)
  {
    var c := RoundHalfUpCents(p);
    var x := 100.0 * p;
    assert x - 0.5 <= c as real <= x + 0.5;
    if other < c {
      assert other as real <= c as real - 1.0;
    } else if other > c {
      assert other as real >= c as real + 1.0;
    }
  }

  /** A value exactly halfway between two cents rounds to the one of larger magnitude. */
  lemma RoundHalfUpTies(k: nat)
    ensures RoundHalfUpCents((k as real + 0.5) / 100.0) == k + 1
    ensures RoundHalfUpCents(-(k as real + 0.5) / 100.0) == -(k + 1)
  {
  }

  /** A price that is already a whole number of cents is left as it is. */
  lemma RoundHalfUpExact(c: int)
    ensures RoundHalfUpCents(c as real / 100.0) == c
  {
  }

  /** Rounding never decreases when the price grows. */
  lemma RoundHalfUpMonotone(p: real, q: real)
    requires p <= q
    ensures RoundHalfUpCents(p) <= RoundHalfUpCents(q)
  {
  }

  /** The price after HALF_UP rounding to two decimals, as an exact value. */
  function RoundToTwoDecimals(p: real): (r: real)
    ensures r == RoundHalfUpCents(p) as real / 100.0
    ensures -0.005 <= r - p <= 0.005
    ensures p >= 0.0 ==> r >= 0.0
  {
    RoundHalfUpCents(p) as real / 100.0
  }

  function TwoDigits(n: nat): (s: string)
    requires n < 100
    ensures |s| == 2 && AllDigits(s) && DigitsValue(s) == n
  {
    var s := [DigitChar(n / 10), DigitChar(n % 10)];
    assert s[..1] == [DigitChar(n / 10)] && s[..1][..0] == [];
    assert DigitsValue(s[..1]) == n / 10;
    s
  }

  /** A non-negative number of cents printed as the whole part, a point and exactly two decimals. */
  function CentsText(m: nat): (s: string)
    ensures |s| >= 4 && IsDigit(s[0]) && s[|s| - 3] == '.' && IsDigit(s[|s| - 2]) && IsDigit(s[|s| - 1])
  {
    var w := NatToString(m / 100);
    var t := TwoDigits(m % 100);
    assert (w + "." + t)[0] == w[0];
    w + "." + t
  }

  /**
   * `String.format("%.2f", c / 100)`: an optional minus sign, the whole part, a point
   * and exactly two decimals.
   */
  function FormatCents(c: int): (s: string)
    ensures |s| >= 4 && s[|s| - 3] == '.' && IsDigit(s[|s| - 2]) && IsDigit(s[|s| - 1])
    ensures IsDigit(s[0]) || (s[0] == '-' && c < 0)
  {
    if c < 0 then "-" + CentsText(-c) else CentsText(c)
  }

  /** The printed cents are digits and a point only. */
  lemma CentsTextCharacters(m: nat)
    ensures forall k :: 0 <= k < |CentsText(m)| ==> IsDigit(CentsText(m)[k]) || CentsText(m)[k] == '.'
  {
    var w := NatToString(m / 100);
    var t := TwoDigits(m % 100);
    var s := w + "." + t;
    forall k | 0 <= k < |s| ensures IsDigit(s[k]) || s[k] == '.' {
      if k < |w| {
        assert s[k] == w[k];
      } else if k > |w| {
        assert s[k] == t[k - |w| - 1];
      }
    }
  }

  /** A printed price has no surrounding blanks and no comma, so it is a clean CSV field. */
  lemma FormatCentsFieldShape(c: int)
    ensures IsTrimFixed(FormatCents(c)) && ',' !in FormatCents(c)
  {
    var m: nat := if c < 0 then -c else c;
    CentsTextCharacters(m);
    var s := FormatCents(c);
    forall k | 0 <= k < |s| ensures s[k] != ',' {
      if c < 0 && k > 0 {
        assert s[k] == CentsText(m)[k - 1];
      }
    }
  }

  /** Round trip of the unsigned part: the printed cents read back as that many hundredths. */
  lemma UnsignedBody(m: nat)
    ensures ParseUnsigned(CentsText(m)) == Some(m as real / 100.0)
  {
    var q := m / 100;
    var r := m % 100;
    var w := NatToString(q);
    var t := TwoDigits(r);
    assert CentsText(m) == w + "." + t;
    NatToStringValue(q);
    UnsignedOfPointed(w, t);
    assert PointValue(w, t) == q as real + r as real / 100.0 by {
      TwoDigitsFraction(r);
      assert DigitsValue(w) == q;
    }
    assert 100 * q + r == m;
    assert q as real + r as real / 100.0 == m as real / 100.0;
  }

  /** Two printed decimals `d1 d2` are worth `(10 * d1 + d2) / 100`. */
  lemma TwoDigitsFraction(r: nat)
    requires r < 100
    ensures FractionValue(TwoDigits(r)) == r as real / 100.0
  {
    var t := TwoDigits(r);
    assert t[1..][1..] == [];
    assert FractionValue(t[1..]) == DigitValue(t[1]) as real / 10.0;
    assert DigitValue(t[0]) == r / 10 && DigitValue(t[1]) == r % 10;
  }

  /** A digit string, a point and a digit string read as whole part plus scaled fraction. */
  lemma UnsignedOfPointed(w: string, t: string)
    requires AllDigits(w) && AllDigits(t) && |w| > 0
    ensures ParseUnsigned(w + "." + t) == Some(PointValue(w, t))
  {
    var s := w + "." + t;
    PointAfterDigits(w, t);
    var k := IndexOf(s, '.');
    assert k == |w| < |s|;
    assert s[..k] == w;
    assert s[k + 1..] == t;
    ParseUnsignedParts(s, w, t);
  }

  /** `ParseUnsigned` once the parts on either side of the first point are known. */
  lemma ParseUnsignedParts(s: string, w: string, t: string)
    requires IndexOf(s, '.') < |s|
    requires s[..IndexOf(s, '.')] == w && s[IndexOf(s, '.') + 1..] == t
    requires AllDigits(w) && AllDigits(t) && |w| > 0
    ensures ParseUnsigned(s) == Some(PointValue(w, t))
  {
  }

  /** The first point in `w + "." + t` is the one after the digits `w`. */
  lemma PointAfterDigits(w: string, t: string)
    requires AllDigits(w)
    ensures IndexOf(w + "." + t, '.') == |w|
  {
    var s := w + "." + t;
    assert s[|w|] == '.';
    forall k | 0 <= k < |w| ensures s[k] != '.' {
      assert s[k] == w[k];
      assert IsDigit(w[k]);
    }
    IndexOfFirst(s, '.', |w|);
  }

  lemma {:induction false} IndexOfFirst(s: string, c: char, i: nat)
    requires i < |s| && s[i] == c
    requires forall k :: 0 <= k < i ==> s[k] != c
    ensures IndexOf(s, c) == i
  {
    if i > 0 {
      IndexOfFirst(s[1..], c, i - 1);
    }
  }

  /** Round trip: reading back a printed price gives exactly that many cents. */
  lemma ParseFormatCents(c: int)
    ensures ParseDecimal(FormatCents(c)) == Some(c as real / 100.0)
  {
    if c < 0 {
      ParseFormatNegative(c);
    } else {
      ParseFormatNonNegative(c);
    }
  }

  lemma ParseFormatNegative(c: int)
    requires c < 0
    ensures ParseDecimal(FormatCents(c)) == Some(c as real / 100.0)
  {
    var m: nat := -c;
    NegativeFormat(c, m);
    NegatedCents(c, m);
  }

  /** The cents of `-c`, printed after a minus sign, read back as `c / 100`. */
  lemma NegatedCents(c: int, m: nat)
    requires c < 0 && m == -c
    ensures ParseDecimal("-" + CentsText(m)) == Some(c as real / 100.0)
  {
    UnsignedBody(m);
    ParseNegated(CentsText(m), m as real / 100.0, c as real / 100.0);
  }

  lemma NegativeFormat(c: int, m: nat)
    requires c < 0 && m == -c
    ensures FormatCents(c) == "-" + CentsText(m)
  {
  }

  lemma ParseFormatNonNegative(c: nat)
    ensures ParseDecimal(FormatCents(c)) == Some(c as real / 100.0)
  {
    UnsignedBody(c);
    ParseUnsignedDigitFirst(CentsText(c));
  }

  /** A numeral that starts with a digit has no sign to read. */
  lemma ParseUnsignedDigitFirst(s: string)
    requires s != [] && IsDigit(s[0])
    ensures ParseDecimal(s) == ParseUnsigned(s)
  {
  }

  /** A minus sign negates the numeral after it: `w` is the negated value. */
  lemma ParseNegated(s: string, v: real, w: real)
    requires ParseUnsigned(s) == Some(v) && w == -v
    ensures ParseDecimal("-" + s) == Some(w)
  {
    assert ("-" + s)[1..] == s;
  }

}
