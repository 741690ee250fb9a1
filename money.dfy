/**
 * Python's `decimal.Decimal` as the catalog and the cart use it: parsing a
 * price literal, `quantize(Decimal('0.01'), rounding=ROUND_HALF_UP)`,
 * multiplication, and the two ways amounts are rendered with two decimals
 * (`f"{float(d):.2f}"` on an already quantized value, and `f"{d:.2f}"`, which
 * rounds half to even).
 */
module Money {
  import opened Wrappers
  import opened Text

  /** A decimal number: a sign, a coefficient and the number of digits after the point. */
  datatype Dec = Dec(negative: bool, coefficient: nat, scale: nat)

  /** The exact value of a decimal. */
  function Value(d: Dec): real {
    (if d.negative then -1.0 else 1.0) * (d.coefficient as real) / (Pow10(d.scale) as real)
  }

  /** `Decimal(n)` for an integer `n`. */
  function IntDec(n: int): (d: Dec)
    ensures d.scale == 0
  {
    Dec(n < 0, if n < 0 then -n else n, 0)
  }

  /** A value held in whole cents, as a decimal with two digits after the point. */
  function CentsDec(c: int): (d: Dec)
    ensures d.scale == 2
  {
    Dec(c < 0, if c < 0 then -c else c, 2)
  }

  /** A whole number of cents is worth that number over a hundred. */
  lemma ValueOfCents(c: int)
    ensures Value(CentsDec(c)) == (c as real) / 100.0
  {
    assert Pow10(2) == 100;
  }

  /** Decimal multiplication: exact, the sign is the exclusive or of the signs. */
  function Mul(a: Dec, b: Dec): Dec {
    Dec(a.negative != b.negative, a.coefficient * b.coefficient, a.scale + b.scale)
  }

  /** An unsigned literal: digits with at most one decimal point and at least one digit. */
  function ParseUnsigned(body: string): (r: Option<Dec>)
    ensures r.Some? ==> |body| >= 1 && !r.value.negative
  {
    var whole := match Find(body, ".") case Some(i) => body[..i] case None => body;
    var fraction := match Find(body, ".") case Some(i) => body[i + 1..] case None => "";
    if AllDigits(whole) && AllDigits(fraction) && |whole| + |fraction| >= 1 then
      AllDigitsAppend(whole, fraction);
      Some(Dec(false, DigitsValue(whole + fraction), |fraction|))
    else
      None
  }

  /**
   * `Decimal(s)` for the plain literals a price file holds: an optional sign,
   * then an unsigned literal.
   */
  function ParseDecimal(s: string): (r: Option<Dec>)
    ensures r.Some? ==> |s| >= 1
  {
    var signed := |s| >= 1 && (s[0] == '-' || s[0] == '+');
    match ParseUnsigned(if signed then s[1..] else s)
    case None => None
    case Some(d) => Some(d.(negative := signed && s[0] == '-'))
  }

  // ---------------------------------------------------------------- rounding

  /** The magnitude `m / 10^scale` in whole cents, ties going up. */
  function RoundHalfUp(m: nat, scale: nat): int {
    if scale <= 2 then m * Pow10(2 - scale)
    else
      var q := Pow10(scale - 2);
      m / q + (if 2 * (m % q) >= q then 1 else 0)
  }

  /** `d.quantize(Decimal('0.01'), rounding=ROUND_HALF_UP)`, in cents. */
  function Quantize(d: Dec): int {
    var c: int := RoundHalfUp(d.coefficient, d.scale);
    if d.negative then -c else c
  }

  /**
   * ROUND_HALF_UP on magnitudes: the cents value is at most half a cent from
   * the exact value `m / 10^scale`, and a value exactly half-way is rounded up.
   * With `P = 10^scale` and `n = 100 m` this reads `-P < 2 (c P - n) <= P`.
   */
  lemma RoundHalfUpNearest(m: nat, scale: nat)
    ensures var c, p := RoundHalfUp(m, scale), Pow10(scale);
      -(p as int) < 2 * (c * p - m * 100) <= p
  {
    var c, p := RoundHalfUp(m, scale), Pow10(scale);
    if scale <= 2 {
      assert Pow10(0) == 1 && Pow10(1) == 10 && Pow10(2) == 100;
      ExactStep(m, Pow10(2 - scale), p, c);
    } else {
      var q := Pow10(scale - 2);
      assert Pow10(scale - 1) == 10 * q;
      assert p == 10 * Pow10(scale - 1);
      HalfUpStep(m, q, p, c);
    }
  }

  lemma ExactStep(m: int, k: int, p: int, c: int)
    requires k * p == 100 && c == m * k
    ensures c * p == m * 100
  {
    assert c * p == m * (k * p);
  }

  lemma HalfUpStep(m: int, q: int, p: int, c: int)
    requires m >= 0 && q >= 1 && p == q * 100
    requires c == m / q + (if 2 * (m % q) >= q then 1 else 0)
    ensures -p < 2 * (c * p - m * 100) <= p
  {
    var a, b := m / q, m % q;
    assert m == a * q + b && 0 <= b < q;
    var e := if 2 * b >= q then 1 else 0;
    assert c * p == (a + e) * q * 100;
    assert m * 100 == a * q * 100 + b * 100;
    assert (a + e) * q * 100 == a * q * 100 + e * q * 100;
    assert c * p - m * 100 == 100 * (e * q - b);
  }

  /**
   * Quantizing is rounding to the nearest cent with ties away from zero: with
   * `n` the signed value in hundredths of a `10^scale`-th, `2 |cP - n| <= P`,
   * and on a tie `|c| P > |n|`.
   */
  lemma QuantizeNearest(d: Dec)
    ensures var c, p := Quantize(d), Pow10(d.scale) as int;
      var n := (if d.negative then -1 else 1) * (d.coefficient as int) * 100;
      -p <= 2 * (c * p - n) <= p &&
      ((2 * (c * p - n) == p || 2 * (c * p - n) == -p) ==>
        (if c < 0 then -c else c) * p > (if n < 0 then -n else n))
  {
    var m := d.coefficient;
    var c0, p := RoundHalfUp(m, d.scale), Pow10(d.scale) as int;
    RoundHalfUpNearest(m, d.scale);
    RoundHalfUpNonNegative(m, d.scale);
    assert Quantize(d) == if d.negative then -c0 else c0;
    assert (if d.negative then -1 else 1) * (m as int) * 100 == if d.negative then -((m as int) * 100) else (m as int) * 100;
    SignedNearest(c0, p, m * 100, d.negative);
  }

  /** The nearest-cent bounds carry over from magnitudes to signed values. */
  lemma SignedNearest(c0: int, p: int, n0: int, neg: bool)
    requires c0 >= 0 && n0 >= 0 && p >= 1 && -p < 2 * (c0 * p - n0) <= p
    ensures var c, n := (if neg then -c0 else c0), (if neg then -n0 else n0);
      -p <= 2 * (c * p - n) <= p &&
      ((2 * (c * p - n) == p || 2 * (c * p - n) == -p) ==> (if c < 0 then -c else c) * p > (if n < 0 then -n else n))
  {
    var cp := c0 * p;
    if neg {
      assert (-c0) * p == -cp;
    }
  }

  lemma RoundHalfUpNonNegative(m: nat, scale: nat)
    ensures RoundHalfUp(m, scale) >= 0
  {
    if scale > 2 {
      assert Pow10(scale - 2) >= 1;
    }
  }

  /** A value that already has two digits after the point quantizes to itself. */
  lemma QuantizeScale2(d: Dec)
    requires d.scale == 2
    ensures Quantize(d) == (if d.negative then -(d.coefficient as int) else d.coefficient as int)
  {
  }

  /**
   * `(price * Decimal(quantity)).quantize(...)` never rounds: a price in cents
   * times a whole quantity is already a whole number of cents.
   */
  lemma QuantizeProductExact(cents: int, quantity: int)
    ensures Quantize(Mul(CentsDec(cents), IntDec(quantity))) == cents * quantity
  {
    var a := if cents < 0 then -cents else cents;
    var b := if quantity < 0 then -quantity else quantity;
    var d := Mul(CentsDec(cents), IntDec(quantity));
    assert d.scale == 2;
    QuantizeScale2(d);
    assert d.coefficient == a * b;
    if cents < 0 && quantity < 0 {
      assert cents * quantity == a * b;
    } else if cents < 0 {
      assert cents * quantity == -(a * b);
    } else if quantity < 0 {
      assert cents * quantity == -(a * b);
    } else {
      assert cents * quantity == a * b;
    }
  }

  // ---------------------------------------------------------------- rendering

  /** `f"{float(c / 100):.2f}"` for a value held in whole cents. */
  function FormatCents(c: int): (s: string)
    ensures |s| >= 4 && '$' !in s
    ensures !IsSpace(s[0]) && !IsSpace(s[|s| - 1])
    ensures (s[0] == '-') == (c < 0)
  {
    var a := if c < 0 then -c else c;
    var digits := NatStr(a / 100) + "." + [DigitChar(a % 100 / 10), DigitChar(a % 10)];
    assert IsDigit(digits[0]) && IsDigit(digits[|digits| - 1]);
    (if c < 0 then "-" else "") + digits
  }

  lemma FindPoint(w: string, f: string)
    requires AllDigits(w)
    ensures Find(w + "." + f, ".") == Some(|w|)
  {
    var body := w + "." + f;
    assert OccursAt(body, ".", |w|);
    forall j | 0 <= j < |w| ensures !OccursAt(body, ".", j) {
      assert body[j] == w[j];
    }
    FindIs(body, ".", |w|);
  }

  lemma ParseUnsignedPointed(w: string, f: string)
    requires |w| >= 1 && AllDigits(w) && AllDigits(f)
    ensures AllDigits(w + f)
    ensures ParseUnsigned(w + "." + f) == Some(Dec(false, DigitsValue(w + f), |f|))
  {
    var body := w + "." + f;
    FindPoint(w, f);
    assert body[..|w|] == w;
    assert body[|w| + 1..] == f;
    DigitsValueAppend(w, f);
  }

  /** `Decimal(sign + w + "." + f)` for digit strings `w` (not empty) and `f`. */
  lemma ParsePointed(negative: bool, w: string, f: string)
    requires |w| >= 1 && AllDigits(w) && AllDigits(f)
    ensures AllDigits(w + f)
    ensures ParseDecimal((if negative then "-" else "") + w + "." + f)
         == Some(Dec(negative, DigitsValue(w + f), |f|))
  {
    var body := w + "." + f;
    var s := (if negative then "-" else "") + body;
    assert s == (if negative then "-" else "") + w + "." + f;
    assert IsDigit(body[0]);
    assert (if |s| >= 1 && (s[0] == '-' || s[0] == '+') then s[1..] else s) == body;
    ParseUnsignedPointed(w, f);
  }

  lemma CentsDigits(a: nat)
    ensures var f := [DigitChar(a % 100 / 10), DigitChar(a % 10)];
      AllDigits(NatStr(a / 100) + f) && DigitsValue(NatStr(a / 100) + f) == a
  {
    var f := [DigitChar(a % 100 / 10), DigitChar(a % 10)];
    DigitsValueOfNatStr(a / 100);
    TwoDigits(a % 100 / 10, a % 10);
    AppendTwoDigits(NatStr(a / 100), f, a / 100, (a % 100 / 10) * 10 + a % 10);
    CentsSplit(a);
  }

  lemma TwoDigits(x: nat, y: nat)
    requires x < 10 && y < 10
    ensures AllDigits([DigitChar(x), DigitChar(y)])
    ensures DigitsValue([DigitChar(x), DigitChar(y)]) == x * 10 + y
  {
    var f := [DigitChar(x), DigitChar(y)];
    assert f[..1] == [f[0]];
    assert f[..1][..0] == [];
    assert DigitsValue(f[..1]) == x;
  }

  lemma AppendTwoDigits(w: string, f: string, x: nat, y: nat)
    requires AllDigits(w) && AllDigits(f) && |f| == 2
    requires DigitsValue(w) == x && DigitsValue(f) == y
    ensures AllDigits(w + f) && DigitsValue(w + f) == x * 100 + y
  {
    DigitsValueAppend(w, f);
    assert Pow10(2) == 100;
  }

  lemma CentsSplit(a: nat)
    ensures (a / 100) * 100 + ((a % 100 / 10) * 10 + a % 10) == a
  {
    var q, y := a / 100, a % 100;
    assert a == q * 100 + y && 0 <= y < 100;
    var t, u := y / 10, y % 10;
    assert y == t * 10 + u && 0 <= u < 10;
    assert a == (q * 10 + t) * 10 + u;
    assert a % 10 == u;
  }

  /** Reading a rendered amount back gives the same number of cents. */
  lemma ParseFormatCents(c: int)
    ensures ParseDecimal(FormatCents(c)) == Some(CentsDec(c))
    ensures Quantize(CentsDec(c)) == c
  {
    var a := if c < 0 then -c else c;
    var w := NatStr(a / 100);
    var f := [DigitChar(a % 100 / 10), DigitChar(a % 10)];
    assert AllDigits(w + f) && DigitsValue(w + f) == a by { CentsDigits(a); }
    assert ParseDecimal(FormatCents(c)) == Some(Dec(c < 0, DigitsValue(w + f), 2)) by {
      assert FormatCents(c) == (if c < 0 then "-" else "") + w + "." + f;
      ParsePointed(c < 0, w, f);
    }
    assert Pow10(0) == 1;
  }

  /**
   * `f"{d:.2f}"` on a Decimal: rounding to two digits with the default
   * context's ROUND_HALF_EVEN, given here for the exact value `x`.
   */
  function HalfEvenCents(x: real): (c: int)
    ensures -0.5 <= (c as real) - x * 100.0 <= 0.5
    ensures ((c as real) - x * 100.0 == 0.5 || (c as real) - x * 100.0 == -0.5) ==> c % 2 == 0
  {
    var y := x * 100.0;
    var f := y.Floor;
    if y - (f as real) > 0.5 then f + 1
    else if y - (f as real) < 0.5 then f
    else if f % 2 == 0 then f
    else f + 1
  }

  /** A value that is a whole number of cents is rendered without rounding. */
  lemma HalfEvenExact(c: int)
    ensures HalfEvenCents((c as real) / 100.0) == c
  {
    assert ((c as real) / 100.0) * 100.0 == c as real;
  }

  /** `f"{x:.2f}"` for a Decimal of exact value `x`. */
  function FormatAmount(x: real): string {
    FormatCents(HalfEvenCents(x))
  }
}
