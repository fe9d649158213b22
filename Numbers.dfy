/**
  The two numeric steps of a conversion: Python's `float(token)` on the
  amount token, for the decimal forms it accepts, and `round(x, 2)`.
 */
module Numbers {
  import opened Wrappers

  predicate IsDigit(c: char)
  {
    '0' <= c <= '9'
  }

  predicate AllDigits(s: string)
  {
    forall i :: 0 <= i < |s| ==> IsDigit(s[i])
  }

  function DigitValue(c: char): (d: nat)
    requires IsDigit(c)
    ensures d < 10
  {
    c as int - '0' as int
  }

  function DigitChar(d: nat): (c: char)
    requires d < 10
    ensures IsDigit(c) && DigitValue(c) == d
  {
    ('0' as int + d) as char
  }

  /** The value of a string of decimal digits, most significant first. */
  function DigitsValue(ds: string): nat
    requires AllDigits(ds)
    decreases |ds|
  {
    if ds == [] then 0 else DigitsValue(ds[..|ds| - 1]) * 10 + DigitValue(ds[|ds| - 1])
  }

  function Pow10(n: nat): (p: nat)
    ensures p >= 1
  {
    if n == 0 then 1 else 10 * Pow10(n - 1)
  }

  /** Ten to the power `e`, for an exponent of either sign. */
  function Scale(e: int): (f: real)
    ensures f > 0.0
  {
    if e >= 0 then Pow10(e) as real else 1.0 / Pow10(-e) as real
  }

  /** `v` times ten to the power `e`. */
  function Shift(v: real, e: int): (r: real)
    ensures v >= 0.0 ==> r >= 0.0
    ensures v == 0.0 <==> r == 0.0
  {
    v * Scale(e)
  }

  /** The first index in `s` holding `c` or `d`, or `|s|` when there is none. */
  function IndexOf(s: string, c: char, d: char): (k: nat)
    ensures k <= |s|
    ensures k < |s| ==> s[k] == c || s[k] == d
    ensures forall j :: 0 <= j < k ==> s[j] != c && s[j] != d
  {
    if s == [] || s[0] == c || s[0] == d then 0 else 1 + IndexOf(s[1..], c, d)
  }

  /** An optional leading sign: the factor it stands for and the rest. */
  function Sign(s: string): (int, string)
  {
    if s != [] && s[0] == '-' then (-1, s[1..])
    else if s != [] && s[0] == '+' then (1, s[1..])
    else (1, s)
  }

  /** `digits [. digits]` or `. digits`: at least one digit in all. */
  function Mantissa(m: string): (r: Option<real>)
    ensures r.Some? ==> r.value >= 0.0
    ensures r.Some? ==> m != [] && forall i :: 0 <= i < |m| ==> IsDigit(m[i]) || m[i] == '.'
  {
    var dot := IndexOf(m, '.', '.');
    var whole := m[..dot];
    var frac := if dot < |m| then m[dot + 1..] else "";
    if AllDigits(whole) && AllDigits(frac) && |whole| + |frac| > 0 then Some(Decimal(whole, frac))
    else None
  }

  /** The value of the numeral `whole.frac`: the whole digits plus the
      fraction digits scaled down by their count, so never below the whole
      part and always below the next whole number. */
  function Decimal(whole: string, frac: string): (v: real)
    requires AllDigits(whole) && AllDigits(frac)
    ensures DigitsValue(whole) as real <= v < DigitsValue(whole) as real + 1.0
    ensures frac == [] ==> v == DigitsValue(whole) as real
  {
    DigitsBelow(frac);
    FractionBelowOne(DigitsValue(frac) as real, Pow10(|frac|) as real);
    DigitsValue(whole) as real + DigitsValue(frac) as real / Pow10(|frac|) as real
  }

  lemma FractionBelowOne(d: real, p: real)
    requires 0.0 <= d < p
    ensures 0.0 <= d / p < 1.0
    ensures d == 0.0 ==> d / p == 0.0
  {
    var q := d / p;
    var r := 1.0 - q;
    assert q * p == d;
    assert r * p == p - d;
    assert r * p > 0.0;
    PositiveFactor(r, p);
  }

  lemma PositiveFactor(a: real, b: real)
    requires b > 0.0 && a * b > 0.0
    ensures a > 0.0
  {
  }

  /** `n` digits are worth less than ten to the `n`. */
  lemma {:induction false} DigitsBelow(ds: string)
    requires AllDigits(ds)
    ensures DigitsValue(ds) < Pow10(|ds|)
    decreases |ds|
  {
    if ds != [] {
      var init := ds[..|ds| - 1];
      assert AllDigits(init);
      DigitsBelow(init);
    }
  }

  /** `[sign] digits` after the exponent marker. */
  function Exponent(x: string): Option<int>
  {
    var (sign, ds) := Sign(x);
    if ds != [] && AllDigits(ds) then Some(sign * DigitsValue(ds)) else None
  }

  /** `mantissa [(e|E) [sign] digits]`: an unsigned decimal number. */
  function Unsigned(body: string): (r: Option<real>)
    ensures r.Some? ==> r.value >= 0.0
  {
    var e := IndexOf(body, 'E', 'e');
    var mantissa := Mantissa(body[..e]);
    var exponent := if e < |body| then Exponent(body[e + 1..]) else Some(0);
    if mantissa.Some? && exponent.Some? then Some(Shift(mantissa.value, exponent.value))
    else None
  }

  /** `float(t)` for the decimal forms Python accepts: `[sign] unsigned`. */
  function ParseFloat(t: string): (r: Option<real>)
  {
    var (sign, body) := Sign(t);
    match Unsigned(body)
    case Some(v) => Some(sign as real * v)
    case None => None
  }

  /** Whether `float(t)` succeeds. */
  predicate IsNumeric(t: string)
  {
    ParseFloat(t).Some?
  }

  /** The decimal numeral of `n`, without leading zeros. */
  function NatToString(n: nat): (s: string)
    ensures s != [] && AllDigits(s)
    ensures |s| > 1 ==> s[0] != '0'
  {
    if n < 10 then [DigitChar(n)] else NatToString(n / 10) + [DigitChar(n % 10)]
  }

  lemma {:induction false} DigitsOfNat(n: nat)
    ensures DigitsValue(NatToString(n)) == n
  {
    var s := NatToString(n);
    if n >= 10 {
      assert s[..|s| - 1] == NatToString(n / 10);
      DigitsOfNat(n / 10);
    } else {
      assert s[..|s| - 1] == [];
    }
  }

  lemma IndexOfAbsent(s: string, c: char, d: char)
    requires forall j :: 0 <= j < |s| ==> s[j] != c && s[j] != d
    ensures IndexOf(s, c, d) == |s|
  {
  }

  /** `float` reads back every numeral it could have printed for a whole
      number. */
  lemma ParseNatString(n: nat)
    ensures ParseFloat(NatToString(n)) == Some(n as real)
  {
    var s := NatToString(n);
    assert Sign(s) == (1, s);
    IndexOfAbsent(s, 'E', 'e');
    IndexOfAbsent(s, '.', '.');
    assert s[..|s|] == s;
    DigitsOfNat(n);
    assert Mantissa(s) == Some(n as real);
  }

  /** A sign flips the value and otherwise changes nothing. */
  lemma ParseFloatNegated(t: string)
    requires t == [] || (t[0] != '-' && t[0] != '+')
    ensures ParseFloat("-" + t) == if ParseFloat(t).Some? then Some(-ParseFloat(t).value) else None
  {
    var n := "-" + t;
    assert n[0] == '-' && n[1..] == t;
    assert Sign(n) == (-1, t);
    assert Sign(t) == (1, t);
  }

  /** The amounts of the conversion hint `100 USD to RUB` and of the
      walk-through `50 EUR to RUB`. */
  lemma ParseFloatWhole()
    ensures ParseFloat("100") == Some(100.0)
    ensures ParseFloat("50") == Some(50.0)
  {
    ParseNatString(100);
    assert NatToString(100) == "100";
    ParseNatString(50);
    assert NatToString(50) == "50";
  }

  lemma ParseFloatFraction()
    ensures ParseFloat("2.5") == Some(2.5)
  {
    var m := "2.5";
    assert Sign(m) == (1, m);
    assert IndexOf(m, 'E', 'e') == 3;
    assert m[..3] == m;
    assert IndexOf(m, '.', '.') == 1;
    assert m[..1] == "2" && m[2..] == "5";
    assert DigitsValue("2") == 2 by { assert "2"[..0] == ""; }
    assert DigitsValue("5") == 5 by { assert "5"[..0] == ""; }
    assert Mantissa(m) == Some(2.5);
  }

  lemma ParseFloatExponent()
    ensures ParseFloat("1E3") == Some(1000.0)
  {
    var x := "1E3";
    assert Sign(x) == (1, x);
    assert IndexOf(x, 'E', 'e') == 1;
    assert x[..1] == "1" && x[2..] == "3";
    assert DigitsValue("1") == 1 by { assert "1"[..0] == ""; }
    assert DigitsValue("3") == 3 by { assert "3"[..0] == ""; }
    assert Mantissa("1") == Some(1.0) by {
      assert IndexOf("1", '.', '.') == 1;
      assert "1"[..1] == "1";
    }
    assert Exponent("3") == Some(3);
    assert Pow10(3) == 1000;
  }

  /** What `float` refuses: letters, nothing, a lone point. */
  lemma ParseFloatRejects()
    ensures ParseFloat("ABC") == None
    ensures ParseFloat("") == None
    ensures ParseFloat(".") == None
  {
    var abc := "ABC";
    assert Sign(abc) == (1, abc);
    assert IndexOf(abc, 'E', 'e') == 3;
    assert abc[..3] == abc;
    assert !IsDigit(abc[0]);
    var dot := ".";
    assert Sign(dot) == (1, dot);
    assert dot[..0] == "" && dot[1..] == "";
  }

  /** A mantissa without a point is worth its digits. */
  lemma MantissaWhole(w: string)
    requires w != [] && AllDigits(w)
    ensures Mantissa(w) == Some(DigitsValue(w) as real)
  {
    IndexOfAbsent(w, '.', '.');
    assert w[..|w|] == w;
  }

  /** A mantissa `w.f` is worth the decimal `w.f`; either side may be
      empty, not both. */
  lemma MantissaValue(w: string, f: string)
    requires AllDigits(w) && AllDigits(f) && |w| + |f| > 0
    ensures Mantissa(w + "." + f) == Some(Decimal(w, f))
  {
    var m := w + "." + f;
    MarkerAt(w, '.', f, '.', '.');
    assert m[..|w|] == w && m[|w| + 1..] == f;
    MantissaAt(m, |w|);
  }

  /** `Mantissa` in terms of the parts around its point. */
  lemma MantissaAt(m: string, k: nat)
    requires k < |m| && IndexOf(m, '.', '.') == k
    ensures Mantissa(m) ==
      if AllDigits(m[..k]) && AllDigits(m[k + 1..]) && |m[..k]| + |m[k + 1..]| > 0
      then Some(Decimal(m[..k], m[k + 1..]))
      else None
  {
  }

  /** An exponent is an optionally signed run of digits, worth its value. */
  lemma ExponentValue(ds: string)
    requires ds != [] && AllDigits(ds)
    ensures Exponent(ds) == Some(DigitsValue(ds))
    ensures Exponent("+" + ds) == Some(DigitsValue(ds))
    ensures Exponent("-" + ds) == Some(0 - DigitsValue(ds))
  {
    assert ("+" + ds)[1..] == ds;
    assert ("-" + ds)[1..] == ds;
  }

  /** Without an exponent marker a numeral is worth its mantissa. */
  lemma UnsignedPlain(m: string)
    requires forall i :: 0 <= i < |m| ==> m[i] != 'E' && m[i] != 'e'
    ensures Unsigned(m) == Mantissa(m)
  {
    IndexOfAbsent(m, 'E', 'e');
    assert m[..|m|] == m;
  }

  /** With a marker `E` or `e`, the mantissa before it is scaled by ten to
      the exponent after it, and both must be well formed. */
  lemma UnsignedScaled(m: string, e: char, x: string)
    requires e == 'E' || e == 'e'
    requires forall i :: 0 <= i < |m| ==> m[i] != 'E' && m[i] != 'e'
    ensures Unsigned(m + [e] + x) ==
      if Mantissa(m).Some? && Exponent(x).Some?
      then Some(Shift(Mantissa(m).value, Exponent(x).value))
      else None
  {
    var b := m + [e] + x;
    MarkerAt(m, e, x, 'E', 'e');
    assert b[..|m|] == m;
    assert b[|m| + 1..] == x;
    UnsignedAt(b, |m|);
  }

  /** `Unsigned` in terms of the parts around its first marker. */
  lemma UnsignedAt(b: string, k: nat)
    requires k < |b| && IndexOf(b, 'E', 'e') == k
    ensures Unsigned(b) ==
      if Mantissa(b[..k]).Some? && Exponent(b[k + 1..]).Some?
      then Some(Shift(Mantissa(b[..k]).value, Exponent(b[k + 1..]).value))
      else None
  {
  }

  /** The first marker of `a + [c] + b` is `c` when `a` has none. */
  lemma MarkerAt(a: string, c: char, b: string, d: char, e: char)
    requires c == d || c == e
    requires forall i :: 0 <= i < |a| ==> a[i] != d && a[i] != e
    ensures IndexOf(a + [c] + b, d, e) == |a|
  {
    var s := a + [c] + b;
    assert s[|a|] == c;
    assert forall j :: 0 <= j < |a| ==> s[j] == a[j];
    IndexOfAt(s, |a|, d, e);
  }

  lemma IndexOfAt(s: string, k: nat, c: char, d: char)
    requires k < |s| && (s[k] == c || s[k] == d)
    requires forall j :: 0 <= j < k ==> s[j] != c && s[j] != d
    ensures IndexOf(s, c, d) == k
  {
  }

  // ---------------------------------------------------------------------
  // round(x, 2)

  /** The number of hundredths `round(x, 2)` yields, rounding a tie to the
      even neighbour as Python does. */
  function RoundHundredths(x: real): (k: int)
    ensures (k as real - 100.0 * x) <= 0.5 && (100.0 * x - k as real) <= 0.5
    ensures (k as real - 100.0 * x == 0.5 || 100.0 * x - k as real == 0.5) ==> k % 2 == 0
    ensures (100.0 * x).Floor as real == 100.0 * x ==> k as real == 100.0 * x
  {
    var y := 100.0 * x;
    var f := y.Floor;
    var frac := y - f as real;
    if frac > 0.5 then f + 1
    else if frac < 0.5 then f
    else if f % 2 == 0 then f else f + 1
  }

  /** `round(x, 2)`: a whole number of hundredths, at most half a hundredth
      away from `x`. */
  function Round2(x: real): (r: real)
    ensures -0.005 <= r - x <= 0.005
    ensures (RoundHundredths(x) as real) == 100.0 * r
  {
    RoundHundredths(x) as real / 100.0
  }

  /** `round(amount * rate, 2)`: the converted sum, within half a hundredth
      of the exact product. */
  function ConvertedSum(amount: real, rate: real): (r: real)
    ensures -0.005 <= r - amount * rate <= 0.005
  {
    Round2(amount * rate)
  }
}
