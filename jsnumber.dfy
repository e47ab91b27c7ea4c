/** JavaScript numbers as the source uses them: `Number(text)` coercion,
    `NaN` and its propagation through `+`, truthiness in `x || 0`, and
    `Math.round`. Finite values are exact reals; IEEE rounding is not modelled. */
module JsNumber {
  import opened Optional
  import opened Text

  /** A JavaScript number: a finite value or NaN (infinities are not modelled). */
  datatype Num = Finite(value: real) | NaN

  predicate IsDigit(c: char) { '0' <= c <= '9' }

  predicate AllDigits(s: string) {
    forall i :: 0 <= i < |s| ==> IsDigit(s[i])
  }

  function Pow10(n: nat): (r: nat)
    ensures r >= 1
  {
    if n == 0 then 1 else 10 * Pow10(n - 1)
  }

  /** The value of a string of decimal digits, most significant first. */
  function DigitsValue(s: string): nat
    requires AllDigits(s)
  {
    if s == [] then 0
    else 10 * DigitsValue(s[..|s| - 1]) + (s[|s| - 1] as int - '0' as int)
  }

  /** A decimal numeral without sign: digits, optionally a point and more
      digits, with at least one digit in all (`"12"`, `"12.5"`, `".5"`, `"5."`). */
  function ParseUnsigned(s: string): Num {
    match IndexOf(s, ".")
    case None =>
      if s != "" && AllDigits(s) then Finite(DigitsValue(s) as real) else NaN
    case Some(i) =>
      var whole, frac := s[..i], s[i + 1..];
      if |whole| + |frac| > 0 && AllDigits(whole) && AllDigits(frac)
      then Finite(DigitsValue(whole) as real + DigitsValue(frac) as real / Pow10(|frac|) as real)
      else NaN
  }

  /** A numeral without sign is NaN as soon as one of its characters is
      neither a digit nor a point. */
  lemma ParseUnsignedRejects(s: string, k: int)
    requires 0 <= k < |s| && !IsDigit(s[k]) && s[k] != '.'
    ensures ParseUnsigned(s).NaN?
  {
    match IndexOf(s, ".")
    case None =>
    case Some(i) =>
      assert s[i..i + 1] == ".";
      if k < i {
        assert s[..i][k] == s[k];
      } else {
        assert s[i + 1..][k - i - 1] == s[k];
      }
  }

  /** A character that can appear in a decimal numeral. */
  predicate NumeralChar(c: char) {
    IsDigit(c) || c == '.' || c == '-' || c == '+'
  }

  function Negate(n: Num): Num {
    match n
    case Finite(v) => Finite(-v)
    case NaN => NaN
  }

  /** `Number(s)` for a string: the empty string is 0, a signed decimal
      numeral is its value, anything else is NaN. */
  function ToNumber(s: string): (r: Num)
    ensures s == "" ==> r == Finite(0.0)
    ensures (exists k :: 0 <= k < |s| && !NumeralChar(s[k])) ==> r == NaN
  {
    ToNumberRejects(s);
    if s == "" then Finite(0.0)
    else if s[0] == '-' then Negate(ParseUnsigned(s[1..]))
    else if s[0] == '+' then ParseUnsigned(s[1..])
    else ParseUnsigned(s)
  }

  lemma ToNumberRejects(s: string)
    ensures (exists k :: 0 <= k < |s| && !NumeralChar(s[k])) ==>
      if s != "" && (s[0] == '-' || s[0] == '+') then ParseUnsigned(s[1..]).NaN? else ParseUnsigned(s).NaN?
  {
    if k :| 0 <= k < |s| && !NumeralChar(s[k]) {
      if s[0] == '-' || s[0] == '+' {
        ParseUnsignedRejects(s[1..], k - 1);
      } else {
        ParseUnsignedRejects(s, k);
      }
    }
  }

  /** The digits of a rendered whole number read back as that number. */
  lemma {:induction false} DigitsValueOfNatToString(n: nat)
    ensures AllDigits(NatToString(n)) && DigitsValue(NatToString(n)) == n
  {
    var s := NatToString(n);
    if n >= 10 {
      DigitsValueOfNatToString(n / 10);
      assert s[..|s| - 1] == NatToString(n / 10);
    }
  }

  /** Round trip: `Number(String(n)) == n` for every whole number `n`. */
  lemma ToNumberOfNatToString(n: nat)
    ensures ToNumber(NatToString(n)) == Finite(n as real)
  {
    var s := NatToString(n);
    DigitsValueOfNatToString(n);
    assert s[0] != '-' && s[0] != '+';
    if Contains(s, ".") {
      ContainsOnlyCharsOf(s, ".", '.');
      assert false;
    }
    assert IndexOf(s, ".") == None;
  }

  /** A leading minus negates: `Number("-" + s)` is minus `Number(s)` for a
      numeral `s` that starts with a digit or a point. */
  lemma ToNumberOfNegated(s: string)
    requires s != "" && (IsDigit(s[0]) || s[0] == '.')
    ensures ToNumber("-" + s) == Negate(ToNumber(s))
  {
    assert ("-" + s)[1..] == s;
  }

  /** A point preceded only by digits is the first point of the text. */
  lemma FirstPointAt(s: string, i: nat)
    requires i < |s| && s[i] == '.' && AllDigits(s[..i])
    ensures IndexOf(s, ".") == Some(i)
  {
    assert OccursAt(s, ".", i) by {
      assert s[i..i + 1] == [s[i]];
    }
    ContainsAt(s, ".", i);
    forall j | 0 <= j < i ensures !OccursAt(s, ".", j) {
      assert s[j..j + 1] == [s[..i][j]];
    }
    var v := IndexOf(s, ".").value;
    assert v <= i;
    assert v >= i;
  }

  /** An unsigned numeral with digits on both sides of its first point, at
      `i`, is the whole part plus the fraction scaled down by its length. */
  lemma ParseUnsignedAt(s: string, i: nat)
    requires 0 < i < |s| && s[i] == '.' && AllDigits(s[..i]) && AllDigits(s[i + 1..])
    ensures ParseUnsigned(s) ==
      Finite(DigitsValue(s[..i]) as real + DigitsValue(s[i + 1..]) as real / Pow10(|s[i + 1..]|) as real)
  {
    FirstPointAt(s, i);
  }

  /** The parts of "w.f" around its point. */
  lemma DecimalParts(w: string, f: string)
    requires w != ""
    ensures var s := w + "." + f;
      s[0] == w[0] && s[|w|] == '.' && s[..|w|] == w && s[|w| + 1..] == f
  {
    var s := w + "." + f;
    assert s[..|w|] == w;
    assert s[|w| + 1..] == f;
  }

  /** `Number` of a text starting with a digit is its unsigned reading. */
  lemma ToNumberOfUnsigned(s: string)
    requires s != "" && IsDigit(s[0])
    ensures ToNumber(s) == ParseUnsigned(s)
  {
  }

  /** A numeral with a fractional part: `Number(a + "." + b)` is `a` plus
      `b` scaled down by as many places as `b` has digits. */
  lemma ToNumberOfDecimal(a: nat, b: nat)
    ensures ToNumber(NatToString(a) + "." + NatToString(b)) ==
      Finite(a as real + b as real / Pow10(|NatToString(b)|) as real)
  {
    var w, f := NatToString(a), NatToString(b);
    var s := w + "." + f;
    DigitsValueOfNatToString(a);
    DigitsValueOfNatToString(b);
    DecimalParts(w, f);
    ParseUnsignedAt(s, |w|);
    ToNumberOfUnsigned(s);
  }

  /** Round trip for negative decimals: `Number("-" + a + "." + b)` is the
      negated value of the unsigned numeral. */
  lemma ToNumberOfNegativeDecimal(a: nat, b: nat)
    ensures ToNumber("-" + NatToString(a) + "." + NatToString(b)) ==
      Finite(-(a as real + b as real / Pow10(|NatToString(b)|) as real))
  {
    var u := NatToString(a) + "." + NatToString(b);
    ToNumberOfDecimal(a, b);
    ToNumberOfNegated(u);
    assert "-" + NatToString(a) + "." + NatToString(b) == "-" + u;
  }

  /** Round trip for negative whole numbers: `Number("-" + String(n)) == -n`. */
  lemma ToNumberOfNegativeNat(n: nat)
    ensures ToNumber("-" + NatToString(n)) == Finite(-(n as real))
  {
    ToNumberOfNatToString(n);
    ToNumberOfNegated(NatToString(n));
  }

  /** JavaScript truthiness of a number: neither 0 nor NaN. */
  predicate Truthy(n: Num) {
    n.Finite? && n.value != 0.0
  }

  /** `Number(x || 0)` for a number `x`: NaN and 0 both become 0. */
  function OrZero(n: Num): (r: real)
    ensures Truthy(n) ==> r == n.value
    ensures !Truthy(n) ==> r == 0.0
  {
    if Truthy(n) then n.value else 0.0
  }

  /** `a + b`: NaN absorbs everything. */
  function Add(a: Num, b: Num): (r: Num)
    ensures r.NaN? <==> a.NaN? || b.NaN?
  {
    if a.NaN? || b.NaN? then NaN else Finite(a.value + b.value)
  }

  /** `a > b`: false whenever either side is NaN. */
  predicate Greater(a: Num, b: Num) {
    a.Finite? && b.Finite? && a.value > b.value
  }

  /** `Math.round(x)`: the nearest integer, halves rounded up. */
  function Round(x: real): (r: int)
    ensures r as real <= x + 0.5 < r as real + 1.0
  {
    (x + 0.5).Floor
  }

  /** Rounding never reverses an order. */
  lemma RoundMonotone(x: real, y: real)
    requires x <= y
    ensures Round(x) <= Round(y)
  {
  }

  /** The product of two positive numbers is positive. */
  lemma MulPositive(a: real, b: real)
    requires a > 0.0 && b > 0.0
    ensures a * b > 0.0
  {
  }

  /** The product of a non-negative and a positive number is non-negative. */
  lemma MulNonNegative(a: real, b: real)
    requires a >= 0.0 && b > 0.0
    ensures a * b >= 0.0
  {
  }

  /** Rounding keeps whole numbers. */
  lemma RoundWhole(n: int)
    ensures Round(n as real) == n
  {
  }
}
