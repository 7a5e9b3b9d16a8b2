/**
 * JavaScript's Number(string) coercion, restricted to the decimal forms the
 * duration parser meets: an optional sign, then either "Infinity" or digits
 * with at most one decimal point. The empty string is 0; anything else is
 * NaN. Values are exact reals (no floating-point rounding).
 */
module Numbers {

  predicate IsDigit(c: char)
  {
    '0' <= c <= '9'
  }

  predicate AllDigits(d: string)
  {
    forall k :: 0 <= k < |d| ==> IsDigit(d[k])
  }

  /** The value of a run of decimal digits, most significant first. */
  function DigitsValue(d: string): nat
    requires AllDigits(d)
    decreases |d|
  {
    if d == [] then 0 else 10 * DigitsValue(d[..|d| - 1]) + (d[|d| - 1] as int - '0' as int)
  }

  /** The value of the digits after a decimal point: `0.d1d2...`. */
  function FractionValue(d: string): (v: real)
    requires AllDigits(d)
    ensures 0.0 <= v <= 1.0
  {
    if d == [] then 0.0 else ((d[0] as int - '0' as int) as real + FractionValue(d[1..])) / 10.0
  }

  /** An unsigned decimal literal: digits and at most one '.', and at least one digit. */
  predicate IsDecimal(b: string)
  {
    && |b| > 0
    && b != "."
    && (forall k :: 0 <= k < |b| ==> IsDigit(b[k]) || b[k] == '.')
    && (forall j, k :: 0 <= j < k < |b| && b[j] == '.' ==> b[k] != '.')
  }

  /** Index of the first '.', or |b| when there is none. */
  function DotIndex(b: string): (k: nat)
    ensures k <= |b|
    ensures forall j :: 0 <= j < k ==> b[j] != '.'
    ensures k < |b| ==> b[k] == '.'
  {
    if b == [] then 0 else if b[0] == '.' then 0 else 1 + DotIndex(b[1..])
  }

  /** The exact value of an unsigned decimal literal: whole part plus fraction. */
  function DecimalValue(b: string): (v: real)
    requires IsDecimal(b)
    ensures v >= 0.0
  {
    var k := DotIndex(b);
    assert AllDigits(b[..k]);
    var whole := DigitsValue(b[..k]) as real;
    if k == |b| then whole
    else
      assert AllDigits(b[k + 1..]);
      whole + FractionValue(b[k + 1..])
  }

  /** A JavaScript number: finite, NaN, or an infinity. */
  datatype Number = Finite(value: real) | NaN | Infinity(negative: bool)

  /** Truthiness of a number: zero and NaN are falsy. */
  predicate Truthy(n: Number)
  {
    match n
    case Finite(v) => v != 0.0
    case NaN => false
    case Infinity(_) => true
  }

  /** Number(s) on the decimal grammar described above. */
  function StringToNumber(s: string): (n: Number)
    ensures s == "" ==> n == Finite(0.0)
    ensures n.Finite? && n.value < 0.0 ==> s[0] == '-'
    ensures n.Infinity? ==> |s| >= 8 && s[|s| - 8..] == "Infinity"
  {
    if s == "" then Finite(0.0)
    else
      var negative := s[0] == '-';
      var body := if s[0] == '-' || s[0] == '+' then s[1..] else s;
      if body == "Infinity" then Infinity(negative)
      else if IsDecimal(body) then Finite(if negative then -DecimalValue(body) else DecimalValue(body))
      else NaN
  }

  /** A string of digits alone is read as its decimal value. */
  lemma DigitsToNumber(d: string)
    requires |d| > 0 && AllDigits(d)
    ensures StringToNumber(d) == Finite(DigitsValue(d) as real)
  {
    assert IsDigit(d[0]);
    var k := DotIndex(d);
    assert k == |d|;
    assert d[..k] == d;
  }

  /** A string ending in a letter other than the 'y' of "Infinity" is NaN. */
  lemma LetterEndIsNaN(s: string)
    requires |s| > 0 && 'a' <= s[|s| - 1] <= 'z' && s[|s| - 1] != 'y'
    ensures StringToNumber(s) == NaN
  {
    var body := if s[0] == '-' || s[0] == '+' then s[1..] else s;
    assert |body| > 0 && body[|body| - 1] == s[|s| - 1];
    assert body != "Infinity" by {
      assert "Infinity"[7] == 'y';
    }
    assert !IsDecimal(body);
  }

  /** A leading '-' negates the value of an unsigned decimal literal. */
  lemma NegatedDecimal(b: string)
    requires IsDecimal(b)
    ensures StringToNumber(b) == Finite(DecimalValue(b))
    ensures StringToNumber("-" + b) == Finite(-DecimalValue(b))
  {
    assert IsDigit(b[0]) || b[0] == '.';
    assert ("-" + b)[1..] == b;
  }
}
