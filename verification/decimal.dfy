/**
 * Python's `float()` on the texts this pipeline feeds it, with values kept as exact
 * rationals: a numeral is digits with at most one decimal point and at least one digit.
 */
module Decimal {

  import opened Wrappers
  import opened Text

  predicate AllDigits(s: string) { forall i :: 0 <= i < |s| ==> IsDigit(s[i]) }

  /** The value of a run of decimal digits. */
  function DigitsValue(s: string): nat
    requires AllDigits(s)
  {
    if |s| == 0 then 0 else DigitsValue(s[..|s| - 1]) * 10 + (s[|s| - 1] - '0') as nat
  }

  function Pow10(n: nat): (r: nat)
    ensures r >= 1
  {
    if n == 0 then 1 else 10 * Pow10(n - 1)
  }

  /** `float(t)` for a `[0-9.]+` text such as a matched price: `"1.5"`, `"1."` and `".5"` are
      numerals, `"."` and `"1.2.3"` raise. */
  function ParseNumeral(t: string): (r: Option<real>)
    ensures r.Some? ==> r.value >= 0.0
  {
    match Find(t, '.')
    case None =>
      if |t| > 0 && AllDigits(t) then Some(DigitsValue(t) as real) else None
    case Some(i) =>
      var whole, fraction := t[..i], t[i + 1..];
      if AllDigits(whole) && AllDigits(fraction) && |whole| + |fraction| > 0
      then Some(PointedValue(whole, fraction))
      else None
  }

  /** The value of `whole.fraction`. */
  function PointedValue(whole: string, fraction: string): real
    requires AllDigits(whole) && AllDigits(fraction)
  {
    DigitsValue(whole) as real + DigitsValue(fraction) as real / Pow10(|fraction|) as real
  }

  /** `float(t)` on a cell of text: surrounding whitespace and one sign are allowed. */
  function PyFloat(t: string): Option<real> {
    var u := Strip(t);
    if |u| > 0 && (u[0] == '+' || u[0] == '-') then
      match ParseNumeral(u[1..])
      case None => None
      case Some(x) => Some(if u[0] == '-' then -x else x)
    else ParseNumeral(u)
  }

  // ---------------------------------------------------------------- lemmas

  lemma DigitsAppendZero(f: string)
    requires AllDigits(f)
    ensures AllDigits(f + "0") && DigitsValue(f + "0") == 10 * DigitsValue(f)
  {
    assert (f + "0")[..|f|] == f;
  }

  /** The first non-digit after a run of digits is found right after the run. */
  lemma {:induction false} FindAfterDigits(a: string, rest: string, c: char)
    requires AllDigits(a) && |rest| > 0 && rest[0] == c && !IsDigit(c)
    ensures Find(a + rest, c) == Some(|a|)
  {
    if |a| == 0 {
      assert a + rest == rest;
    } else {
      assert (a + rest)[0] == a[0] && (a + rest)[1..] == a[1..] + rest;
      FindAfterDigits(a[1..], rest, c);
    }
  }

  /** The value of a numeral with a point. */
  lemma PointedNumeral(whole: string, fraction: string)
    requires AllDigits(whole) && AllDigits(fraction) && |whole| + |fraction| > 0
    ensures ParseNumeral(whole + "." + fraction) == Some(PointedValue(whole, fraction))
  {
    var t := whole + "." + fraction;
    assert t == whole + ("." + fraction);
    FindAfterDigits(whole, "." + fraction, '.');
    assert t[..|whole|] == whole && t[|whole| + 1..] == fraction;
  }

  lemma ScaleBoth(v: real, p: real)
    requires p > 0.0
    ensures (10.0 * v) / (10.0 * p) == v / p
  {
  }

  /** Trailing zeros after the point do not change the value: `"1.50"` and `"1.5"` are
      one price, as they are after `float()`. */
  lemma TrailingZero(whole: string, fraction: string)
    requires AllDigits(whole) && AllDigits(fraction) && |whole| + |fraction| > 0
    ensures ParseNumeral(whole + "." + fraction + "0") == ParseNumeral(whole + "." + fraction)
  {
    DigitsAppendZero(fraction);
    PointedNumeral(whole, fraction);
    PointedNumeral(whole, fraction + "0");
    assert whole + "." + fraction + "0" == whole + "." + (fraction + "0");
    var v, p := DigitsValue(fraction) as real, Pow10(|fraction|) as real;
    assert Pow10(|fraction + "0"|) as real == 10.0 * p;
    assert DigitsValue(fraction + "0") as real == 10.0 * v;
    ScaleBoth(v, p);
    assert PointedValue(whole, fraction + "0") == PointedValue(whole, fraction);
  }

  /** A `[0-9.]+` text is a numeral exactly when it has at most one point and some digit. */
  lemma NumeralAccepts(t: string)
    requires forall k :: 0 <= k < |t| ==> IsPriceChar(t[k])
    ensures ParseNumeral(t).Some? <==>
              (forall i, j :: 0 <= i < j < |t| ==> !(t[i] == '.' && t[j] == '.'))
              && (exists k :: 0 <= k < |t| && IsDigit(t[k]))
  {
    match Find(t, '.')
    case None =>
      if |t| > 0 { assert IsDigit(t[0]); }
      assert AllDigits(t);
    case Some(i) =>
      var whole, fraction := t[..i], t[i + 1..];
      assert AllDigits(whole) by { forall k | 0 <= k < |whole| ensures IsDigit(whole[k]) { assert whole[k] == t[k]; assert t[k] in t[..i]; } }
      if AllDigits(fraction) {
        forall a, b | 0 <= a < b < |t| ensures !(t[a] == '.' && t[b] == '.') {
          if a < i { assert t[a] == whole[a]; }
          else if a > i { assert t[a] == fraction[a - i - 1]; }
          else { assert t[b] == fraction[b - i - 1]; }
        }
        if |whole| > 0 { assert IsDigit(t[0]); }
        else if |fraction| > 0 { assert IsDigit(t[i + 1]); }
        else {
          forall k | 0 <= k < |t| ensures !IsDigit(t[k]) { assert k == i; }
        }
      } else {
        var k :| 0 <= k < |fraction| && !IsDigit(fraction[k]);
        assert t[i + 1 + k] == '.';
      }
  }

  lemma ExampleTrailingZero()
    ensures ParseNumeral("1.50") == ParseNumeral("1.5") == Some(1.5)
  {
    TrailingZero("1", "5");
    PointedNumeral("1", "5");
    assert "1" + "." + "5" + "0" == "1.50";
    assert "1" + "." + "5" == "1.5";
    assert DigitsValue("5") == 5 && DigitsValue("1") == 1;
  }

  lemma ExampleRejected()
    ensures ParseNumeral("1.2.3") == None && ParseNumeral(".") == None
  {
    assert Find("1.2.3", '.') == Some(1);
    assert "1.2.3"[2..] == "2.3";
    assert !AllDigits("2.3") by { assert "2.3"[1] == '.'; }
    assert Find(".", '.') == Some(0);
  }

  lemma CellText()
    ensures Strip(" 10.00 ") == "10.00"
  {
    assert TrimLeft(" 10.00 ") == "10.00 " by { assert " 10.00 "[1..] == "10.00 "; }
    assert TrimRight("10.00 ") == "10.00" by { assert "10.00 "[..5] == "10.00"; }
  }

  lemma CellNumeral()
    ensures ParseNumeral("10.00") == Some(10.0)
  {
    PointedNumeral("10", "00");
    assert "10" + "." + "00" == "10.00";
    assert DigitsValue("1") == 1 by { assert "1"[..0] == ""; }
    assert DigitsValue("10") == 10 by { assert "10"[..1] == "1"; }
    assert DigitsValue("0") == 0 by { assert "0"[..0] == ""; }
    assert DigitsValue("00") == 0 by { assert "00"[..1] == "0"; }
    assert PointedValue("10", "00") == 10.0;
  }

  /** A total_cost cell with surrounding blanks and trailing zeros. */
  lemma ExampleCell()
    ensures PyFloat(" 10.00 ") == Some(10.0)
  {
    CellText();
    CellNumeral();
    assert "10.00"[0] == '1';
  }

  lemma ExampleNotANumber()
    ensures PyFloat("abc") == None
  {
    assert Strip("abc") == "abc";
    assert Find("abc", '.') == None;
    assert !IsDigit("abc"[0]);
  }
}
