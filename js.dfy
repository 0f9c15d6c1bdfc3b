/** The small option type used throughout the model for JavaScript's
    "value or undefined" positions. */
module Options {
  datatype Option<T> = None | Some(value: T) {
    function GetOr(default: T): T {
      match this
      case Some(v) => v
      case None => default
    }
  }
}

/** The pieces of JavaScript string and number semantics that the form
    builder relies on: the `\s` class and `trim`, ASCII case mapping,
    `parseFloat`, `Number(string)`, `String(number)` and `toFixed(2)`.
    Numbers are exact reals; see README for what that leaves out. */
module JsText {
  import opened Options

  /** White space as JavaScript's `\s` and `String.prototype.trim` see it:
      the WhiteSpace and LineTerminator code points of ECMA-262. */
  predicate IsSpace(c: char) {
    c == '\t' || c == '\n' || c == '\U{B}' || c == '\U{C}' || c == '\r' || c == ' '
    || c == '\U{A0}' || c == '\U{1680}' || ('\U{2000}' <= c <= '\U{200A}')
    || c == '\U{2028}' || c == '\U{2029}' || c == '\U{202F}' || c == '\U{205F}'
    || c == '\U{3000}' || c == '\U{FEFF}'
  }

  predicate AllSpace(s: string) {
    forall i :: 0 <= i < |s| ==> IsSpace(s[i])
  }

  /** `[0-9]`, which is also what `\d` matches without the `u` flag. */
  predicate IsDigit(c: char) {
    '0' <= c <= '9'
  }

  predicate AllDigits(s: string) {
    forall i :: 0 <= i < |s| ==> IsDigit(s[i])
  }

  /** `\w`: ASCII letters, digits and the underscore. */
  predicate IsWordChar(c: char) {
    ('a' <= c <= 'z') || ('A' <= c <= 'Z') || IsDigit(c) || c == '_'
  }

  /** The leading white space removed. */
  function TrimStart(s: string): (r: string)
    ensures |r| <= |s| && r == s[|s| - |r|..]
    ensures r == [] || !IsSpace(r[0])
    ensures AllSpace(s[..|s| - |r|])
  {
    if s != [] && IsSpace(s[0]) then TrimStart(s[1..]) else s
  }

  /** The trailing white space removed. */
  function TrimEnd(s: string): (r: string)
    ensures |r| <= |s| && r == s[..|r|]
    ensures r == [] || !IsSpace(r[|r| - 1])
    ensures AllSpace(s[|r|..])
  {
    if s != [] && IsSpace(s[|s| - 1]) then TrimEnd(s[..|s| - 1]) else s
  }

  /** `String.prototype.trim`. */
  function Trim(s: string): (r: string)
    ensures |r| <= |s|
    ensures r == [] || (!IsSpace(r[0]) && !IsSpace(r[|r| - 1]))
  {
    TrimEnd(TrimStart(s))
  }

  /** A string trims to nothing exactly when every character is white space. */
  lemma TrimEmptyIffAllSpace(s: string)
    ensures Trim(s) == [] <==> AllSpace(s)
  {
    var t := TrimStart(s);
    if Trim(s) == [] {
      assert AllSpace(t[0..]);
      assert t == [];
      assert s[..|s|] == s;
    } else {
      AllSpaceTrimsAway(s);
    }
  }

  lemma {:induction false} AllSpaceTrimsAway(s: string)
    ensures AllSpace(s) ==> TrimStart(s) == []
  {
    if s != [] {
      AllSpaceTrimsAway(s[1..]);
      if AllSpace(s) {
        assert AllSpace(s[1..]) by {
          forall i | 0 <= i < |s| - 1 ensures IsSpace(s[1..][i]) { assert s[1..][i] == s[i + 1]; }
        }
      }
    }
  }

  /** A string whose ends are not white space is its own trim. */
  lemma TrimOfTrimmed(s: string)
    requires s == [] || (!IsSpace(s[0]) && !IsSpace(s[|s| - 1]))
    ensures Trim(s) == s
  {
  }

  /** ASCII upper case to lower case; other characters are kept. */
  function LowerChar(c: char): (r: char)
    ensures 'A' <= c <= 'Z' ==> 'a' <= r <= 'z' && r as int == c as int + 32
    ensures !('A' <= c <= 'Z') ==> r == c
  {
    if 'A' <= c <= 'Z' then (c as int + 32) as char else c
  }

  /** `String.prototype.toLowerCase`, on ASCII letters. */
  function ToLower(s: string): (r: string)
    ensures |r| == |s|
    ensures forall i :: 0 <= i < |s| ==> r[i] == LowerChar(s[i])
  {
    if s == [] then [] else [LowerChar(s[0])] + ToLower(s[1..])
  }

  /** `Array.prototype.join(sep)` over strings. */
  function Join(items: seq<string>, sep: string): string {
    if items == [] then []
    else if |items| == 1 then items[0]
    else items[0] + sep + Join(items[1..], sep)
  }

  // ---------------------------------------------------------------------
  // Digits and decimal numerals

  function DigitValue(c: char): (d: nat)
    requires IsDigit(c)
    ensures d < 10
  {
    c as int - '0' as int
  }

  function DigitChar(d: nat): (c: char)
    requires d < 10
    ensures IsDigit(c) && DigitValue(c) == d
  {
    ('0' as int + d) as char
  }

  /** The value of a string of decimal digits, most significant first. */
  function DigitsValue(s: string): nat
    requires AllDigits(s)
  {
    if s == [] then 0 else DigitsValue(s[..|s| - 1]) * 10 + DigitValue(s[|s| - 1])
  }

  function Pow10(n: nat): (p: nat)
    ensures p >= 1
  {
    if n == 0 then 1 else 10 * Pow10(n - 1)
  }

  /** The length of the run of digits at the start of `s`. */
  function DigitRun(s: string): (n: nat)
    ensures n <= |s|
    ensures AllDigits(s[..n])
    ensures n < |s| ==> !IsDigit(s[n])
  {
    if s != [] && IsDigit(s[0]) then
      var k := DigitRun(s[1..]);
      assert s[..k + 1] == [s[0]] + s[1..][..k];
      k + 1
    else 0
  }

  /** The value of `digits`, `.`, `fraction` as a number. */
  function DecimalValue(digits: string, fraction: string): real
    requires AllDigits(digits) && AllDigits(fraction)
  {
    DigitsValue(digits) as real + DigitsValue(fraction) as real / Pow10(|fraction|) as real
  }

  /** The unsigned numeral at the start of `u`: digits, then optionally `.`
      and more digits, with at least one digit in all. Gives the number of
      characters consumed and the value. */
  function ScanUnsigned(u: string): (r: Option<(nat, real)>)
    ensures r.Some? ==> 0 < r.value.0 <= |u|
  {
    var i := DigitRun(u);
    if i < |u| && u[i] == '.' then
      var f := DigitRun(u[i + 1..]);
      if i == 0 && f == 0 then None
      else Some((i + 1 + f, DecimalValue(u[..i], u[i + 1..][..f])))
    else if i == 0 then None
    else Some((i, DigitsValue(u[..i]) as real))
  }

  /** The decimal numeral at the start of `s` in the shape JavaScript's
      StrDecimalLiteral accepts without an exponent: an optional sign, then
      an unsigned numeral. Gives the number of characters consumed and the
      value. */
  function ScanDecimal(s: string): (r: Option<(nat, real)>)
    ensures r.Some? ==> 0 < r.value.0 <= |s|
  {
    if s != [] && (s[0] == '-' || s[0] == '+') then
      match ScanUnsigned(s[1..])
      case Some((n, m)) => Some((n + 1, if s[0] == '-' then -m else m))
      case None => None
    else ScanUnsigned(s)
  }

  lemma {:induction false} DigitRunAll(d: string)
    requires AllDigits(d)
    ensures DigitRun(d) == |d|
  {
    if d != [] {
      DigitRunAll(d[1..]);
    }
  }

  /** A non-empty run of digits is read whole, as its value. */
  lemma ScanDigits(d: string)
    requires d != [] && AllDigits(d)
    ensures ScanDecimal(d) == Some((|d|, DigitsValue(d) as real))
    ensures ParseFloat(d) == Some(DigitsValue(d) as real)
  {
    ScanUnsignedDigits(d);
    assert d[0] != '-' && d[0] != '+';
    assert ScanDecimal(d) == ScanUnsigned(d);
    assert !IsSpace(d[0]);
    assert TrimStart(d) == d;
  }

  lemma ScanUnsignedDigits(d: string)
    requires d != [] && AllDigits(d)
    ensures ScanUnsigned(d) == Some((|d|, DigitsValue(d) as real))
  {
    DigitRunAll(d);
    assert d[..|d|] == d;
  }

  /** `parseFloat(s)`: leading white space skipped, then the longest decimal
      numeral; `None` stands for NaN. */
  function ParseFloat(s: string): Option<real> {
    match ScanDecimal(TrimStart(s))
    case Some((_, v)) => Some(v)
    case None => None
  }

  /** `Number(s)` for a string: white space trimmed, the empty string is 0,
      otherwise the whole string must be one decimal numeral; `None` is NaN. */
  function StringToNumber(s: string): Option<real> {
    var t := Trim(s);
    if t == [] then Some(0.0)
    else match ScanDecimal(t)
      case Some((n, v)) => if n == |t| then Some(v) else None
      case None => None
  }

  // ---------------------------------------------------------------------
  // Numbers to strings

  /** The decimal digits of a natural number, without leading zeros. */
  function NatToString(n: nat): (s: string)
    ensures s != [] && AllDigits(s)
  {
    if n < 10 then [DigitChar(n)] else NatToString(n / 10) + [DigitChar(n % 10)]
  }

  lemma {:induction false} NatToStringValue(n: nat)
    ensures DigitsValue(NatToString(n)) == n
  {
    var s := NatToString(n);
    if n >= 10 {
      NatToStringValue(n / 10);
      assert s[..|s| - 1] == NatToString(n / 10);
    }
  }

  /** Up to `k` further decimal digits of a fraction `0 <= x < 1`. */
  function FracDigits(x: real, k: nat): (s: string)
    requires 0.0 <= x < 1.0
    ensures AllDigits(s)
    decreases k
  {
    if k == 0 || x == 0.0 then []
    else
      var d := (x * 10.0).Floor;
      [DigitChar(d)] + FracDigits(x * 10.0 - d as real, k - 1)
  }

  /** The fixed-point form of a non-negative number: its whole part and, for
      a non-integer, a point and up to twenty digits of the fraction. */
  function FixedString(m: real): string
    requires m >= 0.0
  {
    if m == m.Floor as real then NatToString(m.Floor)
    else NatToString(m.Floor) + "." + FracDigits(m - m.Floor as real, 20)
  }

  /** `String(n)` switches to exponent form at 10^21 and below 10^-6. */
  const ExponentAbove: real := 1000000000000000000000.0
  const ExponentBelow: real := 0.000001

  /** A number `x >= 1` as a mantissa in [1, 10) and a count of tens,
      `e` of them already taken out. */
  function ScaleDown(x: real, e: nat): (r: (real, nat))
    requires x >= 1.0
    ensures 1.0 <= r.0 < 10.0 && r.1 >= e
    ensures r.0 * Pow10(r.1 - e) as real == x
    decreases x.Floor
  {
    if x < 10.0 then (x, e)
    else
      var r := ScaleDown(x / 10.0, e + 1);
      assert Pow10(r.1 - e) == 10 * Pow10(r.1 - (e + 1));
      r
  }

  /** A number `0 < x < 10` as a mantissa in [1, 10) and a count of tens,
      `e` of them already put in. */
  function ScaleUp(x: real, e: nat): (r: (real, nat))
    requires 0.0 < x < 10.0
    ensures 1.0 <= r.0 < 10.0 && r.1 >= e
    ensures r.0 == x * Pow10(r.1 - e) as real
    decreases (1.0 / x).Floor
  {
    if x >= 1.0 then (x, e)
    else
      assert 1.0 / (x * 10.0) == (1.0 / x) / 10.0;
      var r := ScaleUp(x * 10.0, e + 1);
      assert Pow10(r.1 - e) == 10 * Pow10(r.1 - (e + 1));
      r
  }

  /** `String(n)` for a number: a sign, then the fixed-point form, or for a
      magnitude of at least 10^21 or below 10^-6 the mantissa, `e`, the
      exponent's sign and its digits (`1e+21`, `1.5e-7`). Digits are exact
      up to twenty places after the point and cut there (JavaScript prints
      the shortest string that reads back as the same double, which exact
      reals do not have). */
  function NumToString(n: real): string {
    var m := if n < 0.0 then -n else n;
    (if n < 0.0 then "-" else "") +
    (if m >= ExponentAbove then
       var (d, k) := ScaleDown(m, 0);
       FixedString(d) + "e+" + NatToString(k)
     else if 0.0 < m < ExponentBelow then
       var (d, k) := ScaleUp(m, 0);
       FixedString(d) + "e-" + NatToString(k)
     else FixedString(m))
  }

  /** The fixed-point form has no exponent marker. */
  lemma FixedStringHasNoE(m: real)
    requires m >= 0.0
    ensures 'e' !in FixedString(m)
  {
    var w := NatToString(m.Floor);
    assert forall i :: 0 <= i < |w| ==> IsDigit(w[i]);
    if m != m.Floor as real {
      var f := FracDigits(m - m.Floor as real, 20);
      assert forall i :: 0 <= i < |f| ==> IsDigit(f[i]);
    }
  }

  /** `String(n)` is in exponent form exactly when `n` is non-zero and its
      magnitude is at least 10^21 or below 10^-6. */
  lemma ExponentFormRange(n: real)
    ensures 'e' in NumToString(n) <==>
      n != 0.0 && (n >= ExponentAbove || n <= -ExponentAbove || -ExponentBelow < n < ExponentBelow)
  {
    var m := if n < 0.0 then -n else n;
    var sign := if n < 0.0 then "-" else "";
    if m >= ExponentAbove {
      var (d, k) := ScaleDown(m, 0);
      var t := FixedString(d) + "e+" + NatToString(k);
      assert t[|FixedString(d)|] == 'e';
      assert NumToString(n) == sign + t;
      assert (sign + t)[|sign| + |FixedString(d)|] == 'e';
    } else if 0.0 < m < ExponentBelow {
      var (d, k) := ScaleUp(m, 0);
      var t := FixedString(d) + "e-" + NatToString(k);
      assert t[|FixedString(d)|] == 'e';
      assert NumToString(n) == sign + t;
      assert (sign + t)[|sign| + |FixedString(d)|] == 'e';
    } else {
      FixedStringHasNoE(m);
      assert NumToString(n) == sign + FixedString(m);
      assert 'e' !in sign;
    }
  }

  /** A power of ten has mantissa 1 and its own exponent. */
  lemma {:induction false} ScaleDownPower(k: nat, e: nat)
    ensures ScaleDown(Pow10(k) as real, e) == (1.0, e + k)
  {
    if k > 0 {
      var p := Pow10(k - 1) as real;
      assert Pow10(k) as real == 10.0 * p;
      assert p >= 1.0 && (10.0 * p) / 10.0 == p;
      assert ScaleDown(10.0 * p, e) == ScaleDown(p, e + 1);
      ScaleDownPower(k - 1, e + 1);
    }
  }

  /** So does one over a power of ten. */
  lemma {:induction false} ScaleUpPower(k: nat, e: nat)
    ensures 0.0 < 1.0 / Pow10(k) as real < 10.0
    ensures ScaleUp(1.0 / Pow10(k) as real, e) == (1.0, e + k)
  {
    if k > 0 {
      var p := Pow10(k - 1) as real;
      assert Pow10(k) as real == 10.0 * p;
      assert 1.0 / (10.0 * p) * 10.0 == 1.0 / p;
      ScaleUpPower(k - 1, e + 1);
    }
  }

  /** Ten to the minus seven is printed in exponent form. */
  lemma TinyNumberExample()
    ensures NumToString(0.0000001) == "1e-7"
  {
    assert Pow10(7) == 10000000;
    ScaleUpPower(7, 0);
    assert FixedString(1.0) == "1";
  }

  /** Ten to the twenty-first is printed in exponent form. */
  lemma LargeNumberExample()
    ensures NumToString(1000000000000000000000.0) == "1e+21"
  {
    assert Pow10(7) == 10000000;
    assert Pow10(14) == 100000000000000 by {
      assert Pow10(8) == 100000000;
      assert Pow10(11) == 100000000000;
    }
    assert Pow10(21) == 1000000000000000000000 by {
      assert Pow10(18) == 1000000000000000000;
    }
    ScaleDownPower(21, 0);
    assert FixedString(1.0) == "1";
  }

  /** `x.toFixed(2)` for a non-negative number: the nearest multiple of 1/100,
      the larger one on a tie, printed with exactly two decimals. */
  function Fixed2NonNegative(x: real): (s: string)
    requires x >= 0.0
  {
    var n := (x * 100.0 + 0.5).Floor;
    NatToString(n / 100) + "." + [DigitChar(n % 100 / 10), DigitChar(n % 10)]
  }

  /** `x.toFixed(2)`; a negative number is printed as `-` and the fixed form
      of its magnitude. */
  function ToFixed2(x: real): string {
    if x < 0.0 then "-" + Fixed2NonNegative(-x) else Fixed2NonNegative(x)
  }
}
