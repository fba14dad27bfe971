/**
 * The few JavaScript string operations the program relies on, written out on
 * `seq<char>`: decimal formatting of a non-negative integer (template
 * literals), `Number` on a string, `indexOf`/`search` with a literal
 * pattern, `split`, `trim`, `startsWith` and `replace` with a string pattern.
 */
module Text {
  import opened Wrappers

  predicate IsDigit(c: char) {
    '0' <= c <= '9'
  }

  predicate AllDigits(s: string) {
    forall i :: 0 <= i < |s| ==> IsDigit(s[i])
  }

  function DigitChar(d: nat): (c: char)
    requires d < 10
    ensures IsDigit(c) && c as int - '0' as int == d
  {
    (d + '0' as int) as char
  }

  /** The decimal text of `n`, without leading zeros, as `${n}` prints it. */
  function NatToString(n: nat): (s: string)
    ensures |s| >= 1 && AllDigits(s)
    ensures s[0] == '0' ==> n == 0
    decreases n
  {
    if n < 10 then [DigitChar(n)] else NatToString(n / 10) + [DigitChar(n % 10)]
  }

  /** Reading back the decimal text of a number with `Number` gives the number. */
  lemma {:induction false} NumberOfNatToString(n: nat)
    ensures ToNumber(NatToString(n)) == Finite(n as real)
  {
    DigitsOfNatToString(n);
    NumberOfDigits(NatToString(n));
  }

  lemma {:induction false} DigitsOfNatToString(n: nat)
    ensures DigitsValue(NatToString(n)) == n
    decreases n
  {
    var s := NatToString(n);
    if n < 10 {
      assert s[..0] == [];
      assert DigitsValue(s) == DigitsValue([]) * 10 + n;
    } else {
      DigitsOfNatToString(n / 10);
      var p := NatToString(n / 10);
      assert s[..|s| - 1] == p;
      assert DigitsValue(s) == DigitsValue(p) * 10 + n % 10;
    }
  }

  /** Distinct numbers print as distinct texts. */
  lemma NatToStringInjective(m: nat, n: nat)
    ensures NatToString(m) == NatToString(n) ==> m == n
  {
    DigitsOfNatToString(m);
    DigitsOfNatToString(n);
  }

  /** The value of a string of decimal digits. */
  function DigitsValue(s: string): nat
    requires AllDigits(s)
  {
    if |s| == 0 then 0 else DigitsValue(s[..|s| - 1]) * 10 + (s[|s| - 1] as int - '0' as int)
  }

  /** The value of a digit in bases up to 16 (either case), or -1 for any other character. */
  function DigitOf(c: char): (d: int)
    ensures -1 <= d < 16
    ensures IsDigit(c) <==> 0 <= d < 10
    ensures IsDigit(c) ==> d == c as int - '0' as int
  {
    if IsDigit(c) then c as int - '0' as int
    else if 'a' <= c <= 'f' then c as int - 'a' as int + 10
    else if 'A' <= c <= 'F' then c as int - 'A' as int + 10
    else -1
  }

  predicate DigitsIn(s: string, base: nat) {
    forall i :: 0 <= i < |s| ==> 0 <= DigitOf(s[i]) < base
  }

  /** The value of a string of digits in `base`. */
  function RadixValue(s: string, base: nat): nat
    requires DigitsIn(s, base)
  {
    if |s| == 0 then 0 else RadixValue(s[..|s| - 1], base) * base + DigitOf(s[|s| - 1])
  }

  /** `10 ** e`. */
  function Pow10(e: nat): (p: nat)
    ensures p >= 1
  {
    if e == 0 then 1 else 10 * Pow10(e - 1)
  }

  /**
   * A JavaScript number. A finite value is kept as an exact real: rounding
   * to double precision, overflow to an infinity and the sign of zero are
   * not modelled.
   */
  datatype JsNumber = NaN | Finite(value: real) | PosInfinity | NegInfinity {
    /** Unary minus. */
    function Negate(): JsNumber {
      match this
      case NaN => NaN
      case Finite(v) => Finite(-v)
      case PosInfinity => NegInfinity
      case NegInfinity => PosInfinity
    }
  }

  /** The length of the run of decimal digits that starts `s`. */
  function DigitRun(s: string): (n: nat)
    ensures n <= |s| && AllDigits(s[..n])
    ensures n < |s| ==> !IsDigit(s[n])
  {
    if |s| > 0 && IsDigit(s[0]) then
      var n := 1 + DigitRun(s[1..]);
      assert s[..n] == [s[0]] + s[1..][..n - 1];
      n
    else 0
  }

  /** The digit run is exactly `n` long when `n` digits are followed by a non-digit or the end. */
  lemma DigitRunExact(s: string, n: nat)
    requires n <= |s| && AllDigits(s[..n]) && (n < |s| ==> !IsDigit(s[n]))
    ensures DigitRun(s) == n
    decreases n
  {
    if n > 0 {
      assert IsDigit(s[..n][0]);
      assert s[1..][..n - 1] == s[..n][1..];
      DigitRunExact(s[1..], n - 1);
    }
  }

  /** `SignedInteger`: an optional sign and at least one decimal digit. */
  function SignedInteger(s: string): (r: Option<int>)
    ensures |s| >= 1 && AllDigits(s) ==> r == Some(DigitsValue(s) as int)
    ensures r.Some? ==> |s| >= 1
  {
    if |s| > 0 && s[0] == '+' then
      (if |s| >= 2 && AllDigits(s[1..]) then Some(DigitsValue(s[1..]) as int) else None)
    else if |s| > 0 && s[0] == '-' then
      (if |s| >= 2 && AllDigits(s[1..]) then Some(-(DigitsValue(s[1..]) as int)) else None)
    else if |s| >= 1 && AllDigits(s) then Some(DigitsValue(s) as int)
    else None
  }

  /** The exponent that ends a decimal literal: none (0), or `e`/`E` and a signed integer. */
  function ExponentPart(s: string): (r: Option<int>)
    ensures s == "" ==> r == Some(0)
    ensures s != "" && r.Some? ==> (s[0] == 'e' || s[0] == 'E') && |s| >= 2
  {
    if s == "" then Some(0)
    else if s[0] == 'e' || s[0] == 'E' then SignedInteger(s[1..])
    else None
  }

  /** `m` times ten to the power `e` (divided by ten to the power `-e` when `e` is negative). */
  function Scale10(m: real, e: int): (r: real)
    ensures m >= 0.0 ==> r >= 0.0
    ensures e == 0 ==> r == m
  {
    if e >= 0 then m * Pow10(e) as real else m / Pow10(-e) as real
  }

  lemma AllDigitsConcat(a: string, b: string)
    requires AllDigits(a) && AllDigits(b)
    ensures AllDigits(a + b)
  {
    assert forall i | 0 <= i < |b| :: (a + b)[|a| + i] == b[i];
  }

  /** The value of a decimal literal: integer digits, fraction digits and exponent. */
  function DecimalValue(intDigits: string, fracDigits: string, e: int): (v: real)
    requires AllDigits(intDigits) && AllDigits(fracDigits)
    ensures v >= 0.0
  {
    AllDigitsConcat(intDigits, fracDigits);
    Scale10(DigitsValue(intDigits + fracDigits) as real / Pow10(|fracDigits|) as real, e)
  }

  /** A decimal literal split at its point and its exponent: at least one digit, then a well-formed exponent. */
  function DecimalParts(intDigits: string, fracDigits: string, rest: string): (r: JsNumber)
    requires AllDigits(intDigits) && AllDigits(fracDigits)
    ensures r.NaN? || r.Finite?
    ensures r.Finite? ==> r.value >= 0.0
  {
    if |intDigits| + |fracDigits| == 0 then NaN
    else
      match ExponentPart(rest)
      case None => NaN
      case Some(e) => Finite(DecimalValue(intDigits, fracDigits, e))
  }

  /**
   * `StrUnsignedDecimalLiteral`: `Infinity`, or decimal digits with an
   * optional fraction after `.` and an optional exponent, with at least one
   * digit before or after the point.
   */
  function UnsignedDecimal(s: string): (r: JsNumber)
    ensures r.Finite? ==> r.value >= 0.0
    ensures r != NegInfinity
  {
    if s == "Infinity" then PosInfinity
    else
      var a := DigitRun(s);
      var afterInt := s[a..];
      if |afterInt| > 0 && afterInt[0] == '.' then
        var afterPoint := afterInt[1..];
        var b := DigitRun(afterPoint);
        DecimalParts(s[..a], afterPoint[..b], afterPoint[b..])
      else DecimalParts(s[..a], "", afterInt)
  }

  /** `NonDecimalIntegerLiteral` after its `0x`, `0o` or `0b`: at least one digit of the base. */
  function NonDecimal(digits: string, base: nat): (r: JsNumber)
    ensures r.NaN? <==> |digits| == 0 || !DigitsIn(digits, base)
    ensures !r.NaN? ==> DigitsIn(digits, base) && r == Finite(RadixValue(digits, base) as real)
  {
    if |digits| >= 1 && DigitsIn(digits, base) then Finite(RadixValue(digits, base) as real) else NaN
  }

  /** `StrNumericLiteral`, on a text with its surrounding white space removed. */
  function NumericLiteral(t: string): JsNumber
    requires |t| > 0
  {
    if |t| >= 2 && t[0] == '0' && (t[1] == 'x' || t[1] == 'X') then NonDecimal(t[2..], 16)
    else if |t| >= 2 && t[0] == '0' && (t[1] == 'o' || t[1] == 'O') then NonDecimal(t[2..], 8)
    else if |t| >= 2 && t[0] == '0' && (t[1] == 'b' || t[1] == 'B') then NonDecimal(t[2..], 2)
    else if t[0] == '+' then UnsignedDecimal(t[1..])
    else if t[0] == '-' then UnsignedDecimal(t[1..]).Negate()
    else UnsignedDecimal(t)
  }

  /**
   * `Number(s)` of a string: white space around the literal is ignored, a
   * blank string is 0, and a text that is no numeric literal is `NaN`.
   */
  function ToNumber(s: string): (r: JsNumber)
    ensures Trim(s) == "" ==> r == Finite(0.0)
    ensures Trim(s) != "" ==> r == NumericLiteral(Trim(s))
  {
    var t := Trim(s);
    if t == "" then Finite(0.0) else NumericLiteral(t)
  }

  /** A text that starts and ends with non-space characters is its own trim. */
  lemma TrimUnspaced(s: string)
    requires |s| > 0 && !IsSpace(s[0]) && !IsSpace(s[|s| - 1])
    ensures Trim(s) == s
  {
    assert TrimStart(s) == s;
  }

  /** A literal that starts with a digit and is no `0x`, `0o` or `0b` literal is decimal. */
  lemma DecimalLiteral(t: string)
    requires |t| > 0 && IsDigit(t[0]) && (|t| >= 2 ==> IsDigit(t[1]) || t[1] == 'e' || t[1] == '.')
    ensures NumericLiteral(t) == UnsignedDecimal(t)
  {
  }

  /** Unsigned decimal digits with nothing after them: their decimal value. */
  lemma UnsignedDigits(s: string)
    requires |s| >= 1 && AllDigits(s)
    ensures UnsignedDecimal(s) == Finite(DigitsValue(s) as real)
  {
    assert s != "Infinity" by { assert IsDigit(s[0]); }
    DigitRunExact(s, |s|);
    assert s[..|s|] == s && s[|s|..] == "";
    assert UnsignedDecimal(s) == DecimalParts(s, "", "");
    IntegerValue(s);
  }

  /** Digits alone, with no fraction and no exponent, are their integer value. */
  lemma IntegerValue(s: string)
    requires |s| >= 1 && AllDigits(s)
    ensures DecimalParts(s, "", "") == Finite(DigitsValue(s) as real)
  {
    assert s + "" == s;
    assert Pow10(0) == 1;
    assert Scale10(DigitsValue(s) as real / 1.0, 0) == DigitsValue(s) as real;
  }

  /** A run of decimal digits reads as its decimal value. */
  lemma NumberOfDigits(s: string)
    requires |s| >= 1 && AllDigits(s)
    ensures ToNumber(s) == Finite(DigitsValue(s) as real)
  {
    TrimUnspaced(s);
    DecimalLiteral(s);
    UnsignedDigits(s);
  }

  /** Unsigned decimal digits followed by an exponent. */
  lemma UnsignedWithExponent(m: string, e: string)
    requires |m| >= 1 && AllDigits(m) && |e| >= 1 && AllDigits(e)
    ensures UnsignedDecimal(m + "e" + e) == Finite(Scale10(DigitsValue(m) as real, DigitsValue(e)))
  {
    var s := m + "e" + e;
    assert s != "Infinity" by { assert IsDigit(s[0]); }
    assert s[..|m|] == m && s[|m|..] == "e" + e;
    DigitRunExact(s, |m|);
    assert UnsignedDecimal(s) == DecimalParts(m, "", "e" + e);
    ExponentValue(m, e);
  }

  lemma ExponentValue(m: string, e: string)
    requires |m| >= 1 && AllDigits(m) && |e| >= 1 && AllDigits(e)
    ensures DecimalParts(m, "", "e" + e) == Finite(Scale10(DigitsValue(m) as real, DigitsValue(e)))
  {
    var k := DigitsValue(e);
    assert ExponentPart("e" + e) == Some(k) by {
      assert ("e" + e)[1..] == e;
    }
    WholeDecimalValue(m, k);
  }

  /** A literal without fraction digits is its integer digits' value, scaled. */
  lemma WholeDecimalValue(m: string, k: nat)
    requires AllDigits(m)
    ensures DecimalValue(m, "", k) == Scale10(DigitsValue(m) as real, k)
  {
    assert m + "" == m;
    var x := DigitsValue(m) as real;
    assert Pow10(0) == 1;
    assert x / Pow10(0) as real == x;
  }

  /** A decimal integer with an exponent: `1e1` is 10. */
  lemma NumberWithExponent(m: string, e: string)
    requires |m| >= 1 && AllDigits(m) && |e| >= 1 && AllDigits(e)
    ensures ToNumber(m + "e" + e) == Finite(Scale10(DigitsValue(m) as real, DigitsValue(e)))
  {
    var s := m + "e" + e;
    assert s[0] == m[0] && s[|s| - 1] == e[|e| - 1];
    TrimUnspaced(s);
    assert |s| >= 2 ==> s[1] == (if |m| >= 2 then m[1] else 'e');
    DecimalLiteral(s);
    UnsignedWithExponent(m, e);
  }

  /** `0x`, `0o` and `0b` literals read as their value in base 16, 8 and 2. */
  lemma NumberNonDecimal(prefix: char, digits: string, base: nat)
    requires (prefix == 'x' && base == 16) || (prefix == 'o' && base == 8) || (prefix == 'b' && base == 2)
    requires |digits| >= 1 && DigitsIn(digits, base)
    ensures ToNumber(['0', prefix] + digits) == Finite(RadixValue(digits, base) as real)
  {
    var s := ['0', prefix] + digits;
    assert s[|s| - 1] == digits[|digits| - 1];
    assert DigitOf(s[|s| - 1]) >= 0;
    TrimUnspaced(s);
    assert s[2..] == digits;
    var t := Trim(s);
    assert ToNumber(s) == NumericLiteral(t);
    assert NumericLiteral(t) == NonDecimal(digits, base);
  }

  /** White space around a literal is ignored: `" 7"` and `"7 "` are 7. */
  lemma NumberPadded(pre: string, s: string, post: string)
    requires forall i | 0 <= i < |pre| :: IsSpace(pre[i])
    requires forall i | 0 <= i < |post| :: IsSpace(post[i])
    requires |s| > 0 && !IsSpace(s[0]) && !IsSpace(s[|s| - 1])
    ensures ToNumber(pre + s + post) == ToNumber(s)
  {
    assert pre + s + post == pre + (s + post);
    TrimStartSkips(pre, s + post);
    TrimEndSkips(s, post);
    TrimUnspaced(s);
  }

  lemma {:induction false} TrimStartSkips(pre: string, rest: string)
    requires forall i | 0 <= i < |pre| :: IsSpace(pre[i])
    requires |rest| > 0 && !IsSpace(rest[0])
    ensures TrimStart(pre + rest) == rest
    decreases |pre|
  {
    if |pre| > 0 {
      assert (pre + rest)[1..] == pre[1..] + rest;
      TrimStartSkips(pre[1..], rest);
    }
  }

  lemma {:induction false} TrimEndSkips(rest: string, post: string)
    requires forall i | 0 <= i < |post| :: IsSpace(post[i])
    requires |rest| > 0 && !IsSpace(rest[|rest| - 1])
    ensures TrimEnd(rest + post) == rest
    decreases |post|
  {
    if |post| > 0 {
      assert (rest + post)[..|rest + post| - 1] == rest + post[..|post| - 1];
      TrimEndSkips(rest, post[..|post| - 1]);
    } else {
      assert rest + post == rest;
    }
  }

  /** A sign before decimal digits: `+3` is 3, and `-0` is (minus) zero. */
  lemma NumberSigned(d: string)
    requires |d| >= 1 && AllDigits(d)
    ensures ToNumber("+" + d) == Finite(DigitsValue(d) as real)
    ensures ToNumber("-" + d) == Finite(-(DigitsValue(d) as real))
  {
    var plus, v := "+" + d, DigitsValue(d) as real;
    NumberPlus(d, plus);
    NumberSign(d);
    NegateFinite(ToNumber(plus), v);
  }

  lemma NegateFinite(n: JsNumber, v: real)
    requires n == Finite(v)
    ensures n.Negate() == Finite(-v)
  {
  }

  lemma NumberPlus(d: string, s: string)
    requires |d| >= 1 && AllDigits(d) && s == "+" + d
    ensures ToNumber(s) == Finite(DigitsValue(d) as real)
  {
    var last := d[|d| - 1];
    assert s[0] == '+' && s[|s| - 1] == last;
    assert IsDigit(last);
    TrimUnspaced(s);
    assert s[1..] == d;
    UnsignedDigits(d);
  }

  /** Zeros after the decimal point change nothing: `7.0` is 7. */
  lemma NumberZeroFraction(d: string, z: string)
    requires |d| >= 1 && AllDigits(d)
    requires forall i | 0 <= i < |z| :: z[i] == '0'
    ensures ToNumber(d + "." + z) == Finite(DigitsValue(d) as real)
  {
    var s := d + "." + z;
    ZeroFractionLiteral(d, z, s);
    UnsignedZeroFraction(d, z);
    FractionValue(d, z);
  }

  lemma ZeroFractionLiteral(d: string, z: string, s: string)
    requires |d| >= 1 && AllDigits(d)
    requires forall i | 0 <= i < |z| :: z[i] == '0'
    requires s == d + "." + z
    ensures ToNumber(s) == UnsignedDecimal(s)
  {
    var last := s[|s| - 1];
    assert last == '.' || last == '0';
    assert IsDigit(s[0]);
    TrimUnspaced(s);
    assert |s| >= 2 ==> s[1] == (if |d| >= 2 then d[1] else '.');
    DecimalLiteral(s);
  }

  lemma UnsignedZeroFraction(d: string, z: string)
    requires |d| >= 1 && AllDigits(d)
    requires forall i | 0 <= i < |z| :: z[i] == '0'
    ensures AllDigits(z) && UnsignedDecimal(d + "." + z) == DecimalParts(d, z, "")
  {
    var s := d + "." + z;
    assert s != "Infinity" by { assert IsDigit(s[0]); }
    assert s[..|d|] == d && s[|d|..] == "." + z;
    DigitRunExact(s, |d|);
    assert ("." + z)[1..] == z;
    DigitRunExact(z, |z|);
    assert z[..|z|] == z && z[|z|..] == "";
  }

  lemma FractionValue(d: string, z: string)
    requires AllDigits(d) && AllDigits(z)
    requires forall i | 0 <= i < |z| :: z[i] == '0'
    ensures |d| >= 1 ==> DecimalParts(d, z, "") == Finite(DigitsValue(d) as real)
  {
    TrailingZeros(d, z);
    var v, x, p := DigitsValue(d + z), DigitsValue(d), Pow10(|z|);
    DivideOut(x, p);
    assert v as real / p as real == x as real;
    assert DecimalValue(d, z, 0) == Scale10(v as real / p as real, 0);
  }

  /** Appending zeros multiplies the value by a power of ten. */
  lemma {:induction false} TrailingZeros(d: string, z: string)
    requires AllDigits(d) && forall i | 0 <= i < |z| :: z[i] == '0'
    ensures AllDigits(d + z) && DigitsValue(d + z) == DigitsValue(d) * Pow10(|z|)
    decreases |z|
  {
    AllDigitsConcat(d, z);
    if |z| > 0 {
      var z' := z[..|z| - 1];
      assert (d + z)[..|d + z| - 1] == d + z';
      TrailingZeros(d, z');
      assert DigitsValue(d + z) == DigitsValue(d + z') * 10;
      assert Pow10(|z|) == 10 * Pow10(|z'|);
    } else {
      assert d + z == d;
    }
  }

  lemma DivideOut(x: nat, p: nat)
    requires p >= 1
    ensures (x * p) as real / p as real == x as real
  {
    assert (x * p) as real == x as real * p as real;
  }

  /** A text that starts with a character no literal can start with is `NaN`: `abc` is not a number. */
  lemma NumberOfWord(s: string)
    requires |s| > 0 && !IsSpace(s[0]) && !IsDigit(s[0])
    requires s[0] !in {'+', '-', '.', 'I'}
    ensures ToNumber(s) == NaN
  {
    assert TrimStart(s) == s;
    var t := Trim(s);
    assert |t| > 0 && t[0] == s[0];
    assert t != "Infinity";
    assert DigitRun(t) == 0;
  }

  /** A leading minus negates the literal a leading plus reads. */
  lemma NumberSign(u: string)
    ensures ToNumber("-" + u) == ToNumber("+" + u).Negate()
  {
    TrimEndAfter('-', u);
    TrimEndAfter('+', u);
    assert TrimStart("-" + u) == "-" + u && TrimStart("+" + u) == "+" + u;
    var tm, tp := Trim("-" + u), Trim("+" + u);
    assert tm == "-" + TrimEnd(u) && tp == "+" + TrimEnd(u);
    assert tm[1..] == tp[1..];
  }

  /** Trailing white space after a non-space first character is trimmed from the rest. */
  lemma {:induction false} TrimEndAfter(c: char, u: string)
    requires !IsSpace(c)
    ensures TrimEnd([c] + u) == [c] + TrimEnd(u)
    decreases |u|
  {
    var s := [c] + u;
    if |u| > 0 {
      assert s[|s| - 1] == u[|u| - 1];
      if IsSpace(u[|u| - 1]) {
        assert s[..|s| - 1] == [c] + u[..|u| - 1];
        TrimEndAfter(c, u[..|u| - 1]);
      }
    }
  }

  predicate StartsWith(s: string, prefix: string) {
    |prefix| <= |s| && s[..|prefix|] == prefix
  }

  predicate OccursAt(s: string, pat: string, i: nat) {
    i + |pat| <= |s| && s[i..i + |pat|] == pat
  }

  function IndexOfFrom(s: string, pat: string, from: nat): (r: int)
    requires from <= |s|
    ensures r == -1 || from <= r <= |s|
    ensures r == -1 ==> forall i :: from <= i <= |s| ==> !OccursAt(s, pat, i)
    ensures r >= 0 ==> OccursAt(s, pat, r) && forall i :: from <= i < r ==> !OccursAt(s, pat, i)
    decreases |s| - from
  {
    if OccursAt(s, pat, from) then from
    else if from == |s| then -1
    else IndexOfFrom(s, pat, from + 1)
  }

  /** `s.indexOf(pat)` (and `s.search(pat)` for a pattern with no special characters). */
  function IndexOf(s: string, pat: string): (r: int)
    ensures r == -1 <==> forall i :: 0 <= i <= |s| ==> !OccursAt(s, pat, i)
    ensures r >= 0 ==> r + |pat| <= |s| && OccursAt(s, pat, r)
    ensures r >= 0 ==> forall i :: 0 <= i < r ==> !OccursAt(s, pat, i)
  {
    IndexOfFrom(s, pat, 0)
  }

  predicate Contains(s: string, pat: string) {
    IndexOf(s, pat) >= 0
  }

  /** `s.split(sep)` for a non-empty literal separator. */
  function Split(s: string, sep: string): (parts: seq<string>)
    requires |sep| > 0
    ensures |parts| >= 1
    ensures forall k :: 0 <= k < |parts| ==> !Contains(parts[k], sep)
    decreases |s|
  {
    var i := IndexOf(s, sep);
    if i < 0 then [s]
    else
      var head := s[..i];
      assert !Contains(head, sep) by {
        forall j | 0 <= j <= |head| ensures !OccursAt(head, sep, j) {
          if OccursAt(head, sep, j) {
            assert s[j..j + |sep|] == head[j..j + |sep|];
            assert OccursAt(s, sep, j);
          }
        }
      }
      [head] + Split(s[i + |sep|..], sep)
  }

  function Join(parts: seq<string>, sep: string): string {
    if |parts| == 0 then ""
    else if |parts| == 1 then parts[0]
    else parts[0] + sep + Join(parts[1..], sep)
  }

  /** Splitting loses nothing: joining the parts with the separator gives the string back. */
  lemma {:induction false} JoinSplit(s: string, sep: string)
    requires |sep| > 0
    ensures Join(Split(s, sep), sep) == s
    decreases |s|
  {
    var i := IndexOf(s, sep);
    if i >= 0 {
      var rest := s[i + |sep|..];
      var tail := Split(rest, sep);
      var parts := [s[..i]] + tail;
      assert Split(s, sep) == parts;
      assert parts[1..] == tail;
      assert Join(parts, sep) == s[..i] + sep + Join(tail, sep);
      JoinSplit(rest, sep);
      assert s[i..i + |sep|] == sep;
      assert s == s[..i] + s[i..i + |sep|] + rest;
    }
  }

  /** The text up to the first line feed, or all of `s` when it has none. */
  function FirstLine(s: string): (r: string)
    ensures |r| <= |s| && r == s[..|r|]
    ensures forall i | 0 <= i < |r| :: r[i] != '\n'
    ensures |r| < |s| ==> s[|r|] == '\n'
  {
    if |s| == 0 || s[0] == '\n' then "" else [s[0]] + FirstLine(s[1..])
  }

  /** `FirstLine` is `s.split('\n')[0]`. */
  lemma FirstLineSplit(s: string)
    ensures FirstLine(s) == Split(s, "\n")[0]
  {
    var r := FirstLine(s);
    var i := IndexOf(s, "\n");
    if |r| < |s| {
      assert OccursAt(s, "\n", |r|) by { assert s[|r|..|r| + 1] == [s[|r|]]; }
    }
    if i >= 0 {
      assert s[i] == '\n' by { assert s[i..i + 1] == "\n"; }
      assert |r| <= i;
      assert Split(s, "\n")[0] == s[..i];
    } else {
      assert |r| == |s|;
    }
  }

  /** Dropping characters of the first line drops them from the line. */
  lemma {:induction false} FirstLineSuffix(s: string, k: nat)
    requires k <= |FirstLine(s)|
    ensures FirstLine(s[k..]) == FirstLine(s)[k..]
  {
    if k > 0 {
      assert s[k..] == s[1..][k - 1..];
      FirstLineSuffix(s[1..], k - 1);
    }
  }

  /**
   * The characters `String.prototype.trim` removes and `Number` skips: the
   * ECMAScript white space (tab, vertical tab, form feed, space, no-break
   * space, the byte order mark and the other space separators) and the line
   * terminators.
   */
  predicate IsSpace(c: char) {
    c == '\t' || c == '\U{000B}' || c == '\U{000C}' || c == ' ' || c == '\U{00A0}' || c == '\U{FEFF}'
    || c == '\U{1680}' || ('\U{2000}' <= c <= '\U{200A}') || c == '\U{202F}' || c == '\U{205F}' || c == '\U{3000}'
    || c == '\n' || c == '\r' || c == '\U{2028}' || c == '\U{2029}'
  }

  function TrimStart(s: string): (r: string)
    ensures |r| <= |s| && r == s[|s| - |r|..]
    ensures forall i :: 0 <= i < |s| - |r| ==> IsSpace(s[i])
    ensures |r| > 0 ==> !IsSpace(r[0])
  {
    if |s| > 0 && IsSpace(s[0]) then TrimStart(s[1..]) else s
  }

  function TrimEnd(s: string): (r: string)
    ensures |r| <= |s| && r == s[..|r|]
    ensures forall i :: |r| <= i < |s| ==> IsSpace(s[i])
    ensures |r| > 0 ==> !IsSpace(r[|r| - 1])
  {
    if |s| > 0 && IsSpace(s[|s| - 1]) then TrimEnd(s[..|s| - 1]) else s
  }

  /** `s.trim()`. */
  function Trim(s: string): string {
    TrimEnd(TrimStart(s))
  }

  /** `s.replace(pat, rep)` with its replacement taken literally: only the first occurrence is replaced. */
  function ReplaceFirst(s: string, pat: string, rep: string): string {
    var i := IndexOf(s, pat);
    if i < 0 then s else s[..i] + rep + s[i + |pat|..]
  }

  predicate NoDollar(rep: string) {
    forall i | 0 <= i < |rep| :: rep[i] != '$'
  }

  /**
   * `GetSubstitution` for a string pattern: in the replacement, `$$` is a
   * dollar sign, `$&` the matched text, `` $` `` the text before the match
   * and `$'` the text after it; with no capture groups every other `$` is
   * kept as it is.
   */
  function Substitute(rep: string, matched: string, before: string, after: string): (r: string)
    ensures NoDollar(rep) ==> r == rep
    decreases |rep|
  {
    if |rep| >= 2 && rep[0] == '$' && rep[1] == '$' then "$" + Substitute(rep[2..], matched, before, after)
    else if |rep| >= 2 && rep[0] == '$' && rep[1] == '&' then matched + Substitute(rep[2..], matched, before, after)
    else if |rep| >= 2 && rep[0] == '$' && rep[1] == '`' then before + Substitute(rep[2..], matched, before, after)
    else if |rep| >= 2 && rep[0] == '$' && rep[1] == '\'' then after + Substitute(rep[2..], matched, before, after)
    else if |rep| == 0 then ""
    else [rep[0]] + Substitute(rep[1..], matched, before, after)
  }

  /**
   * `s.replace(pat, rep)` with a string pattern: the first occurrence is
   * replaced by the replacement with its `$` patterns expanded. It is the
   * literal splice `ReplaceFirst` when the replacement holds no `$`, and
   * the text itself when the pattern does not occur.
   */
  function Replace(s: string, pat: string, rep: string): (r: string)
    ensures NoDollar(rep) ==> r == ReplaceFirst(s, pat, rep)
    ensures !Contains(s, pat) ==> r == s
  {
    var i := IndexOf(s, pat);
    if i < 0 then s
    else s[..i] + Substitute(rep, pat, s[..i], s[i + |pat|..]) + s[i + |pat|..]
  }
}
