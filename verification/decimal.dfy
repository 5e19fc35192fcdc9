/**
  * PHP's conversions between integers and decimal text, and the string functions the codec
  * uses (`substr`, `str_pad`, `sprintf('%0Nd')`, `strtoupper`), stated on `seq<char>`.
  */
module Decimal {
  import opened Wrappers

  predicate IsDigit(c: char) {
    '0' <= c <= '9'
  }

  predicate AllDigits(s: string) {
    forall i | 0 <= i < |s| :: IsDigit(s[i])
  }

  /** A decimal numeral as PHP prints an integer: no leading zero unless it is "0". */
  predicate Canonical(s: string) {
    |s| >= 1 && AllDigits(s) && (|s| == 1 || s[0] != '0')
  }

  /** `(int)` of a one-character string: the digit's value, and 0 for any other character. */
  function DigitValue(c: char): (d: nat)
    ensures d <= 9
    ensures d != 0 ==> IsDigit(c) && c != '0'
  {
    if IsDigit(c) then c as int - '0' as int else 0
  }

  function DigitChar(d: nat): (c: char)
    requires d <= 9
    ensures IsDigit(c) && DigitValue(c) == d
    ensures c == '0' <==> d == 0
  {
    ('0' as int + d) as char
  }

  function Pow10(k: nat): (p: nat)
    ensures p >= 1
  {
    if k == 0 then 1 else 10 * Pow10(k - 1)
  }

  function Min(a: int, b: int): int {
    if a <= b then a else b
  }

  /** `k` copies of `c`. */
  function Repeat(c: char, k: nat): (r: string)
    ensures |r| == k
    ensures forall i | 0 <= i < k :: r[i] == c
  {
    seq(k, _ => c)
  }

  /** `(string) $n` for a non-negative integer. */
  function NatToString(n: nat): (s: string)
    ensures Canonical(s)
  {
    if n < 10 then [DigitChar(n)] else NatToString(n / 10) + [DigitChar(n % 10)]
  }

  /** `(string) $i` for any integer. */
  function IntToString(i: int): string {
    if i < 0 then "-" + NatToString(-i) else NatToString(i)
  }

  /** The value of a string of decimal digits (a non-digit reads as 0; the empty string is 0). */
  function ParseNat(s: string): nat {
    if s == [] then 0 else ParseNat(s[..|s| - 1]) * 10 + DigitValue(s[|s| - 1])
  }

  /** PHP's whitespace for numeric strings: space, \t, \n, \r, \v, \f. */
  predicate IsSpace(c: char) {
    c == ' ' || c == '\t' || c == '\n' || c == '\r' || c == 11 as char || c == 12 as char
  }

  function TrimLeadingSpace(s: string): (r: string)
    ensures |r| <= |s|
    ensures |r| > 0 ==> !IsSpace(r[0])
  {
    if |s| > 0 && IsSpace(s[0]) then TrimLeadingSpace(s[1..]) else s
  }

  /** The longest prefix of `s` made of digits. */
  function LeadingDigits(s: string): (r: string)
    ensures AllDigits(r) && |r| <= |s|
    ensures forall i | 0 <= i < |r| :: r[i] == s[i]
    ensures |r| < |s| ==> !IsDigit(s[|r|])
  {
    if |s| > 0 && IsDigit(s[0]) then [s[0]] + LeadingDigits(s[1..]) else []
  }

  /**
    * `(int) $s`: leading whitespace and an optional sign, then the longest numeric prefix
    * (digits, an optional `.` fraction and an optional exponent), truncated toward zero; a
    * string with no leading number is 0.
    */
  function IntValue(s: string): int {
    var t := TrimLeadingSpace(s);
    if |t| > 0 && t[0] == '-' then -(Magnitude(t[1..]) as int)
    else if |t| > 0 && t[0] == '+' then Magnitude(t[1..])
    else Magnitude(t)
  }

  /**
    * The unsigned number at the front of `u`, truncated toward zero: whole digits, then `.`
    * and fraction digits, then an exponent. Without a digit the number is 0.
    */
  function Magnitude(u: string): nat {
    Whole(0, u)
  }

  /** Scanning whole digits, `m` the value read so far. */
  function Whole(m: nat, u: string): nat
    decreases |u|
  {
    if |u| > 0 && IsDigit(u[0]) then Whole(m * 10 + DigitValue(u[0]), u[1..])
    else if |u| > 0 && u[0] == '.' then Fraction(m, 0, u[1..])
    else Scale(m, ExponentValue(u))
  }

  /** Scanning fraction digits, `m` the value of all digits so far, `k` of them after the point. */
  function Fraction(m: nat, k: nat, u: string): nat
    decreases |u|
  {
    if |u| > 0 && IsDigit(u[0]) then Fraction(m * 10 + DigitValue(u[0]), k + 1, u[1..])
    else Scale(m, ExponentValue(u) - k)
  }

  /** `m` times ten to the power `e`, truncated toward zero when `e` is negative. */
  function Scale(m: nat, e: int): nat
    decreases if e >= 0 then e else -e
  {
    if e == 0 then m else if e > 0 then Scale(m * 10, e - 1) else Scale(m / 10, e + 1)
  }

  /** The exponent `e`/`E`, an optional sign and digits at the front of `s`; 0 when there is none. */
  function ExponentValue(s: string): int {
    if |s| >= 2 && (s[0] == 'e' || s[0] == 'E') then
      var digits := LeadingDigits(if s[1] == '+' || s[1] == '-' then s[2..] else s[1..]);
      if digits == "" then 0
      else if s[1] == '-' then -(ParseNat(digits) as int)
      else ParseNat(digits)
    else 0
  }

  /** `str_pad($s, $width, $c, STR_PAD_LEFT)`: never truncates. */
  function LeftPad(s: string, width: int, c: char): (r: string)
    ensures |r| == if |s| >= width then |s| else width
    ensures forall i | 0 <= i < |r| - |s| :: r[i] == c
  {
    if |s| >= width then s else Repeat(c, width - |s|) + s
  }

  /** `str_pad($s, $width, $c)` (padding on the right): never truncates. */
  function RightPad(s: string, width: int, c: char): (r: string)
    ensures |r| == if |s| >= width then |s| else width
    ensures forall i | |s| <= i < |r| :: r[i] == c
  {
    if |s| >= width then s else s + Repeat(c, width - |s|)
  }

  /**
    * PHP 8's `substr($s, $start, $length)`, `length == None` being an omitted or null length:
    * a negative start counts from the end, a negative length leaves that many characters off
    * the end, and out-of-range requests give the empty string.
    */
  function Substr(s: string, start: int, length: Option<int>): (r: string)
    ensures |r| <= |s|
  {
    if start > |s| then ""
    else
      var f := if start >= 0 then start else if -start > |s| then 0 else |s| + start;
      if length.None? then s[f..]
      else if length.value < 0 then (if |s| - f < -length.value then "" else s[f..|s| + length.value])
      else s[f..f + Min(length.value, |s| - f)]
  }

  /**
    * `sprintf('%0' . $width . 'd', $v)`. A negative width reads as the `-` flag: the number is
    * left-justified and the zeros go on its right.
    */
  function FormatZeroPadded(v: int, width: int): string {
    if width < 0 then RightPad(IntToString(v), -width, '0')
    else if v < 0 then "-" + LeftPad(NatToString(-v), width - 1, '0')
    else LeftPad(NatToString(v), width, '0')
  }

  function UpperChar(c: char): char {
    if 'a' <= c <= 'z' then (c as int - 32) as char else c
  }

  /** `strtoupper`: ASCII letters only. */
  function ToUpper(s: string): (r: string)
    ensures |r| == |s|
    ensures forall i | 0 <= i < |s| :: r[i] == UpperChar(s[i])
  {
    seq(|s|, i requires 0 <= i < |s| => UpperChar(s[i]))
  }

  // ---------------------------------------------------------------------------------------
  // Facts about the conversions

  lemma {:induction false} RepeatAdd(c: char, a: nat, b: nat)
    ensures Repeat(c, a) + Repeat(c, b) == Repeat(c, a + b)
  {
    assert forall i | 0 <= i < a + b :: (Repeat(c, a) + Repeat(c, b))[i] == c;
  }

  /** Zeros in front of a string that still fits the width are absorbed by the padding. */
  lemma LeftPadAbsorbs(s: string, k: nat, width: int, c: char)
    requires |s| + k <= width
    ensures LeftPad(Repeat(c, k) + s, width, c) == LeftPad(s, width, c)
  {
    var z := Repeat(c, k);
    var zs := z + s;
    var w := width - |s|;
    assert LeftPad(s, width, c) == Repeat(c, w) + s;
    if |zs| < width {
      var fill := Repeat(c, w - k);
      assert LeftPad(zs, width, c) == fill + zs;
      RepeatAdd(c, w - k, k);
      assert fill + zs == Repeat(c, w) + s;
    } else {
      assert w == k;
    }
  }

  lemma ToUpperIdempotent(s: string)
    ensures ToUpper(ToUpper(s)) == ToUpper(s)
  {
    assert forall i | 0 <= i < |s| :: UpperChar(UpperChar(s[i])) == UpperChar(s[i]);
  }

  lemma ParseNatSingle(c: char)
    ensures ParseNat([c]) == DigitValue(c)
  {
    assert [c][..0] == [];
  }

  /** Reading digits left to right: the value of `a + b` shifts `a` by the length of `b`. */
  lemma {:induction false} ParseNatAppend(a: string, b: string)
    ensures ParseNat(a + b) == ParseNat(a) * Pow10(|b|) + ParseNat(b)
    decreases |b|
  {
    if b == [] {
      assert a + b == a;
    } else {
      var b' := b[..|b| - 1];
      var d := DigitValue(b[|b| - 1]);
      assert (a + b)[..|a + b| - 1] == a + b';
      assert (a + b)[|a + b| - 1] == b[|b| - 1];
      ParseNatAppend(a, b');
      assert Pow10(|b|) == Pow10(|b'|) * 10;
      Shift(ParseNat(a), Pow10(|b'|), ParseNat(b'), d);
    }
  }

  /** Reading one more digit multiplies by ten and adds it. */
  lemma ParseNatStep(s: string, i: nat)
    requires i < |s|
    ensures ParseNat(s[..i + 1]) == ParseNat(s[..i]) * 10 + DigitValue(s[i])
  {
    assert s[..i + 1][..i] == s[..i];
  }

  lemma Shift(x: int, p: int, y: int, d: int)
    ensures (x * p + y) * 10 + d == x * (p * 10) + (y * 10 + d)
  {
  }

  /** `n` digits hold a value below 10^n. */
  lemma {:induction false} ParseNatBound(s: string)
    ensures ParseNat(s) < Pow10(|s|)
    decreases |s|
  {
    if s != [] {
      var s' := s[..|s| - 1];
      ParseNatBound(s');
      assert ParseNat(s') * 10 <= (Pow10(|s'|) - 1) * 10;
    }
  }

  /** A numeral whose first digit is not 0 is at least 10^(n-1). */
  lemma ParseNatLowerBound(s: string)
    requires |s| >= 1 && DigitValue(s[0]) >= 1
    ensures ParseNat(s) >= Pow10(|s| - 1)
  {
    assert s == [s[0]] + s[1..];
    ParseNatAppend([s[0]], s[1..]);
    ParseNatSingle(s[0]);
  }

  /** Leading zeros do not change the value. */
  lemma LeadingZerosValue(k: nat, s: string)
    ensures ParseNat(Repeat('0', k) + s) == ParseNat(s)
  {
    ParseNatAppend(Repeat('0', k), s);
    ZerosValue(k);
  }

  lemma {:induction false} ZerosValue(k: nat)
    ensures ParseNat(Repeat('0', k)) == 0
  {
    if k > 0 {
      assert Repeat('0', k) == Repeat('0', k - 1) + ['0'] by {
        RepeatAdd('0', k - 1, 1);
      }
      assert Repeat('0', k)[..k - 1] == Repeat('0', k - 1);
      ZerosValue(k - 1);
    }
  }

  /** Printing then reading an integer gives it back. */
  lemma {:induction false} ParseNatToString(n: nat)
    ensures ParseNat(NatToString(n)) == n
    decreases n
  {
    if n < 10 {
      ParseNatSingle(DigitChar(n));
    } else {
      var s := NatToString(n / 10);
      assert (s + [DigitChar(n % 10)])[..|s|] == s;
      ParseNatToString(n / 10);
    }
  }

  /** Reading then printing a canonical numeral gives it back. */
  lemma {:induction false} NatToStringOfParse(s: string)
    requires Canonical(s)
    ensures NatToString(ParseNat(s)) == s
    decreases |s|
  {
    var c := s[|s| - 1];
    if |s| == 1 {
      ParseNatSingle(c);
      assert s == [c];
      assert DigitChar(DigitValue(c)) == c;
    } else {
      var p := s[..|s| - 1];
      assert p[0] == s[0];
      ParseNatLowerBound(p);
      NatToStringOfParse(p);
      var v := ParseNat(s);
      assert v == ParseNat(p) * 10 + DigitValue(c);
      assert v / 10 == ParseNat(p) && v % 10 == DigitValue(c);
      assert DigitChar(DigitValue(c)) == c;
      assert s == p + [c];
    }
  }

  /** A value below 10^k prints in at most k digits. */
  lemma {:induction false} NatToStringLength(n: nat, k: nat)
    requires k >= 1 && n < Pow10(k)
    ensures |NatToString(n)| <= k
    decreases n
  {
    if n >= 10 {
      assert Pow10(1) == 10;
      assert k >= 2;
      assert n / 10 < Pow10(k - 1);
      NatToStringLength(n / 10, k - 1);
    }
  }

  /** `sprintf('%0Nd')` of a numeral's value, at the numeral's own width, gives the numeral back. */
  lemma FormatZeroPaddedOfDigits(u: string)
    requires AllDigits(u) && |u| >= 1
    ensures FormatZeroPadded(IntValue(u), |u|) == u
  {
    IntValueOfDigits(u);
    ZeroPadRoundTrip(u);
  }

  /** The digits of a numeral are unchanged by reading its value and re-padding it with zeros. */
  lemma {:induction false} ZeroPadRoundTrip(t: string)
    requires AllDigits(t) && |t| >= 1
    ensures LeftPad(NatToString(ParseNat(t)), |t|, '0') == t
    decreases |t|
  {
    if t[0] != '0' || |t| == 1 {
      NatToStringOfParse(t);
    } else {
      var t' := t[1..];
      assert t == Repeat('0', 1) + t';
      LeadingZerosValue(1, t');
      ZeroPadRoundTrip(t');
      var w := NatToString(ParseNat(t'));
      ParseNatBound(t');
      NatToStringLength(ParseNat(t'), |t'|);
      LeftPadOneMore(w, |t'|, '0');
    }
  }

  lemma LeftPadOneMore(w: string, n: nat, c: char)
    requires |w| <= n
    ensures LeftPad(w, n + 1, c) == [c] + LeftPad(w, n, c)
  {
    assert Repeat(c, n + 1 - |w|) == [c] + Repeat(c, n - |w|);
  }

  lemma {:induction false} LeadingDigitsOfDigits(s: string)
    requires AllDigits(s)
    ensures LeadingDigits(s) == s
    decreases |s|
  {
    if s != [] {
      LeadingDigitsOfDigits(s[1..]);
    }
  }

  /** Scanning whole digits `d` adds their value below what was read so far. */
  /** The value scanning reaches from `m` after reading the digits `d`. */
  function Shifted(m: nat, d: string): (n: nat)
    decreases |d|
  {
    if d == [] then m else Shifted(m * 10 + DigitValue(d[0]), d[1..])
  }

  /** Scanning digits shifts what was read by their count and adds their value. */
  lemma {:induction false} ShiftedValue(m: nat, d: string)
    ensures Shifted(m, d) == m * Pow10(|d|) + ParseNat(d)
    decreases |d|
  {
    if d != [] {
      var v, p, q := DigitValue(d[0]), Pow10(|d| - 1), ParseNat(d[1..]);
      ShiftedValue(m * 10 + v, d[1..]);
      LeadDigit(d, v, p, q);
      Accumulate(m, v, p, q, Pow10(|d|), ParseNat(d));
    }
  }

  lemma {:induction false} WholeDigits(m: nat, d: string, r: string)
    requires AllDigits(d)
    ensures Whole(m, d + r) == Whole(Shifted(m, d), r)
    decreases |d|
  {
    if d == [] {
      assert d + r == r;
    } else {
      WholeStep(m, d, r);
      WholeDigits(m * 10 + DigitValue(d[0]), d[1..], r);
    }
  }

  lemma WholeStep(m: nat, d: string, r: string)
    requires d != [] && IsDigit(d[0])
    ensures Whole(m, d + r) == Whole(m * 10 + DigitValue(d[0]), d[1..] + r)
  {
    var u := d + r;
    assert u[0] == d[0] && u[1..] == d[1..] + r;
  }

  lemma FractionStep(m: nat, k: nat, f: string, r: string)
    requires f != [] && IsDigit(f[0])
    ensures Fraction(m, k, f + r) == Fraction(m * 10 + DigitValue(f[0]), k + 1, f[1..] + r)
  {
    var u := f + r;
    assert u[0] == f[0] && u[1..] == f[1..] + r;
  }

  /** The first digit of `d` is worth its value times the power of ten of the digits after it. */
  lemma LeadDigit(d: string, v: nat, p: nat, q: nat)
    requires d != [] && v == DigitValue(d[0]) && p == Pow10(|d| - 1) && q == ParseNat(d[1..])
    ensures ParseNat(d) == v * p + q && Pow10(|d|) == 10 * p
  {
    assert d == [d[0]] + d[1..];
    ParseNatAppend([d[0]], d[1..]);
    ParseNatSingle(d[0]);
  }

  /** Reading a digit `v` before `p`-scaled digits worth `q`: the arithmetic of one scanning step. */
  lemma Accumulate(m: int, v: int, p: int, q: int, power: int, value: int)
    requires power == 10 * p && value == v * p + q
    ensures (m * 10 + v) * p + q == m * power + value
  {
  }

  /** Scanning fraction digits `f` adds their value and counts them as places after the point. */
  lemma {:induction false} FractionDigits(m: nat, k: nat, f: string, r: string)
    requires AllDigits(f)
    ensures Fraction(m, k, f + r) == Fraction(Shifted(m, f), k + |f|, r)
    decreases |f|
  {
    if f == [] {
      assert f + r == r;
    } else {
      FractionStep(m, k, f, r);
      FractionDigits(m * 10 + DigitValue(f[0]), k + 1, f[1..], r);
      assert Shifted(m, f) == Shifted(m * 10 + DigitValue(f[0]), f[1..]);
      assert k + |f| == k + 1 + |f[1..]|;
    }
  }

  /** A non-negative power of ten scales up exactly. */
  lemma {:induction false} ScaleUp(m: nat, k: nat)
    ensures Scale(m, k) == m * Pow10(k)
    decreases k
  {
    if k > 0 {
      ScaleUp(m * 10, k - 1);
    }
  }

  /** Dropping `|f|` places from the digits `d + f` leaves the value of `d`. */
  lemma {:induction false} ScaleDownDigits(d: string, f: string)
    requires AllDigits(f)
    ensures Scale(ParseNat(d + f), -|f|) == ParseNat(d)
    decreases |f|
  {
    if f == [] {
      assert d + f == d;
    } else {
      var f' := f[..|f| - 1];
      assert (d + f)[..|d + f| - 1] == d + f';
      assert ParseNat(d + f) / 10 == ParseNat(d + f');
      ScaleDownDigits(d, f');
    }
  }

  /** On a string of digits, PHP's `(int)` is the numeral's value. */
  lemma IntValueOfDigits(s: string)
    requires AllDigits(s)
    ensures IntValue(s) == ParseNat(s)
  {
    assert s == [] || s[0] == s[0];
    assert TrimLeadingSpace(s) == s;
    assert s + "" == s;
    WholeDigits(0, s, "");
    ShiftedValue(0, s);
  }

  /** `(int)` of one character is the digit's value, 0 for anything else. */
  lemma IntValueOfChar(c: char)
    ensures IntValue([c]) == DigitValue(c)
  {
    if IsDigit(c) {
      IntValueOfDigits([c]);
      ParseNatSingle(c);
    } else {
      assert [c][1..] == [];
    }
  }

  /** `(int)` of digits, `e` and exponent digits multiplies by that power of ten (`"1e3"` is 1000). */
  lemma IntValueExponent(d: string, x: string)
    requires AllDigits(d) && d != [] && AllDigits(x) && x != []
    ensures IntValue(d + "e" + x) == ParseNat(d) * Pow10(ParseNat(x))
  {
    var s := d + "e" + x;
    assert s[0] == d[0];
    assert TrimLeadingSpace(s) == s;
    assert s == d + ("e" + x);
    WholeDigits(0, d, "e" + x);
    ShiftedValue(0, d);
    assert ("e" + x)[1..] == x;
    LeadingDigitsOfDigits(x);
    ScaleUp(ParseNat(d), ParseNat(x));
  }

  /** `(int)` of a decimal fraction truncates it to its whole part (`"2.75"` is 2). */
  lemma IntValueFraction(d: string, f: string)
    requires AllDigits(d) && d != [] && AllDigits(f)
    ensures IntValue(d + "." + f) == ParseNat(d)
  {
    var s := d + ("." + f);
    assert d + "." + f == s;
    IntValueUnsigned(s);
    WholeDigits(0, d, "." + f);
    ShiftedValue(0, d);
    WholeThenFraction(ParseNat(d), f);
    FractionToEnd(ParseNat(d), d, f);
    ScaleDownDigits(d, f);
  }

  /** The fraction digits `f` after the whole digits `d`, with nothing after them. */
  lemma FractionToEnd(m: nat, d: string, f: string)
    requires AllDigits(f) && m == ParseNat(d)
    ensures Fraction(m, 0, f) == Scale(ParseNat(d + f), -|f|)
  {
    assert f + "" == f;
    FractionDigits(m, 0, f, "");
    ShiftedValue(m, f);
    ParseNatAppend(d, f);
  }

  /** Text starting with a digit has no sign or space to skip. */
  lemma IntValueUnsigned(s: string)
    requires |s| > 0 && IsDigit(s[0])
    ensures IntValue(s) == Whole(0, s)
  {
    assert TrimLeadingSpace(s) == s;
  }

  /** After the whole digits, a point starts the fraction. */
  lemma WholeThenFraction(m: nat, f: string)
    ensures Whole(m, "." + f) == Fraction(m, 0, f)
  {
    assert ("." + f)[1..] == f;
  }

  lemma IntToStringOfNat(n: nat)
    ensures IntToString(n) == NatToString(n)
  {
  }

  /** A canonical numeral reads back as the number it prints. */
  lemma CanonicalRoundTrip(t: string)
    requires Canonical(t)
    ensures IntValue(t) == ParseNat(t)
    ensures IntToString(IntValue(t)) == t
  {
    IntValueOfDigits(t);
    NatToStringOfParse(t);
    IntToStringOfNat(ParseNat(t));
  }

  /** The first `k` digits of a canonical numeral are canonical and survive `substr`. */
  lemma CanonicalPrefix(s: string, k: nat)
    requires Canonical(s) && 1 <= k <= |s|
    ensures IntToString(IntValue(Substr(s, 0, Some(k)))) == s[..k]
    ensures IntValue(Substr(s, 0, Some(k))) == ParseNat(s[..k])
    ensures NatToString(ParseNat(s[..k])) == s[..k]
  {
    SubstrPrefix(s, k);
    assert Canonical(s[..k]);
    CanonicalRoundTrip(s[..k]);
  }

  /** A digit string is its digits but the last, followed by the text of its last digit. */
  lemma LastDigitRebuilt(s: string)
    requires AllDigits(s) && |s| >= 1
    ensures IntValue(s[..|s| - 1] + IntToString(DigitValue(s[|s| - 1]))) == ParseNat(s)
  {
    IntToStringOfDigit(DigitValue(s[|s| - 1]));
    assert DigitChar(DigitValue(s[|s| - 1])) == s[|s| - 1];
    SplitLast(s);
    IntValueOfDigits(s);
  }

  /** A single digit prints as its own character. */
  lemma IntToStringOfDigit(d: nat)
    requires d <= 9
    ensures IntToString(d) == [DigitChar(d)]
  {
  }

  /** `(string) $i` always ends with a digit. */
  lemma IntToStringEndsInDigit(i: int)
    ensures |IntToString(i)| >= 1 && IsDigit(IntToString(i)[|IntToString(i)| - 1])
  {
  }

  /** `sprintf('%0Nd', $v)` is exactly N characters wide when the number fits. */
  lemma FormatZeroPaddedLength(v: int, width: int)
    requires 0 <= |IntToString(v)| <= width
    ensures |FormatZeroPadded(v, width)| == width
  {
  }

  /** Zero padding keeps the digits and the value of a non-negative number. */
  lemma ZeroPaddedValue(n: nat, width: int)
    requires width >= 0
    ensures AllDigits(FormatZeroPadded(n, width))
    ensures ParseNat(FormatZeroPadded(n, width)) == n
  {
    var s := NatToString(n);
    assert FormatZeroPadded(n, width) == LeftPad(s, width, '0');
    ParseNatToString(n);
    if |s| < width {
      var z := Repeat('0', width - |s|);
      assert LeftPad(s, width, '0') == z + s;
      LeadingZerosValue(width - |s|, s);
      AllDigitsConcat(z, s);
    }
  }

  /** `substr($s, -1)`: the last character. */
  lemma SubstrLast(s: string)
    requires |s| >= 1
    ensures Substr(s, -1, None) == [s[|s| - 1]]
  {
  }

  /** `substr($s, 0, $k)` within range: the first `k` characters. */
  lemma SubstrPrefix(s: string, k: nat)
    requires k <= |s|
    ensures Substr(s, 0, Some(k)) == s[..k]
  {
  }

  /** `substr($s, $a, -$k)`: from `a` up to the last `k` characters, empty when too short. */
  lemma SubstrDropEnd(s: string, a: nat, k: int)
    requires a <= |s| && k >= 1
    ensures Substr(s, a, Some(-k)) == if |s| - a < k then "" else s[a..|s| - k]
  {
  }

  /** `substr($s, -$k)`: the last `k` characters, or all of a shorter string. */
  lemma SubstrLastK(s: string, k: int)
    requires k >= 1
    ensures Substr(s, -k, None) == if k > |s| then s else s[|s| - k..]
  {
  }

  /** `substr($s, 0, -1)`: all but the last character. */
  lemma SubstrAllButLast(s: string)
    requires |s| >= 1
    ensures Substr(s, 0, Some(-1)) == s[..|s| - 1]
  {
  }

  lemma ConcatAssoc(a: string, b: string, c: string)
    ensures a + (b + c) == a + b + c
  {
  }

  /** Appending one character keeps what came before. */
  lemma AppendOne(a: string, x: char)
    ensures (a + [x])[..|a|] == a && (a + [x])[|a|] == x
  {
  }

  /** A slice inside a known prefix is the same slice of that prefix. */
  lemma SliceOfPrefix(t: string, b: string, i: nat, j: nat)
    requires |b| <= |t| && t[..|b|] == b && i <= j <= |b|
    ensures t[i..j] == b[i..j]
  {
    assert forall k | i <= k < j :: t[k] == t[..|b|][k];
  }

  /** A non-empty string is its body followed by its last character. */
  lemma SplitLast(s: string)
    requires |s| >= 1
    ensures s == s[..|s| - 1] + [s[|s| - 1]]
  {
  }

  lemma AllDigitsConcat(a: string, b: string)
    requires AllDigits(a) && AllDigits(b)
    ensures AllDigits(a + b)
  {
  }

  /** Two strings that differ only in their first character. */
  lemma DifferInFirst(x: string, y: string, a: char, b: char, s: string)
    requires x == [a] + s && y == [b] + s
    ensures |x| == |y| && x[0] == a && y[0] == b
    ensures forall i | 0 <= i < |x| && i != 0 :: x[i] == y[i]
  {
  }

  /** Dropping the last character of two strings keeps their agreement elsewhere. */
  lemma DropLastAgree(a: string, b: string, x: string, y: string, k: nat)
    requires |a| == |b| >= 1 && x == a[..|a| - 1] && y == b[..|b| - 1]
    requires forall i | 0 <= i < |a| && i != k :: a[i] == b[i]
    ensures |x| == |y| == |a| - 1
    ensures forall i | 0 <= i < |x| && i != k :: x[i] == y[i]
  {
  }
}
