/**
  * The GS1 mod-10 check digit as this library computes it: the input is left-padded with
  * zeros to 15 characters, position i (counted from 0 on the left) weighs 3 when i is even
  * and 1 when it is odd, and the check digit brings the weighted sum up to a multiple of ten.
  * A character that is not a digit counts as 0, as PHP's `(int)` makes it.
  */
module CheckDigit {
  import opened Decimal

  const Width := 15

  function Weight(i: nat): nat {
    if i % 2 == 0 then 3 else 1
  }

  /** Sum of the weighted digits of `s`, position 0 being its first character. */
  function WeightedSum(s: string): nat {
    if s == [] then 0 else WeightedSum(s[..|s| - 1]) + Weight(|s| - 1) * DigitValue(s[|s| - 1])
  }

  /** The 15 characters the loop reads: the input left-padded with zeros, never truncated. */
  function Window(s: string): (w: string)
    ensures |w| == Width
  {
    LeftPad(s, Width, '0')[..Width]
  }

  /** The single digit that makes the weighted sum of the padded input a multiple of ten. */
  function CheckDigitOf(s: string): (d: nat)
    ensures d <= 9
    ensures (WeightedSum(Window(s)) + d) % 10 == 0
  {
    var sum := WeightedSum(Window(s));
    ModComplement(sum);
    (10 - sum % 10) % 10
  }

  lemma ModComplement(x: nat)
    ensures (x + (10 - x % 10) % 10) % 10 == 0
  {
    var r := x % 10;
    assert x == 10 * (x / 10) + r;
    if r != 0 {
      assert (10 - r) % 10 == 10 - r;
      assert x + (10 - r) == 10 * (x / 10 + 1);
    }
  }

  // ---------------------------------------------------------------------------------------

  lemma SameWindowSameDigit(a: string, b: string)
    requires Window(a) == Window(b)
    ensures CheckDigitOf(a) == CheckDigitOf(b)
  {
  }

  lemma LeadingZerosWindow(s: string, k: nat)
    requires |s| + k <= Width
    ensures Window(Repeat('0', k) + s) == Window(s)
  {
    LeftPadAbsorbs(s, k, Width, '0');
  }

  /** One more character of the sum, with the weight written as the loop computes it. */
  lemma WeightedSumStep(s: string, i: nat)
    requires i < |s|
    ensures WeightedSum(s[..i + 1]) == WeightedSum(s[..i]) + ((i + 1) % 2 * 2 + 1) * DigitValue(s[i])
  {
    assert s[..i + 1][..i] == s[..i];
  }

  /** After an even-length start, the weights of what follows begin again at 3. */
  lemma {:induction false} WeightedSumConcat(a: string, b: string)
    requires |a| % 2 == 0
    ensures WeightedSum(a + b) == WeightedSum(a) + WeightedSum(b)
    decreases |b|
  {
    if b == [] {
      assert a + b == a;
    } else {
      var c := b[..|b| - 1];
      WeightedSumConcat(a, c);
      assert (a + b)[..|a + b| - 1] == a + c;
      assert (a + b)[|a + b| - 1] == b[|b| - 1];
      assert (|a| + |c|) % 2 == |c| % 2;
    }
  }

  /** Leading zeros are absorbed by the padding, as long as the input stays within 15. */
  lemma LeadingZerosIgnored(s: string, k: nat)
    requires |s| + k <= Width
    ensures CheckDigitOf(Repeat('0', k) + s) == CheckDigitOf(s)
  {
    LeadingZerosWindow(s, k);
    SameWindowSameDigit(Repeat('0', k) + s, s);
  }

  /** Only the first 15 characters of a longer input are read. */
  lemma OnlyFirstFifteenRead(s: string)
    requires |s| >= Width
    ensures CheckDigitOf(s) == CheckDigitOf(s[..Width])
  {
    assert Window(s) == s[..Width];
    assert Window(s[..Width]) == s[..Width];
  }

  lemma {:induction false} WeightedSumOneChange(s: string, t: string, k: nat)
    requires |s| == |t| && k < |s|
    requires forall i | 0 <= i < |s| && i != k :: s[i] == t[i]
    ensures WeightedSum(s) as int == WeightedSum(t) + Weight(k) * (DigitValue(s[k]) - DigitValue(t[k]))
    decreases |s|
  {
    var n := |s|;
    var s', t' := s[..n - 1], t[..n - 1];
    var a: int, b: int := DigitValue(s[k]), DigitValue(t[k]);
    assert WeightedSum(s) == WeightedSum(s') + Weight(n - 1) * DigitValue(s[n - 1]);
    assert WeightedSum(t) == WeightedSum(t') + Weight(n - 1) * DigitValue(t[n - 1]);
    assert Weight(k) * (a - b) == Weight(k) * a - Weight(k) * b;
    if k == n - 1 {
      assert s' == t';
    } else {
      assert s[n - 1] == t[n - 1];
      assert forall i | 0 <= i < n - 1 && i != k :: s'[i] == t'[i];
      WeightedSumOneChange(s', t', k);
      assert s'[k] == s[k] && t'[k] == t[k];
    }
  }

  /** Padding shifts the changed position of two equally long inputs by the same amount. */
  lemma WindowOneChange(s: string, t: string, k: nat)
    requires |s| == |t| <= Width && k < |s|
    requires forall i | 0 <= i < |s| && i != k :: s[i] == t[i]
    ensures Window(s)[Width - |s| + k] == s[k] && Window(t)[Width - |s| + k] == t[k]
    ensures forall i | 0 <= i < Width && i != Width - |s| + k :: Window(s)[i] == Window(t)[i]
  {
    var p := Width - |s|;
    assert Window(s) == Repeat('0', p) + s && Window(t) == Repeat('0', p) + t;
    forall i | 0 <= i < Width && i != p + k
      ensures Window(s)[i] == Window(t)[i]
    {
      if i >= p {
        assert Window(s)[i] == s[i - p] && Window(t)[i] == t[i - p];
      }
    }
  }

  lemma ModCancel(a: int, b: int, c: int, d: int)
    requires (a + c) % 10 == 0 && (b + d) % 10 == 0
    ensures c == d ==> (a - b) % 10 == 0
  {
    assert a + c == 10 * ((a + c) / 10) && b + d == 10 * ((b + d) / 10);
  }

  /** Check digits agree only when the weighted sums agree modulo ten. */
  lemma SumsDifferDigitsDiffer(s: string, t: string)
    requires (WeightedSum(Window(s)) - WeightedSum(Window(t))) % 10 != 0
    ensures CheckDigitOf(s) != CheckDigitOf(t)
  {
    ModCancel(WeightedSum(Window(s)), WeightedSum(Window(t)), CheckDigitOf(s), CheckDigitOf(t));
  }

  /** Weights 1 and 3 are prime to ten, so a weighted digit change never vanishes mod 10. */
  lemma WeightedChangeNotMultipleOfTen(x: int, w: int, e: int)
    requires w == 1 || w == 3
    requires e != 0 && -9 <= e <= 9
    requires x == w * e
    ensures x % 10 != 0
  {
  }

  lemma DistinctDigitsDiffer(a: char, b: char)
    requires IsDigit(a) && IsDigit(b) && a != b
    ensures DigitValue(a) != DigitValue(b)
  {
    assert DigitChar(DigitValue(a)) == a && DigitChar(DigitValue(b)) == b;
  }

  /**
    * The check digit catches every single-digit error: two inputs of at most 15 characters
    * that differ in one position, holding two different digits there, get different check
    * digits.
    */
  lemma SingleDigitErrorDetected(s: string, t: string, k: nat)
    requires |s| == |t| <= Width && k < |s|
    requires IsDigit(s[k]) && IsDigit(t[k]) && s[k] != t[k]
    requires forall i | 0 <= i < |s| && i != k :: s[i] == t[i]
    ensures CheckDigitOf(s) != CheckDigitOf(t)
  {
    var q := Width - |s| + k;
    WindowOneChange(s, t, k);
    WeightedSumOneChange(Window(s), Window(t), q);
    DistinctDigitsDiffer(s[k], t[k]);
    WeightedChangeNotMultipleOfTen(WeightedSum(Window(s)) - WeightedSum(Window(t)),
      Weight(q), DigitValue(s[k]) - DigitValue(t[k]));
    SumsDifferDigitsDiffer(s, t);
  }
}
