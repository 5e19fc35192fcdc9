/**
  * `Gtin`, the GTIN-14 variant working on integers: a 14-digit argument is split into
  * indicator, base number and check digit and checked; anything shorter is padded into
  * indicator 1, a seven-digit company prefix and a five-digit item reference, and given
  * its check digit.
  */
module Gtin {
  import opened Wrappers
  import opened Decimal
  import opened CheckDigit

  /** The exception raised when a 14-digit argument carries the wrong check digit. */
  datatype Error = CheckDigitMismatch

  /** The state of a finished object. */
  datatype GtinValue = GtinValue(
    baseNumber: int,
    companyPrefix: string,
    itemReference: string,
    checkDigit: int,
    number: int,
    indicator: int)

  /** `(string) $number` for the nullable argument: null prints as the empty string. */
  function Text(number: Option<nat>): string {
    match number
    case None => ""
    case Some(n) => NatToString(n)
  }

  /** Lines 48-50: text longer than 14 characters is cut to its first 14 and re-read. */
  function Truncated(s: string): string {
    if |s| > 14 then IntToString(IntValue(Substr(s, 0, Some(14)))) else s
  }

  /**
    * The 14-digit branch: the first 13 digits are the base number, the first digit the
    * indicator, the last the check digit; the prefix is the base's digits after the first,
    * up to the last five, re-padded to seven; the item reference is the base's last five.
    */
  function SplitFourteen(s: string): Result<GtinValue, Error> {
    var g := SplitFields(s);
    if g.checkDigit != CheckDigitOf(IntToString(g.baseNumber)) then Failure(CheckDigitMismatch)
    else Success(g)
  }

  function SplitFields(s: string): GtinValue {
    var base := IntValue(Substr(s, 0, Some(|s| - 1)));
    var cd := IntValue(Substr(s, -1, None));
    GtinValue(base, FormatZeroPadded(IntValue(Substr(IntToString(base), 1, Some(-5))), 7),
              Substr(IntToString(base), -5, None), cd,
              IntValue(IntToString(base) + IntToString(cd)), IntValue(Substr(s, 0, Some(1))))
  }

  /** The short branch's company prefix: all but the last five characters, as seven digits. */
  function ShortPrefix(s: string): string {
    FormatZeroPadded(IntValue(Substr(s, 0, Some(-5))), 7)
  }

  /** The short branch's item reference: the last five characters, as five digits. */
  function ShortItem(s: string): string {
    FormatZeroPadded(IntValue(Substr(s, -5, None)), 5)
  }

  /**
    * The other branch: indicator 1, then the padded prefix and item reference, read as the
    * base number, and its check digit.
    */
  function PadAndBuild(s: string): GtinValue {
    var base := IntValue(IntToString(1) + ShortPrefix(s) + ShortItem(s));
    var cd := CheckDigitOf(IntToString(base));
    GtinValue(base, ShortPrefix(s), ShortItem(s), cd,
              IntValue(IntToString(base) + IntToString(cd)), 1)
  }

  /**
    * The constructor: the outcome of `new Gtin($number)`. Whatever the branch, the check
    * digit it keeps is a digit and is the check digit of the base number.
    */
  function Construct(number: Option<nat>): (r: Result<GtinValue, Error>)
    ensures r.Success? ==> 0 <= r.value.checkDigit <= 9
    ensures r.Success? ==> r.value.checkDigit == CheckDigitOf(IntToString(r.value.baseNumber))
  {
    var s := Truncated(Text(number));
    if |s| == 14 then SplitFourteen(s) else Success(PadAndBuild(s))
  }

  /** More than 14 digits: the number is treated exactly as its first 14 digits. */
  lemma CutToFourteenDigits(n: nat)
    requires |NatToString(n)| > 14
    ensures Construct(Some(n)) == Construct(Some(ParseNat(NatToString(n)[..14])))
  {
    CanonicalPrefix(NatToString(n), 14);
  }

  /** The parts `substr` cuts from a 14-digit numeral. */
  lemma FourteenDigitParts(s: string)
    requires Canonical(s) && |s| == 14
    ensures IntToString(IntValue(Substr(s, 0, Some(|s| - 1)))) == s[..13]
    ensures IntValue(Substr(s, 0, Some(|s| - 1))) == ParseNat(s[..13])
    ensures IntValue(Substr(s, 0, Some(1))) == DigitValue(s[0])
    ensures IntValue(Substr(s, -1, None)) == DigitValue(s[13])
  {
    CanonicalPrefix(s, 13);
    SubstrPrefix(s, 1);
    assert s[..1] == [s[0]];
    IntValueOfChar(s[0]);
    SubstrLast(s);
    IntValueOfChar(s[13]);
  }

  /** The prefix and item reference `substr` cuts from a 13-digit base number. */
  lemma BaseFields(b: string)
    requires AllDigits(b) && |b| == 13
    ensures FormatZeroPadded(IntValue(Substr(b, 1, Some(-5))), 7) == b[1..8]
    ensures Substr(b, -5, None) == b[8..13]
  {
    PrefixField(b);
    SubstrLastK(b, 5);
  }

  /** The company prefix field: digits 2-8 of the base number, re-padded to their own width. */
  lemma PrefixField(b: string)
    requires AllDigits(b) && |b| == 13
    ensures FormatZeroPadded(IntValue(Substr(b, 1, Some(-5))), 7) == b[1..8]
  {
    SubstrDropEnd(b, 1, 5);
    FormatZeroPaddedOfDigits(b[1..8]);
  }

  /**
    * A 14-digit number is split into indicator, base and check digit and accepted exactly
    * when its last digit is the check digit of its first 13; the prefix is digits 2-8 and the
    * item reference digits 9-13; an accepted number is kept unchanged.
    */
  lemma FourteenDigitBranch(n: nat)
    requires |NatToString(n)| == 14
    ensures var s := NatToString(n);
      Construct(Some(n)).Success? <==> DigitValue(s[13]) == CheckDigitOf(s[..13])
    ensures Construct(Some(n)).Failure? ==> Construct(Some(n)).error == CheckDigitMismatch
    ensures var s := NatToString(n);
      Construct(Some(n)).Success? ==>
        Construct(Some(n)).value
        == GtinValue(ParseNat(s[..13]), s[1..8], s[8..13], DigitValue(s[13]), n, DigitValue(s[0]))
  {
    var s := NatToString(n);
    FourteenDigitParts(s);
    BaseFields(s[..13]);
    SliceOfPrefix(s, s[..13], 1, 8);
    SliceOfPrefix(s, s[..13], 8, 13);
    LastDigitRebuilt(s);
    ParseNatToString(n);
  }

  /** The last `k` characters of `s`, or all of it when shorter. */
  function LastChars(s: string, k: nat): string {
    if |s| >= k then s[|s| - k..] else s
  }

  /** All but the last `k` characters of `s`, or nothing when shorter. */
  function AllButLastChars(s: string, k: nat): string {
    if |s| >= k then s[..|s| - k] else ""
  }

  /** A digit string of at most `w` digits, zero-padded to `w`, keeps its value in `w` digits. */
  lemma PaddedField(t: string, w: nat)
    requires AllDigits(t) && 1 <= w && |t| <= w
    ensures var f := FormatZeroPadded(IntValue(t), w);
      |f| == w && AllDigits(f) && ParseNat(f) == ParseNat(t)
  {
    IntValueOfDigits(t);
    ParseNatBound(t);
    assert Pow10(|t|) <= Pow10(w) by { Pow10Monotone(|t|, w); }
    NatToStringLength(ParseNat(t), w);
    IntToStringOfNat(ParseNat(t));
    FormatZeroPaddedLength(ParseNat(t), w);
    ZeroPaddedValue(ParseNat(t), w);
  }

  lemma {:induction false} Pow10Monotone(a: nat, b: nat)
    requires a <= b
    ensures Pow10(a) <= Pow10(b)
  {
    if a < b {
      Pow10Monotone(a, b - 1);
    }
  }

  lemma ShortPrefixField(s: string)
    requires AllDigits(s) && |s| <= 12
    ensures |ShortPrefix(s)| == 7 && AllDigits(ShortPrefix(s))
    ensures ParseNat(ShortPrefix(s)) == ParseNat(AllButLastChars(s, 5))
  {
    SubstrDropEnd(s, 0, 5);
    PaddedField(AllButLastChars(s, 5), 7);
  }

  lemma ShortItemField(s: string)
    requires AllDigits(s) && |s| <= 12
    ensures |ShortItem(s)| == 5 && AllDigits(ShortItem(s))
    ensures ParseNat(ShortItem(s)) == ParseNat(LastChars(s, 5))
  {
    SubstrLastK(s, 5);
    PaddedField(LastChars(s, 5), 5);
  }

  /** "1" followed by seven and five digits is a 13-digit numeral cut back into its parts. */
  lemma LeadingOneParts(b: string, p: string, i: string)
    requires b == "1" + p + i && |p| == 7 && |i| == 5 && AllDigits(p) && AllDigits(i)
    ensures |b| == 13 && Canonical(b) && b[0] == '1' && b[1..8] == p && b[8..13] == i
  {
    assert b[1..8] == p;
    assert b[8..13] == i;
  }

  /** The 13 digits the short branch builds. */
  function ShortBase(s: string): string {
    IntToString(1) + ShortPrefix(s) + ShortItem(s)
  }

  lemma ShortBaseDigits(s: string)
    requires AllDigits(s) && |s| <= 12
    ensures |ShortBase(s)| == 13 && Canonical(ShortBase(s)) && ShortBase(s)[0] == '1'
    ensures ShortBase(s)[1..8] == ShortPrefix(s) && ShortBase(s)[8..13] == ShortItem(s)
  {
    ShortPrefixField(s);
    ShortItemField(s);
    assert IntToString(1) == "1";
    LeadingOneParts(ShortBase(s), ShortPrefix(s), ShortItem(s));
  }

  /** The short branch's base number and number, as text. */
  lemma ShortNumber(s: string)
    requires AllDigits(s) && |s| <= 12
    ensures IntToString(PadAndBuild(s).baseNumber) == ShortBase(s)
    ensures PadAndBuild(s).number >= 0
    ensures NatToString(PadAndBuild(s).number)
            == ShortBase(s) + [DigitChar(CheckDigitOf(ShortBase(s)))]
  {
    ShortBaseDigits(s);
    var b := ShortBase(s);
    CanonicalRoundTrip(b);
    var cd := CheckDigitOf(b);
    IntToStringOfDigit(cd);
    var t := b + [DigitChar(cd)];
    assert Canonical(t);
    CanonicalRoundTrip(t);
    IntToStringOfNat(ParseNat(t));
  }

  lemma TextDigits(number: Option<nat>)
    ensures AllDigits(Text(number))
  {
  }

  /**
   * Input of at most 12 digits: indicator 1, a seven-digit prefix holding the value of all
   * but the last five digits, a five-digit reference holding the value of the last five,
   * and a 14-digit number starting with 1 and ending in the check digit of the 13 before it.
   */
  lemma ShortInputBranch(number: Option<nat>)
    requires |Text(number)| <= 12
    ensures Construct(number).Success?
    ensures var g := Construct(number).value; var s := Text(number);
      && g.indicator == 1
      && |g.companyPrefix| == 7 && AllDigits(g.companyPrefix)
      && ParseNat(g.companyPrefix) == ParseNat(AllButLastChars(s, 5))
      && |g.itemReference| == 5 && AllDigits(g.itemReference)
      && ParseNat(g.itemReference) == ParseNat(LastChars(s, 5))
      && g.number >= 0
      && var t := NatToString(g.number);
         && |t| == 14 && t[0] == '1'
         && t[..13] == "1" + g.companyPrefix + g.itemReference
         && DigitValue(t[13]) == CheckDigitOf(t[..13])
  {
    var s := Text(number);
    TextDigits(number);
    assert Construct(number) == Success(PadAndBuild(s));
    ShortPrefixField(s);
    ShortItemField(s);
    ShortBaseDigits(s);
    ShortNumber(s);
    var b := ShortBase(s);
    AppendOne(b, DigitChar(CheckDigitOf(b)));
    assert IntToString(1) == "1";
  }

  /**
   * Feeding the number built from input of at most 12 digits back in takes the 14-digit
   * branch, passes its check and rebuilds the very same object.
   */
  lemma ShortInputRebuilds(number: Option<nat>)
    requires |Text(number)| <= 12
    ensures Construct(number).Success? && Construct(number).value.number >= 0
    ensures Construct(Some(Construct(number).value.number as nat)) == Construct(number)
  {
    TextDigits(number);
    assert Construct(number) == Success(PadAndBuild(Text(number)));
    ShortRebuild(Text(number));
  }

  lemma ShortRebuild(s: string)
    requires AllDigits(s) && |s| <= 12
    ensures PadAndBuild(s).number >= 0
    ensures Construct(Some(PadAndBuild(s).number as nat)) == Success(PadAndBuild(s))
  {
    ShortNumber(s);
    ShortBaseDigits(s);
    var g := PadAndBuild(s);
    var b := ShortBase(s);
    var d := DigitChar(CheckDigitOf(b));
    var t := NatToString(g.number as nat);
    AppendOne(b, d);
    assert t[..13] == b && t[13] == d;
    FourteenDigitBranch(g.number as nat);
    CanonicalRoundTrip(b);
    SliceOfPrefix(t, b, 1, 8);
    SliceOfPrefix(t, b, 8, 13);
  }

  /**
    * `getCheckDigit` on a base number: its text padded to fifteen characters with leading
    * zeros, weighted 3 and 1 from the left, and the complement of the sum to a multiple of ten.
    */
  method BaseCheckDigit(baseNumber: int) returns (cd: int)
    ensures 0 <= cd <= 9
    ensures cd == CheckDigitOf(IntToString(baseNumber))
  {
    var base := LeftPad(IntToString(baseNumber), Width, '0');
    var sum := 0;
    for i := 0 to Width
      invariant sum == WeightedSum(base[..i])
    {
      var value := DigitValue(base[i]);
      WeightedSumStep(base, i);
      sum := sum + ((i + 1) % 2 * 2 + 1) * value;
    }
    assert base[..Width] == Window(IntToString(baseNumber));
    cd := 10 - sum % 10;
    if cd == 10 {
      cd := 0;
    }
  }

  /**
    * An object of the class. The indicator starts at its property default of 1; the other
    * fields are typed but unset until the constructor assigns them.
    */
  class Gtin {
    var baseNumber: int
    var companyPrefix: string
    var itemReference: string
    var checkDigit: int
    var number: int
    var indicator: int

    constructor Blank()
      ensures indicator == 1
    {
      baseNumber := 0;
      companyPrefix := "";
      itemReference := "";
      checkDigit := 0;
      number := 0;
      indicator := 1;
    }

    function Value(): GtinValue
      reads this
    {
      GtinValue(baseNumber, companyPrefix, itemReference, checkDigit, number, indicator)
    }

    /** `__toString`: the decimal text of the number. */
    function ToString(): (s: string)
      reads this
      ensures number >= 0 ==> s == NatToString(number)
    {
      IntToString(number)
    }

    /** `getCheckDigit`: the check digit of this object's base number. */
    method GetCheckDigit() returns (cd: int)
      ensures 0 <= cd <= 9
      ensures cd == CheckDigitOf(IntToString(baseNumber))
    {
      cd := BaseCheckDigit(baseNumber);
    }

    /** `new Gtin($number)`: the object the constructor builds, or the exception it raises. */
    static method New(number: Option<nat>) returns (r: Result<Gtin, Error>)
      ensures r.Success? <==> Construct(number).Success?
      ensures r.Failure? ==> r.error == Construct(number).error
      ensures r.Success? ==> fresh(r.value) && r.value.Value() == Construct(number).value
    {
      var g := new Gtin.Blank();
      var s := Text(number);
      if |s| > 14 {
        s := IntToString(IntValue(Substr(s, 0, Some(14))));
      }
      if |s| == 14 {
        var valid := g.SplitNumber(s);
        if !valid {
          return Failure(CheckDigitMismatch);
        }
      } else {
        g.PadNumber(s);
      }
      r := Success(g);
    }

    /**
      * Lines 51-60 and 68 on a 14-character number: the fields it is split into, and whether
      * its check digit is the one `getCheckDigit` computes.
      */
    method SplitNumber(s: string) returns (valid: bool)
      modifies this
      ensures Value() == SplitFields(s)
      ensures valid <==> checkDigit == CheckDigitOf(IntToString(baseNumber))
    {
      baseNumber := IntValue(Substr(s, 0, Some(|s| - 1)));
      indicator := IntValue(Substr(s, 0, Some(1)));
      checkDigit := IntValue(Substr(s, -1, None));
      companyPrefix := FormatZeroPadded(IntValue(Substr(IntToString(baseNumber), 1, Some(-5))), 7);
      itemReference := Substr(IntToString(baseNumber), -5, None);
      var expected := GetCheckDigit();
      valid := checkDigit == expected;
      number := IntValue(IntToString(baseNumber) + IntToString(checkDigit));
    }

    /** Lines 62-66 and 68: indicator 1, the padded fields of a shorter number, its check digit. */
    method PadNumber(s: string)
      modifies this
      ensures Value() == PadAndBuild(s)
    {
      indicator := 1;
      companyPrefix := FormatZeroPadded(IntValue(Substr(s, 0, Some(-5))), 7);
      itemReference := FormatZeroPadded(IntValue(Substr(s, -5, None)), 5);
      baseNumber := IntValue(IntToString(indicator) + companyPrefix + itemReference);
      checkDigit := GetCheckDigit();
      number := IntValue(IntToString(baseNumber) + IntToString(checkDigit));
    }

    /**
      * `create`: construct, then recompute the check digit from the base number; the
      * recomputed digit is the one the constructor stored, so the object is unchanged.
      */
    static method Create(number: nat) returns (r: Result<Gtin, Error>)
      ensures r.Success? <==> Construct(Some(number)).Success?
      ensures r.Failure? ==> r.error == Construct(Some(number)).error
      ensures r.Success? ==> fresh(r.value) && r.value.Value() == Construct(Some(number)).value
    {
      r := New(Some(number));
      if r.Success? {
        var g := r.value;
        g.checkDigit := g.GetCheckDigit();
      }
    }
  }
}
