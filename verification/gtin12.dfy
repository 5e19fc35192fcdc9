/**
  * `Gtin12` (UPC-A): a 12-digit argument is split into indicator, base number and check digit
  * and checked; anything shorter is zero-padded behind the company prefix to eleven digits
  * and given its check digit. The class's parent is not part of this model: its check-digit
  * loop is taken to be the one `Gtin` has, and the indicator, which only the 12-digit branch
  * assigns, is `None` while unset.
  */
module Gtin12 {
  import opened Wrappers
  import opened Decimal
  import opened CheckDigit
  import Gtin

  /** The exception raised when a 12-digit argument carries the wrong check digit. */
  datatype Error = CheckDigitMismatch

  /** The state of a finished object. */
  datatype GtinValue = GtinValue(
    baseNumber: int,
    companyPrefix: string,
    itemReference: string,
    checkDigit: int,
    number: int,
    indicator: Option<int>)

  /** Lines 44-46: text longer than 12 characters is cut to its first 12 and re-read. */
  function Truncated(s: string): string {
    if |s| > 12 then IntToString(IntValue(Substr(s, 0, Some(12)))) else s
  }

  /**
    * The 12-digit branch: the first 11 digits are the base number, the first digit the
    * indicator, the last the check digit; the prefix is the base's digits after the first,
    * up to the last five, re-padded to seven; the item reference is the base's last five.
    */
  function SplitTwelve(s: string): Result<GtinValue, Error> {
    var g := SplitFields(s);
    if g.checkDigit != CheckDigitOf(IntToString(g.baseNumber)) then Failure(CheckDigitMismatch)
    else Success(g)
  }

  function SplitFields(s: string): GtinValue {
    var base := IntValue(Substr(s, 0, Some(|s| - 1)));
    var cd := IntValue(Substr(s, -1, None));
    GtinValue(base, FormatZeroPadded(IntValue(Substr(IntToString(base), 1, Some(-5))), 7),
              Substr(IntToString(base), -5, None), cd,
              IntValue(IntToString(base) + IntToString(cd)), Some(IntValue(Substr(s, 0, Some(1)))))
  }

  /**
    * The construction branch: the prefix as given, the number zero-padded to the width the
    * prefix leaves of eleven digits, the two read together as the base number, and its check
    * digit. The indicator is not assigned.
    */
  function PadAndBuild(s: string, prefix: string): GtinValue {
    var item := FormatZeroPadded(IntValue(s), 11 - |prefix|);
    var base := IntValue(prefix + item);
    var cd := CheckDigitOf(IntToString(base));
    GtinValue(base, prefix, item, cd, IntValue(IntToString(base) + IntToString(cd)), None)
  }

  /**
    * The constructor: the outcome of `new Gtin12($number, $companyPrefix)`. Whatever the
    * branch, the check digit it keeps is a digit and is the check digit of the base number.
    */
  function Construct(number: Option<nat>, prefix: string): (r: Result<GtinValue, Error>)
    ensures r.Success? ==> 0 <= r.value.checkDigit <= 9
    ensures r.Success? ==> r.value.checkDigit == CheckDigitOf(IntToString(r.value.baseNumber))
  {
    var s := Truncated(Gtin.Text(number));
    if |s| == 12 then SplitTwelve(s) else Success(PadAndBuild(s, prefix))
  }

  /** More than 12 digits: the number is treated exactly as its first 12 digits. */
  lemma CutToTwelveDigits(n: nat, prefix: string)
    requires |NatToString(n)| > 12
    ensures Construct(Some(n), prefix) == Construct(Some(ParseNat(NatToString(n)[..12])), prefix)
  {
    CanonicalPrefix(NatToString(n), 12);
  }

  /** The parts `substr` cuts from a 12-digit numeral. */
  lemma TwelveDigitParts(s: string)
    requires Canonical(s) && |s| == 12
    ensures IntToString(IntValue(Substr(s, 0, Some(|s| - 1)))) == s[..11]
    ensures IntValue(Substr(s, 0, Some(|s| - 1))) == ParseNat(s[..11])
    ensures IntValue(Substr(s, 0, Some(1))) == DigitValue(s[0])
    ensures IntValue(Substr(s, -1, None)) == DigitValue(s[11])
  {
    CanonicalPrefix(s, 11);
    SubstrPrefix(s, 1);
    assert s[..1] == [s[0]];
    IntValueOfChar(s[0]);
    SubstrLast(s);
    IntValueOfChar(s[11]);
  }

  /**
    * The prefix and item reference `substr` cuts from an 11-digit base number: the five
    * digits after the first, behind two zeros, and the last five.
    */
  lemma BaseFields(b: string)
    requires AllDigits(b) && |b| == 11
    ensures FormatZeroPadded(IntValue(Substr(b, 1, Some(-5))), 7) == "00" + b[1..6]
    ensures Substr(b, -5, None) == b[6..11]
  {
    PrefixField(b);
    SubstrLastK(b, 5);
  }

  /** The company prefix field: digits 2-6 of the base number behind two zeros. */
  lemma PrefixField(b: string)
    requires AllDigits(b) && |b| == 11
    ensures FormatZeroPadded(IntValue(Substr(b, 1, Some(-5))), 7) == "00" + b[1..6]
  {
    SubstrDropEnd(b, 1, 5);
    PaddedFiveToSeven(b[1..6]);
  }

  /** Five digits, read and zero-padded to seven, gain two leading zeros. */
  lemma PaddedFiveToSeven(u: string)
    requires AllDigits(u) && |u| == 5
    ensures FormatZeroPadded(IntValue(u), 7) == "00" + u
  {
    IntValueOfDigits(u);
    ZeroPadRoundTrip(u);
    var w := NatToString(ParseNat(u));
    assert FormatZeroPadded(IntValue(u), 7) == LeftPad(w, 7, '0');
    assert LeftPad(w, 5, '0') == u;
    LeftPadOneMore(w, 5, '0');
    LeftPadOneMore(w, 6, '0');
  }

  /**
    * A 12-digit number is split into indicator, base and check digit, and accepted exactly
    * when its last digit is the check digit of its first 11; the prefix is digits 2-6 behind
    * two zeros, the item reference digits 7-11; an accepted number is kept unchanged, and the
    * company prefix argument plays no part.
    */
  lemma TwelveDigitBranch(n: nat, prefix: string)
    requires |NatToString(n)| == 12
    ensures var s := NatToString(n);
      Construct(Some(n), prefix).Success? <==> DigitValue(s[11]) == CheckDigitOf(s[..11])
    ensures Construct(Some(n), prefix).Failure? ==>
      Construct(Some(n), prefix).error == CheckDigitMismatch
    ensures var s := NatToString(n);
      Construct(Some(n), prefix).Success? ==>
        Construct(Some(n), prefix).value
        == GtinValue(ParseNat(s[..11]), "00" + s[1..6], s[6..11], DigitValue(s[11]), n,
                     Some(DigitValue(s[0])))
  {
    var s := NatToString(n);
    TwelveDigitParts(s);
    BaseFields(s[..11]);
    SliceOfPrefix(s, s[..11], 1, 6);
    SliceOfPrefix(s, s[..11], 6, 11);
    LastDigitRebuilt(s);
    ParseNatToString(n);
  }

  /**
    * Fewer than 12 digits take the construction branch, which reads the number's value from
    * its text (null reading as 0).
    */
  lemma ShortBranch(number: Option<nat>, prefix: string)
    requires |Gtin.Text(number)| < 12
    ensures Construct(number, prefix) == Success(PadAndBuild(Gtin.Text(number), prefix))
    ensures AllDigits(Gtin.Text(number)) && IntValue(Gtin.Text(number)) == number.GetOr(0)
  {
    Gtin.TextDigits(number);
    IntValueOfDigits(Gtin.Text(number));
    if number.Some? {
      ParseNatToString(number.value);
    }
  }

  /**
    * Fewer than 12 digits: construction succeeds with no indicator and the prefix verbatim;
    * the item reference is the number's digits zero-padded on the left to fill eleven digits
    * with the prefix (or, when the prefix alone is longer, on the right).
    */
  lemma ShortItemReference(number: Option<nat>, prefix: string)
    requires |Gtin.Text(number)| < 12
    ensures Construct(number, prefix).Success?
    ensures var g := Construct(number, prefix).value; var v := number.GetOr(0);
      && g.indicator == None
      && g.companyPrefix == prefix
      && (|prefix| <= 11 ==> g.itemReference == LeftPad(NatToString(v), 11 - |prefix|, '0'))
      && (|prefix| > 11 ==> g.itemReference == RightPad(NatToString(v), |prefix| - 11, '0'))
  {
    ShortBranch(number, prefix);
    var v := number.GetOr(0);
    assert Construct(number, prefix).value.itemReference == FormatZeroPadded(v, 11 - |prefix|);
    IntToStringOfNat(v);
  }

  /**
    * Fewer than 12 digits: the item reference is all digits, at least as long as the prefix
    * leaves of eleven, and, when the prefix leaves room, worth the number itself.
    */
  lemma ShortItemDigits(number: Option<nat>, prefix: string)
    requires |Gtin.Text(number)| < 12
    ensures Construct(number, prefix).Success?
    ensures var g := Construct(number, prefix).value;
      && |g.itemReference| >= 11 - |prefix|
      && AllDigits(g.itemReference)
      && (|prefix| <= 11 ==> ParseNat(g.itemReference) == number.GetOr(0))
  {
    ShortBranch(number, prefix);
    var v := number.GetOr(0);
    PaddedItemDigits(v, 11 - |prefix|, Construct(number, prefix).value.itemReference);
  }

  /**
    * A number's digits zero-padded to a width are all digits and at least that wide; padded
    * on the left (a width that is not negative) they keep the number's value.
    */
  lemma PaddedItemDigits(v: nat, w: int, item: string)
    requires item == FormatZeroPadded(v, w)
    ensures |item| >= w && AllDigits(item)
    ensures w >= 0 ==> ParseNat(item) == v
  {
    if w >= 0 {
      ZeroPaddedValue(v, w);
    } else {
      IntToStringOfNat(v);
      var t := NatToString(v);
      if |t| < -w {
        AllDigitsConcat(t, Repeat('0', -w - |t|));
      }
    }
  }

  /**
    * Fewer than 12 digits and an all-digit prefix: the base number is the value of prefix and
    * item reference read together, and the number is the base number with its check digit
    * appended as a last decimal digit.
    */
  lemma ShortBaseAndNumber(number: Option<nat>, prefix: string)
    requires |Gtin.Text(number)| < 12 && AllDigits(prefix)
    ensures Construct(number, prefix).Success?
    ensures var g := Construct(number, prefix).value;
      && g.baseNumber == ParseNat(prefix + g.itemReference)
      && g.number == g.baseNumber * 10 + g.checkDigit
  {
    ShortBranch(number, prefix);
    PaddedBase(Gtin.Text(number), prefix);
  }

  /** The construction branch on digits: base number and number as decimal values. */
  lemma PaddedBase(s: string, prefix: string)
    requires AllDigits(s) && AllDigits(prefix)
    ensures var g := PadAndBuild(s, prefix);
      && g.baseNumber == ParseNat(prefix + g.itemReference)
      && g.number == g.baseNumber * 10 + g.checkDigit
  {
    IntValueOfDigits(s);
    var item := FormatZeroPadded(ParseNat(s), 11 - |prefix|);
    ZeroPaddedItem(ParseNat(s), |prefix|);
    AllDigitsConcat(prefix, item);
    IntValueOfDigits(prefix + item);
    var base := ParseNat(prefix + item);
    AppendedDigit(base, CheckDigitOf(IntToString(base)));
  }

  /** Zero padding to any width, on either side, keeps a number's text all digits. */
  lemma ZeroPaddedItem(v: nat, prefixLength: nat)
    ensures AllDigits(FormatZeroPadded(v, 11 - prefixLength))
  {
    if prefixLength <= 11 {
      ZeroPaddedValue(v, 11 - prefixLength);
    } else {
      IntToStringOfNat(v);
    }
  }

  /** A number's text followed by one digit reads as ten times the number plus the digit. */
  lemma AppendedDigit(b: nat, d: nat)
    requires d <= 9
    ensures IntValue(IntToString(b) + IntToString(d)) == b * 10 + d
  {
    IntToStringOfNat(b);
    IntToStringOfDigit(d);
    var t := NatToString(b) + [DigitChar(d)];
    AllDigitsConcat(NatToString(b), [DigitChar(d)]);
    IntValueOfDigits(t);
    AppendOne(NatToString(b), DigitChar(d));
    ParseNatToString(b);
  }

  /**
    * The worked example of the package: item 123 behind company prefix 45678 gives item
    * reference 000123 and the number 456780001230.
    */
  lemma UpcAExample()
    ensures Construct(Some(123), "45678").Success?
    ensures Construct(Some(123), "45678").value.itemReference == "000123"
    ensures Construct(Some(123), "45678").value.number == 456780001230
  {
    ExampleItemReference();
    ExamplePadding();
    ShortBaseAndNumber(Some(123), "45678");
    ExampleBase();
    ExampleCheckDigit();
  }

  lemma ExampleItemReference()
    ensures Construct(Some(123), "45678").Success?
    ensures Construct(Some(123), "45678").value.itemReference == "000123"
  {
    ShortItemReference(Some(123), "45678");
    ExamplePadding();
  }

  lemma ExamplePadding()
    ensures |Gtin.Text(Some(123))| < 12 && AllDigits("45678")
    ensures LeftPad(NatToString(123), 6, '0') == "000123"
  {
    assert NatToString(123) == "123";
    assert Repeat('0', 3) == "000";
  }

  lemma ExampleBase()
    ensures ParseNat("45678" + "000123") == 45678000123
    ensures IntToString(45678000123) == "45678000123"
  {
    assert "45678000123" == "45678" + "000123";
    ParseNatAppend("45678", "000123");
    ExampleHead();
    ExampleTail();
    assert Pow10(6) == 1000000;
    assert Canonical("45678000123");
    CanonicalRoundTrip("45678000123");
  }

  lemma ExampleHead()
    ensures ParseNat("45678") == 45678
  {
    assert "45678" == "45" + "678";
    ParseNatAppend("45", "678");
    assert ParseNat("45") == 45;
    assert ParseNat("678") == 678;
    assert Pow10(3) == 1000;
  }

  lemma ExampleTail()
    ensures ParseNat("000123") == 123
  {
    assert Repeat('0', 3) == "000";
    assert "000123" == Repeat('0', 3) + "123";
    LeadingZerosValue(3, "123");
    assert NatToString(123) == "123";
    ParseNatToString(123);
  }

  /** The weighted sum of two characters: three times the first plus the second. */
  lemma PairSum(a: char, b: char)
    ensures WeightedSum([a, b]) == 3 * DigitValue(a) + DigitValue(b)
  {
    assert [a, b][..1] == [a] && [a][..0] == [];
    assert WeightedSum([a]) == 3 * DigitValue(a);
  }

  lemma ExampleCheckDigit()
    ensures CheckDigitOf("45678000123") == 0
  {
    var t := "45678000123";
    assert Window(t) == "0000" + t;
    WeightedSumConcat("0000", t);
    PairSum('0', '0');
    WeightedSumConcat("00", "00");
    assert "00" + "00" == "0000";
    ExampleSum();
  }

  lemma ExampleSum()
    ensures WeightedSum("45678000123") == 80
  {
    PairSum('4', '5');
    PairSum('6', '7');
    PairSum('8', '0');
    PairSum('0', '0');
    PairSum('1', '2');
    var a := "45" + "67";
    WeightedSumConcat("45", "67");
    var b := a + "80";
    WeightedSumConcat(a, "80");
    var c := b + "00";
    WeightedSumConcat(b, "00");
    var d := c + "12";
    WeightedSumConcat(c, "12");
    WeightedSumConcat(d, "3");
    assert WeightedSum("3") == 9;
    assert d + "3" == "45678000123";
  }

  /**
    * A prefix of digits with no leading zero and a number that together fit eleven digits
    * build a 12-digit number; fed back in, with any prefix, it takes the 12-digit branch,
    * passes its check and gives the same base number, check digit and number.
    */
  lemma BuiltNumberReparses(n: nat, prefix: string, other: string)
    requires AllDigits(prefix) && |prefix| >= 1 && prefix[0] != '0'
    requires |prefix| + |NatToString(n)| <= 11
    ensures Construct(Some(n), prefix).Success?
    ensures var g := Construct(Some(n), prefix).value;
      && g.number >= 0
      && |NatToString(g.number)| == 12
      && Construct(Some(g.number), other).Success?
      && Construct(Some(g.number), other).value.baseNumber == g.baseNumber
      && Construct(Some(g.number), other).value.checkDigit == g.checkDigit
      && Construct(Some(g.number), other).value.number == g.number
  {
    BuiltBase(n, prefix);
    BuiltBaseValue(n, prefix);
    var g := Construct(Some(n), prefix).value;
    TwelveDigitRebuilt(prefix + g.itemReference, g.checkDigit, g.number, other);
  }

  /**
    * Eleven digits with no leading zero followed by their check digit: that 12-digit number
    * is accepted with any prefix, keeping the eleven digits as base number and the check digit.
    */
  lemma TwelveDigitRebuilt(b: string, d: nat, m: nat, other: string)
    requires Canonical(b) && |b| == 11 && b[0] != '0' && d == CheckDigitOf(b)
    requires m == ParseNat(b) * 10 + d
    ensures |NatToString(m)| == 12
    ensures Construct(Some(m), other).Success?
    ensures Construct(Some(m), other).value.baseNumber == ParseNat(b)
    ensures Construct(Some(m), other).value.checkDigit == d
    ensures Construct(Some(m), other).value.number == m
  {
    DigitAppended(b, d);
    AppendOne(b, DigitChar(d));
    TwelveDigitBranch(m, other);
  }

  /** The same inputs: the base number and check digit are those of that 11-digit numeral. */
  lemma BuiltBaseValue(n: nat, prefix: string)
    requires AllDigits(prefix) && |prefix| >= 1 && prefix[0] != '0'
    requires |prefix| + |NatToString(n)| <= 11
    ensures Construct(Some(n), prefix).Success?
    ensures var g := Construct(Some(n), prefix).value; var b := prefix + g.itemReference;
      && g.baseNumber == ParseNat(b) && g.checkDigit == CheckDigitOf(b)
      && g.number == g.baseNumber * 10 + g.checkDigit
  {
    BuiltBase(n, prefix);
    ShortBaseAndNumber(Some(n), prefix);
    CanonicalRoundTrip(prefix + Construct(Some(n), prefix).value.itemReference);
  }

  /** The same inputs: prefix and item reference make an 11-digit numeral with no leading zero. */
  lemma BuiltBase(n: nat, prefix: string)
    requires AllDigits(prefix) && |prefix| >= 1 && prefix[0] != '0'
    requires |prefix| + |NatToString(n)| <= 11
    ensures Construct(Some(n), prefix).Success?
    ensures var b := prefix + Construct(Some(n), prefix).value.itemReference;
      |b| == 11 && Canonical(b) && b[0] != '0'
  {
    ShortItemReference(Some(n), prefix);
    ShortItemDigits(Some(n), prefix);
    var b := prefix + Construct(Some(n), prefix).value.itemReference;
    assert b[0] == prefix[0];
    AllDigitsConcat(prefix, Construct(Some(n), prefix).value.itemReference);
  }

  /** A canonical numeral with one more digit is the text of ten times its value plus the digit. */
  lemma DigitAppended(b: string, d: nat)
    requires Canonical(b) && b[0] != '0' && d <= 9
    ensures Canonical(b + [DigitChar(d)])
    ensures NatToString(ParseNat(b) * 10 + d) == b + [DigitChar(d)]
  {
    var t := b + [DigitChar(d)];
    AllDigitsConcat(b, [DigitChar(d)]);
    assert t[0] == b[0];
    ParseNatAppend(b, [DigitChar(d)]);
    ParseNatSingle(DigitChar(d));
    NatToStringOfParse(t);
  }

  /**
    * An object of the class. The indicator stays unset unless the 12-digit branch assigns it;
    * the other fields are typed but unset until the constructor assigns them.
    */
  class Gtin12 {
    var baseNumber: int
    var companyPrefix: string
    var itemReference: string
    var checkDigit: int
    var number: int
    var indicator: Option<int>

    constructor Blank()
      ensures indicator == None
    {
      baseNumber := 0;
      companyPrefix := "";
      itemReference := "";
      checkDigit := 0;
      number := 0;
      indicator := None;
    }

    function Value(): GtinValue
      reads this
    {
      GtinValue(baseNumber, companyPrefix, itemReference, checkDigit, number, indicator)
    }

    /** The inherited `getCheckDigit`: the check digit of this object's base number. */
    method GetCheckDigit() returns (cd: int)
      ensures 0 <= cd <= 9
      ensures cd == CheckDigitOf(IntToString(baseNumber))
    {
      cd := Gtin.BaseCheckDigit(baseNumber);
    }

    /**
      * `new Gtin12($number, $companyPrefix, $indicator)`: the object the constructor builds,
      * or the exception it raises. The `$indicator` argument is accepted and never read.
      */
    static method New(number: Option<nat>, prefix: string := "", indicator: Option<int> := Some(0))
      returns (r: Result<Gtin12, Error>)
      ensures r.Success? <==> Construct(number, prefix).Success?
      ensures r.Failure? ==> r.error == Construct(number, prefix).error
      ensures r.Success? ==> fresh(r.value) && r.value.Value() == Construct(number, prefix).value
    {
      var g := new Gtin12.Blank();
      var s := Gtin.Text(number);
      if |s| > 12 {
        s := IntToString(IntValue(Substr(s, 0, Some(12))));
      }
      if |s| == 12 {
        var valid := g.SplitNumber(s);
        if !valid {
          return Failure(CheckDigitMismatch);
        }
      } else {
        g.PadNumber(s, prefix);
      }
      r := Success(g);
    }

    /**
      * Lines 47-56 and 68 on a 12-character number: the fields it is split into, and whether
      * its check digit is the one `getCheckDigit` computes.
      */
    method SplitNumber(s: string) returns (valid: bool)
      modifies this
      ensures Value() == SplitFields(s)
      ensures valid <==> checkDigit == CheckDigitOf(IntToString(baseNumber))
    {
      baseNumber := IntValue(Substr(s, 0, Some(|s| - 1)));
      indicator := Some(IntValue(Substr(s, 0, Some(1))));
      checkDigit := IntValue(Substr(s, -1, None));
      companyPrefix := FormatZeroPadded(IntValue(Substr(IntToString(baseNumber), 1, Some(-5))), 7);
      itemReference := Substr(IntToString(baseNumber), -5, None);
      var expected := GetCheckDigit();
      valid := checkDigit == expected;
      number := IntValue(IntToString(baseNumber) + IntToString(checkDigit));
    }

    /** Lines 58-66 and 68: the fields built from a shorter number behind the company prefix. */
    method PadNumber(s: string, prefix: string)
      modifies this
      ensures Value() == PadAndBuild(s, prefix).(indicator := old(indicator))
    {
      companyPrefix := prefix;
      itemReference := FormatZeroPadded(IntValue(s), 11 - |prefix|);
      baseNumber := IntValue(companyPrefix + itemReference);
      checkDigit := GetCheckDigit();
      number := IntValue(IntToString(baseNumber) + IntToString(checkDigit));
    }

    /**
      * `create`: construct with the company prefix defaulting to "1" (the packaging level is
      * passed on as the unread indicator), then recompute the check digit from the base
      * number; the recomputed digit is the one the constructor stored, so the object is
      * unchanged.
      */
    static method Create(number: nat, prefix: string := "1", packagingLevel: Option<int> := None)
      returns (r: Result<Gtin12, Error>)
      ensures r.Success? <==> Construct(Some(number), prefix).Success?
      ensures r.Failure? ==> r.error == Construct(Some(number), prefix).error
      ensures r.Success? ==> fresh(r.value) && r.value.Value() == Construct(Some(number), prefix).value
    {
      r := New(Some(number), prefix, packagingLevel);
      if r.Success? {
        var g := r.value;
        g.checkDigit := g.GetCheckDigit();
      }
    }
  }
}
