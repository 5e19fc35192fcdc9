/**
  * The shared GTIN builder: digit allowance per symbology, the company item number (company
  * prefix followed by the zero-padded item reference), the GS1 check digit, validation, and
  * the constructor that either builds a number or accepts a complete one after checking it.
  */
module GtinAbstract {
  import opened Wrappers
  import opened Decimal
  import opened CheckDigit

  /** The two exceptions the constructor can raise. */
  datatype Error = InvalidCheckDigit | DigitAllocationExceeded

  /**
    * The state a finished object holds. `companyPrefix` and `itemReference` stay unset
    * (`None`) when a complete number was passed in.
    */
  datatype GtinValue = GtinValue(
    gtinType: string,
    packagingLevel: int,
    companyPrefix: Option<string>,
    itemReference: Option<string>,
    companyItemNumber: string,
    checkDigit: int,
    number: string)

  /** Digits allowed for company prefix plus item reference, by (case-insensitive) type. */
  function MaxDigits(t: string): (m: nat)
    ensures m == 12 || m == 11 || m == 7
  {
    var u := ToUpper(t);
    if u == "GTIN-12" || u == "UPC-A" then 11
    else if u == "GTIN-8" || u == "EAN-8" then 7
    else 12
  }

  /** The allowance table: 11 for GTIN-12 and UPC-A, 7 for GTIN-8 and EAN-8, 12 otherwise. */
  lemma MaxDigitsTable(t: string)
    ensures MaxDigits(t) == 11 <==> ToUpper(t) == "GTIN-12" || ToUpper(t) == "UPC-A"
    ensures MaxDigits(t) == 7 <==> ToUpper(t) == "GTIN-8" || ToUpper(t) == "EAN-8"
    ensures MaxDigits(t) == 12 <==>
      ToUpper(t) !in {"GTIN-12", "UPC-A", "GTIN-8", "EAN-8"}
  {
  }

  /** The type names are matched without regard to case. */
  lemma MaxDigitsIgnoresCase(t: string)
    ensures MaxDigits(ToUpper(t)) == MaxDigits(t)
  {
    ToUpperIdempotent(t);
  }

  /**
    * `validate`: too short a number is refused; otherwise its last digit must equal the
    * check digit of everything before it.
    */
  function Validate(number: string, t: string): bool {
    |number| >= MaxDigits(t) &&
    DigitValue(number[|number| - 1]) == CheckDigitOf(number[..|number| - 1])
  }

  /**
    * The same test in the terms the source writes it: the last character cut off with
    * `substr($n, -1)` and cast to an integer, against the check digit of `substr($n, 0, -1)`.
    */
  lemma ValidateAsWritten(number: string, t: string)
    ensures Validate(number, t) ==
      if |number| < MaxDigits(t) then false
      else IntValue(Substr(number, -1, None)) == CheckDigitOf(Substr(number, 0, Some(-1)))
  {
    if |number| >= MaxDigits(t) {
      SubstrLast(number);
      SubstrAllButLast(number);
      IntValueOfChar(number[|number| - 1]);
    }
  }

  lemma ValidateIgnoresCase(number: string, t: string)
    ensures Validate(number, ToUpper(t)) == Validate(number, t)
  {
    MaxDigitsIgnoresCase(t);
  }

  /** A number carrying the check digit of its own body validates, whatever its type. */
  lemma AppendedCheckDigitValidates(body: string, t: string)
    requires |body| >= MaxDigits(t)
    ensures Validate(body + [DigitChar(CheckDigitOf(body))], t)
  {
    AppendOne(body, DigitChar(CheckDigitOf(body)));
  }

  /**
    * Changing any one digit in front of the check digit of a validated number of at most
    * sixteen digits makes it fail validation.
    */
  lemma ValidateDetectsSingleDigitError(number: string, other: string, k: nat, t: string)
    requires 1 <= |number| <= Width + 1 && |other| == |number|
    requires k < |number| - 1 && IsDigit(number[k]) && IsDigit(other[k]) && number[k] != other[k]
    requires forall i | 0 <= i < |number| && i != k :: number[i] == other[i]
    requires Validate(number, t)
    ensures !Validate(other, t)
  {
    var n := |number|;
    var b, c := number[..n - 1], other[..n - 1];
    DropLastAgree(number, other, b, c, k);
    SingleDigitErrorDetected(b, c, k);
  }

  /** The item reference: the item number zero-padded to fill the digits the prefix leaves. */
  function ItemReference(item: nat, prefix: string, t: string): string {
    FormatZeroPadded(item, MaxDigits(t) - |prefix|)
  }

  lemma ItemReferenceFits(item: nat, prefix: string, t: string)
    requires |prefix| + |IntToString(item)| <= MaxDigits(t)
    ensures |ItemReference(item, prefix, t)| == MaxDigits(t) - |prefix|
    ensures AllDigits(ItemReference(item, prefix, t))
    ensures ParseNat(ItemReference(item, prefix, t)) == item
  {
    FormatZeroPaddedLength(item, MaxDigits(t) - |prefix|);
    ZeroPaddedValue(item, MaxDigits(t) - |prefix|);
  }

  /**
    * `buildCompanyItemNumber` as a value: refused when prefix and item together exceed the
    * type's allowance, otherwise exactly that many characters, the prefix first and the item
    * reference, whose digits read back as the item, after it.
    */
  function CompanyItemNumber(item: nat, prefix: string, t: string): (r: Result<string, Error>)
    ensures r.Success? <==> |prefix| + |IntToString(item)| <= MaxDigits(t)
    ensures r.Failure? ==> r.error == DigitAllocationExceeded
    ensures r.Success? ==> |r.value| == MaxDigits(t) && r.value[..|prefix|] == prefix
    ensures r.Success? ==> AllDigits(r.value[|prefix|..]) && ParseNat(r.value[|prefix|..]) == item
  {
    if MaxDigits(t) < |prefix| + |IntToString(item)| then Failure(DigitAllocationExceeded)
    else
      var reference := ItemReference(item, prefix, t);
      ItemReferenceFits(item, prefix, t);
      assert (prefix + reference)[|prefix|..] == reference;
      Success(prefix + reference)
  }

  /** The leading indicator of a GTIN-14: the packaging level as passed, nothing for null. */
  function Indicator(t: string, packagingLevel: Option<int>): string {
    if t != "GTIN-14" then ""
    else match packagingLevel
      case None => ""
      case Some(p) => IntToString(p)
  }

  /** The stored packaging level: a null or zero argument becomes 1. */
  function Level(packagingLevel: Option<int>): int {
    if packagingLevel.None? || packagingLevel == Some(0) then 1 else packagingLevel.value
  }

  /** The parts `substr` cuts from a complete number that validates. */
  lemma CompleteNumberParts(whole: string, u: string)
    requires |whole| >= 1 && IsDigit(whole[|whole| - 1]) && Validate(whole, u)
    ensures var cin, cd := Substr(whole, 0, Some(-1)), IntValue(Substr(whole, -1, None));
      && 0 <= cd <= 9 && cd == CheckDigitOf(cin)
      && IntToString(cd) == [DigitChar(cd)]
      && cin + [DigitChar(cd)] == whole
  {
    SubstrLast(whole);
    SubstrAllButLast(whole);
    var c := whole[|whole| - 1];
    IntValueOfChar(c);
    IntToStringOfDigit(DigitValue(c));
    assert DigitChar(DigitValue(c)) == c;
    SplitLast(whole);
  }

  /**
    * Pass-through mode: a complete number, already upper-cased type `u`, is accepted when it
    * validates; its body becomes the company item number and its last digit the check digit.
    */
  function PassThrough(whole: string, u: string, level: int, indicator: string)
    : (r: Result<GtinValue, Error>)
    requires |whole| >= 1 && IsDigit(whole[|whole| - 1])
    ensures r.Success? <==> Validate(whole, u)
    ensures r.Failure? ==> r.error == InvalidCheckDigit
    ensures r.Success? ==>
      && r.value.companyPrefix.None? && r.value.itemReference.None?
      && r.value.checkDigit == CheckDigitOf(r.value.companyItemNumber)
      && r.value.companyItemNumber + [DigitChar(r.value.checkDigit)] == whole
      && r.value.number == indicator + whole
  {
    if Validate(whole, u) then
      var cin := Substr(whole, 0, Some(-1));
      var cd := IntValue(Substr(whole, -1, None));
      CompleteNumberParts(whole, u);
      Success(GtinValue(u, level, None, None, cin, cd, indicator + cin + IntToString(cd)))
    else
      Failure(InvalidCheckDigit)
  }

  /** The object state pass-through mode stores, field by field. */
  lemma PassThroughFields(whole: string, u: string, level: int, indicator: string)
    requires |whole| >= 1 && IsDigit(whole[|whole| - 1]) && Validate(whole, u)
    ensures var cin, cd := Substr(whole, 0, Some(-1)), IntValue(Substr(whole, -1, None));
      PassThrough(whole, u, level, indicator)
      == Success(GtinValue(u, level, None, None, cin, cd, indicator + cin + IntToString(cd)))
  {
  }

  /** Construction mode: prefix, zero-padded item reference, and their check digit. */
  function Build(item: nat, prefix: string, u: string, level: int, indicator: string): (g: GtinValue)
    requires |prefix| + |IntToString(item)| <= MaxDigits(u)
    ensures g.companyPrefix == Some(prefix)
    ensures g.itemReference == Some(ItemReference(item, prefix, u))
    ensures g.companyItemNumber == prefix + ItemReference(item, prefix, u)
    ensures |g.companyItemNumber| == MaxDigits(u)
    ensures g.checkDigit == CheckDigitOf(g.companyItemNumber)
    ensures g.number == indicator + g.companyItemNumber + [DigitChar(g.checkDigit)]
  {
    var cin := CompanyItemNumber(item, prefix, u).value;
    var cd := CheckDigitOf(cin);
    IntToStringOfDigit(cd);
    GtinValue(u, level, Some(prefix), Some(ItemReference(item, prefix, u)), cin, cd,
              indicator + cin + IntToString(cd))
  }

  /**
    * The constructor. Prefix and item longer than the allowance are taken as a complete
    * number whose last character is its check digit (refused when it does not validate);
    * otherwise the company item number is built and its check digit computed. The number
    * starts with the raw packaging level for a GTIN-14.
    */
  function Construct(item: nat, prefix: string, t: string, packagingLevel: Option<int>)
    : (r: Result<GtinValue, Error>)
    ensures r.Success? <==>
      |prefix + IntToString(item)| <= MaxDigits(t) || Validate(prefix + IntToString(item), t)
    ensures r.Failure? ==> r.error == InvalidCheckDigit
    ensures r.Success? ==>
      && r.value.gtinType == ToUpper(t)
      && r.value.packagingLevel == Level(packagingLevel)
      && |r.value.companyItemNumber| >= MaxDigits(t)
      && r.value.checkDigit == CheckDigitOf(r.value.companyItemNumber)
      && r.value.number == Indicator(ToUpper(t), packagingLevel) + r.value.companyItemNumber
                           + [DigitChar(r.value.checkDigit)]
  {
    var u := ToUpper(t);
    var whole := prefix + IntToString(item);
    var indicator := Indicator(u, packagingLevel);
    MaxDigitsIgnoresCase(t);
    ValidateIgnoresCase(whole, t);
    if |whole| > MaxDigits(u) then
      IntToStringEndsInDigit(item);
      var r := PassThrough(whole, u, Level(packagingLevel), indicator);
      if r.Success? then
        ConcatAssoc(indicator, r.value.companyItemNumber, [DigitChar(r.value.checkDigit)]);
        r
      else r
    else
      Success(Build(item, prefix, u, Level(packagingLevel), indicator))
  }

  /** Within the allowance the number is built: prefix, padded item reference, check digit. */
  lemma BuiltWithinAllowance(item: nat, prefix: string, t: string, packagingLevel: Option<int>)
    requires |prefix + IntToString(item)| <= MaxDigits(t)
    ensures Construct(item, prefix, t, packagingLevel).Success?
    ensures var g := Construct(item, prefix, t, packagingLevel).value;
      && g.companyPrefix == Some(prefix)
      && g.companyItemNumber == prefix + g.itemReference.value
      && |g.companyItemNumber| == MaxDigits(t)
      && AllDigits(g.itemReference.value) && ParseNat(g.itemReference.value) == item
      && |g.number| == |Indicator(ToUpper(t), packagingLevel)| + MaxDigits(t) + 1
  {
    MaxDigitsIgnoresCase(t);
    ItemReferenceFits(item, prefix, ToUpper(t));
  }

  /** Beyond the allowance, an accepted number is kept verbatim after the indicator. */
  lemma CompleteNumberKept(item: nat, prefix: string, t: string, packagingLevel: Option<int>)
    requires |prefix + IntToString(item)| > MaxDigits(t)
    requires Construct(item, prefix, t, packagingLevel).Success?
    ensures var g := Construct(item, prefix, t, packagingLevel).value;
      && g.companyPrefix.None? && g.itemReference.None?
      && g.number == Indicator(ToUpper(t), packagingLevel) + (prefix + IntToString(item))
  {
    MaxDigitsIgnoresCase(t);
  }

  /** A number made of a body and that body's check digit, with no indicator, validates. */
  lemma NoIndicatorValidates(g: GtinValue, t: string, packagingLevel: Option<int>)
    requires ToUpper(t) != "GTIN-14"
    requires |g.companyItemNumber| >= MaxDigits(t)
    requires g.checkDigit == CheckDigitOf(g.companyItemNumber)
    requires g.number == Indicator(ToUpper(t), packagingLevel) + g.companyItemNumber
                         + [DigitChar(g.checkDigit)]
    ensures Validate(g.number, t)
  {
    assert g.number == g.companyItemNumber + [DigitChar(g.checkDigit)];
    AppendedCheckDigitValidates(g.companyItemNumber, t);
  }

  /**
    * Every number the constructor produces for a type without an indicator validates
    * against that type.
    */
  lemma ConstructedNumberValidates(item: nat, prefix: string, t: string, packagingLevel: Option<int>)
    requires ToUpper(t) != "GTIN-14"
    requires Construct(item, prefix, t, packagingLevel).Success?
    ensures Validate(Construct(item, prefix, t, packagingLevel).value.number, t)
  {
    NoIndicatorValidates(Construct(item, prefix, t, packagingLevel).value, t, packagingLevel);
  }

  /**
    * A GTIN-14 is built with the check digit of the company item number alone, so whenever
    * the packaging level is a non-zero digit the number it produces fails validation: the
    * indicator in front changes the sum the check digit should have covered.
    */
  lemma Gtin14BuiltNumberFailsValidation(item: nat, prefix: string, t: string, level: nat)
    requires ToUpper(t) == "GTIN-14" && 1 <= level <= 9
    requires AllDigits(prefix) && |prefix + IntToString(item)| <= MaxDigits(t)
    ensures Construct(item, prefix, t, Some(level)).Success?
    ensures !Validate(Construct(item, prefix, t, Some(level)).value.number, t)
  {
    BuiltWithinAllowance(item, prefix, t, Some(level));
    var g := Construct(item, prefix, t, Some(level)).value;
    var cin := g.companyItemNumber;
    var p := DigitChar(level);
    IntToStringOfDigit(level);
    AllDigitsConcat(prefix, g.itemReference.value);
    var zeroFirst, levelFirst := ['0'] + cin, [p] + cin;
    assert Repeat('0', 1) == ['0'];
    LeadingZerosIgnored(cin, 1);
    DifferInFirst(zeroFirst, levelFirst, '0', p, cin);
    SingleDigitErrorDetected(zeroFirst, levelFirst, 0);
    AppendOne(levelFirst, DigitChar(g.checkDigit));
  }

  /** Beyond the allowance the constructor is pass-through mode on the upper-cased type. */
  lemma ConstructPassesThrough(item: nat, prefix: string, t: string, packagingLevel: Option<int>)
    requires |prefix + IntToString(item)| > MaxDigits(ToUpper(t))
    ensures IsDigit((prefix + IntToString(item))[|prefix + IntToString(item)| - 1])
    ensures Construct(item, prefix, t, packagingLevel)
      == PassThrough(prefix + IntToString(item), ToUpper(t), Level(packagingLevel),
                     Indicator(ToUpper(t), packagingLevel))
  {
    IntToStringEndsInDigit(item);
    MaxDigitsIgnoresCase(t);
  }

  /** Within the allowance the constructor is construction mode on the upper-cased type. */
  lemma ConstructBuilds(item: nat, prefix: string, t: string, packagingLevel: Option<int>)
    requires |prefix + IntToString(item)| <= MaxDigits(ToUpper(t))
    ensures Construct(item, prefix, t, packagingLevel)
      == Success(Build(item, prefix, ToUpper(t), Level(packagingLevel),
                       Indicator(ToUpper(t), packagingLevel)))
  {
    MaxDigitsIgnoresCase(t);
  }

  /**
    * An object of the class. Fields start as PHP's property defaults; `companyPrefix` and
    * `itemReference` are `None` until `BuildCompanyItemNumber` assigns them.
    */
  class GtinAbstract {
    var companyItemNumber: string
    var companyPrefix: Option<string>
    var itemReference: Option<string>
    var checkDigit: int
    var number: string
    var gtinType: string
    var packagingLevel: int

    constructor Blank()
      ensures gtinType == "GTIN-14" && packagingLevel == 1
      ensures companyPrefix.None? && itemReference.None?
    {
      companyItemNumber := "";
      companyPrefix := None;
      itemReference := None;
      checkDigit := 0;
      number := "";
      gtinType := "GTIN-14";
      packagingLevel := 1;
    }

    function Value(): GtinValue
      reads this
    {
      GtinValue(gtinType, packagingLevel, companyPrefix, itemReference, companyItemNumber,
                checkDigit, number)
    }

    /** `__toString`: the number. */
    function ToString(): (s: string)
      reads this
      ensures s == Value().number
    {
      number
    }

    /**
      * `buildCompanyItemNumber`: records prefix and item reference, then either raises (the
      * raw item text stays recorded) or stores and returns the company item number.
      */
    method BuildCompanyItemNumber(item: nat, prefix: string, t: string) returns (r: Result<string, Error>)
      modifies this
      ensures r == CompanyItemNumber(item, prefix, t)
      ensures companyPrefix == Some(prefix)
      ensures r.Failure? ==> itemReference == Some(IntToString(item))
                             && companyItemNumber == old(companyItemNumber)
      ensures r.Success? ==> itemReference == Some(ItemReference(item, prefix, t))
                             && companyItemNumber == r.value
      ensures checkDigit == old(checkDigit) && number == old(number)
      ensures gtinType == old(gtinType) && packagingLevel == old(packagingLevel)
    {
      itemReference := Some(IntToString(item));
      companyPrefix := Some(prefix);
      var maxDigits := MaxDigits(t);
      if maxDigits < |prefix + IntToString(item)| {
        return Failure(DigitAllocationExceeded);
      }
      var missingZeros := maxDigits - |prefix + IntToString(item)|;
      itemReference := Some(FormatZeroPadded(item, |IntToString(item)| + missingZeros));
      companyItemNumber := prefix + itemReference.value;
      r := Success(companyItemNumber);
    }

    /**
      * `calculateCheckDigit`: pad to fifteen characters with leading zeros, sum the first
      * fifteen with weights 3 and 1 from the left, and take the complement to a multiple
      * of ten.
      */
    static method CalculateCheckDigit(number: string) returns (cd: int)
      ensures cd == CheckDigitOf(number)
    {
      var base := LeftPad(number, Width, '0');
      var sum := 0;
      for i := 0 to Width
        invariant sum == WeightedSum(base[..i])
      {
        var value := DigitValue(base[i]);
        WeightedSumStep(base, i);
        sum := sum + ((i + 1) % 2 * 2 + 1) * value;
      }
      assert base[..Width] == Window(number);
      cd := 10 - sum % 10;
      if cd == 10 {
        cd := 0;
      }
    }

    /** Pass-through mode on an object whose type and level are set: the number is kept as given. */
    method AcceptComplete(whole: string, indicator: string)
      requires |whole| >= 1 && IsDigit(whole[|whole| - 1]) && Validate(whole, gtinType)
      requires companyPrefix.None? && itemReference.None?
      modifies this
      ensures Value() == PassThrough(whole, old(gtinType), old(packagingLevel), indicator).value
    {
      PassThroughFields(whole, gtinType, packagingLevel, indicator);
      companyItemNumber := Substr(whole, 0, Some(-1));
      checkDigit := IntValue(Substr(whole, -1, None));
      number := indicator + companyItemNumber + IntToString(checkDigit);
    }

    /** Construction mode on an object whose type and level are set. */
    method BuildNumber(item: nat, prefix: string, indicator: string)
      requires |prefix| + |IntToString(item)| <= MaxDigits(gtinType)
      modifies this
      ensures Value() == Build(item, prefix, old(gtinType), old(packagingLevel), indicator)
    {
      var built := BuildCompanyItemNumber(item, prefix, gtinType);
      var cd := CalculateCheckDigit(companyItemNumber);
      IntToStringOfDigit(cd);
      checkDigit := cd;
      number := indicator + companyItemNumber + IntToString(cd);
    }

    /** `new`: the object the constructor builds, or the exception it raises. */
    static method New(item: nat, prefix: string, t: string, packagingLevel: Option<int>)
      returns (r: Result<GtinAbstract, Error>)
      ensures r.Success? <==> Construct(item, prefix, t, packagingLevel).Success?
      ensures r.Failure? ==> r.error == Construct(item, prefix, t, packagingLevel).error
      ensures r.Success? ==> fresh(r.value)
                             && r.value.Value() == Construct(item, prefix, t, packagingLevel).value
    {
      var g := new GtinAbstract.Blank();
      var u := ToUpper(t);
      g.gtinType := u;
      g.packagingLevel := if packagingLevel.None? || packagingLevel == Some(0) then 1
                          else packagingLevel.value;
      var whole := prefix + IntToString(item);
      var indicator := Indicator(u, packagingLevel);
      if |whole| > MaxDigits(u) {
        IntToStringEndsInDigit(item);
        ConstructPassesThrough(item, prefix, t, packagingLevel);
        if !Validate(whole, u) {
          return Failure(InvalidCheckDigit);
        }
        g.AcceptComplete(whole, indicator);
      } else {
        ConstructBuilds(item, prefix, t, packagingLevel);
        g.BuildNumber(item, prefix, indicator);
      }
      r := Success(g);
    }

    /** `create`: the same as `new`. */
    static method Create(item: nat, prefix: string, t: string, packagingLevel: Option<int>)
      returns (r: Result<GtinAbstract, Error>)
      ensures r.Success? <==> Construct(item, prefix, t, packagingLevel).Success?
      ensures r.Failure? ==> r.error == Construct(item, prefix, t, packagingLevel).error
      ensures r.Success? ==> fresh(r.value)
                             && r.value.Value() == Construct(item, prefix, t, packagingLevel).value
    {
      r := New(item, prefix, t, packagingLevel);
    }
  }
}
