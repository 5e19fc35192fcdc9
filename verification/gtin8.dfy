/**
  * `Gtin8`: the shared builder with the type pinned to GTIN-8. The packaging level is never
  * passed, so the shared constructor's default of 1 applies.
  */
module Gtin8 {
  import opened Wrappers
  import opened Decimal
  import opened CheckDigit
  import GtinAbstract

  const Type: string := "GTIN-8"

  /** What `new Gtin8($itemNumber, $companyPrefix)` produces or raises. */
  function Construct(item: nat, prefix: string): Result<GtinAbstract.GtinValue, GtinAbstract.Error> {
    GtinAbstract.Construct(item, prefix, Type, Some(1))
  }

  /** The pinned type is already upper case and allows seven digits. */
  lemma TypeIsGtin8()
    ensures ToUpper(Type) == Type
    ensures GtinAbstract.MaxDigits(Type) == 7
    ensures GtinAbstract.Indicator(Type, Some(1)) == ""
  {
    assert ToUpper(Type) == Type;
  }

  /**
    * Every object is a GTIN-8 at packaging level 1, and its number carries no indicator:
    * it is the company item number followed by its check digit.
    */
  lemma AlwaysGtin8(item: nat, prefix: string)
    requires Construct(item, prefix).Success?
    ensures Construct(item, prefix).value.gtinType == Type
    ensures Construct(item, prefix).value.packagingLevel == 1
    ensures var g := Construct(item, prefix).value;
      g.number == g.companyItemNumber + [DigitChar(g.checkDigit)]
  {
    TypeIsGtin8();
  }

  /**
    * Within seven digits the company item number is exactly seven characters and the number
    * eight, ending in the check digit of the first seven; the number validates as a GTIN-8.
    */
  lemma BuiltWithinSevenDigits(item: nat, prefix: string)
    requires |prefix + IntToString(item)| <= 7
    ensures Construct(item, prefix).Success?
    ensures var g := Construct(item, prefix).value;
      && |g.companyItemNumber| == 7
      && |g.number| == 8
      && g.number[..7] == g.companyItemNumber
      && g.number[7] == DigitChar(CheckDigitOf(g.companyItemNumber))
      && GtinAbstract.Validate(g.number, Type)
  {
    TypeIsGtin8();
    GtinAbstract.BuiltWithinAllowance(item, prefix, Type, Some(1));
    var g := Construct(item, prefix).value;
    AppendOne(g.companyItemNumber, DigitChar(g.checkDigit));
    GtinAbstract.ConstructedNumberValidates(item, prefix, Type, Some(1));
  }

  /**
    * Beyond seven digits the input is taken as a complete GTIN-8: construction succeeds
    * exactly when it validates, and the number is the input verbatim.
    */
  lemma CompleteBeyondSevenDigits(item: nat, prefix: string)
    requires |prefix + IntToString(item)| > 7
    ensures Construct(item, prefix).Success? <==> GtinAbstract.Validate(prefix + IntToString(item), Type)
    ensures Construct(item, prefix).Failure? ==>
      Construct(item, prefix).error == GtinAbstract.InvalidCheckDigit
    ensures Construct(item, prefix).Success? ==>
      Construct(item, prefix).value.number == prefix + IntToString(item)
  {
    TypeIsGtin8();
    if Construct(item, prefix).Success? {
      GtinAbstract.CompleteNumberKept(item, prefix, Type, Some(1));
    }
  }

  /** `new Gtin8(...)`: the shared constructor with type GTIN-8 and no packaging level. */
  method New(item: nat, prefix: string) returns (r: Result<GtinAbstract.GtinAbstract, GtinAbstract.Error>)
    ensures r.Success? <==> Construct(item, prefix).Success?
    ensures r.Failure? ==> r.error == Construct(item, prefix).error
    ensures r.Success? ==> fresh(r.value) && r.value.Value() == Construct(item, prefix).value
  {
    r := GtinAbstract.GtinAbstract.New(item, prefix, Type, Some(1));
  }

  /**
    * The inherited static `create`: it passes type and packaging level on, but the GTIN-8
    * constructor takes only item and prefix, so both are dropped and the result is a GTIN-8.
    */
  method Create(item: nat, prefix: string, t: string, packagingLevel: Option<int>)
    returns (r: Result<GtinAbstract.GtinAbstract, GtinAbstract.Error>)
    ensures r.Success? <==> Construct(item, prefix).Success?
    ensures r.Failure? ==> r.error == Construct(item, prefix).error
    ensures r.Success? ==> fresh(r.value) && r.value.Value() == Construct(item, prefix).value
  {
    r := New(item, prefix);
  }
}
