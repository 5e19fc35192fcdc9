/** The `Gs1Code` enumeration: the Application Identifiers the element-string reader knows. */
module Gs1Code {
  import opened Wrappers

  datatype Gs1Code =
    | GTIN
    | ITF
    | NetWeight
    | GrossWeight
    | Units
    | ProductionDate
    | ExpirationDate
    | BatchNumber
  {
    /** The backing value of each case. */
    function Value(): string {
      match this
      case GTIN => "01"
      case ITF => "02"
      case NetWeight => "3102"
      case GrossWeight => "3302"
      case Units => "37"
      case ProductionDate => "11"
      case ExpirationDate => "17"
      case BatchNumber => "10"
    }
  }

  /** The eight backing values. */
  const Values: set<string> := {"01", "02", "3102", "3302", "37", "11", "17", "10"}

  /** `tryFrom`: the case whose backing value is exactly `s`, or null. */
  function TryFrom(s: string): (r: Option<Gs1Code>)
    ensures r.Some? ==> r.value.Value() == s
    ensures r.None? <==> s !in Values
  {
    if s == "01" then Some(GTIN)
    else if s == "02" then Some(ITF)
    else if s == "3102" then Some(NetWeight)
    else if s == "3302" then Some(GrossWeight)
    else if s == "37" then Some(Units)
    else if s == "11" then Some(ProductionDate)
    else if s == "17" then Some(ExpirationDate)
    else if s == "10" then Some(BatchNumber)
    else None
  }

  /** The backing values are exactly the eight listed, and distinct cases have distinct values. */
  lemma BackingValues(c: Gs1Code, d: Gs1Code)
    ensures c.Value() in Values
    ensures c != d ==> c.Value() != d.Value()
  {
  }

  /** Looking up a case's own backing value gives that case back. */
  lemma TryFromValue(c: Gs1Code)
    ensures TryFrom(c.Value()) == Some(c)
  {
  }

  /** A lookup succeeds with `c` exactly when `s` is `c`'s backing value. */
  lemma TryFromExact(s: string, c: Gs1Code)
    ensures TryFrom(s) == Some(c) <==> s == c.Value()
  {
    if s == c.Value() {
      TryFromValue(c);
    }
  }

  /** Codes outside the enumeration, and spellings without the leading zero, are refused. */
  lemma OtherCodesRefused()
    ensures TryFrom("21").None? && TryFrom("00").None? && TryFrom("3201").None?
    ensures TryFrom("1").None? && TryFrom("2").None?
  {
  }
}
