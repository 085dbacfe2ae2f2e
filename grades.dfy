/**
 * The commission table: a seller grade and the fixed commission rate it carries.
 * Rates are exact decimals with two fractional digits, written here as hundredths
 * (15 stands for 0.15).
 */
module Grades {
  import opened Wrappers

  /** The grades in declaration order. */
  datatype SellerGrade = BRONZE | SILVER | GOLD | PLATINUM

  /** getCommissionRate: the rate fixed for each grade when the enum is defined. */
  function CommissionRate(g: SellerGrade): (rate: int)
    ensures 0 < rate < 100
  {
    match g
    case BRONZE => 15
    case SILVER => 12
    case GOLD => 10
    case PLATINUM => 8
  }

  /** The constant's name, as stored in the sellers.grade column. */
  function Name(g: SellerGrade): string
  {
    match g
    case BRONZE => "BRONZE"
    case SILVER => "SILVER"
    case GOLD => "GOLD"
    case PLATINUM => "PLATINUM"
  }

  /** Position of the constant in declaration order. */
  function Ordinal(g: SellerGrade): nat
  {
    match g
    case BRONZE => 0
    case SILVER => 1
    case GOLD => 2
    case PLATINUM => 3
  }

  /**
   * SellerGrade.valueOf: an exact, case-sensitive match of a constant's name.
   * None stands for the IllegalArgumentException thrown for any other string.
   */
  function ValueOf(name: string): (g: Option<SellerGrade>)
    ensures g.Some? ==> Name(g.value) == name
    ensures g.None? ==> forall x :: Name(x) != name
  {
    if name == "BRONZE" then Some(BRONZE)
    else if name == "SILVER" then Some(SILVER)
    else if name == "GOLD" then Some(GOLD)
    else if name == "PLATINUM" then Some(PLATINUM)
    else None
  }

  /** Parsing a grade's own name gives that grade back. */
  lemma NameRoundTrip(g: SellerGrade)
    ensures ValueOf(Name(g)) == Some(g)
  {
  }

  /** A better grade (later in declaration order) always pays a strictly lower rate. */
  lemma RatesDecrease(a: SellerGrade, b: SellerGrade)
    requires Ordinal(a) < Ordinal(b)
    ensures CommissionRate(a) > CommissionRate(b)
  {
  }
}
