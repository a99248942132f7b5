/**
 * The tier choice of `AgentUtils.formatCurrency`: which Indian-numbering unit (crore,
 * lakh, thousand or plain rupees) an amount is shown in. The digits themselves come
 * from JavaScript's `toFixed` and are not part of this model.
 */
module Currency {

  datatype Tier = Crore | Lakh | Thousand | Rupees

  /** The amount one unit of the tier stands for. */
  function Divisor(t: Tier): real {
    match t
    case Crore => 10000000.0
    case Lakh => 100000.0
    case Thousand => 1000.0
    case Rupees => 1.0
  }

  /** The suffix written after the scaled amount. */
  function Suffix(t: Tier): string {
    match t
    case Crore => "Cr"
    case Lakh => "L"
    case Thousand => "K"
    case Rupees => ""
  }

  /** The amount at which the next larger tier takes over. */
  function Ceiling(t: Tier): real
    requires t != Crore
  {
    match t
    case Lakh => Divisor(Crore)
    case Thousand => Divisor(Lakh)
    case Rupees => Divisor(Thousand)
  }

  /** Position of a tier from smallest (0) to largest (3). */
  function Rank(t: Tier): nat {
    match t
    case Rupees => 0
    case Thousand => 1
    case Lakh => 2
    case Crore => 3
  }

  /**
   * The tier chosen by the thresholds 1e7, 1e5 and 1e3, tested largest first. The
   * amount lies in the chosen tier's band: at least one unit of it (except for plain
   * rupees, which take everything below a thousand, negatives included), and below
   * one unit of the next larger tier.
   */
  function TierOf(value: real): (t: Tier)
    ensures t != Rupees ==> value >= Divisor(t)
    ensures t != Crore ==> value < Ceiling(t)
  {
    if value >= 10000000.0 then Crore
    else if value >= 100000.0 then Lakh
    else if value >= 1000.0 then Thousand
    else Rupees
  }

  /** Shown in lakh or thousand, an amount reads as at least 1 and below 100 units. */
  lemma ScaledBelowHundred(value: real)
    requires TierOf(value) == Lakh || TierOf(value) == Thousand
    ensures 1.0 <= value / Divisor(TierOf(value)) < 100.0
  {
  }

  /** A larger amount never gets a smaller tier. */
  lemma TierMonotone(v: real, w: real)
    requires v <= w
    ensures Rank(TierOf(v)) <= Rank(TierOf(w))
  {
  }
}
