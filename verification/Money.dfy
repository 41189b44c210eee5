/** Amounts: reals in major units, integers in minor units, and the rounding between them. */
module Money {
  import opened Wrappers

  datatype AmountError = InvalidAmount | ExceedsTotal | SplitInvalid

  /** To the nearest integer, halves away from zero: what the program's rounding does,
      and what a column with two decimals does to hundredths. */
  function Round(x: real): int
  {
    if x >= 0.0 then (x + 0.5).Floor else -((-x + 0.5).Floor)
  }

  function Major(minor: int): real
  {
    minor as real / 100.0
  }

  /** The minor units a two-decimal column keeps of an amount. */
  function Stored(amount: real): int
  {
    Round(amount * 100.0)
  }

  function ToMinorUnits(amount: real): Result<int, AmountError>
  {
    if amount <= 0.0 then Err(InvalidAmount)
    else
      var minor := Round(amount * 100.0);
      if minor <= 0 then Err(InvalidAmount) else Ok(minor)
  }

  const PLATFORM_FEE_PERCENT: real := 0.10

  /** The platform fee and the total a booking stores, in minor units. */
  function BookingAmounts(labor: int, parts: int): (int, int)
  {
    var fee := Major(labor) * PLATFORM_FEE_PERCENT;
    (Stored(fee), Stored(Major(parts) + Major(labor) + fee))
  }

  /** The flat charge the platform keeps of a checkout. */
  function SplitCharge(fee: int, total: int): Result<int, AmountError>
  {
    match ToMinorUnits(Major(fee))
    case Err(e) => Err(e)
    case Ok(platform) =>
      match ToMinorUnits(Major(total))
      case Err(e) => Err(e)
      case Ok(whole) => if platform >= whole then Err(SplitInvalid) else Ok(platform)
  }

  /** The amount sent with a refund request, 0 standing for the whole transaction. */
  function RefundAmount(total: int, partial: Option<real>): Result<int, AmountError>
  {
    match partial
    case None => Ok(0)
    case Some(amount) => if amount > Major(total) then Err(ExceedsTotal) else ToMinorUnits(amount)
  }

  // ----------------------------------------------------------------

  /** An amount of whole minor units survives the trip to major units and back, if positive. */
  lemma MinorRoundTrip(minor: int)
    ensures ToMinorUnits(Major(minor)) == if minor > 0 then Ok(minor) else Err(InvalidAmount)
  {
  }

  /** Rounding is to the nearest integer, halves away from zero. */
  lemma RoundNearest(x: real)
    ensures x >= 0.0 ==> Round(x) as real - 0.5 <= x < Round(x) as real + 0.5
    ensures x < 0.0 ==> Round(x) as real - 0.5 < x <= Round(x) as real + 0.5
  {
  }

  /** The minor units nearest to an amount, halves rounded up. */
  ghost predicate NearestMinor(amount: real, minor: int)
  {
    minor as real - 0.5 <= 100.0 * amount < minor as real + 0.5
  }

  /** An amount converts exactly if it is at least half a minor unit, and then to the nearest. */
  lemma ToMinorUnitsNearest(amount: real)
    ensures ToMinorUnits(amount).Ok? <==> 100.0 * amount >= 0.5
    ensures ToMinorUnits(amount).Ok? ==> NearestMinor(amount, ToMinorUnits(amount).value)
    ensures ToMinorUnits(amount).Err? ==> ToMinorUnits(amount).error == InvalidAmount
  {
  }

  /** What a booking stores is the tenth of the labour, rounded, and the sum of parts, labour and that. */
  lemma BookingAmountsClosed(labor: nat, parts: nat)
    ensures BookingAmounts(labor, parts) == ((labor + 5) / 10, parts + labor + (labor + 5) / 10)
  {
  }

  /** The split never comes out invalid: it is configured exactly when the fee rounds to something,
      and then the mechanic's remainder is exactly labour plus parts. */
  lemma SplitConserves(labor: nat, parts: nat)
    ensures var (fee, total) := BookingAmounts(labor, parts);
      && (SplitCharge(fee, total).Ok? <==> labor >= 5)
      && (labor < 5 ==> SplitCharge(fee, total) == Err(InvalidAmount))
      && (labor >= 5 ==>
            && SplitCharge(fee, total) == Ok(fee) && ToMinorUnits(Major(total)) == Ok(total)
            && total - fee == parts + labor)
  {
  }

  /** Of whole amounts a split is made exactly if the fee is positive and less than the total; a fee that is not
      less is the invalid split. */
  lemma SplitChargeIff(fee: int, total: int)
    ensures SplitCharge(fee, total) ==
      if fee <= 0 || total <= 0 then Err(InvalidAmount) else if fee >= total then Err(SplitInvalid) else Ok(fee)
  {
    MinorRoundTrip(fee);
    MinorRoundTrip(total);
  }

  /** A partial refund is sent exactly when it is at least half a minor unit and no more than the total,
      and then sends the nearest number of minor units, between one and the charge; a full one sends 0. */
  lemma PartialRefundWithinCharge(total: int, amount: real)
    ensures RefundAmount(total, Some(amount)).Ok? <==> 0.005 <= amount <= Major(total)
    ensures RefundAmount(total, Some(amount)).Ok? ==>
      && ToMinorUnits(Major(total)).Ok?
      && 1 <= RefundAmount(total, Some(amount)).value <= ToMinorUnits(Major(total)).value
      && NearestMinor(amount, RefundAmount(total, Some(amount)).value)
    ensures RefundAmount(total, Some(amount)) == Err(ExceedsTotal) <==> amount > Major(total)
    ensures RefundAmount(total, None) == Ok(0)
  {
  }
}
