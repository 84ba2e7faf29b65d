/**
  The quote engine: from a send amount, a rail and a currency pair to a fee
  and FX breakdown. Amounts and rates are exact reals; the program's floats
  are not rounded here.
 */
module QuoteEngine {
  import opened Wrappers
  import opened Model
  import opened Rates

  /** The breakdown the engine reports for one transfer. */
  datatype Quote = Quote(
    rail: string,
    fixedFee: real,
    variableFee: real,
    totalFeesSrc: real,
    fxSpreadBps: int,
    fxSpreadCostSrc: real,
    rateMid: real,
    rateCustomer: real,
    fxPrincipal: real,
    receivedDst: Option<real>,
    estDeliveryHours: int,
    limits: (real, real)
  )

  /** The values of the FX step before the output masks them on the rate's truthiness. */
  datatype Conversion = Conversion(customerRate: Option<real>, receivedDst: Option<real>, spreadCostSrc: real)

  /** Basis points as a fraction: 10000 bps is the whole. */
  function BpsToPct(bps: int): (pct: real)
    ensures pct * 10000.0 == bps as real
    ensures 0 <= bps <= 10000 ==> 0.0 <= pct <= 1.0
  {
    bps as real / 10000.0
  }

  /** Python's `max(x, 0)`: the first argument unless zero is strictly larger. */
  function ClampAtZero(x: real): (r: real)
    ensures r >= 0.0 && r >= x
    ensures r == x || r == 0.0
  {
    if 0.0 > x then 0.0 else x
  }

  /**
    A rate counts as known when Python's `if base_rate` is true: present and
    non-zero. A rate of 0.0 is treated like a missing one.
   */
  predicate Truthy(rate: Option<real>): (known: bool)
    ensures known <==> rate != None && rate != Some(0.0)
  {
    rate.Some? && rate.value != 0.0
  }

  /**
    The branch on the looked-up rate. Without a rate nothing is converted;
    between equal currencies the mid rate is used as is; otherwise the rate
    is marked down by the spread and the markdown on the principal is the
    spread cost.
   */
  function Convert(principal: real, spreadPct: real, sameCurrency: bool, baseRate: Option<real>): (c: Conversion)
    ensures c.customerRate.Some? <==> baseRate.Some?
    ensures c.receivedDst.Some? <==> baseRate.Some?
    ensures c.receivedDst.Some? ==> c.receivedDst.value == principal * c.customerRate.value
    ensures baseRate.Some? ==> c.spreadCostSrc == principal * (baseRate.value - c.customerRate.value)
    ensures baseRate.None? ==> c.spreadCostSrc == 0.0
    ensures baseRate.Some? && sameCurrency ==> c.customerRate == baseRate
    ensures baseRate.Some? && !sameCurrency ==> c.customerRate.value + baseRate.value * spreadPct == baseRate.value
  {
    match baseRate
    case None => Conversion(None, None, 0.0)
    case Some(rate) =>
      if sameCurrency then
        Conversion(Some(rate), Some(principal * rate), 0.0)
      else
        var customerRate := rate * (1.0 - spreadPct);
        Conversion(Some(customerRate), Some(principal * customerRate), principal * (rate - customerRate))
  }

  /**
    The quote for `amount` sent over `rail` from `src` to `dst` currency,
    with rates taken from `table`. Fees come first, the rest (never below
    zero) is converted. When the rate is missing or zero every FX figure is
    reported as 0.0 and nothing as received. The rail's name, spread,
    delivery estimate and limits are passed through.
   */
  function ComputeQuoteWith(table: RateTable, amount: real, rail: Rail, src: string, dst: string): (q: Quote)
    ensures q.rail == rail.name && q.fxSpreadBps == rail.fxSpreadBps
    ensures q.estDeliveryHours == rail.estDeliveryHours
    ensures q.limits == (rail.sendLimitMin, rail.sendLimitMax)
    ensures q.fixedFee == rail.fixedFee && q.variableFee == amount * rail.variableFeePct
    ensures q.totalFeesSrc == q.fixedFee + q.variableFee
    ensures q.fxPrincipal >= 0.0 && q.fxPrincipal >= amount - q.totalFeesSrc
    ensures q.fxPrincipal == 0.0 || q.fxPrincipal == amount - q.totalFeesSrc
    ensures q.receivedDst.Some? <==> Truthy(Lookup(table, src, dst))
    ensures q.receivedDst.Some? ==> q.rateMid == Lookup(table, src, dst).value
    ensures q.receivedDst.Some? ==> q.receivedDst.value == q.fxPrincipal * q.rateCustomer
    ensures q.receivedDst.None? ==> q.rateMid == 0.0 && q.rateCustomer == 0.0
    ensures q.fxSpreadCostSrc == q.fxPrincipal * (q.rateMid - q.rateCustomer)
    ensures src == dst ==> q.rateCustomer == q.rateMid
    ensures src != dst ==> q.rateCustomer + q.rateMid * BpsToPct(rail.fxSpreadBps) == q.rateMid
  {
    var variableFee := amount * rail.variableFeePct;
    var fixedFee := rail.fixedFee;
    var totalFeesSrc := variableFee + fixedFee;
    var fxPrincipal := ClampAtZero(amount - totalFeesSrc);
    var baseRate := Lookup(table, src, dst);
    var spreadPct := BpsToPct(rail.fxSpreadBps);
    var conv := Convert(fxPrincipal, spreadPct, src == dst, baseRate);
    var known := Truthy(baseRate);
    Quote(
      rail := rail.name,
      fixedFee := fixedFee,
      variableFee := variableFee,
      totalFeesSrc := totalFeesSrc,
      fxSpreadBps := rail.fxSpreadBps,
      fxSpreadCostSrc := if known then conv.spreadCostSrc else 0.0,
      rateMid := if known then baseRate.value else 0.0,
      rateCustomer := if known then conv.customerRate.value else 0.0,
      fxPrincipal := fxPrincipal,
      receivedDst := if known then conv.receivedDst else None,
      estDeliveryHours := rail.estDeliveryHours,
      limits := (rail.sendLimitMin, rail.sendLimitMax)
    )
  }

  /** The quote the program computes, against its own rate table. */
  function ComputeQuote(amount: real, rail: Rail, src: string, dst: string): (q: Quote)
    ensures q.receivedDst.Some? <==> (src, dst) in MidRates
    ensures q.receivedDst.None? ==> q.rateMid == 0.0 && q.rateCustomer == 0.0 && q.fxSpreadCostSrc == 0.0
  {
    ComputeQuoteWith(MidRates, amount, rail, src, dst)
  }
}
