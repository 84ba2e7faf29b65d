/** What the quote engine guarantees, stated for any rate table. */
module QuoteProperties {
  import opened Wrappers
  import opened Model
  import opened Rates
  import opened QuoteEngine

  /**
    Total fees are the flat fee plus the amount's percentage; for a
    non-negative amount and percentage they are never below the flat fee.
   */
  lemma TotalFees(table: RateTable, amount: real, rail: Rail, src: string, dst: string)
    ensures var q := ComputeQuoteWith(table, amount, rail, src, dst);
      && q.variableFee == amount * rail.variableFeePct
      && q.totalFeesSrc == amount * rail.variableFeePct + rail.fixedFee
      && (amount >= 0.0 && rail.variableFeePct >= 0.0 ==> q.totalFeesSrc >= rail.fixedFee)
  {
    if amount >= 0.0 && rail.variableFeePct >= 0.0 {
      MulNonNeg(amount, rail.variableFeePct);
    }
  }

  /** A product of non-negative reals is non-negative. */
  lemma MulNonNeg(x: real, y: real)
    requires x >= 0.0 && y >= 0.0
    ensures x * y >= 0.0
  {
  }

  /** When the fees do not exceed the amount, fees and principal add up to the amount. */
  lemma FeesAndPrincipalSplitAmount(table: RateTable, amount: real, rail: Rail, src: string, dst: string)
    ensures var q := ComputeQuoteWith(table, amount, rail, src, dst);
      q.totalFeesSrc <= amount ==> q.fxPrincipal + q.totalFeesSrc == amount
  {
  }

  /**
    Fees at least as large as the amount leave nothing to convert: the
    principal is zero and, with a known rate, zero is received.
   */
  lemma FeesConsumeAmount(table: RateTable, amount: real, rail: Rail, src: string, dst: string)
    requires ComputeQuoteWith(table, amount, rail, src, dst).totalFeesSrc >= amount
    ensures var q := ComputeQuoteWith(table, amount, rail, src, dst);
      && q.fxPrincipal == 0.0
      && q.fxSpreadCostSrc == 0.0
      && (Truthy(Lookup(table, src, dst)) ==> q.receivedDst == Some(0.0))
  {
  }

  /**
    For a rail whose percentage is at most 100%, sending more never leaves
    a smaller principal.
   */
  lemma PrincipalMonotone(table: RateTable, a1: real, a2: real, rail: Rail, src: string, dst: string)
    requires a1 <= a2 && rail.variableFeePct <= 1.0
    ensures ComputeQuoteWith(table, a1, rail, src, dst).fxPrincipal
         <= ComputeQuoteWith(table, a2, rail, src, dst).fxPrincipal
  {
    var p := rail.variableFeePct;
    assert (a2 - a2 * p) - (a1 - a1 * p) == (a2 - a1) * (1.0 - p);
    MulNonNeg(a2 - a1, 1.0 - p);
  }

  /**
    Between equal currencies with a known rate the customer gets the mid rate
    and pays no spread, whatever spread the rail is configured with.
   */
  lemma SameCurrencyNoSpread(table: RateTable, amount: real, rail: Rail, ccy: string)
    requires Truthy(Lookup(table, ccy, ccy))
    ensures var q := ComputeQuoteWith(table, amount, rail, ccy, ccy);
      && q.rateMid == table[(ccy, ccy)]
      && q.rateCustomer == q.rateMid
      && q.fxSpreadCostSrc == 0.0
      && q.receivedDst == Some(q.fxPrincipal * q.rateMid)
  {
  }

  /** Between equal currencies the rail's spread changes nothing but the spread field itself. */
  lemma SameCurrencyIgnoresSpread(table: RateTable, amount: real, rail: Rail, ccy: string, bps: int)
    ensures ComputeQuoteWith(table, amount, rail.(fxSpreadBps := bps), ccy, ccy)
         == ComputeQuoteWith(table, amount, rail, ccy, ccy).(fxSpreadBps := bps)
  {
    var q := ComputeQuoteWith(table, amount, rail, ccy, ccy);
    var base := Lookup(table, ccy, ccy);
    assert Convert(q.fxPrincipal, BpsToPct(bps), true, base)
        == Convert(q.fxPrincipal, BpsToPct(rail.fxSpreadBps), true, base);
  }

  /**
    Between different currencies with a known rate R and spread S the
    customer rate is R * (1 - S/10000), the spread cost is the principal
    times the markdown, and the recipient gets the principal at the customer
    rate.
   */
  lemma DifferentCurrencyRate(table: RateTable, amount: real, rail: Rail, src: string, dst: string)
    requires src != dst && Truthy(Lookup(table, src, dst))
    ensures var q := ComputeQuoteWith(table, amount, rail, src, dst);
      var rate := table[(src, dst)];
      && q.rateMid == rate
      && q.rateCustomer == rate * (1.0 - rail.fxSpreadBps as real / 10000.0)
      && q.fxSpreadCostSrc == q.fxPrincipal * (rate - q.rateCustomer)
      && q.receivedDst == Some(q.fxPrincipal * q.rateCustomer)
  {
  }

  /**
    With a positive rate and a spread between 0 and 10000 bps the customer
    rate lies in [0, R], the spread cost is non-negative, and the principal's
    value at the mid rate splits exactly into what is received and the cost.
   */
  lemma DifferentCurrencyBounds(table: RateTable, amount: real, rail: Rail, src: string, dst: string)
    requires src != dst && Lookup(table, src, dst).Some? && table[(src, dst)] > 0.0
    requires 0 <= rail.fxSpreadBps <= 10000
    ensures var q := ComputeQuoteWith(table, amount, rail, src, dst);
      && 0.0 <= q.rateCustomer <= q.rateMid
      && q.fxSpreadCostSrc >= 0.0
      && q.receivedDst.Some?
      && 0.0 <= q.receivedDst.value <= q.fxPrincipal * q.rateMid
      && q.receivedDst.value + q.fxSpreadCostSrc == q.fxPrincipal * q.rateMid
  {
    var q := ComputeQuoteWith(table, amount, rail, src, dst);
    var pct := BpsToPct(rail.fxSpreadBps);
    assert q.rateMid - q.rateCustomer == q.rateMid * pct;
    assert q.rateMid * pct <= q.rateMid * 1.0;
    MulNonNeg(q.fxPrincipal, q.rateMid - q.rateCustomer);
    MulNonNeg(q.fxPrincipal, q.rateCustomer);
  }

  /** A wider spread never gives the recipient more, and never costs less. */
  lemma WiderSpreadCostsMore(table: RateTable, amount: real, rail: Rail, src: string, dst: string, bps: int)
    requires src != dst && Lookup(table, src, dst).Some? && table[(src, dst)] > 0.0
    requires rail.fxSpreadBps <= bps
    ensures var narrow := ComputeQuoteWith(table, amount, rail, src, dst);
      var wide := ComputeQuoteWith(table, amount, rail.(fxSpreadBps := bps), src, dst);
      && wide.receivedDst.value <= narrow.receivedDst.value
      && wide.fxSpreadCostSrc >= narrow.fxSpreadCostSrc
  {
    var narrow := ComputeQuoteWith(table, amount, rail, src, dst);
    var wide := ComputeQuoteWith(table, amount, rail.(fxSpreadBps := bps), src, dst);
    var rate := table[(src, dst)];
    var p := narrow.fxPrincipal;
    assert wide.fxPrincipal == p;
    var d := BpsToPct(bps) - BpsToPct(rail.fxSpreadBps);
    assert d >= 0.0;
    assert narrow.rateCustomer - wide.rateCustomer == rate * d;
    MulNonNeg(rate, d);
    MulNonNeg(p, narrow.rateCustomer - wide.rateCustomer);
  }

  /**
    A missing or zero rate gives the "unknown" quote: all FX figures 0.0 and
    nothing received, while the fees and the principal are computed as usual.
   */
  lemma UnknownRate(table: RateTable, amount: real, rail: Rail, src: string, dst: string)
    requires !Truthy(Lookup(table, src, dst))
    ensures var q := ComputeQuoteWith(table, amount, rail, src, dst);
      && q.rateMid == 0.0
      && q.rateCustomer == 0.0
      && q.fxSpreadCostSrc == 0.0
      && q.receivedDst == None
      && q.totalFeesSrc == amount * rail.variableFeePct + rail.fixedFee
      && q.fxPrincipal == (if amount - q.totalFeesSrc < 0.0 then 0.0 else amount - q.totalFeesSrc)
  {
  }

  /** A pair whose rate is 0.0 is quoted exactly as a pair missing from the table. */
  lemma ZeroRateLikeMissing(table: RateTable, amount: real, rail: Rail, src: string, dst: string)
    requires (src, dst) in table && table[(src, dst)] == 0.0
    ensures ComputeQuoteWith(table, amount, rail, src, dst)
         == ComputeQuoteWith(table - {(src, dst)}, amount, rail, src, dst)
  {
  }

  /** The quote depends on the rate table only through the entry for its own pair. */
  lemma OnlyOwnPairMatters(t1: RateTable, t2: RateTable, amount: real, rail: Rail, src: string, dst: string)
    requires Lookup(t1, src, dst) == Lookup(t2, src, dst)
    ensures ComputeQuoteWith(t1, amount, rail, src, dst) == ComputeQuoteWith(t2, amount, rail, src, dst)
  {
  }
}
