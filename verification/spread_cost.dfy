/**
  The spread cost the quote reports as a source-currency amount is the
  principal times the rate markdown, which is an amount in the destination
  currency. Dividing by the mid rate gives the cost in the source currency.
 */
module SpreadCost {
  import opened Model
  import opened Rates
  import opened QuoteEngine
  import opened Config
  import opened QuoteProperties

  /**
    The spread cost of a quote in its source currency: the part of the
    principal which, converted at the mid rate, is the difference between
    the principal's value at the mid rate and what is received.
   */
  function SpreadCostInSource(q: Quote): (c: real)
    ensures q.rateMid != 0.0 ==> (q.fxPrincipal - c) * q.rateMid == q.fxPrincipal * q.rateCustomer
    ensures q.rateMid == 0.0 ==> c == 0.0
  {
    if q.rateMid == 0.0 then 0.0 else q.fxPrincipal * (q.rateMid - q.rateCustomer) / q.rateMid
  }

  /**
    For every quote between different currencies with a positive rate and a
    spread in [0, 10000] bps, the source-currency cost is the principal times
    the spread fraction, never more than the principal, and the reported
    figure is that cost multiplied by the mid rate.
   */
  lemma SpreadCostInSourceBounded(table: RateTable, amount: real, rail: Rail, src: string, dst: string)
    requires src != dst && Lookup(table, src, dst).Some? && table[(src, dst)] > 0.0
    requires 0 <= rail.fxSpreadBps <= 10000
    ensures var q := ComputeQuoteWith(table, amount, rail, src, dst);
      && SpreadCostInSource(q) == q.fxPrincipal * BpsToPct(rail.fxSpreadBps)
      && 0.0 <= SpreadCostInSource(q) <= q.fxPrincipal
      && q.fxSpreadCostSrc == q.rateMid * SpreadCostInSource(q)
  {
    var q := ComputeQuoteWith(table, amount, rail, src, dst);
    var pct := BpsToPct(rail.fxSpreadBps);
    var rate := q.rateMid;
    assert rate > 0.0;
    assert q.rateMid - q.rateCustomer == rate * pct;
    assert q.fxSpreadCostSrc == q.fxPrincipal * (rate * pct);
    CancelRate(q.fxPrincipal, rate, pct);
    assert SpreadCostInSource(q) == q.fxPrincipal * pct;
    MulNonNeg(q.fxPrincipal, pct);
    MulNonNeg(q.fxPrincipal, 1.0 - pct);
  }

  /** Multiplying by the rate and then dividing by it is the identity. */
  lemma CancelRate(principal: real, rate: real, pct: real)
    requires rate > 0.0
    ensures principal * (rate * pct) / rate == principal * pct
    ensures principal * (rate * pct) == rate * (principal * pct)
  {
  }

  /**
    As written, 1000 USD to Colombia over the aggregator reports a spread cost
    of 41002.415 "USD", more than the whole amount sent; the cost in dollars
    is 9.8801.
   */
  lemma ColombiaSpreadCostAsWritten()
    ensures var q := ComputeQuote(1000.0, Corridors[12].rails[0], "USD", "COP");
      && q.fxSpreadCostSrc == 41002.415
      && q.fxSpreadCostSrc > 1000.0
      && SpreadCostInSource(q) == 9.8801
  {
  }
}
