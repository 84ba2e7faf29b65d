/** Worked quotes for configured corridors, with exact real arithmetic. */
module Scenarios {
  import opened Wrappers
  import opened QuoteEngine
  import opened Config

  /** 1000 USD to Canada over the aggregator: 70 bps off a mid rate of 1.30. */
  lemma CanadaAggregator()
    ensures ComputeQuote(1000.0, Corridors[0].rails[0], "USD", "CAD")
         == Quote("Fintech Aggregator", 1.99, 10.0, 11.99, 70, 8.990891, 1.30, 1.2909, 988.01,
                  Some(1275.422109), 2, (10.0, 5000.0))
  {
  }

  /** 500 USD to El Salvador over SWIFT: no conversion, so the mid rate 1.00 is the customer rate. */
  lemma ElSalvadorSwift()
    ensures ComputeQuote(500.0, Corridors[4].rails[2], "USD", "USD")
         == Quote("SWIFT", 8.0, 1.0, 9.0, 0, 0.0, 1.0, 1.0, 491.0, Some(491.0), 24, (100.0, 50000.0))
  {
  }

  /** 5 USD to Canada over SWIFT: the 14.01 of fees exceed the amount, so nothing is converted. */
  lemma FeesAboveAmount()
    ensures var q := ComputeQuote(5.0, Corridors[0].rails[2], "USD", "CAD");
      && q.totalFeesSrc == 14.01
      && q.fxPrincipal == 0.0
      && q.fxSpreadCostSrc == 0.0
      && q.receivedDst == Some(0.0)
  {
  }

  /** A pair without a table entry: every FX figure is 0.0 and nothing is received. */
  lemma UnquotedPair()
    ensures ComputeQuote(1000.0, Corridors[0].rails[0], "USD", "EUR")
         == Quote("Fintech Aggregator", 1.99, 10.0, 11.99, 70, 0.0, 0.0, 0.0, 988.01, None, 2, (10.0, 5000.0))
  {
  }
}
