/** Facts about the program's configuration, established by computation over the tables. */
module ConfigProperties {
  import opened Wrappers
  import opened Model
  import opened Rates
  import opened QuoteEngine
  import opened Config
  import opened Selection

  /** Every corridor sends US dollars. */
  lemma CorridorsFromDollars()
    ensures forall c :: c in Corridors ==> c.currencySrc == "USD"
  {
  }

  /** Every corridor's destination currency is quoted against US dollars. */
  lemma DollarRatesKnown()
    ensures forall c :: c in Corridors ==> ("USD", c.currencyDst) in MidRates.Keys
  {
  }

  /** Every corridor's currency pair has a positive rate in the table. */
  lemma CorridorRatesKnown()
    ensures forall c :: c in Corridors ==>
      MidRate(c.currencySrc, c.currencyDst).Some? && MidRate(c.currencySrc, c.currencyDst).value > 0.0
  {
    CorridorsFromDollars();
    DollarRatesKnown();
  }

  /** Hence every rail of every corridor yields a quote with an amount received, for any amount. */
  lemma CorridorsQuotable(amount: real)
    ensures forall c, rail :: c in Corridors && rail in c.rails ==>
      ComputeQuote(amount, rail, c.currencySrc, c.currencyDst).receivedDst.Some?
  {
    CorridorRatesKnown();
  }

  /** Every corridor offers the three standard rails, in order, each within its intended ranges. */
  lemma CorridorRails()
    ensures forall c :: c in Corridors ==>
      && |c.rails| == 3
      && c.rails[0].name == "Fintech Aggregator"
      && c.rails[1].name == "Card Network"
      && c.rails[2].name == "SWIFT"
      && c.rails[2].sendLimitMin == 100.0
      && (forall rail :: rail in c.rails ==> rail.Valid())
  {
  }

  /** No two corridors share a destination country, so (source, destination) identifies a corridor. */
  lemma CorridorsUnique()
    ensures forall i, j :: 0 <= i < j < |Corridors| ==> Corridors[i].dst != Corridors[j].dst
  {
  }

  /** Looking a corridor up by its own countries returns that corridor. */
  lemma FindCorridorFindsEach()
    ensures forall i :: 0 <= i < |Corridors| ==>
      FindCorridor(Corridors, Corridors[i].src, Corridors[i].dst) == Some(Corridors[i])
  {
    CorridorsUnique();
    forall i | 0 <= i < |Corridors|
      ensures FindCorridor(Corridors, Corridors[i].src, Corridors[i].dst) == Some(Corridors[i])
    {
      var c := Corridors[i];
      FirstIndexOfOnly(Corridors, (d: Corridor) => d.src == c.src && d.dst == c.dst, i);
    }
  }

  /** In a list of the three standard rails, looking a rail up by its own name returns that rail. */
  lemma FindStandardRail(rails: seq<Rail>, k: nat)
    requires |rails| == 3 && k < 3
    requires rails[0].name == "Fintech Aggregator" && rails[1].name == "Card Network" && rails[2].name == "SWIFT"
    ensures FindRail(rails, rails[k].name) == Some(rails[k])
  {
    FirstIndexOfOnly(rails, (rail: Rail) => rail.name == rails[k].name, k);
  }

  /** Looking a rail up by its own name within its corridor returns that rail. */
  lemma FindRailFindsEach()
    ensures forall c, k :: c in Corridors && 0 <= k < |c.rails| ==> FindRail(c.rails, c.rails[k].name) == Some(c.rails[k])
  {
    CorridorRails();
    forall c, k | c in Corridors && 0 <= k < |c.rails|
      ensures FindRail(c.rails, c.rails[k].name) == Some(c.rails[k])
    {
      FindStandardRail(c.rails, k);
    }
  }
}
