/** Mid-market exchange rates: a fixed table keyed by (source, destination) currency. */
module Rates {
  import opened Wrappers

  /** Rates keyed by the ordered currency pair; a missing key means no quoted rate. */
  type RateTable = map<(string, string), real>

  /** Looks up the rate for a currency pair; `None` when the pair has no entry. */
  function Lookup(table: RateTable, src: string, dst: string): (r: Option<real>)
    ensures r.Some? <==> (src, dst) in table
    ensures r.Some? ==> r.value == table[(src, dst)]
  {
    if (src, dst) in table then Some(table[(src, dst)]) else None
  }

  /** The program's table of illustrative mid-market rates, all from USD. */
  const MidRates: RateTable := map[
    ("USD", "CAD") := 1.30,
    ("USD", "MXN") := 19.50,
    ("USD", "GTQ") := 7.80,
    ("USD", "HNL") := 24.60,
    ("USD", "USD") := 1.00,
    ("USD", "NIO") := 36.70,
    ("USD", "CRC") := 515.00,
    ("USD", "DOP") := 59.00,
    ("USD", "JMD") := 156.00,
    ("USD", "HTG") := 132.00,
    ("USD", "TTD") := 6.80,
    ("USD", "COP") := 4150.00,
    ("USD", "PEN") := 3.70,
    ("USD", "CLP") := 910.00,
    ("USD", "ARS") := 950.00,
    ("USD", "BRL") := 5.10,
    ("USD", "UYU") := 39.00,
    ("USD", "PYG") := 7400.00,
    ("USD", "BOB") := 6.90
  ]

  /** The mid-market rate for a pair in the program's table, if it has one. */
  function MidRate(src: string, dst: string): (r: Option<real>)
    ensures r.Some? <==> (src, dst) in MidRates.Keys
    ensures r.Some? ==> r.value == MidRates[(src, dst)] && r.value > 0.0
  {
    Lookup(MidRates, src, dst)
  }
}
