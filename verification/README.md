# Cross-border payment quote engine, in Dafny

A model of the fee and FX quote engine of a demonstration calculator for
money transfers out of the United States. Given a send amount, a payment
rail and a currency pair, the engine charges a flat fee plus a percentage,
converts what is left (never below zero) at the mid-market rate marked down
by the rail's spread, and reports the breakdown. The static configuration
(three standard rails per corridor, 21 corridors, 19 mid-market rates) is
modelled as constant data, and facts about it are proved by computation.

Floats are modelled as exact `real`s, so every property is an exact identity.
Currency codes, country names and rail names are strings.

Modules, one per component of the program:

- `Wrappers`: `Option`, standing for Python's `None` or a value.
- `Model`: the `Rail` and `Corridor` records, and `Rail.Valid`, the ranges the
  model assumes for a rail's parameters.
- `Rates`: the rate table, `Lookup` in any table, `MidRate` in the program's.
- `QuoteEngine`: `BpsToPct`, the `max(…, 0)` clamp, the rate branch
  (`Convert`) and the quote itself. `ComputeQuoteWith` takes the rate table as
  a parameter. `ComputeQuote` is the program's engine on its own table.
- `QuoteProperties`: the engine's guarantees for any rate table.
- `Config`, `ConfigProperties`: `RailsStandard`, the corridor list, and facts
  about them.
- `Selection`: choosing a corridor by its countries and a rail by its name.
- `Scenarios`: worked quotes for configured corridors.
- `SpreadCost`: the spread cost in source currency (see Findings).

Python's `if base_rate` is false both for a missing rate and for `0.0`. The
model captures this in `QuoteEngine.Truthy`. A zero rate therefore gives
exactly the quote of a missing pair (`ZeroRateLikeMissing`). In that case
`rate_customer` is reported as `0.0`, not `None`.

Facts about the program's own data that the model makes explicit:

- USD→USD has the table rate 1.00, so same-currency corridors report it as
  their mid rate. Only a missing or 0.0 rate reports 0, and `receivedDst` is
  `None` exactly in that case (`ComputeQuoteWith`).
- El Salvador's SWIFT rail overrides only the fixed fee (8.0) and keeps the
  0.2% default percentage, so 500 USD leaves 491 (`Scenarios.ElSalvadorSwift`).
- The program has no separate state for a pair without a rate. The quote of a missing pair
  carries 0 rates and no amount received. The absence of an amount received
  identifies that case.

## Model

| member | source | states |
|---|---|---|
| Rates.Lookup | app.py:92-93 | the result is present exactly when the pair is a key of the table, and then it is that key's rate |
| Rates.MidRate | app.py:70-93 | the program's table answers exactly for its keys, with that key's rate, and every rate it holds is positive |
| QuoteEngine.BpsToPct | app.py:101-102 | the fraction times 10000 gives back the basis points; 0 to 10000 bps map into [0, 1] |
| QuoteEngine.Truthy | app.py:131-135 | a rate counts as known exactly when it is neither missing nor 0.0, as Python's `if base_rate` decides; its effect on the quote is stated by `QuoteProperties.ZeroRateLikeMissing` and `QuoteProperties.UnknownRate` |
| QuoteEngine.ClampAtZero | app.py:108 | the clamped value is the larger of the input and zero |
| QuoteEngine.Convert | app.py:109-123 | a customer rate and an amount received exist exactly when a base rate does; received is principal times customer rate; the spread cost is principal times the markdown; equal currencies keep the base rate; otherwise the markdown is the base rate times the spread fraction |
| QuoteEngine.ComputeQuoteWith | app.py:104-138 | name, spread, delivery estimate, limits and fixed fee are copied from the rail; the variable fee is amount × percentage; total fees are fixed plus variable; the principal is the larger of amount minus fees and zero; an amount is received exactly when the rate is present and non-zero, and then it is principal times customer rate; otherwise mid and customer rate are 0; the spread cost is always principal times (mid − customer); equal currencies get the mid rate; different ones lose the spread fraction of it |
| QuoteEngine.ComputeQuote | app.py:104-138 | on the program's table an amount is received exactly for the pairs in the table; for other pairs every FX figure is 0 |
| QuoteProperties.TotalFees | app.py:105-107 | total fees are amount × percentage + fixed fee for every input; for a non-negative amount and percentage they are at least the fixed fee |
| QuoteProperties.FeesAndPrincipalSplitAmount | app.py:105-108 | when the fees do not exceed the amount, fees plus principal equal the amount |
| QuoteProperties.FeesConsumeAmount | app.py:105-123 | fees at least as large as the amount give a zero principal and zero spread cost; with a known rate the amount received is 0 |
| QuoteProperties.PrincipalMonotone | app.py:105-108 | for a percentage of at most 100%, a larger amount never gives a smaller principal |
| QuoteProperties.SameCurrencyNoSpread | app.py:117-133 | equal currencies with a known non-zero rate: customer rate equals the mid rate from the table, spread cost is 0, received is principal × rate |
| QuoteProperties.SameCurrencyIgnoresSpread | app.py:110-137 | between equal currencies, changing the rail's spread changes only the reported spread field |
| QuoteProperties.DifferentCurrencyRate | app.py:120-135 | different currencies with a known non-zero rate R and spread S: customer rate is R × (1 − S/10000), spread cost is principal × (R − customer rate), received is principal × customer rate |
| QuoteProperties.DifferentCurrencyBounds | app.py:101-135 | with R > 0 and 0 ≤ S ≤ 10000 the customer rate lies in [0, R], the spread cost is non-negative, received lies between 0 and principal × R, and received plus spread cost is principal × R |
| QuoteProperties.WiderSpreadCostsMore | app.py:120-123 | a wider spread never raises the amount received and never lowers the spread cost |
| QuoteProperties.UnknownRate | app.py:112-135 | a missing or zero rate reports mid rate, customer rate and spread cost as 0 and nothing received, with fees and principal computed as usual |
| QuoteProperties.ZeroRateLikeMissing | app.py:131-135 | a pair whose rate is 0.0 is quoted exactly as if it had no entry |
| QuoteProperties.OnlyOwnPairMatters | app.py:109 | two tables that agree on the pair give the same quote |
| Config.RailsStandard | app.py:28-39 | exactly three rails, named Fintech Aggregator, Card Network and SWIFT in that order, each with its own fixed fee, percentage, spread, delivery estimate and maximum as passed in (or defaulted); SWIFT's minimum is 100, the others use the minimum passed in; with parameters in range every rail is valid |
| ConfigProperties.CorridorsFromDollars | app.py:42-67 | every corridor sends US dollars |
| ConfigProperties.DollarRatesKnown | app.py:42-90 | every corridor's destination currency has a USD rate in the table |
| ConfigProperties.CorridorRatesKnown | app.py:42-93 | the rate lookup answers with a positive rate for every corridor's pair |
| ConfigProperties.CorridorsQuotable | app.py:42-138 | every rail of every corridor yields an amount received, for any amount |
| ConfigProperties.CorridorRails | app.py:35-67 | every corridor has the three standard rails in order, SWIFT with minimum 100, and each rail is valid |
| ConfigProperties.CorridorsUnique | app.py:42-67 | no two corridors share a destination country |
| ConfigProperties.FindCorridorFindsEach | app.py:153 | selecting a corridor by its own countries returns that corridor |
| ConfigProperties.FindStandardRail | app.py:165 | in a list of the three standard rails, selecting by a rail's name returns that rail |
| ConfigProperties.FindRailFindsEach | app.py:165 | in every corridor, selecting a rail by its name returns that rail |
| Selection.FirstIndex | app.py:153 | the result is the position of an element satisfying the test with none before it, and is absent exactly when no element satisfies it |
| Selection.FindCorridor | app.py:153 | a found corridor is the first in the list with the requested countries; none is found exactly when no corridor has them |
| Selection.FindRail | app.py:165 | a found rail is the first in the list with the requested name; none is found exactly when no rail has it |
| Scenarios.CanadaAggregator | app.py:104-138 | 1000 USD to Canada over the aggregator: fees 11.99, principal 988.01, customer rate 1.2909, received 1275.422109 CAD |
| Scenarios.ElSalvadorSwift | app.py:104-138 | 500 USD to El Salvador over SWIFT: fees 9.0, customer rate 1.0, no spread cost, received 491 |
| Scenarios.FeesAboveAmount | app.py:104-138 | 5 USD over SWIFT to Canada: fees 14.01, principal 0, received 0 |
| Scenarios.UnquotedPair | app.py:104-138 | USD to EUR: fees computed, every FX figure 0, nothing received |
| SpreadCost.SpreadCostInSource | app.py:122 | with a non-zero mid rate, principal minus the cost, converted at the mid rate, equals what is received; 0 without a rate |
| SpreadCost.SpreadCostInSourceBounded | app.py:120-122 | between different currencies the source-currency cost is principal × spread fraction, at most the principal, and the reported figure is it times the mid rate |
| SpreadCost.ColombiaSpreadCostAsWritten | app.py:122 | 1000 USD to Colombia over the aggregator reports a spread cost of 41002.415, more than the amount sent; in dollars it is 9.8801 |

## Findings

| source | as written | input that shows it | evidently intended | confidence | as-written member | corrected member |
|---|---|---|---|---|---|---|
| app.py:122 | `fx_spread_cost_src = fx_principal * (base_rate - customer_rate)`: a source amount times a rate difference, an amount in the destination currency, shown as a source-currency cost | 1000 USD to Colombia, Fintech Aggregator (100 bps, rate 4150): reported cost 41002.415 "USD" on a 1000 USD transfer | the cost in the source currency, `fx_principal * spread_pct`, here 9.8801 USD | high, by units; not executed | SpreadCost.ColombiaSpreadCostAsWritten | SpreadCost.SpreadCostInSource |

The quote record keeps the field as the program computes it, because it
models the program. `SpreadCost.SpreadCostInSource` derives the corrected
figure from any quote. `SpreadCost.SpreadCostInSourceBounded` proves that
it is the principal times the spread fraction and at most the principal.

## Left out

- The Streamlit interface (app.py:140-205): widgets, layout, the sorted list
  of destinations and the display of the quote. Only the two selections by
  `next(…)` are modelled, as `FindCorridor` and `FindRail`. Where `next`
  would raise, they return `None`.
- The `amount <= 0` guard (app.py:159-161): it sits in the interface. The
  engine accepts any amount, and the lemmas that need a non-negative amount
  require it.
- The advisory limit warning (app.py:167-169): display only.
- `fmt_money` (app.py:96-99): display-only rounding through Python's
  float-to-string conversion and the `decimal` library.
- IEEE-754 rounding: the arithmetic is exact over the reals. NaN and
  infinities do not exist there. Python's `max` returning the integer `0`
  rather than `0.0` makes no difference to the value.
- The `os` import (app.py:1): unused by the code shown.
- ComputeQuote: its contract speaks only of which pairs are quoted. Every
  other property is stated on `ComputeQuoteWith`, of which it is the
  instance on the program's table.
