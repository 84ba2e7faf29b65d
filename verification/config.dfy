/** The program's static configuration: rail presets and the corridors out of the United States. */
module Config {
  import opened Model

  /**
    The three standard rails, in display order: a fintech aggregator, a card
    network and SWIFT. Each takes its own spread; the other parameters have
    the program's defaults and can be overridden per corridor. SWIFT's
    minimum send is always 100.
   */
  function RailsStandard(
    aggBps: int, cardBps: int, swiftBps: int,
    aggFixed: real := 1.99, aggVar: real := 0.010, aggEta: int := 2,
    cardFixed: real := 2.79, cardVar: real := 0.013, cardEta: int := 4,
    swiftFixed: real := 14.0, swiftVar: real := 0.002, swiftEta: int := 24,
    minSend: real := 10.0, maxSendAgg: real := 5000.0, maxSendCard: real := 3000.0, maxSendSwift: real := 50000.0
  ): (rails: seq<Rail>)
    ensures |rails| == 3
    ensures rails[0].name == "Fintech Aggregator" && rails[1].name == "Card Network" && rails[2].name == "SWIFT"
    ensures rails[0].fxSpreadBps == aggBps && rails[1].fxSpreadBps == cardBps && rails[2].fxSpreadBps == swiftBps
    ensures rails[0].sendLimitMin == minSend && rails[1].sendLimitMin == minSend && rails[2].sendLimitMin == 100.0
    ensures rails[0].fixedFee == aggFixed && rails[0].variableFeePct == aggVar
         && rails[0].estDeliveryHours == aggEta && rails[0].sendLimitMax == maxSendAgg
    ensures rails[1].fixedFee == cardFixed && rails[1].variableFeePct == cardVar
         && rails[1].estDeliveryHours == cardEta && rails[1].sendLimitMax == maxSendCard
    ensures rails[2].fixedFee == swiftFixed && rails[2].variableFeePct == swiftVar
         && rails[2].estDeliveryHours == swiftEta && rails[2].sendLimitMax == maxSendSwift
    ensures
      && 0 <= aggBps <= 10000 && 0 <= cardBps <= 10000 && 0 <= swiftBps <= 10000
      && aggFixed >= 0.0 && aggVar >= 0.0 && aggEta >= 0
      && cardFixed >= 0.0 && cardVar >= 0.0 && cardEta >= 0
      && swiftFixed >= 0.0 && swiftVar >= 0.0 && swiftEta >= 0
      && 0.0 <= minSend <= maxSendAgg && minSend <= maxSendCard && 100.0 <= maxSendSwift
      ==> forall i :: 0 <= i < |rails| ==> rails[i].Valid()
  {
    [
      Rail("Fintech Aggregator", aggFixed, aggVar, aggBps, aggEta, minSend, maxSendAgg),
      Rail("Card Network", cardFixed, cardVar, cardBps, cardEta, minSend, maxSendCard),
      Rail("SWIFT", swiftFixed, swiftVar, swiftBps, swiftEta, 100.0, maxSendSwift)
    ]
  }

  /** Every configured corridor, in the program's order. */
  const Corridors: seq<Corridor> := [
    Corridor("United States", "Canada", "USD", "CAD", RailsStandard(70, 90, 30)),
    Corridor("United States", "Mexico", "USD", "MXN", RailsStandard(90, 120, 40)),
    Corridor("United States", "Guatemala", "USD", "GTQ", RailsStandard(120, 150, 55)),
    Corridor("United States", "Honduras", "USD", "HNL", RailsStandard(140, 170, 60)),
    Corridor("United States", "El Salvador", "USD", "USD", RailsStandard(0, 0, 0, swiftFixed := 8.0)),
    Corridor("United States", "Nicaragua", "USD", "NIO", RailsStandard(150, 180, 65)),
    Corridor("United States", "Costa Rica", "USD", "CRC", RailsStandard(120, 150, 50)),
    Corridor("United States", "Panama", "USD", "USD", RailsStandard(0, 0, 0, swiftFixed := 8.0)),
    Corridor("United States", "Dominican Republic", "USD", "DOP", RailsStandard(130, 160, 55)),
    Corridor("United States", "Jamaica", "USD", "JMD", RailsStandard(140, 170, 60)),
    Corridor("United States", "Haiti", "USD", "HTG", RailsStandard(180, 220, 80)),
    Corridor("United States", "Trinidad & Tobago", "USD", "TTD", RailsStandard(120, 150, 50)),
    Corridor("United States", "Colombia", "USD", "COP", RailsStandard(100, 130, 40)),
    Corridor("United States", "Peru", "USD", "PEN", RailsStandard(100, 130, 45)),
    Corridor("United States", "Chile", "USD", "CLP", RailsStandard(90, 120, 40)),
    Corridor("United States", "Argentina", "USD", "ARS",
      RailsStandard(250, 300, 90, swiftEta := 48, maxSendAgg := 3000.0, maxSendCard := 2000.0)),
    Corridor("United States", "Brazil", "USD", "BRL", RailsStandard(120, 140, 50)),
    Corridor("United States", "Uruguay", "USD", "UYU", RailsStandard(110, 140, 45)),
    Corridor("United States", "Paraguay", "USD", "PYG", RailsStandard(140, 170, 60)),
    Corridor("United States", "Bolivia", "USD", "BOB", RailsStandard(120, 150, 50)),
    Corridor("United States", "Ecuador", "USD", "USD", RailsStandard(0, 0, 0, swiftFixed := 8.0))
  ]
}
