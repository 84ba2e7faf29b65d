/** The static records of the calculator: payment rails and corridors. */
module Model {

  /**
    A named payment path. Fees are in the source currency: `fixedFee` is a
    flat charge, `variableFeePct` a fraction of the send amount (0.010 is 1%).
    `fxSpreadBps` is the markdown of the mid-market rate in basis points.
    The send limits are advisory only.
   */
  datatype Rail = Rail(
    name: string,
    fixedFee: real,
    variableFeePct: real,
    fxSpreadBps: int,
    estDeliveryHours: int,
    sendLimitMin: real,
    sendLimitMax: real
  ) {

    /** The ranges the model assumes for a rail's parameters; the program states none. */
    predicate Valid() {
      && fixedFee >= 0.0
      && variableFeePct >= 0.0
      && 0 <= fxSpreadBps <= 10000
      && estDeliveryHours >= 0
      && 0.0 <= sendLimitMin <= sendLimitMax
    }
  }

  /** A transfer path from one country and currency to another, with its rails in display order. */
  datatype Corridor = Corridor(
    src: string,
    dst: string,
    currencySrc: string,
    currencyDst: string,
    rails: seq<Rail>
  )
}
