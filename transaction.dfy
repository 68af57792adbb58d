/**
 * The trade instruction of package `transaction`: a getter/setter bean in
 * Java, a plain value here.
 */
module Transaction {
  import opened Wrappers
  import opened Calendar

  /** `TransactionDirection`: `B` buys (money goes out), `S` sells (money comes in). */
  datatype TransactionDirection = B | S

  /** The constant's name, as `Enum.name()` gives it. */
  function DirectionName(d: TransactionDirection): string {
    match d
    case B => "B"
    case S => "S"
  }

  /** `TransactionDirection.valueOf`: only the exact constant names are accepted. */
  function DirectionOf(name: string): (r: Option<TransactionDirection>)
    ensures r.Some? <==> name == "B" || name == "S"
    ensures r.Some? ==> DirectionName(r.value) == name
  {
    if name == "B" then Some(B)
    else if name == "S" then Some(S)
    else None
  }

  /** `valueOf` inverts `name()`. */
  lemma DirectionRoundTrip(d: TransactionDirection)
    ensures DirectionOf(DirectionName(d)) == Some(d)
  {
  }

  /**
   * An instruction: the counterparty entity, the direction, the agreed
   * exchange rate to USD, the currency, the date it was sent, the requested
   * settlement date, the number of units (a Java `int`) and the price per unit.
   */
  datatype Instruction = Instruction(
    entity: string,
    transactionDirection: TransactionDirection,
    forex: real,
    currency: string,
    instructionDate: Day,
    settlementDate: Day,
    units: int,
    pricePerUnit: real)
}
