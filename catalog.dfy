// The stored catalog of a game, as the frontend receives it: levels and purchase events.

module Catalog {
  import opened Options

  /** A level of a game. The pages test at run time whether days_offset and time_spent are numbers;
      None stands for a value that is not a number. */
  datatype Level = Level(
    id: int, gameId: int, eventToken: string, levelName: string,
    daysOffset: Option<int>, timeSpent: Option<int>, isBonus: bool)

  /** A purchase event of a game; is_restricted may be missing from what the frontend receives. */
  datatype PurchaseEvent = PurchaseEvent(
    id: int, gameId: int, eventToken: string,
    isRestricted: Option<bool>, maxDaysOffset: Option<int>, daysOffset: Option<int>)

  /** The level name that marks a session-only entry */
  const SESSION_NAME := "-"

  /** The name every purchase column shows */
  const PURCHASE_NAME := "$$$"
}
