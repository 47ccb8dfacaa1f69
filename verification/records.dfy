/**
  The two record stores of the dashboard and the calendar arithmetic on
  purchase timestamps.

  Timestamps are whole seconds since the epoch; a calendar day is numbered by
  the number of whole days since the epoch, so day `d` covers the half-open
  interval [DayStart(d), DayStart(d + 1)). Prices and monetary values are whole
  cents, so every sum below is exact.
 */
module Records {

  datatype Option<+T> = None | Some(value: T)

  /** Number of seconds in one calendar day. */
  const SecondsPerDay: int := 86400

  /** The category picker's sentinel meaning "no category filter". */
  const AllCategories: string := "All"

  /** One product line of one order (a row of the order table). */
  datatype OrderLine = OrderLine(
    orderId: string,
    productId: string,
    customerId: string,
    customerState: string,
    category: Option<string>,   // None is a missing category name
    price: int,                 // line price, in cents
    purchasedAt: int            // purchase timestamp, in seconds
  )

  /** One customer's precomputed RFM summary (a row of the RFM table). */
  datatype RfmRecord = RfmRecord(
    customerId: string,
    recency: int,     // days since the last purchase; smaller is better
    frequency: int,   // number of distinct orders
    monetary: int     // total spend, in cents
  )

  /** The price column of the order table. */
  function PriceOf(l: OrderLine): int { l.price }

  /** Midnight at the start of day `d`. */
  function DayStart(d: int): int
  {
    d * SecondsPerDay
  }

  /** The calendar day a timestamp falls on: the day whose midnight is the
      last one at or before `ts`. */
  function Day(ts: int): (d: int)
    ensures DayStart(d) <= ts < DayStart(d + 1)
  {
    ts / SecondsPerDay
  }

  /** A timestamp lies on day `d` exactly when it is in [DayStart(d), DayStart(d + 1)). */
  lemma DayCharacterized(ts: int, d: int)
    ensures Day(ts) == d <==> DayStart(d) <= ts < DayStart(d + 1)
  {
  }
}
