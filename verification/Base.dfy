/** Values shared by every stage: optional columns, the status columns of a row,
    and the enumerations of the two life cycles. */
module Base {

  datatype Option<+T> = None | Some(value: T)

  /** One stage's status column.  `Insufficient` is used by valuation only. */
  datatype Status = Pending | InProgress | Done | Failed | Skipped | Insufficient

  datatype LotStatus = Open | ClosingSoon | Extended | Closed | Unsold | Sold | ForceClosed

  datatype ListingStatus = Active | SoldOff | Removed | PriceChanged

  /** How much a fair value can be trusted. */
  datatype Bucket = InsufficientComps | Medium | HighConfidence

  /** Python's `new or old` on an optional value that has no falsy instances. */
  function Coalesce<T>(newer: Option<T>, known: Option<T>): Option<T> {
    if newer.Some? then newer else known
  }

  predicate Biddable(s: LotStatus) {
    s in {Open, ClosingSoon, Extended}
  }
}
