/**
 * The parsed option-chain payload, as far as server.js looks into it: the
 * rows under `filtered.data` or `records.data`, and in each row the fields
 * findLastPrice reads (server.js:88-95), every one of which may be missing.
 */
module Snapshot {
  import opened Wrappers
  import opened Js

  /**
   * The value of a row's `CE`, `PE`, `call` or `put` property: either a leg
   * object carrying the fields server.js reads, or some other value
   * (`Plain(Undefined)` when the property is missing). A plain value has no
   * such fields, so reading one through it gives undefined.
   */
  datatype Slot =
    | Plain(v: Value)
    | Leg(expiryDate: Value, lastPrice: Value, last_traded_price: Value, last_price: Value, ltp: Value)

  /** One element of the rows array (an object; its fields under their JSON names). */
  datatype Row = Row(
    expiryDate: Value, expiry: Value,
    strikePrice: Value, strike_price: Value, strike: Value,
    CE: Slot, PE: Slot, call: Slot, put: Slot)

  /**
   * What `JSON.parse` gave for the upstream body. A `Document` is an object
   * or array; `filteredData` and `recordsData` are the arrays at
   * `filtered.data` and `records.data`, `None` where that path is missing,
   * nullish or otherwise falsy. A `Scalar` is a top-level null, boolean,
   * number or string.
   */
  datatype Chain =
    | Scalar(v: Value)
    | Document(filteredData: Option<seq<Row>>, recordsData: Option<seq<Row>>)

  /** The chain as `cachedChain` holds it before the first fetch (`let cachedChain = null`). */
  const NoChain := Scalar(Null)

  /** Truthiness of a chain: objects and arrays are always truthy. */
  predicate ChainTruthy(c: Chain) {
    c.Document? || Truthy(c.v)
  }

  predicate SlotTruthy(s: Slot) {
    s.Leg? || Truthy(s.v)
  }

  /**
   * `(chain?.filtered?.data) || (chain?.records?.data) || []`: an array is
   * truthy even when empty, so an empty `filtered.data` hides `records.data`.
   */
  function RowsOf(chain: Chain): (rows: seq<Row>)
    ensures chain.Document? && chain.filteredData.Some? ==> rows == chain.filteredData.value
    ensures chain.Document? && chain.filteredData.None? && chain.recordsData.Some? ==> rows == chain.recordsData.value
    ensures chain.Scalar? || (chain.filteredData.None? && chain.recordsData.None?) ==> rows == []
  {
    match chain
    case Scalar(_) => []
    case Document(filtered, records) =>
      if filtered.Some? then filtered.value
      else if records.Some? then records.value
      else []
  }
}
