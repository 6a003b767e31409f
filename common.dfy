/** Shared vocabulary of the model: optional values, results, identifiers and time. */
module Common {

  /** A value that may be absent (JavaScript `undefined`/`null`). */
  datatype Option<+T> = None | Some(value: T) {
    /** The value, or `default` when absent (a destructuring default or `||` fallback). */
    function GetOr(default: T): T {
      match this
      case Some(v) => v
      case None => default
    }
  }

  /** Either a value or an error, for operations whose source throws or answers with an error status. */
  datatype Result<+T, +E> = Ok(value: T) | Err(error: E)

  /** A MongoDB ObjectId, abstracted to a number: only equality between ids matters. */
  type ObjectId = nat

  /** A point in time (`Date` / `Date.now()`), abstracted to a number of milliseconds. */
  type Time = nat

  /** The largest id in `ids`, or 0 (a helper for choosing an id nobody uses yet). */
  function MaxId(ids: seq<ObjectId>): (m: ObjectId)
    ensures forall i :: 0 <= i < |ids| ==> ids[i] <= m
  {
    if ids == [] then 0
    else
      var rest := MaxId(ids[1..]);
      if ids[0] > rest then ids[0] else rest
  }
}
