/** An optional value: a Flink `ValueState` that was never updated, or was cleared, reads as null. */
module Wrappers {

  datatype Option<+T> = None | Some(value: T) {

    /** The value held, or `default` when there is none. */
    function GetOr(default: T): T {
      match this
      case Some(v) => v
      case None => default
    }

    /** Zero or one element: what an optional emission appends to an output stream. */
    function ToSeq(): seq<T> {
      match this
      case Some(v) => [v]
      case None => []
    }
  }
}
