/** Optional values and the ways a call into the engine can end. */
module Results {

  /** A value that may be absent; stands in for a null reference. */
  datatype Option<+T> = None | Some(value: T)
  {
    /** The value if present, else `default` (the `??` operator). */
    function GetOr(default: T): T
    {
      match this
      case Some(v) => v
      case None => default
    }
  }

  /** How a call ends: it returns a value, it raises an exception (an index
      out of range, a null dereference), or it never returns (a loop whose
      guard can no longer change). */
  datatype Outcome<+T> = Returns(value: T) | Throws | Diverges
}
