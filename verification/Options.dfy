/** Optional values, used for nullable columns, nil references and absent map entries. */
module Options {
  datatype Option<+T> = None | Some(value: T)
  {
    /** COALESCE(this, fallback). */
    function GetOr(fallback: T): T {
      match this
      case Some(v) => v
      case None => fallback
    }

    /** COALESCE(this, other), for a nullable replacement. */
    function OrElse(other: Option<T>): Option<T> {
      if Some? then this else other
    }
  }
}
