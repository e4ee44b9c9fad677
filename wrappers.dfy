/** Optional values, raised exceptions and Python's `dict.get(key, default)`. */
module Wrappers {

  /** Python's `None` or a present value. */
  datatype Option<T> = None | Some(value: T)

  /** The Python exceptions the modelled code can raise and not catch. */
  datatype Exception =
    | ValueError(message: string)
    | IndexError
    | OSError  // a file that cannot be opened or decoded

  /** What a Python call does: return a value or raise. */
  datatype Result<T> = Returned(value: T) | Raised(error: Exception)

  /** `d.get(key, default)` on a dictionary literal. */
  function GetOr<K, V>(d: map<K, V>, key: K, default: V): (r: V)
    ensures key in d ==> r == d[key]
    ensures key !in d ==> r == default
  {
    if key in d then d[key] else default
  }
}
