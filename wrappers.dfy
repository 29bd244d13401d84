/** Optional values and error returns, the shape of Go's `(value, error)` pairs
    and of nil `*T` values. */
module Wrappers {

  datatype Option<T> = None | Some(value: T)

  /** A Go `(value, error)` return: `Err` carries the error text. */
  datatype Result<T> = Ok(value: T) | Err(error: string)

  function OptionOr<T>(o: Option<T>, default: T): (r: T)
    ensures o.Some? ==> r == o.value
    ensures o.None? ==> r == default
  {
    match o
    case Some(v) => v
    case None => default
  }

  /** A Go map read `m[k]` on a map of integers: 0 for a missing key. */
  function GetOrZero<K>(m: map<K, int>, k: K): (n: int)
    ensures k in m ==> n == m[k]
    ensures k !in m ==> n == 0
  {
    if k in m then m[k] else 0
  }
}
