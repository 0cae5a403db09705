// Shared result types: a value that may be missing, and an operation that may fail.
module Outcomes {

  datatype Option<+T> = None | Some(value: T)

  datatype Result<+T, +E> = Ok(result: T) | Err(error: E)

  /** Dictionary lookup with a default, as in Python's `d.get(k, v)` or a Go map read. */
  function Get<K, V>(m: map<K, V>, k: K, default: V): V {
    if k in m then m[k] else default
  }

  /** The last `n` elements, or all of them when there are fewer. */
  function Last<T>(s: seq<T>, n: nat): seq<T> {
    if |s| <= n then s else s[|s| - n..]
  }
}
