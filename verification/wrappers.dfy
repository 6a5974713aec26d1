/** Option and Result wrappers shared by every module of the rubric model. */
module Wrappers {

  /** Python's `X | None`. */
  datatype Option<+T> = None | Some(value: T)

  /** A value or the error a Python `raise` would carry. */
  datatype Result<+T, +E> = Success(value: T) | Failure(error: E)

  /** Python's `dict.get(key)`: the stored value, or None when the key is absent. */
  function Get<K, V>(m: map<K, V>, k: K): (r: Option<V>)
    ensures r.Some? <==> k in m
    ensures r.Some? ==> r.value == m[k]
  {
    if k in m then Some(m[k]) else None
  }
}
