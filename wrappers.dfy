/** Optional values and the outcome of an operation that can raise. */
module Wrappers {

  datatype Option<T> = None | Some(value: T)

  /** A value, or the text of the exception Python would raise instead
      (`str(e)`: a missing key `k` reads `'k'`). */
  datatype Result<T> = Success(value: T) | Failure(error: string)

  /** `str(KeyError(key))` */
  function KeyErrorText(key: string): (r: string)
    ensures |r| == |key| + 2 && r[0] == '\'' && r[|r| - 1] == '\''
    ensures r[1..|r| - 1] == key
  {
    "'" + key + "'"
  }

  /** `str(IndexError)` raised by indexing past the end of a list. */
  const IndexErrorText: string := "list index out of range"
}
