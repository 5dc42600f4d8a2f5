/** Small value types shared by every part of the model. */
module Common {

  /** A value that may be missing: JavaScript's `T | undefined`. */
  datatype Option<+T> = None | Some(value: T)

  /** What reading one JSON blob from browser storage yields: nothing stored
      (or the empty string, which is falsy), a text that does not parse, or
      the decoded value. */
  datatype StoredValue<+T> = Absent | Malformed | Present(value: T)

  function Min(a: int, b: int): (m: int)
    ensures m <= a && m <= b
    ensures m == a || m == b
  {
    if a <= b then a else b
  }
}
