/** Small shared vocabulary: optional values and integer points. */
module Common {

  /** A value that may be absent (JavaScript's `undefined`/`null` results). */
  datatype Option<T> = None | Some(value: T)

  /** A pointer position in integer pixels. */
  datatype Point = Point(x: int, y: int)
}
