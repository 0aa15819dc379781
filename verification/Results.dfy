/** Outcomes of operations that the modelled scripts end with an exception or an exit, and file contents. */
module Results {
  datatype Option<+T> = None | Some(value: T)

  type byte = b: int | 0 <= b < 256
}
