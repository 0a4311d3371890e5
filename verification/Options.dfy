/** Types shared by the other modules. */
module Options {
  // Python's `X | None`
  datatype Option<+T> = None | Some(value: T)

  // An identifier; NoId stands for a missing or empty one.
  datatype Id = NoId | Sid(name: string)
}
