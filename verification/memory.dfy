/** Addresses and optional values, shared by the models. */
module Memory {
  // An address; NULL is the null pointer.
  type Pointer = nat
  const NULL: Pointer := 0

  datatype Option<+T> = None | Some(value: T)
}
