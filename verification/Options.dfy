/** A value that may be absent: the kernel's NULL pointers. */
module Options {
  datatype Option<T> = None | Some(value: T)
}
