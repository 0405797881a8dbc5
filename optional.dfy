/** A value that may be missing: an absent attribute, a failed conversion, an unreachable feed. */
module Optional {
  datatype Option<T> = None | Some(value: T)
}
