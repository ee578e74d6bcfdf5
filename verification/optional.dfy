/** A value that may be absent: JSON `null`/`undefined`, Python `None`, or a `NaN` from `parseInt`. */
module Optional {

  datatype Option<T> = None | Some(value: T)
}
