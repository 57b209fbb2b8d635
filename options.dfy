/** A value that may be absent: a JSON key that was not sent, a row a query did not find. */
module Options {
  datatype Option<+T> = None | Some(value: T)

  /** `data.get(key, default)`: the value when the key is present, else the default. */
  function GetOr<T>(o: Option<T>, default: T): T
  {
    match o
    case Some(v) => v
    case None => default
  }
}
