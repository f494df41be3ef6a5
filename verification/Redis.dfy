/** Shared vocabulary for values kept in Redis under an expiry time. */
module Redis {

  datatype Option<+T> = None | Some(value: T)

  /** A key's value and the time from which it no longer exists. */
  datatype Keyed<T> = Keyed(value: T, expireAt: int)
}
