/** Option and Result values shared by every module of the ledger model. */
module Common {

  datatype Option<+T> = None | Some(value: T)

  /** The outcome of a server action: a value, or the error it reports to its caller. */
  datatype Result<+R, +E> = Success(value: R) | Failure(error: E)

  /** `m.get(k) ?? fallback` */
  function GetOr<K, V>(m: map<K, V>, k: K, fallback: V): V
  {
    if k in m then m[k] else fallback
  }
}
