/** A value that may be absent. */
module Options {
  datatype Option<+T> = None | Some(value: T) {
    function GetOr(fallback: T): T {
      match this case None => fallback case Some(x) => x
    }
  }
}
