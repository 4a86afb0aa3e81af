/** Small datatypes shared by the models of the protocol ledger and of the solvers. */
module Common {

  /** Rust's `Option<T>`. */
  datatype Option<+T> = None | Some(value: T)

  /**
   * Some element of a nonempty set: the next key a loop over a Rust hash
   * collection visits, in an order the model leaves unspecified.
   */
  method Choose<T>(s: set<T>) returns (x: T)
    requires s != {}
    ensures x in s
  {
    x :| x in s;
  }

  /** The absolute value of an `i32` literal (the range used here never overflows). */
  function Abs(x: int): (r: nat)
    ensures r == x || r == -x
  {
    if x < 0 then -x else x
  }
}
