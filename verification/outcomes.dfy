/** Failure-carrying result types shared by every variant of the clustering engine. */
module Outcomes {

  datatype Option<+T> = None | Some(value: T)

  /** The run-time faults the modelled code can reach: a division by a zero count (in the C
      variants it yields NaN or an infinity, in the Python variant it raises
      ZeroDivisionError), and in the Python variant a dictionary lookup of a missing key
      (KeyError), the removal of a missing element from a list (ValueError) and a list index
      past the end (IndexError). */
  datatype Fault = DivisionByZero | MissingKey | MissingElement | IndexOutOfRange

  /** A value, or the fault that stopped the computation. Usable with `:-`. */
  datatype Outcome<+T> = Ok(value: T) | Fail(fault: Fault) {

    predicate IsFailure() {
      Fail?
    }

    function PropagateFailure<U>(): Outcome<U>
      requires Fail?
    {
      Fail(fault)
    }

    function Extract(): T
      requires Ok?
    {
      value
    }
  }
}
