/** Option and Result values used where the source returns a null pointer,
    an optional value, throws an exception or returns an error, and the
    number formatting its error messages use, and one sequence fact the
    emitting loops need. */
module Wrappers {

  datatype Option<+T> = None | Some(value: T)

  /** A check that either passes or fails with a message. */
  datatype Outcome = Pass | Fail(error: string)

  /** A computation that either succeeds with a value or fails with the
      message the source would throw or return. */
  datatype Result<+T> = Success(value: T) | Failure(error: string) {
    predicate IsFailure() { Failure? }

    function PropagateFailure<U>(): Result<U>
      requires Failure?
    {
      Failure(error)
    }

    function Extract(): T
      requires Success?
    {
      value
    }
  }

  /** std::to_string of an unsigned value. */
  function Decimal(n: nat): string
  {
    var digit := ['0' + (n % 10) as char];
    if n < 10 then digit else Decimal(n / 10) + digit
  }

  /** A nonempty sequence is its head before its tail. */
  lemma HeadTail<T>(xs: seq<T>)
    requires |xs| > 0
    ensures [xs[0]] + xs[1..] == xs
  {
  }

  /** Concatenation regroups: what a loop appends piecewise equals the
      pieces appended at once. */
  lemma AppendAssociates<T>(a: seq<T>, b: seq<T>, c: seq<T>)
    ensures a + b + c == a + (b + c)
  {
  }
}
