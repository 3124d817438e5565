/** Small shared datatypes. */
module Base {

  /** A value that may be missing (Python's `None`). */
  datatype Option<T> = None | Some(value: T)

  /** The outcome of Python code that either returns a value or lets an exception escape.
      `:-` propagates the exception, as Python does when nothing catches it. */
  datatype Outcome<T> = Returns(value: T) | Raises(error: string) {
    predicate IsFailure() { Raises? }

    function PropagateFailure<U>(): Outcome<U>
      requires Raises?
    {
      Raises(error)
    }

    function Extract(): T
      requires Returns?
    {
      value
    }
  }

  /** Extending a prefix by one element, stated once for every element type. */
  lemma TakeSnoc<T>(s: seq<T>, i: nat)
    requires i < |s|
    ensures s[..i + 1] == s[..i] + [s[i]]
  {
  }

  lemma TakeAll<T>(s: seq<T>)
    ensures s[..|s|] == s
  {
  }

  /** A sequence is its head followed by a tail that agrees with it past the head. */
  lemma ConsOfShifted<T>(s: seq<T>, tail: seq<T>)
    requires |s| == |tail| + 1
    requires forall i :: 1 <= i < |s| ==> s[i] == tail[i - 1]
    ensures s == [s[0]] + tail
  {
  }
}
