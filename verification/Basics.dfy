module Basics {

  datatype Option<+T> = None | Some(value: T)

  datatype Result<+T, +E> = Ok(value: T) | Err(error: E)

  /** Position of the first element that satisfies `p`, or the length. */
  function FirstWhere<T>(items: seq<T>, p: T -> bool): (k: nat)
    ensures k <= |items| && (k < |items| ==> p(items[k])) && forall i :: 0 <= i < k ==> !p(items[i])
  {
    if |items| == 0 || p(items[0]) then 0 else 1 + FirstWhere(items[1..], p)
  }

  type Uuid = nat

  /** Milliseconds since the epoch. */
  type Millis = int
}
