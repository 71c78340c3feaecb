/** An optional value: stands for a JavaScript property or variable that may be `undefined`. */
module Optional {

  datatype Option<+T> = None | Some(value: T) {

    /** The value, or `default` when it is absent. */
    function GetOr(default: T): T {
      match this
      case Some(v) => v
      case None => default
    }

    /** The value as a one-element sequence, or the empty sequence. */
    function ToSeq(): seq<T> {
      if Some? then [value] else []
    }
  }
}

/** Sequences built from one repeated element: the ticks of a timer. */
module Repeats {

  function Repeat<T>(k: nat, x: T): (xs: seq<T>)
    ensures |xs| == k && forall i :: 0 <= i < k ==> xs[i] == x
  {
    seq(k, _ => x)
  }

  /** `k` repetitions are `j` of them followed by the other `k - j`. */
  lemma RepeatSplit<T>(k: nat, j: nat, x: T)
    requires j <= k
    ensures Repeat(j, x) + Repeat(k - j, x) == Repeat(k, x)
  {
  }
}
