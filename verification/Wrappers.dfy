/** The optional field every record of the engine uses: present or absent. */
module Wrappers {
  datatype Option<+T> = None | Some(value: T) {
    /** The value, or `default` when the field is absent. */
    function GetOr(default: T): T {
      match this
      case Some(v) => v
      case None => default
    }
  }

  /** The first index of `x` at or after `from`, or -1. */
  function IndexOf<T(==)>(s: seq<T>, x: T, from: nat): (r: int)
    ensures r == -1 || (from <= r < |s| && s[r] == x && forall i | from <= i < r :: s[i] != x)
    ensures r == -1 ==> forall i | from <= i < |s| :: s[i] != x
    decreases |s| - from
  {
    if from >= |s| then -1 else if s[from] == x then from else IndexOf(s, x, from + 1)
  }
}
