/** Shared vocabulary of the model. */
module Common {

  /** A value that may be absent: Python's `X | None`. */
  datatype Option<+T> = None | Some(value: T)

  function Max(x: int, y: int): (r: int)
    ensures x <= r && y <= r && (r == x || r == y)
  {
    if x < y then y else x
  }

  function MinReal(x: real, y: real): real {
    if y < x then y else x
  }

  function MaxReal(x: real, y: real): real {
    if y > x then y else x
  }

  lemma SuffixOfSuffix<T>(s: seq<T>, i: nat, j: nat)
    requires i + j <= |s|
    ensures s[i..][j..] == s[i + j..]
  {
  }

  /** `list.reverse()`. */
  function Reverse<T>(s: seq<T>): (r: seq<T>)
    ensures |r| == |s|
    ensures forall i :: 0 <= i < |s| ==> r[i] == s[|s| - 1 - i]
  {
    seq(|s|, i requires 0 <= i < |s| => s[|s| - 1 - i])
  }
}
