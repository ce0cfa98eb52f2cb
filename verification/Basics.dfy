/** What several parts of the model share. */
module Basics {

  datatype Option<+T> = None | Some(value: T)

  ghost predicate NoDuplicates<T(!new)>(s: seq<T>) {
    forall i, j :: 0 <= i < j < |s| ==> s[i] != s[j]
  }

  function Reversed<T>(s: seq<T>): (r: seq<T>)
    ensures |r| == |s|
  {
    if s == [] then [] else Reversed(s[1..]) + [s[0]]
  }

  /** `r` is `s` from the back to the front. */
  ghost predicate IsReverse<T>(r: seq<T>, s: seq<T>) {
    |r| == |s| && forall i :: 0 <= i < |s| ==> r[i] == s[|s| - 1 - i]
  }

  lemma {:induction false} ReversedIsReverse<T>(s: seq<T>)
    ensures IsReverse(Reversed(s), s)
  {
    if s != [] {
      ReversedIsReverse(s[1..]);
    }
  }

  /** The buffer holds a C string of length `len`: no NUL before the one at `len`. */
  ghost predicate HoldsCString(buffer: array<char>, len: nat)
    reads buffer
  {
    len < buffer.Length && buffer[len] == '\0' && forall i :: 0 <= i < len ==> buffer[i] != '\0'
  }
}
