/** Python list slicing `s[:k]` and `s[k:]` with an integer bound `k`. */
module Slices {
  /** The position Python clamps a slice bound `k` to in a list of length `n`:
      a negative bound counts from the end, and the result lies in 0..n. */
  function Bound(n: nat, k: int): (i: nat)
    ensures i <= n
  {
    if k < 0 then (if n + k < 0 then 0 else n + k)
    else if k > n then n
    else k
  }

  /** `s[:k]` */
  function Take<T>(s: seq<T>, k: int): seq<T> {
    s[..Bound(|s|, k)]
  }

  /** `s[k:]` */
  function Drop<T>(s: seq<T>, k: int): seq<T> {
    s[Bound(|s|, k)..]
  }

  lemma TakeDrop<T>(s: seq<T>, k: int)
    ensures Take(s, k) + Drop(s, k) == s
  {
  }
}
