/** Python's `random` module, reduced to the values its calls return.
    A draw is an explicit parameter; nothing here models a distribution. */
module Rand {
  /** A value `random.random()` can return. */
  type Unit = r: real | 0.0 <= r < 1.0

  /** The index a uniform draw `u` selects among `n` choices: what
      `random.choice` on a list of length `n` picks. */
  function Below(u: Unit, n: nat): (i: nat)
    requires 0 < n
    ensures i < n
  {
    var x := u * n as real;
    assert x < n as real;
    x.Floor
  }

  /** `random.randint(a, b)` driven by the draw `u`; Python raises ValueError
      when `a > b`, which callers check before calling. */
  function RandInt(u: Unit, a: int, b: int): (k: int)
    requires a <= b
    ensures a <= k <= b
  {
    a + Below(u, b - a + 1)
  }

  /** No outcome of `randint(a, b)` is lost: the draw `(k - a) / (b - a + 1)`
      yields exactly `k`. */
  lemma RandIntOnto(a: int, b: int, k: int)
    requires a <= k <= b
    ensures var u := (k - a) as real / (b - a + 1) as real;
      0.0 <= u < 1.0 && RandInt(u, a, b) == k
  {
    var n := b - a + 1;
    var u := (k - a) as real / n as real;
    assert u * n as real == (k - a) as real;
  }
}
