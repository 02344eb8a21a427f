/**
 * The modular arithmetic of the state simulator. JavaScript's `%` truncates
 * toward zero, so the source writes `((x % m) + m) % m` for a non-negative
 * remainder; Python's `%` and Dafny's `%` already give it for `m > 0`.
 */
module Arith {

  /** JavaScript's `x % m` for `m > 0`: the remainder carries the sign of `x`. */
  function TruncRem(x: int, m: int): (r: int)
    requires m > 0
    ensures -m < r < m
    ensures x >= 0 ==> r == x % m
    ensures x < 0 ==> r <= 0
  {
    if x >= 0 then x % m else -((-x) % m)
  }

  /** A positive multiple of `m` is at least `m`. */
  lemma {:induction false} PositiveMultiple(k: int, m: int)
    requires m > 0 && k >= 1
    ensures k * m >= m
    decreases k
  {
    if k > 1 {
      PositiveMultiple(k - 1, m);
      assert k * m == (k - 1) * m + m;
    }
  }

  /** A non-zero multiple of `m` is at least `m` away from zero. */
  lemma MultipleFarFromZero(k: int, m: int)
    requires m > 0 && k != 0
    ensures k * m >= m || k * m <= -m
  {
    if k > 0 {
      PositiveMultiple(k, m);
    } else {
      PositiveMultiple(-k, m);
      assert k * m == -((-k) * m);
    }
  }

  /** Euclidean division is unique: a quotient and an in-range remainder determine `%`. */
  lemma ModUnique(a: int, q: int, r: int, m: int)
    requires m > 0 && a == q * m + r && 0 <= r < m
    ensures a % m == r
  {
    var q' := a / m;
    var r' := a % m;
    assert a == q' * m + r';
    assert (q - q') * m == r' - r;
    if q != q' {
      MultipleFarFromZero(q - q', m);
    }
  }

  /** A remainder already in range is itself. */
  lemma ModInRange(x: int, m: int)
    requires m > 0 && 0 <= x < m
    ensures x % m == x
  {
    ModUnique(x, 0, x, m);
  }

  /** Adding a multiple of `m` does not change the remainder. */
  lemma ModAddMultiple(x: int, k: int, m: int)
    requires m > 0
    ensures (x + k * m) % m == x % m
  {
    var q := x / m;
    assert x == q * m + x % m;
    assert x + k * m == (q + k) * m + x % m;
    ModUnique(x + k * m, q + k, x % m, m);
  }

  /** The truncated remainder is congruent to `x`. */
  lemma TruncRemCongruent(x: int, m: int)
    requires m > 0
    ensures TruncRem(x, m) % m == x % m
  {
    if x < 0 {
      var y := -x;
      var q := y / m;
      assert y == q * m + y % m;
      assert -(y % m) == x + q * m;
      ModAddMultiple(x, q, m);
    }
  }

  /** `((x % m) + m) % m` as JavaScript evaluates it. */
  function JsMod(x: int, m: int): (r: int)
    requires m > 0
    ensures 0 <= r < m
    ensures r == x % m
  {
    var t := TruncRem(x, m);
    TruncRemCongruent(x, m);
    ModAddMultiple(t, 1, m);
    TruncRem(t + m, m)
  }

  /**
   * The non-negative remainder of `x` modulo `m` where `-m <= x < m`: the
   * simulator only ever reduces an orientation, or the difference of two
   * numbers below `m`, so one wrap-around step is the whole reduction.
   */
  function Wrap(x: int, m: int): (r: int)
    requires m > 0 && -m <= x < m
    ensures 0 <= r < m
  {
    if x < 0 then x + m else x
  }

  /** On its domain `Wrap` is JavaScript's `((x % m) + m) % m` and Python's `x % m`. */
  lemma WrapIsMod(x: int, m: int)
    requires m > 0 && -m <= x < m
    ensures Wrap(x, m) == JsMod(x, m) == x % m
  {
    if x < 0 {
      ModUnique(x, -1, x + m, m);
    } else {
      ModInRange(x, m);
    }
  }

  /** A number strictly between `-2m` and `2m` is a multiple of `m` exactly when it is `-m`, `0` or `m`. */
  lemma MultipleInRange(x: int, m: int)
    requires m > 0 && -2 * m < x < 2 * m
    ensures x % m == 0 <==> x == -m || x == 0 || x == m
  {
    if x == -m {
      ModUnique(x, -1, 0, m);
    } else if x == 0 {
      ModInRange(x, m);
    } else if x == m {
      ModUnique(x, 1, 0, m);
    } else if x % m == 0 {
      var q := x / m;
      assert x == q * m;
      ProductBounds(q, m);
    }
  }

  /** A multiple `q * m` with `|q| >= 2` is at least `2m` away from zero. */
  lemma ProductBounds(q: int, m: int)
    requires m > 0
    ensures q >= 2 ==> q * m >= 2 * m
    ensures q <= -2 ==> q * m <= -2 * m
  {
    if q >= 2 {
      PositiveMultiple(q - 1, m);
      assert q * m == (q - 1) * m + m;
    } else if q <= -2 {
      PositiveMultiple(-q - 1, m);
      assert q * m == -((-q - 1) * m) - m;
    }
  }
}
