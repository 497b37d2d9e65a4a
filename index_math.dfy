/**
 * Integer helpers: Rust's `%` on signed integers (which truncates toward zero,
 * unlike Dafny's Euclidean `%`) and `abs`, used by the wave screen, and the
 * expression of `wrap` in background.rs, which nothing there calls and which
 * main.rs repeats inline for the screen index.
 */
module IndexMath {

  function Abs(a: int): (r: nat)
    ensures r == a || r == -a
  {
    if a < 0 then -a else a
  }

  /** Rust's `a % m` for a positive divisor: the remainder takes the sign of `a`. */
  function RemT(a: int, m: int): (r: int)
    requires m > 0
    ensures -m < r < m
    ensures a >= 0 ==> r == a % m
    ensures a < 0 ==> r == -((-a) % m)
  {
    if a >= 0 then a % m else -((-a) % m)
  }

  /**
   * `((value as isize + delta) % ilen + ilen) as usize % size`: the index
   * `delta` steps away from `value` on a ring of `size` slots. It is the
   * mathematical (Euclidean) remainder of `value + delta`, whatever the sign
   * of `delta`.
   */
  function Wrap(value: nat, delta: int, size: nat): (r: nat)
    requires size > 0
    ensures r < size
    ensures r == (value + delta) % size
  {
    var a := value + delta;
    if a >= 0 then
      ModUnique(a % size + size, size, 1, a % size);
      (RemT(a, size) + size) % size
    else
      ModOfNegation(-a, size);
      assert RemT(a, size) + size == size - (-a) % size;
      (RemT(a, size) + size) % size
  }

  /** The remainder of `-b` is the complement of the remainder of `b`. */
  lemma ModOfNegation(b: int, m: int)
    requires m > 0
    ensures (-b) % m == (m - b % m) % m
  {
    var q, s := b / m, b % m;
    assert b == q * m + s;
    if s == 0 {
      ModUnique(-b, m, -q, 0);
      ModUnique(m, m, 1, 0);
    } else {
      ModUnique(-b, m, -q - 1, m - s);
      ModUnique(m - s, m, 0, m - s);
    }
  }

  /** The remainder of `a + 1` is the next remainder round the ring. */
  lemma ModSucc(a: int, m: int)
    requires m > 0
    ensures (a + 1) % m == if a % m + 1 == m then 0 else a % m + 1
  {
    var q := a / m;
    assert a == q * m + a % m;
    if a % m + 1 == m {
      assert (q + 1) * m == q * m + m;
      ModUnique(a + 1, m, q + 1, 0);
    } else {
      ModUnique(a + 1, m, q, a % m + 1);
    }
  }

  /** `a / m` and `a % m` are the `k` and `x` of any decomposition `a == k * m + x` with `0 <= x < m`. */
  lemma ModUnique(a: int, m: int, k: int, x: int)
    requires m > 0 && 0 <= x < m && a == k * m + x
    ensures a % m == x && a / m == k
  {
    var d := k - a / m;
    assert d * m == a % m - x;
  }
}
