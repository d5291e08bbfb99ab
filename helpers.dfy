/**
 * The modular-index primitive of src/helpers.js (the same expression is
 * repeated at the top of src/scrollImagesInfinite.js):
 *   mod(n, m) = ((n % m) + m) % m
 * where JavaScript's `%` truncates toward zero, so its remainder takes the
 * sign of the dividend. Dafny's own `%` is Euclidean, so the JavaScript
 * operator is written out as JsRem.
 */
module Helpers {

  function Abs(x: int): (r: int)
    ensures r >= 0 && (r == x || r == -x)
  {
    if x < 0 then -x else x
  }

  /** JavaScript's `a % b` on integral numbers: truncated division remainder. */
  function JsRem(a: int, b: int): (r: int)
    requires b != 0
    ensures a >= 0 ==> 0 <= r < Abs(b)
    ensures a < 0 ==> -Abs(b) < r <= 0
    ensures (a - r) % b == 0
  {
    var d := Abs(b);
    if a >= 0 then
      var r := a % d;
      MultipleOfAbs(a - r, a / d, b);
      r
    else
      var r := (-a) % d;
      MultipleOfAbs(-a - r, (-a) / d, b);
      assert a - (-r) == -(-a - r);
      -r
  }

  /** A multiple of |b| is a multiple of b. */
  lemma MultipleOfAbs(x: int, k: int, b: int)
    requires b != 0 && x == k * Abs(b)
    ensures x % b == 0 && (-x) % b == 0
  {
    var q := if b < 0 then -k else k;
    assert x == q * b;
    MultipleMod(q, b);
    MultipleMod(-q, b);
    assert -x == (-q) * b;
  }

  lemma MultipleMod(q: int, b: int)
    requires b != 0
    ensures (q * b) % b == 0
  {
    var x := q * b;
    // Euclidean division is unique: x == q * b + 0 with 0 <= 0 < |b|
    var d, r := x / b, x % b;
    assert x == d * b + r && 0 <= r < Abs(b);
    assert (q - d) * b == r;
    if q - d != 0 {
      AbsMulAtLeast(q - d, b);
      assert false;
    }
  }

  lemma AbsMulAtLeast(k: int, b: int)
    requires k != 0 && b != 0
    ensures Abs(k * b) >= Abs(b)
  {
    var p, d := Abs(k), Abs(b);
    AbsOfProduct(k, b);
    MulAtLeast(p, d);
  }

  lemma AbsOfProduct(k: int, b: int)
    ensures Abs(k * b) == Abs(k) * Abs(b)
  {
    if k < 0 && b >= 0 {
      assert k * b == -((-k) * b);
    } else if k >= 0 && b < 0 {
      assert k * b == -(k * (-b));
    } else if k < 0 && b < 0 {
      assert k * b == (-k) * (-b);
    }
  }

  lemma {:induction false} MulAtLeast(p: int, d: int)
    requires p >= 1 && d >= 0
    ensures p * d >= d
  {
    if p > 1 {
      MulAtLeast(p - 1, d);
      assert p * d == (p - 1) * d + d;
    }
  }

  /**
   * mod(n, m): the remainder of n modulo m that has the sign of m, for
   * negative n as well. m == 0 yields NaN in JavaScript and is excluded.
   */
  function Mod(n: int, m: int): (r: int)
    requires m != 0
    ensures m > 0 ==> 0 <= r < m
    ensures m < 0 ==> m < r <= 0
    ensures (r - n) % m == 0
  {
    var inner := JsRem(n, m);
    var r := JsRem(inner + m, m);
    CongruenceChain(n, inner, r, m);
    r
  }

  lemma CongruenceChain(n: int, inner: int, r: int, m: int)
    requires m != 0
    requires (n - inner) % m == 0
    requires (inner + m - r) % m == 0
    ensures (r - n) % m == 0
  {
    var a, b := (n - inner) / m, (inner + m - r) / m;
    assert n - inner == a * m;
    assert inner + m - r == b * m;
    assert r - n == (1 - a - b) * m;
    MultipleMod(1 - a - b, m);
  }

  /** For a positive modulus, mod agrees with Euclidean remainder. */
  lemma ModIsEuclidean(n: int, m: int)
    requires m > 0
    ensures Mod(n, m) == n % m
  {
    var r := Mod(n, m);
    var e := n % m;
    var q1, q2 := (r - n) / m, n / m;
    DivMod(r - n, m);
    DivMod(n, m);
    Distribute(q1, q2, m);
    if q1 + q2 != 0 {
      AbsMulAtLeast(q1 + q2, m);
      assert false;
    }
  }

  /** An index already inside [0, m) is returned unchanged. */
  lemma ModOfIndex(n: int, m: int)
    requires 0 <= n < m
    ensures Mod(n, m) == n
  {
    ModIsEuclidean(n, m);
    EuclideanUnique(n, 0, n, m);
  }

  /** Reducing twice is the same as reducing once. */
  lemma ModIdempotent(n: int, m: int)
    requires m > 0
    ensures Mod(Mod(n, m), m) == Mod(n, m)
  {
    ModOfIndex(Mod(n, m), m);
  }

  /** Stepping back from index 0 wraps to the last index. */
  lemma ModOfMinusOne(m: int)
    requires m > 0
    ensures Mod(-1, m) == m - 1
  {
    ModIsEuclidean(-1, m);
    EuclideanUnique(-1, -1, m - 1, m);
  }

  /** Adding a whole number of periods does not change the result. */
  lemma {:induction false} ModPeriodic(n: int, k: int, m: int)
    requires m > 0
    ensures Mod(n + k * m, m) == Mod(n, m)
  {
    ModIsEuclidean(n + k * m, m);
    ModIsEuclidean(n, m);
    var q, r := n / m, n % m;
    DivMod(n, m);
    Distribute(q, k, m);
    EuclideanUnique(n + k * m, q + k, r, m);
  }

  lemma DivMod(n: int, m: int)
    requires m != 0
    ensures n == (n / m) * m + n % m
  {
  }

  lemma Distribute(a: int, b: int, m: int)
    ensures (a + b) * m == a * m + b * m
  {
  }

  lemma EuclideanUnique(x: int, q: int, r: int, m: int)
    requires m > 0 && 0 <= r < m && x == q * m + r
    ensures x % m == r
  {
    var d, e := x / m, x % m;
    assert (q - d) * m == e - r;
    if q - d != 0 {
      AbsMulAtLeast(q - d, m);
      assert false;
    }
  }
}
