/** Facts about Euclidean division that the counters of the pipeline need. */
module Arithmetic {
  lemma MulAtLeast(b: int, k: int)
    requires b > 0 && k >= 1
    ensures b * k >= b
    decreases k
  {
    if k > 1 {
      MulAtLeast(b, k - 1);
      assert b * k == b * (k - 1) + b;
    }
  }

  /** The quotient and remainder are determined by the division equation. */
  lemma DivModUnique(x: int, b: int, q: int, r: int)
    requires b > 0 && 0 <= r < b && x == b * q + r
    ensures x / b == q && x % b == r
  {
    var q0, r0 := x / b, x % b;
    assert x == b * q0 + r0;
    if q0 > q {
      assert b * (q0 - q) == b * q0 - b * q;
      MulAtLeast(b, q0 - q);
    } else if q0 < q {
      assert b * (q - q0) == b * q - b * q0;
      MulAtLeast(b, q - q0);
    }
  }

  /** Adding a multiple of `b` does not change the remainder modulo `b`. */
  lemma ModAddMultiple(r: int, b: int, m: int)
    requires b > 0
    ensures (b * m + r) % b == r % b
  {
    var q := r / b;
    assert r == b * q + r % b;
    assert b * m + r == b * (m + q) + r % b;
    DivModUnique(b * m + r, b, m + q, r % b);
  }

  /** When `b` divides `c`, reducing modulo `c` keeps the remainder modulo `b`. */
  lemma ModOfMultiple(x: int, b: int, k: int)
    requires b > 0 && k > 0
    ensures (x % (b * k)) % b == x % b
  {
    var c := b * k;
    MulAtLeast(b, k);
    var q := x / c;
    assert x == c * q + x % c;
    assert c * q == b * (k * q);
    ModAddMultiple(x % c, b, k * q);
  }

  /** The quotient grows by one exactly at a multiple of `b`. */
  lemma DivStep(x: int, b: int)
    requires x >= 1 && b > 0
    ensures x / b == (x - 1) / b + (if x % b == 0 then 1 else 0)
  {
    var q, r := (x - 1) / b, (x - 1) % b;
    assert x - 1 == b * q + r && 0 <= r < b;
    if r == b - 1 {
      assert x == b * (q + 1) + 0;
      DivModUnique(x, b, q + 1, 0);
    } else {
      assert x == b * q + (r + 1) && 0 <= r + 1 < b;
      DivModUnique(x, b, q, r + 1);
    }
  }

  /** The successor either wraps to 0 or has the next remainder. */
  lemma ModSucc(p: int, b: int)
    requires b != 0
    ensures (p + 1) % b == 0 || (p + 1) % b == p % b + 1
  {
    var c := if b > 0 then b else -b;
    var q := p / b;
    var r := p % b;
    assert p == b * q + r && 0 <= r < c;
    if r + 1 < c {
      assert p + 1 == c * (if b > 0 then q else -q) + (r + 1);
      assert b * q == c * (if b > 0 then q else -q);
      DivModUnique(p + 1, c, if b > 0 then q else -q, r + 1);
      if b < 0 { ModAbs(p + 1, b); }
    } else {
      assert p + 1 == c * ((if b > 0 then q else -q) + 1);
      DivModUnique(p + 1, c, (if b > 0 then q else -q) + 1, 0);
      if b < 0 { ModAbs(p + 1, b); }
    }
  }

  /** Euclidean remainders do not depend on the sign of the divisor. */
  lemma ModAbs(x: int, b: int)
    requires b < 0
    ensures x % b == x % (-b)
  {
    var q, r := x / b, x % b;
    assert x == b * q + r && 0 <= r < -b;
    assert b * q == (-b) * (-q);
    DivModUnique(x, -b, -q, r);
  }

  /** A multiple of 90 reduced modulo 360 is one of the four quarter turns,
      and differs from the original by a multiple of 360. */
  lemma QuarterTurn(x: int)
    requires x % 90 == 0
    ensures x % 360 in {0, 90, 180, 270}
    ensures (x - x % 360) % 360 == 0
  {
    var v := x % 360;
    ModOfMultiple(x, 90, 4);
    var q := v / 90;
    assert v == 90 * q + v % 90;
    assert v == 90 * q;
    assert 0 <= q < 4;
    assert x == 360 * (x / 360) + v;
    ModAddMultiple(0, 360, x / 360);
  }
}
