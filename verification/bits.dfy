/** Integer views of the C bit operations used by the transform:
    powers of two (`1 << k`), arithmetic right shift, single bits and `&`. */
module Bits {

  /** `1 << k`, unbounded. */
  function Pow2(k: nat): (r: nat)
    ensures r >= 1
  {
    if k == 0 then 1 else 2 * Pow2(k - 1)
  }

  /** `n >> k` on a C `int` with an arithmetic shift: floor division by 2, `k` times.
      Dafny's `/` by 2 is floor division, so negative `n` are covered too. */
  function Shr(n: int, k: nat): int
    decreases k
  {
    if k == 0 then n else Shr(n / 2, k - 1)
  }

  /** Bit `k` of `n` in two's complement: `(n >> k) & 1`. */
  predicate Bit(n: int, k: nat)
  {
    Shr(n, k) % 2 == 1
  }

  /** `a & b` on non-negative integers, built from the lowest bit up. */
  function And(a: nat, b: nat): (r: nat)
    ensures r <= a && r <= b
  {
    if a == 0 || b == 0 then 0
    else 2 * And(a / 2, b / 2) + (if a % 2 == 1 && b % 2 == 1 then 1 else 0)
  }

  /** Appending bit `b` below `r` (`(r << 1) | b`) puts `b` at bit 0 and moves every bit of `r` up by one. */
  lemma {:induction false} BitOfShifted(r: int, b: int, i: nat)
    requires b == 0 || b == 1
    ensures Bit(2 * r + b, 0) <==> b == 1
    ensures Bit(2 * r + b, i + 1) <==> Bit(r, i)
  {
    assert (2 * r + b) / 2 == r;
  }

  /** The bits of `n` above bit 0 are the bits of `n / 2`. */
  lemma {:induction false} BitOfHalf(n: int, i: nat)
    ensures Bit(n, i + 1) <==> Bit(n / 2, i)
  {
  }

  /** Two numbers in `[0, 2^k)` with the same low `k` bits are equal. */
  lemma {:induction false} BitsDetermine(a: int, b: int, k: nat)
    requires 0 <= a < Pow2(k) && 0 <= b < Pow2(k)
    requires forall j :: 0 <= j < k ==> (Bit(a, j) <==> Bit(b, j))
    ensures a == b
  {
    if k > 0 {
      forall j | 0 <= j < k - 1
        ensures Bit(a / 2, j) <==> Bit(b / 2, j)
      {
        BitOfHalf(a, j);
        BitOfHalf(b, j);
      }
      BitsDetermine(a / 2, b / 2, k - 1);
      assert Bit(a, 0) <==> Bit(b, 0);
    }
  }

  /** A set bit `d` makes a non-negative `n` at least `2^d`. */
  lemma {:induction false} BitSetLowerBound(n: int, d: nat)
    requires 0 <= n
    requires Bit(n, d)
    ensures n >= Pow2(d)
  {
    if d > 0 {
      BitSetLowerBound(n / 2, d - 1);
    }
  }

  /** A clear bit `d < L` of `n < 2^L` leaves room to add `2^d` without leaving `[0, 2^L)`. */
  lemma {:induction false} BitClearRoom(n: int, d: nat, L: nat)
    requires 0 <= n < Pow2(L)
    requires d < L
    requires !Bit(n, d)
    ensures n + Pow2(d) < Pow2(L)
  {
    var h := Pow2(L - 1);
    assert Pow2(L) == 2 * h;
    if d == 0 {
      assert n % 2 == 0;
    } else {
      assert Shr(n, d) == Shr(n / 2, d - 1);
      assert n / 2 < h;
      BitClearRoom(n / 2, d - 1, L - 1);
      assert Pow2(d) == 2 * Pow2(d - 1);
    }
  }

  /** Shifting right by `j <= k` divides a multiple of `2^k` exactly. */
  lemma {:induction false} ShrAddMultiple(a: int, c: int, k: nat, j: nat)
    requires j <= k
    ensures Shr(a + c * Pow2(k), j) == Shr(a, j) + c * Pow2(k - j)
    decreases j
  {
    if j > 0 {
      var q := c * Pow2(k - 1);
      assert c * Pow2(k) == 2 * q by {
        assert Pow2(k) == 2 * Pow2(k - 1);
      }
      calc {
        Shr(a + c * Pow2(k), j);
        Shr((a + 2 * q) / 2, j - 1);
        { assert (a + 2 * q) / 2 == a / 2 + q; }
        Shr(a / 2 + q, j - 1);
        { ShrAddMultiple(a / 2, c, k - 1, j - 1); }
        Shr(a / 2, j - 1) + c * Pow2(k - 1 - (j - 1));
        { assert k - 1 - (j - 1) == k - j; }
        Shr(a, j) + c * Pow2(k - j);
      }
    }
  }

  /** Adding or subtracting `2^d` flips bit `d` of `a` and keeps every bit below it. */
  lemma {:induction false} ToggleBit(a: int, d: nat, c: int)
    requires c == 1 || c == -1
    ensures Bit(a + c * Pow2(d), d) <==> !Bit(a, d)
    ensures forall j :: 0 <= j < d ==> (Bit(a + c * Pow2(d), j) <==> Bit(a, j))
  {
    ShrAddMultiple(a, c, d, d);
    forall j | 0 <= j < d
      ensures Bit(a + c * Pow2(d), j) <==> Bit(a, j)
    {
      ShrAddMultiple(a, c, d, j);
      assert c * Pow2(d - j) == 2 * (c * Pow2(d - j - 1));
    }
  }

  /** One more right shift halves once more. */
  lemma {:induction false} ShrSucc(n: int, k: nat)
    ensures Shr(n, k + 1) == Shr(n, k) / 2
    decreases k
  {
    if k > 0 {
      ShrSucc(n / 2, k - 1);
    }
  }

  /** `n & (1 << d)` is non-zero exactly when bit `d` of `n` is set. */
  lemma {:induction false} AndPow2(n: nat, d: nat)
    ensures And(n, Pow2(d)) == if Bit(n, d) then Pow2(d) else 0
  {
    if d == 0 {
    } else if n == 0 {
      ShrZero(d);
    } else {
      AndPow2(n / 2, d - 1);
      assert Pow2(d) / 2 == Pow2(d - 1);
    }
  }

  lemma {:induction false} ShrZero(k: nat)
    ensures Shr(0, k) == 0
  {
    if k > 0 {
      ShrZero(k - 1);
    }
  }

  /** `n & ((1 << d) - 1)` is `n mod 2^d`. */
  lemma {:induction false} AndMask(n: nat, d: nat)
    ensures And(n, Pow2(d) - 1) == n % Pow2(d)
  {
    if d == 0 {
      assert Pow2(d) == 1;
      assert n % 1 == 0;
    } else {
      AndMask(n / 2, d - 1);
      AndMaskStep(n, Pow2(d - 1));
    }
  }

  /** One step of `AndMask`: the mask `2p - 1` keeps bit 0 and masks `n / 2` with `p - 1`. */
  lemma {:induction false} AndMaskStep(n: nat, p: nat)
    requires p >= 1
    requires And(n / 2, p - 1) == (n / 2) % p
    ensures And(n, 2 * p - 1) == n % (2 * p)
  {
    var mask := 2 * p - 1;
    assert mask / 2 == p - 1 && mask % 2 == 1 by {
      assert mask == 2 * (p - 1) + 1;
    }
    if n > 0 {
      assert And(n, mask) == 2 * And(n / 2, p - 1) + n % 2;
    }
    ModOfDouble(n, p);
  }

  /** `n mod 2p` splits into the low bit and `(n / 2) mod p`. */
  lemma {:induction false} ModOfDouble(n: nat, p: nat)
    requires p > 0
    ensures n % (2 * p) == 2 * ((n / 2) % p) + n % 2
  {
    var q := n / 2;
    var k := q / p;
    var r := 2 * (q % p) + n % 2;
    assert n == (2 * p) * k + r;
    DivModUnique(n, 2 * p, k, r);
  }

  lemma {:induction false} DivModUnique(n: int, d: int, k: int, r: int)
    requires d > 0
    requires n == d * k + r && 0 <= r < d
    ensures n / d == k && n % d == r
  {
    var k' := n / d;
    var r' := n % d;
    assert d * k' + r' == d * k + r;
    assert d * (k' - k) == r - r';
    if k' > k {
      MulAtLeast(d, k' - k);
    } else if k' < k {
      MulAtLeast(d, k - k');
    }
  }

  lemma {:induction false} MulAtLeast(d: int, t: int)
    requires d > 0 && t >= 1
    ensures d * t >= d
  {
    assert d * t == d + d * (t - 1);
  }
}
