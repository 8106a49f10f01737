/** Model of fft.c: `bit_reverse`, the recursive butterfly `_fft` and the
    range-checked entry point `fft`, over exact complex numbers with the
    twiddle factor `cexp(...)` left uninterpreted. */
module Fft {
  import opened Bits
  import opened Results

  /** An exact complex number standing in for C99 `complex` (of `double`). */
  datatype Complex = Complex(re: real, im: real)

  const Zero := Complex(0.0, 0.0)

  /** A real sample read as a complex value (`*(data + n)` returned as `complex`). */
  function FromReal(x: real): Complex {
    Complex(x, 0.0)
  }

  function Add(a: Complex, b: Complex): Complex {
    Complex(a.re + b.re, a.im + b.im)
  }

  function Sub(a: Complex, b: Complex): Complex {
    Complex(a.re - b.re, a.im - b.im)
  }

  function Mul(a: Complex, b: Complex): Complex {
    Complex(a.re * b.re - a.im * b.im, a.re * b.im + a.im * b.re)
  }

  function Scale(c: real, a: Complex): Complex {
    Complex(c * a.re, c * a.im)
  }

  /** The twiddle factor `cexp(-2 PI I k / m2)`, uninterpreted: it receives the
      numerator `k` (`n & (m - 1)`) and the denominator `m2`. */
  type Twiddle = (nat, nat) -> Complex

  datatype FftError = InvalidIndex(n: int)

  /** `bit_reverse(n, log2n)`: after `k` rounds of the loop the result holds the
      low `k` bits of `n` in reverse order. */
  function BitReverse(n: int, log2n: nat): (r: int)
    ensures 0 <= r < Pow2(log2n)
  {
    if log2n == 0 then 0
    else 2 * BitReverse(n, log2n - 1) + (if Bit(n, log2n - 1) then 1 else 0)
  }

  /** The loop of `bit_reverse` as written: take the low bit of `n`, shift the
      result left, or the bit in, shift `n` right. */
  method BitReverseLoop(n: int, log2n: nat) returns (result: int)
    ensures result == BitReverse(n, log2n)
  {
    result := 0;
    var rest := n;
    var j := 0;
    while j < log2n
      invariant 0 <= j <= log2n
      invariant rest == Shr(n, j)
      invariant result == BitReverse(n, j)
    {
      var tmp := rest % 2;        // n & 1
      result := result * 2;       // result <<= 1
      result := result + tmp;     // result |= tmp, the low bit being 0 after the shift
      ShrSucc(n, j);
      rest := rest / 2;           // n >>= 1
      j := j + 1;
    }
  }

  /** Bit `j` of the reversal is bit `log2n - 1 - j` of `n`. */
  lemma {:induction false} BitReverseBits(n: int, log2n: nat)
    ensures forall j :: 0 <= j < log2n ==> (Bit(BitReverse(n, log2n), j) <==> Bit(n, log2n - 1 - j))
  {
    if log2n > 0 {
      BitReverseBits(n, log2n - 1);
      var r := BitReverse(n, log2n - 1);
      var b := if Bit(n, log2n - 1) then 1 else 0;
      assert BitReverse(n, log2n) == 2 * r + b;
      forall j | 0 <= j < log2n
        ensures Bit(BitReverse(n, log2n), j) <==> Bit(n, log2n - 1 - j)
      {
        BitOfShifted(r, b, 0);
        if j > 0 {
          BitOfShifted(r, b, j - 1);
        }
      }
    }
  }

  /** Only the low `log2n` bits of `n` matter. */
  lemma {:induction false} BitReverseLowBitsOnly(n: int, n': int, log2n: nat)
    requires forall j :: 0 <= j < log2n ==> (Bit(n, j) <==> Bit(n', j))
    ensures BitReverse(n, log2n) == BitReverse(n', log2n)
  {
    if log2n > 0 {
      BitReverseLowBitsOnly(n, n', log2n - 1);
    }
  }

  /** Adding any multiple of `2^log2n` (bits at or above `log2n`) does not change the reversal. */
  lemma {:induction false} BitReverseIgnoresHighBits(n: int, c: int, log2n: nat)
    ensures BitReverse(n + c * Pow2(log2n), log2n) == BitReverse(n, log2n)
  {
    forall j | 0 <= j < log2n
      ensures Bit(n + c * Pow2(log2n), j) <==> Bit(n, j)
    {
      ShrAddMultiple(n, c, log2n, j);
      assert c * Pow2(log2n - j) == 2 * (c * Pow2(log2n - j - 1));
    }
    BitReverseLowBitsOnly(n + c * Pow2(log2n), n, log2n);
  }

  /** Reversing twice gives back every index in `[0, 2^log2n)`. */
  lemma {:induction false} BitReverseInvolution(n: int, log2n: nat)
    requires 0 <= n < Pow2(log2n)
    ensures BitReverse(BitReverse(n, log2n), log2n) == n
  {
    var r := BitReverse(n, log2n);
    BitReverseBits(n, log2n);
    BitReverseBits(r, log2n);
    BitsDetermine(BitReverse(r, log2n), n, log2n);
  }

  /** The worked example of the comment: 110 reversed over three bits is 011. */
  lemma {:induction false} BitReverseExample()
    ensures BitReverse(6, 3) == 3
  {
    assert Shr(6, 2) == 1 && Shr(6, 1) == 3;
  }

  /** `_fft(n, depth, log2n, data)`: at the last stage the sample itself;
      otherwise, with `m = 2^depth`, the twiddled difference of the partner
      pair when bit `m` of `n` is set and the sum of the pair when it is clear.
      The C tests `n & m` and passes `n & (m - 1)` to the twiddle; `AndPow2`
      and `TwiddleFraction` show these are bit `depth` of `n` and `n % m`. */
  function Butterfly(data: seq<real>, log2n: nat, n: nat, depth: nat, w: Twiddle): Complex
    requires |data| == Pow2(log2n)
    requires n < Pow2(log2n) && depth <= log2n
    decreases log2n - depth
  {
    if depth == log2n then FromReal(data[n])
    else
      var m := Pow2(depth);
      var m2 := 2 * m;
      if Bit(n, depth) then
        BitSetLowerBound(n, depth);
        Mul(w(n % m, m2),
            Sub(Butterfly(data, log2n, n - m, depth + 1, w), Butterfly(data, log2n, n, depth + 1, w)))
      else
        BitClearRoom(n, depth, log2n);
        Add(Butterfly(data, log2n, n, depth + 1, w), Butterfly(data, log2n, n + m, depth + 1, w))
  }

  /** The indices the base cases of `Butterfly(_, log2n, n, depth, _)` read, in call order. */
  function Reads(log2n: nat, n: nat, depth: nat): (r: seq<int>)
    requires n < Pow2(log2n) && depth <= log2n
    ensures |r| == Pow2(log2n - depth)
    ensures forall i :: 0 <= i < |r| ==> 0 <= r[i] < Pow2(log2n)
    decreases log2n - depth
  {
    if depth == log2n then [n]
    else
      var m := Pow2(depth);
      if Bit(n, depth) then
        BitSetLowerBound(n, depth);
        Reads(log2n, n - m, depth + 1) + Reads(log2n, n, depth + 1)
      else
        BitClearRoom(n, depth, log2n);
        Reads(log2n, n, depth + 1) + Reads(log2n, n + m, depth + 1)
  }

  /** One stage of the recursion: the partner pair `(lo, hi)` differs from `n`
      only in bit `depth`, clear in `lo` and set in `hi`; the reads of the stage
      are those of `lo` followed by those of `hi`. */
  lemma {:induction false} Partners(log2n: nat, n: nat, depth: nat) returns (lo: nat, hi: nat)
    requires n < Pow2(log2n) && depth < log2n
    ensures lo < Pow2(log2n) && hi < Pow2(log2n)
    ensures !Bit(lo, depth) && Bit(hi, depth)
    ensures forall j :: 0 <= j < depth ==> (Bit(lo, j) <==> Bit(n, j)) && (Bit(hi, j) <==> Bit(n, j))
    ensures Bit(n, depth) ==> lo == n - Pow2(depth) && hi == n
    ensures !Bit(n, depth) ==> lo == n && hi == n + Pow2(depth)
    ensures Reads(log2n, n, depth) == Reads(log2n, lo, depth + 1) + Reads(log2n, hi, depth + 1)
  {
    var m := Pow2(depth);
    if Bit(n, depth) {
      BitSetLowerBound(n, depth);
      ToggleBit(n, depth, -1);
      lo, hi := n - m, n;
    } else {
      BitClearRoom(n, depth, log2n);
      ToggleBit(n, depth, 1);
      lo, hi := n, n + m;
    }
  }

  /** One stage of `Butterfly` on the partner pair. */
  lemma {:induction false} Split(data: seq<real>, log2n: nat, n: nat, depth: nat, w: Twiddle) returns (lo: nat, hi: nat)
    requires |data| == Pow2(log2n)
    requires n < Pow2(log2n) && depth < log2n
    ensures lo < Pow2(log2n) && hi < Pow2(log2n)
    ensures Bit(n, depth) ==> lo == n - Pow2(depth) && hi == n
    ensures !Bit(n, depth) ==> lo == n && hi == n + Pow2(depth)
    ensures Reads(log2n, n, depth) == Reads(log2n, lo, depth + 1) + Reads(log2n, hi, depth + 1)
    ensures Butterfly(data, log2n, n, depth, w)
         == if Bit(n, depth)
            then Mul(w(n % Pow2(depth), 2 * Pow2(depth)), Sub(Butterfly(data, log2n, lo, depth + 1, w), Butterfly(data, log2n, hi, depth + 1, w)))
            else Add(Butterfly(data, log2n, lo, depth + 1, w), Butterfly(data, log2n, hi, depth + 1, w))
  {
    lo, hi := Partners(log2n, n, depth);
  }

  /** How many times the base cases below `(n, depth)` read index `x`. */
  ghost function Hits(log2n: nat, n: nat, depth: nat, x: int): nat
    requires n < Pow2(log2n) && depth <= log2n
  {
    multiset(Reads(log2n, n, depth))[x]
  }

  /** `x` agrees with `n` on every bit below `d`. */
  ghost predicate AgreeBelow(x: int, n: int, d: nat) {
    forall j :: 0 <= j < d ==> (Bit(x, j) <==> Bit(n, j))
  }

  lemma {:induction false} AgreeSplit(x: int, n: int, lo: int, hi: int, d: nat)
    requires !Bit(lo, d) && Bit(hi, d)
    requires forall j :: 0 <= j < d ==> (Bit(lo, j) <==> Bit(n, j)) && (Bit(hi, j) <==> Bit(n, j))
    ensures AgreeBelow(x, lo, d + 1) <==> AgreeBelow(x, n, d) && !Bit(x, d)
    ensures AgreeBelow(x, hi, d + 1) <==> AgreeBelow(x, n, d) && Bit(x, d)
  {
  }

  /** The last stage reads only its own index, the one index agreeing with it on all bits. */
  lemma {:induction false} ReadsAtLeaf(log2n: nat, n: nat)
    requires n < Pow2(log2n)
    ensures ReadsOnce(log2n, n, log2n)
  {
    forall x | 0 <= x < Pow2(log2n)
      ensures Hits(log2n, n, log2n, x) == if AgreeBelow(x, n, log2n) then 1 else 0
    {
      assert Reads(log2n, n, log2n) == [n];
      if AgreeBelow(x, n, log2n) {
        BitsDetermine(x, n, log2n);
      }
    }
  }

  /** Stage `depth` of `n` reads exactly the indices that agree with `n` below
      bit `depth`, each of them exactly once. */
  ghost predicate ReadsOnce(log2n: nat, n: nat, depth: nat)
    requires n < Pow2(log2n) && depth <= log2n
  {
    forall x :: 0 <= x < Pow2(log2n) ==>
      Hits(log2n, n, depth, x) == if AgreeBelow(x, n, depth) then 1 else 0
  }

  lemma {:induction false} ReadsExactlyOnce(log2n: nat, n: nat, depth: nat)
    requires n < Pow2(log2n) && depth <= log2n
    ensures ReadsOnce(log2n, n, depth)
    decreases log2n - depth
  {
    if depth == log2n {
      ReadsAtLeaf(log2n, n);
    } else {
      var lo, hi := Partners(log2n, n, depth);
      ReadsExactlyOnce(log2n, lo, depth + 1);
      ReadsExactlyOnce(log2n, hi, depth + 1);
      ReadsCombine(log2n, n, depth, lo, hi);
    }
  }

  /** The inductive step of `ReadsExactlyOnce`: the counts of the two halves add up. */
  lemma {:induction false} ReadsCombine(log2n: nat, n: nat, depth: nat, lo: nat, hi: nat)
    requires n < Pow2(log2n) && depth < log2n
    requires lo < Pow2(log2n) && hi < Pow2(log2n)
    requires !Bit(lo, depth) && Bit(hi, depth)
    requires forall j :: 0 <= j < depth ==> (Bit(lo, j) <==> Bit(n, j)) && (Bit(hi, j) <==> Bit(n, j))
    requires Reads(log2n, n, depth) == Reads(log2n, lo, depth + 1) + Reads(log2n, hi, depth + 1)
    requires ReadsOnce(log2n, lo, depth + 1) && ReadsOnce(log2n, hi, depth + 1)
    ensures ReadsOnce(log2n, n, depth)
  {
    var rl, rh := Reads(log2n, lo, depth + 1), Reads(log2n, hi, depth + 1);
    assert multiset(Reads(log2n, n, depth)) == multiset(rl) + multiset(rh);
    forall x | 0 <= x < Pow2(log2n)
      ensures Hits(log2n, n, depth, x) == if AgreeBelow(x, n, depth) then 1 else 0
    {
      AgreeSplit(x, n, lo, hi, depth);
      assert Hits(log2n, n, depth, x) == multiset(rl)[x] + multiset(rh)[x];
      assert Hits(log2n, lo, depth + 1, x) == multiset(rl)[x];
      assert Hits(log2n, hi, depth + 1, x) == multiset(rh)[x];
    }
  }

  /** One top-level call reads every one of the `2^log2n` samples exactly once. */
  lemma {:induction false} TopLevelReadsEachSampleOnce(log2n: nat, n: nat)
    requires n < Pow2(log2n)
    ensures |Reads(log2n, n, 0)| == Pow2(log2n)
    ensures forall x :: 0 <= x < Pow2(log2n) ==> Hits(log2n, n, 0, x) == 1
  {
    ReadsExactlyOnce(log2n, n, 0);
  }

  /** `data` and `data'` hold the same values at every index listed in `idx`. */
  ghost predicate AgreeOn(data: seq<real>, data': seq<real>, idx: seq<int>) {
    forall i :: 0 <= i < |idx| ==> 0 <= idx[i] < |data| && 0 <= idx[i] < |data'| && data[idx[i]] == data'[idx[i]]
  }

  /** The result depends on the data only through the indices in `Reads`. */
  lemma {:induction false} ButterflyReadsOnly(data: seq<real>, data': seq<real>, log2n: nat, n: nat, depth: nat, w: Twiddle)
    requires |data| == |data'| == Pow2(log2n)
    requires n < Pow2(log2n) && depth <= log2n
    requires AgreeOn(data, data', Reads(log2n, n, depth))
    ensures Butterfly(data, log2n, n, depth, w) == Butterfly(data', log2n, n, depth, w)
    decreases log2n - depth
  {
    if depth == log2n {
      assert Reads(log2n, n, depth)[0] == n;
    } else {
      var lo, hi := Split(data, log2n, n, depth, w);
      var x, y := Butterfly(data, log2n, lo, depth + 1, w), Butterfly(data, log2n, hi, depth + 1, w);
      assert x == Butterfly(data', log2n, lo, depth + 1, w) && y == Butterfly(data', log2n, hi, depth + 1, w) by {
        AgreeOnHalves(data, data', Reads(log2n, lo, depth + 1), Reads(log2n, hi, depth + 1));
        ButterflyReadsOnly(data, data', log2n, lo, depth + 1, w);
        ButterflyReadsOnly(data, data', log2n, hi, depth + 1, w);
      }
      var lo', hi' := Split(data', log2n, n, depth, w);
      assert lo' == lo && hi' == hi;
    }
  }

  lemma {:induction false} AgreeOnHalves(data: seq<real>, data': seq<real>, rl: seq<int>, rh: seq<int>)
    requires AgreeOn(data, data', rl + rh)
    ensures AgreeOn(data, data', rl) && AgreeOn(data, data', rh)
  {
    forall i | 0 <= i < |rl| ensures rl[i] == (rl + rh)[i] {
    }
    forall i | 0 <= i < |rh| ensures rh[i] == (rl + rh)[|rl| + i] {
    }
  }

  /** `a * d1 + d2`, pointwise. */
  function Combine(a: real, d1: seq<real>, d2: seq<real>): (r: seq<real>)
    requires |d1| == |d2|
    ensures |r| == |d1|
  {
    seq(|d1|, i requires 0 <= i < |d1| => a * d1[i] + d2[i])
  }

  lemma {:induction false} MulSubCombine(wt: Complex, a: real, x1: Complex, y1: Complex, x2: Complex, y2: Complex)
    ensures Mul(wt, Sub(Add(Scale(a, x1), x2), Add(Scale(a, y1), y2)))
         == Add(Scale(a, Mul(wt, Sub(x1, y1))), Mul(wt, Sub(x2, y2)))
  {
    calc {
      Mul(wt, Sub(Add(Scale(a, x1), x2), Add(Scale(a, y1), y2)));
      { SubCombine(a, x1, y1, x2, y2); }
      Mul(wt, Add(Scale(a, Sub(x1, y1)), Sub(x2, y2)));
      { MulAdd(wt, Scale(a, Sub(x1, y1)), Sub(x2, y2)); }
      Add(Mul(wt, Scale(a, Sub(x1, y1))), Mul(wt, Sub(x2, y2)));
      { MulScale(wt, a, Sub(x1, y1)); }
      Add(Scale(a, Mul(wt, Sub(x1, y1))), Mul(wt, Sub(x2, y2)));
    }
  }

  lemma {:induction false} SubCombine(a: real, x1: Complex, y1: Complex, x2: Complex, y2: Complex)
    ensures Sub(Add(Scale(a, x1), x2), Add(Scale(a, y1), y2)) == Add(Scale(a, Sub(x1, y1)), Sub(x2, y2))
  {
    assert a * x1.re - a * y1.re == a * (x1.re - y1.re);
    assert a * x1.im - a * y1.im == a * (x1.im - y1.im);
  }

  lemma {:induction false} MulAdd(w: Complex, x: Complex, y: Complex)
    ensures Mul(w, Add(x, y)) == Add(Mul(w, x), Mul(w, y))
  {
    assert w.re * (x.re + y.re) == w.re * x.re + w.re * y.re;
    assert w.im * (x.im + y.im) == w.im * x.im + w.im * y.im;
    assert w.re * (x.im + y.im) == w.re * x.im + w.re * y.im;
    assert w.im * (x.re + y.re) == w.im * x.re + w.im * y.re;
  }

  lemma {:induction false} MulScale(w: Complex, a: real, x: Complex)
    ensures Mul(w, Scale(a, x)) == Scale(a, Mul(w, x))
  {
    assert w.re * (a * x.re) - w.im * (a * x.im) == a * (w.re * x.re - w.im * x.im) by {
      assert w.re * (a * x.re) == a * (w.re * x.re);
      assert w.im * (a * x.im) == a * (w.im * x.im);
    }
    assert w.re * (a * x.im) + w.im * (a * x.re) == a * (w.re * x.im + w.im * x.re) by {
      assert w.re * (a * x.im) == a * (w.re * x.im);
      assert w.im * (a * x.re) == a * (w.im * x.re);
    }
  }

  /** `_fft` is linear in the data, whatever the twiddle factors are. */
  lemma {:induction false} ButterflyLinear(a: real, d1: seq<real>, d2: seq<real>, log2n: nat, n: nat, depth: nat, w: Twiddle)
    requires |d1| == |d2| == Pow2(log2n)
    requires n < Pow2(log2n) && depth <= log2n
    ensures Butterfly(Combine(a, d1, d2), log2n, n, depth, w)
         == Add(Scale(a, Butterfly(d1, log2n, n, depth, w)), Butterfly(d2, log2n, n, depth, w))
    decreases log2n - depth
  {
    var d := Combine(a, d1, d2);
    if depth == log2n {
      assert d[n] == a * d1[n] + d2[n];
    } else {
      var lo, hi := Split(d, log2n, n, depth, w);
      var lo1, hi1 := Split(d1, log2n, n, depth, w);
      var lo2, hi2 := Split(d2, log2n, n, depth, w);
      assert lo1 == lo && hi1 == hi && lo2 == lo && hi2 == hi;
      ButterflyLinear(a, d1, d2, log2n, lo, depth + 1, w);
      ButterflyLinear(a, d1, d2, log2n, hi, depth + 1, w);
      var x1, y1 := Butterfly(d1, log2n, lo, depth + 1, w), Butterfly(d1, log2n, hi, depth + 1, w);
      var x2, y2 := Butterfly(d2, log2n, lo, depth + 1, w), Butterfly(d2, log2n, hi, depth + 1, w);
      assert Butterfly(d, log2n, lo, depth + 1, w) == Add(Scale(a, x1), x2);
      assert Butterfly(d, log2n, hi, depth + 1, w) == Add(Scale(a, y1), y2);
      if Bit(n, depth) {
        var t := w(n % Pow2(depth), 2 * Pow2(depth));
        assert Butterfly(d, log2n, n, depth, w) == Mul(t, Sub(Add(Scale(a, x1), x2), Add(Scale(a, y1), y2)));
        assert Butterfly(d1, log2n, n, depth, w) == Mul(t, Sub(x1, y1));
        assert Butterfly(d2, log2n, n, depth, w) == Mul(t, Sub(x2, y2));
        MulSubCombine(t, a, x1, y1, x2, y2);
      } else {
        assert Butterfly(d, log2n, n, depth, w) == Add(Add(Scale(a, x1), x2), Add(Scale(a, y1), y2));
        assert Butterfly(d1, log2n, n, depth, w) == Add(x1, y1);
        assert Butterfly(d2, log2n, n, depth, w) == Add(x2, y2);
        AddCombine(a, x1, y1, x2, y2);
      }
    }
  }

  lemma {:induction false} AddCombine(a: real, x1: Complex, y1: Complex, x2: Complex, y2: Complex)
    ensures Add(Add(Scale(a, x1), x2), Add(Scale(a, y1), y2)) == Add(Scale(a, Add(x1, y1)), Add(x2, y2))
  {
  }

  /** Any twiddle times a zero difference is zero, and so is the sum of two zeros. */
  lemma {:induction false} MulZero()
    ensures forall t :: Mul(t, Sub(Zero, Zero)) == Zero && Add(Zero, Zero) == Zero
  {
  }

  /** All-zero data gives a zero coefficient at every stage. */
  lemma {:induction false} ButterflyOfZeros(data: seq<real>, log2n: nat, n: nat, depth: nat, w: Twiddle)
    requires |data| == Pow2(log2n)
    requires forall i :: 0 <= i < |data| ==> data[i] == 0.0
    requires n < Pow2(log2n) && depth <= log2n
    ensures Butterfly(data, log2n, n, depth, w) == Zero
    decreases log2n - depth
  {
    if depth == log2n {
      assert data[n] == 0.0;
    } else {
      var lo, hi := Split(data, log2n, n, depth, w);
      var x, y := Butterfly(data, log2n, lo, depth + 1, w), Butterfly(data, log2n, hi, depth + 1, w);
      assert x == Zero && y == Zero by {
        ButterflyOfZeros(data, log2n, lo, depth + 1, w);
        ButterflyOfZeros(data, log2n, hi, depth + 1, w);
      }
      MulZero();
    }
  }

  /** The twiddle numerator `n & (m - 1)` is `n mod m`, so the angle fraction
      `(n & (m - 1)) / m2` lies in `[0, 1/2)`; and the test `n & m` is bit `depth`. */
  lemma {:induction false} TwiddleFraction(n: nat, depth: nat)
    ensures And(n, Pow2(depth) - 1) == n % Pow2(depth)
    ensures And(n, Pow2(depth)) != 0 <==> Bit(n, depth)
    ensures 0.0 <= ((n % Pow2(depth)) as real) / ((2 * Pow2(depth)) as real) < 0.5
  {
    AndMask(n, depth);
    AndPow2(n, depth);
    HalfBound(n % Pow2(depth), Pow2(depth));
  }

  lemma {:induction false} HalfBound(k: nat, m: nat)
    requires k < m
    ensures 0.0 <= (k as real) / ((2 * m) as real) < 0.5
  {
    var m2 := (2 * m) as real;
    assert (k as real) / m2 * m2 == k as real;
  }

  /** `fft(n, log2n, data)`: an index outside `[0, 2^log2n)` is fatal before any
      recursion; otherwise the butterfly runs from stage 0 on the bit-reversed index. */
  function Fft(n: int, log2n: nat, data: seq<real>, w: Twiddle): (r: Result<Complex, FftError>)
    requires log2n < 31
    requires |data| == Pow2(log2n)
    ensures r.Err? <==> n < 0 || n >= Pow2(log2n)
    ensures r.Err? ==> r.error == InvalidIndex(n)
    ensures log2n == 0 && r.Ok? ==> r.value == FromReal(data[0])
  {
    if n < 0 || n >= Pow2(log2n) then Err(InvalidIndex(n))
    else Ok(Butterfly(data, log2n, BitReverse(n, log2n), 0, w))
  }

  /** Every valid bin of the transform is linear in the data. */
  lemma {:induction false} FftLinear(a: real, d1: seq<real>, d2: seq<real>, n: int, log2n: nat, w: Twiddle)
    requires log2n < 31
    requires |d1| == |d2| == Pow2(log2n)
    requires 0 <= n < Pow2(log2n)
    ensures Fft(n, log2n, Combine(a, d1, d2), w)
         == Ok(Add(Scale(a, Fft(n, log2n, d1, w).value), Fft(n, log2n, d2, w).value))
  {
    ButterflyLinear(a, d1, d2, log2n, BitReverse(n, log2n), 0, w);
  }

  /** Silence transforms to zero in every valid bin. */
  lemma {:induction false} FftOfZeros(n: int, log2n: nat, data: seq<real>, w: Twiddle)
    requires log2n < 31
    requires |data| == Pow2(log2n)
    requires forall i :: 0 <= i < |data| ==> data[i] == 0.0
    requires 0 <= n < Pow2(log2n)
    ensures Fft(n, log2n, data, w) == Ok(Zero)
  {
    ButterflyOfZeros(data, log2n, BitReverse(n, log2n), 0, w);
  }
}
