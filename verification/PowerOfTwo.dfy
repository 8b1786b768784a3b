/** ceil_to_pow_2 for every width the loop supports: words of `size` bytes. */
module PowerOfTwo {
  import opened Numbers
  import opened Words

  /** The number of bits of `x` that matter. */
  function Bits(x: nat): nat { if x == 0 then 0 else 1 + Bits(x / 2) }

  lemma {:induction false} BitsBound(x: nat)
    ensures x < Pow2(Bits(x)) && (x > 0 ==> Pow2(Bits(x) - 1) <= x)
  {
    if x > 1 {
      BitsBound(x / 2);
    }
  }

  lemma {:induction false} FewBits(x: nat, n: nat)
    requires x < Pow2(n)
    ensures Bits(x) <= n
    decreases n
  {
    if x > 0 {
      FewBits(x / 2, n - 1);
    }
  }

  lemma {:induction false} AllBits(x: nat, n: nat)
    requires Pow2(n) <= 2 * x && x < Pow2(n)
    ensures Bits(x) == n
    decreases n
  {
    if n > 1 {
      var q := Pow2(n - 2);
      assert Pow2(n) == 4 * q && Pow2(n - 1) == 2 * q;
      assert q <= x / 2 < 2 * q;
      AllBits(x / 2, n - 1);
    } else {
      assert x == n;
    }
  }

  /** Of the `h` bits of `x` at least the upper `w` are ones. */
  ghost predicate TopOnes(x: nat, h: nat, w: nat) {
    w <= h && x < Pow2(h) && Shifted(x, h - w) == Pow2(w) - 1
  }

  lemma FirstOne(x: nat)
    ensures TopOnes(x, Bits(x), Min(1, Bits(x)))
  {
    BitsBound(x);
    var h := Bits(x);
    if x > 0 {
      var r := ShiftDivides(x, h - 1);
      var q := Shifted(x, h - 1);
      TopBit(x, q, r, Pow2(h - 1));
    }
  }

  lemma TopBit(x: nat, q: nat, r: nat, p: nat)
    requires x == q * p + r && r < p && p <= x < 2 * p
    ensures q == 1
  {
    MulBounds(q - 1, p);
    assert (q - 1) * p == q * p - p;
    MulBounds(q - 2, p);
    assert (q - 2) * p == q * p - 2 * p;
  }

  /** Shifting ones out of ones leaves ones. */
  lemma {:induction false} ShiftedOnes(w: nat, k: nat)
    requires k <= w
    ensures Shifted(Pow2(w) - 1, k) == Pow2(w - k) - 1
    decreases k
  {
    if k > 0 {
      ShiftedOnes(w - 1, k - 1);
    }
  }

  /** `x |= x >> w` doubles the run of ones at the top. */
  lemma Smear(x: nat, h: nat, w: nat)
    requires TopOnes(x, h, w) && 0 < w < h
    ensures TopOnes(Or(x, Shifted(x, w)), h, Min(2 * w, h))
  {
    hide Or, Shifted, Pow2;
    var v: nat := if w <= h - w then w else h - w;
    var k: nat := h - w - v;
    // the upper w + v bits are w ones and v others, and they meet the v ones shifted down
    ShiftTwice(x, k, v);
    OnesOverOnes(Shifted(x, k), w, v);
    ShiftedDown(x, h, w, v, k);
    OrShifted(x, Shifted(x, w), k);
    ShiftSmaller(x, w);
    OrBound(x, Shifted(x, w), h);
  }

  lemma ShiftedDown(x: nat, h: nat, w: nat, v: nat, k: nat)
    requires h == w + v + k && v <= w && Shifted(x, h - w) == Pow2(w) - 1
    ensures Shifted(Shifted(x, w), k) == Pow2(v) - 1
  {
    hide Shifted, Pow2;
    ShiftTwice(x, w, k);
    ShiftTwice(x, h - w, w - v);
    ShiftedOnes(w, w - v);
  }

  lemma OnesOverOnes(a: nat, w: nat, v: nat)
    requires Shifted(a, v) == Pow2(w) - 1
    ensures Or(a, Pow2(v) - 1) == Pow2(w + v) - 1
  {
    hide Or, Shifted, Pow2;
    var r := ShiftDivides(a, v);
    OrOnes(Pow2(w) - 1, r, v);
    Pow2Sum(w, v);
    Minus(Pow2(w), Pow2(v));
  }

  lemma Minus(p: int, q: int)
    ensures (p - 1) * q == p * q - q
  {
  }

  lemma {:induction false} ShiftSmaller(x: nat, k: nat)
    ensures Shifted(x, k) <= x
    decreases k
  {
    if k > 0 {
      ShiftSmaller(x / 2, k - 1);
    }
  }

  /** Ones all over stay so. */
  lemma SmearAll(x: nat, h: nat, w: nat)
    requires TopOnes(x, h, h) && h <= w
    ensures Or(x, Shifted(x, w)) == x
  {
    ShiftedOut(x, w, h);
    OrNone(x);
  }

  /** One round of smearing, whatever the run of ones is. */
  lemma SmearStep(x: nat, h: nat, w: nat)
    requires w > 0 && TopOnes(x, h, Min(w, h))
    ensures TopOnes(Or(x, Shifted(x, w)), h, Min(2 * w, h))
  {
    if w < h {
      Smear(x, h, w);
    } else {
      SmearAll(x, h, w);
    }
  }

  /** The least power of two not below `x`. */
  ghost predicate LeastPower(p: nat, x: nat) {
    exists h: nat :: p == Pow2(h) && x <= p && forall g: nat :: x <= Pow2(g) ==> p <= Pow2(g)
  }

  lemma IsLeastPower(x: nat, h: nat)
    requires x > 0 && h == Bits(x - 1)
    ensures LeastPower(Pow2(h), x)
  {
    BitsBound(x - 1);
    forall g: nat | x <= Pow2(g) ensures Pow2(h) <= Pow2(g) {
      FewBits(x - 1, g);
      Pow2Monotone(h, g);
    }
  }

  /** `--x` and `++x` on words of `n` bits */
  function Decrement(x: nat, n: nat): nat { (x + Pow2(n) - 1) % Pow2(n) }

  function Increment(x: nat, n: nat): nat { (x + 1) % Pow2(n) }

  /** The word arithmetic around the smearing: zero and everything above half the range end up at zero. */
  lemma WrapsToZero(x: nat, n: nat)
    requires n > 0 && x < Pow2(n)
    ensures var y := Decrement(x, n);
      && y < Pow2(n)
      && (if 1 <= x <= Pow2(n - 1) then y == x - 1 && Bits(y) < n else Bits(y) == n)
  {
    var m := Pow2(n);
    if x == 0 {
      SmallMod(m - 1, m);
      AllBits(m - 1, n);
    } else {
      SmallMod(x + m - 1, m);
      if x <= Pow2(n - 1) {
        FewBits(x - 1, n - 1);
      } else {
        AllBits(x - 1, n);
      }
    }
  }

  /**
   ceil_to_pow_2: the least power of two not below `x`, provided it is at most half the range, that
   is for 1 <= x <= 2^(N-1); for every other word the result wraps around to zero.
   */
  method CeilToPow2(x: nat, size: nat) returns (r: nat)
    requires size > 0 && x < Pow2(8 * size)
    ensures if 1 <= x <= Pow2(8 * size - 1) then LeastPower(r, x) else r == 0
  {
    var n := 8 * size;
    hide TopOnes, Or, Shifted, Pow2, LeastPower, Bits, Decrement, Increment;
    var y := Decrement(x, n);
    WrapsToZero(x, n);
    ghost var h := Bits(y);
    FirstOne(y);
    SmearStep(y, h, 1);
    y := Or(y, Shifted(y, 1));
    SmearStep(y, h, 2);
    y := Or(y, Shifted(y, 2));
    SmearStep(y, h, 4);
    y := Or(y, Shifted(y, 4));
    var i: nat := 1;
    while i < size
      invariant i >= 1 && TopOnes(y, h, Min(8 * i, h))
    {
      SmearStep(y, h, 8 * i);
      y := Or(y, Shifted(y, 8 * i));
      i := 2 * i;
    }
    r := Increment(y, n);
    Finish(y, h, n, x);
  }

  lemma Finish(y: nat, h: nat, n: nat, x: nat)
    requires TopOnes(y, h, h) && h <= n
    ensures Increment(y, n) == if h < n then Pow2(h) else 0
    ensures x > 0 && h == Bits(x - 1) ==> LeastPower(Pow2(h), x)
  {
    assert y == Pow2(h) - 1;
    if h < n {
      Pow2Monotone(h + 1, n);
      SmallMod(Pow2(h), Pow2(n));
    } else {
      SmallMod(Pow2(n), Pow2(n));
    }
    if x > 0 && h == Bits(x - 1) {
      IsLeastPower(x, h);
    }
  }
}
