/** Natural numbers as machine words: shifts are divisions by powers of two, `Xor` and `Or` work bit by bit. */
module Words {
  function Pow2(n: nat): (p: nat)
    ensures p > 0
  {
    if n == 0 then 1 else 2 * Pow2(n - 1)
  }

  function Xor(a: nat, b: nat): nat
    decreases a + b
  {
    if a == 0 && b == 0 then 0 else 2 * Xor(a / 2, b / 2) + (a + b) % 2
  }

  function Or(a: nat, b: nat): nat
    decreases a + b
  {
    if a == 0 && b == 0 then 0 else 2 * Or(a / 2, b / 2) + if a % 2 == 1 || b % 2 == 1 then 1 else 0
  }

  /** `x >> k` */
  function Shifted(x: nat, k: nat): nat
    decreases k
  {
    if k == 0 then x else Shifted(x / 2, k - 1)
  }

  lemma {:induction false} Pow2Sum(m: nat, n: nat)
    ensures Pow2(m + n) == Pow2(m) * Pow2(n)
  {
    if m > 0 {
      Pow2Sum(m - 1, n);
    }
  }

  lemma {:induction false} Pow2Monotone(m: nat, n: nat)
    requires m <= n
    ensures Pow2(m) <= Pow2(n)
  {
    if m < n {
      Pow2Monotone(m, n - 1);
    }
  }

  /** A shift divides by a power of two. */
  lemma {:induction false} ShiftDivides(x: nat, k: nat) returns (r: nat)
    ensures r < Pow2(k) && x == Shifted(x, k) * Pow2(k) + r
    decreases k
  {
    if k == 0 {
      r := 0;
    } else {
      var s := ShiftDivides(x / 2, k - 1);
      r := 2 * s + x % 2;
      var q := Shifted(x, k);
      assert q * (2 * Pow2(k - 1)) == 2 * (q * Pow2(k - 1));
    }
  }

  lemma {:induction false} ShiftTwice(x: nat, j: nat, k: nat)
    ensures Shifted(Shifted(x, j), k) == Shifted(x, j + k)
    decreases j
  {
    if j > 0 {
      ShiftTwice(x / 2, j - 1, k);
    }
  }

  lemma {:induction false} ShiftedOut(x: nat, k: nat, n: nat)
    requires x < Pow2(n) && n <= k
    ensures Shifted(x, k) == 0
    decreases k
  {
    if k > 0 {
      ShiftedOut(x / 2, k - 1, if n == 0 then 0 else n - 1);
    }
  }

  // ---------- Exclusive or ----------

  lemma XorBits(a: nat, b: nat)
    ensures Xor(a, b) / 2 == Xor(a / 2, b / 2) && Xor(a, b) % 2 == (a + b) % 2
  {
  }

  lemma SameNumber(x: nat, y: nat)
    requires x / 2 == y / 2 && x % 2 == y % 2
    ensures x == y
  {
  }

  lemma SameParity(x: nat, y: nat, z: nat)
    requires x % 2 == y % 2
    ensures (x + z) % 2 == (y + z) % 2
  {
  }

  lemma {:induction false} XorAssociates(a: nat, b: nat, c: nat)
    ensures Xor(Xor(a, b), c) == Xor(a, Xor(b, c))
    decreases a + b + c
  {
    if a + b + c > 0 {
      hide Xor;
      XorAssociates(a / 2, b / 2, c / 2);
      XorBits(a, b);
      XorBits(b, c);
      XorBits(Xor(a, b), c);
      XorBits(a, Xor(b, c));
      SameParity(Xor(a, b), a + b, c);
      SameParity(Xor(b, c), b + c, a);
      SameNumber(Xor(Xor(a, b), c), Xor(a, Xor(b, c)));
    }
  }

  lemma {:induction false} XorCancels(a: nat, b: nat)
    ensures Xor(a, a) == 0 && Xor(a, 0) == a && Xor(Xor(a, b), b) == a
    decreases a
  {
    XorSelf(a);
    XorSelf(b);
    XorAssociates(a, b, b);
  }

  lemma {:induction false} XorSelf(a: nat)
    ensures Xor(a, a) == 0 && Xor(a, 0) == a
  {
    if a > 0 {
      XorSelf(a / 2);
    }
  }

  lemma {:induction false} XorShifted(a: nat, b: nat, k: nat)
    ensures Shifted(Xor(a, b), k) == Xor(Shifted(a, k), Shifted(b, k))
    decreases k
  {
    if k > 0 {
      XorBits(a, b);
      XorShifted(a / 2, b / 2, k - 1);
    }
  }

  lemma {:induction false} XorBound(a: nat, b: nat, n: nat)
    requires a < Pow2(n) && b < Pow2(n)
    ensures Xor(a, b) < Pow2(n)
    decreases n
  {
    if n > 0 {
      XorBound(a / 2, b / 2, n - 1);
      XorBits(a, b);
    }
  }

  // ---------- Inclusive or ----------

  lemma OrBits(a: nat, b: nat)
    ensures Or(a, b) / 2 == Or(a / 2, b / 2) && Or(a, b) % 2 == if a % 2 == 1 || b % 2 == 1 then 1 else 0
  {
  }

  lemma {:induction false} OrShifted(a: nat, b: nat, k: nat)
    ensures Shifted(Or(a, b), k) == Or(Shifted(a, k), Shifted(b, k))
    decreases k
  {
    if k > 0 {
      OrBits(a, b);
      OrShifted(a / 2, b / 2, k - 1);
    }
  }

  lemma {:induction false} OrBound(a: nat, b: nat, n: nat)
    requires a < Pow2(n) && b < Pow2(n)
    ensures Or(a, b) < Pow2(n)
    decreases n
  {
    if n > 0 {
      OrBound(a / 2, b / 2, n - 1);
      OrBits(a, b);
    }
  }

  /** Setting the low `n` bits. */
  lemma {:induction false} OrOnes(hi: nat, r: nat, n: nat)
    requires r < Pow2(n)
    ensures Or(hi * Pow2(n) + r, Pow2(n) - 1) == hi * Pow2(n) + Pow2(n) - 1
    decreases n
  {
    hide Or;
    if n > 0 {
      var p := Pow2(n - 1);
      var q := hi * p;
      assert hi * Pow2(n) == 2 * q by {
        assert hi * (2 * p) == 2 * (hi * p);
      }
      OrOnes(hi, r / 2, n - 1);
      OrBits(2 * q + r, 2 * p - 1);
    } else {
      OrNone(hi);
    }
  }

  lemma {:induction false} OrNone(a: nat)
    ensures Or(a, 0) == a
  {
    if a > 0 {
      OrNone(a / 2);
    }
  }
}
