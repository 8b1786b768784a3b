/**
 The mixing function for thread ids is a bijection, on 32-bit and on 64-bit words, so distinct ids
 keep distinct hashes: a shifted exclusive or can be undone, and so can a multiplication by an odd
 constant.
 */
module ThreadIdHash {
  import opened Numbers
  import opened Words

  /** `x ^ (x >> k)` */
  function Fold(x: nat, k: nat): nat { Xor(x, Shifted(x, k)) }

  /** A product of words of `n` bits. */
  function Times(x: nat, factor: nat, n: nat): nat { x * factor % Pow2(n) }

  /** The mixing steps: a fold, a factor, a fold, a factor and the first fold again. */
  function Mix(id: nat, n: nat, j: nat, c: nat, k: nat, d: nat): nat {
    Fold(Times(Fold(Times(Fold(id, j), c, n), k), d, n), j)
  }

  function Hash32(id: nat): nat { Mix(id, 32, 16, 0x85ebca6b, 13, 0xc2b2ae35) }

  function Hash64(id: nat): nat { Mix(id, 64, 33, 0xff51afd7ed558ccd, 33, 0xc4ceb9fe1a85ec53) }

  /** Undoes a fold of words of at most `3 * k` bits. */
  function Unfold(y: nat, k: nat): nat { Xor(Xor(y, Shifted(y, k)), Shifted(y, k + k)) }

  /** The steps of `Mix` undone from the last to the first, with the inverse factors. */
  function Unmix(h: nat, n: nat, j: nat, c: nat, k: nat, d: nat): nat {
    Unfold(Times(Unfold(Times(Unfold(h, j), d, n), k), c, n), j)
  }

  function Unhash32(h: nat): nat { Unmix(h, 32, 16, 0xa5cb9243, 13, 0x7ed1b41d) }

  function Unhash64(h: nat): nat { Unmix(h, 64, 33, 0x4f74430c22a54005, 33, 0x9cb4b2f8129337db) }

  lemma FoldBounds(x: nat, k: nat, n: nat)
    requires x < Pow2(n)
    ensures Fold(x, k) < Pow2(n) && Unfold(x, k) < Pow2(n)
  {
    ShiftBound(x, k, n);
    ShiftBound(x, k + k, n);
    XorBound(x, Shifted(x, k), n);
    XorBound(Xor(x, Shifted(x, k)), Shifted(x, k + k), n);
  }

  lemma {:induction false} ShiftBound(x: nat, k: nat, n: nat)
    requires x < Pow2(n)
    ensures Shifted(x, k) < Pow2(n)
    decreases k
  {
    if k > 0 {
      ShiftBound(x / 2, k - 1, n);
    }
  }

  lemma UnfoldsFold(x: nat, k: nat, n: nat)
    requires x < Pow2(n) && n <= k + k + k
    ensures Unfold(Fold(x, k), k) == x
  {
    var s, t := Shifted(x, k), Shifted(x, k + k);
    XorShifted(x, s, k);
    XorShifted(x, s, k + k);
    ShiftTwice(x, k, k);
    ShiftTwice(x, k, k + k);
    ShiftedOut(x, k + k + k, n);
    XorCancels(t, 0);
    // (x ^ s) ^ (s ^ t) ^ t
    XorAssociates(Xor(x, s), s, t);
    XorCancels(x, s);
    XorCancels(x, t);
  }

  lemma FoldsUnfold(y: nat, k: nat, n: nat)
    requires y < Pow2(n) && n <= k + k + k
    ensures Fold(Unfold(y, k), k) == y
  {
    var s, t := Shifted(y, k), Shifted(y, k + k);
    XorShifted(Xor(y, s), t, k);
    XorShifted(y, s, k);
    ShiftTwice(y, k, k);
    ShiftTwice(y, k + k, k);
    ShiftedOut(y, k + k + k, n);
    XorCancels(Xor(s, t), 0);
    // ((y ^ s) ^ t) ^ (s ^ t)
    XorCommutes(s, t);
    XorAssociates(Xor(Xor(y, s), t), t, s);
    XorCancels(Xor(y, s), t);
    XorCancels(y, s);
  }

  lemma {:induction false} XorCommutes(a: nat, b: nat)
    ensures Xor(a, b) == Xor(b, a)
    decreases a + b
  {
    if a + b > 0 {
      XorCommutes(a / 2, b / 2);
    }
  }

  /** A factor with an inverse can be undone. */
  lemma TimesInverse(x: nat, c: nat, d: nat, n: nat)
    requires x < Pow2(n) && c * d % Pow2(n) == 1
    ensures Times(x, c, n) < Pow2(n) && Times(Times(x, c, n), d, n) == x
  {
    var m := Pow2(n);
    var p, r := x * c / m, x * c % m;
    var q := c * d / m;
    assert x * c == p * m + r && c * d == q * m + 1;
    Regroup(x, c, d, m, p, q, r);
    DivisionIsUnique(r * d, m, x * q - p * d, x);
  }

  lemma Regroup(x: int, c: int, d: int, m: int, p: int, q: int, r: int)
    requires x * c == p * m + r && c * d == q * m + 1
    ensures r * d == (x * q - p * d) * m + x
  {
    assert (x * c) * d == (p * m) * d + r * d;
    assert x * (c * d) == x * (q * m) + x;
    assert (x * c) * d == x * (c * d);
    assert (x * q - p * d) * m == x * (q * m) - (p * m) * d;
  }

  lemma MixIsUndone(x: nat, n: nat, j: nat, c: nat, k: nat, d: nat, c': nat, d': nat)
    requires x < Pow2(n) && n <= j + j + j && n <= k + k + k
    requires c * c' % Pow2(n) == 1 && d * d' % Pow2(n) == 1
    ensures Mix(x, n, j, c, k, d) < Pow2(n) && Unmix(Mix(x, n, j, c, k, d), n, j, c', k, d') == x
  {
    hide Fold, Unfold, Times;
    var a := Fold(x, j);
    var b := Times(a, c, n);
    var e := Fold(b, k);
    var f := Times(e, d, n);
    FoldBounds(x, j, n);
    TimesInverse(a, c, c', n);
    FoldBounds(b, k, n);
    TimesInverse(e, d, d', n);
    FoldBounds(f, j, n);
    UnfoldsFold(f, j, n);
    UnfoldsFold(b, k, n);
    UnfoldsFold(x, j, n);
  }

  lemma UndoneIsMixed(h: nat, n: nat, j: nat, c: nat, k: nat, d: nat, c': nat, d': nat)
    requires h < Pow2(n) && n <= j + j + j && n <= k + k + k
    requires c' * c % Pow2(n) == 1 && d' * d % Pow2(n) == 1
    ensures Unmix(h, n, j, c', k, d') < Pow2(n) && Mix(Unmix(h, n, j, c', k, d'), n, j, c, k, d) == h
  {
    hide Fold, Unfold, Times;
    var a := Unfold(h, j);
    var b := Times(a, d', n);
    var e := Unfold(b, k);
    var f := Times(e, c', n);
    FoldBounds(h, j, n);
    TimesInverse(a, d', d, n);
    FoldBounds(b, k, n);
    TimesInverse(e, c', c, n);
    FoldBounds(f, j, n);
    FoldsUnfold(f, j, n);
    FoldsUnfold(b, k, n);
    FoldsUnfold(h, j, n);
  }

  lemma WordSizes()
    ensures Pow2(32) == 0x1_0000_0000 && Pow2(64) == 0x1_0000_0000_0000_0000
  {
    hide Pow2;
    OneBit();
    Pow2Sum(1, 1);
    Pow2Sum(2, 2);
    Pow2Sum(4, 4);
    Pow2Sum(8, 8);
    Pow2Sum(16, 16);
    Pow2Sum(32, 32);
  }

  lemma OneBit()
    ensures Pow2(1) == 2
  {
  }

  /** Every 32-bit word is the hash of exactly one id. */
  lemma Bijection32(id: nat, h: nat)
    requires id < Pow2(32) && h < Pow2(32)
    ensures Hash32(id) < Pow2(32) && Unhash32(Hash32(id)) == id
    ensures Unhash32(h) < Pow2(32) && Hash32(Unhash32(h)) == h
  {
    WordSizes();
    hide Mix, Unmix, Pow2;
    MixIsUndone(id, 32, 16, 0x85ebca6b, 13, 0xc2b2ae35, 0xa5cb9243, 0x7ed1b41d);
    UndoneIsMixed(h, 32, 16, 0x85ebca6b, 13, 0xc2b2ae35, 0xa5cb9243, 0x7ed1b41d);
  }

  /** Every 64-bit word is the hash of exactly one id. */
  lemma Bijection64(id: nat, h: nat)
    requires id < Pow2(64) && h < Pow2(64)
    ensures Hash64(id) < Pow2(64) && Unhash64(Hash64(id)) == id
    ensures Unhash64(h) < Pow2(64) && Hash64(Unhash64(h)) == h
  {
    WordSizes();
    hide Mix, Unmix, Pow2;
    MixIsUndone(id, 64, 33, 0xff51afd7ed558ccd, 33, 0xc4ceb9fe1a85ec53, 0x4f74430c22a54005, 0x9cb4b2f8129337db);
    UndoneIsMixed(h, 64, 33, 0xff51afd7ed558ccd, 33, 0xc4ceb9fe1a85ec53, 0x4f74430c22a54005, 0x9cb4b2f8129337db);
  }

  /** hash_thread_id on an id as a number: the hash for its width, 32 or 64 bits, cast to a size_t of `sizeBits` bits. */
  function HashThreadId(id: nat, wide: bool, sizeBits: nat): nat {
    (if wide then Hash64(id) else Hash32(id)) % Pow2(sizeBits)
  }

  function Width(wide: bool): nat { if wide then 64 else 32 }

  ghost predicate TellsApart(wide: bool, sizeBits: nat) {
    forall id: nat, other: nat :: id < Pow2(Width(wide)) && other < Pow2(Width(wide)) && id != other ==>
      HashThreadId(id, wide, sizeBits) != HashThreadId(other, wide, sizeBits)
  }

  /** Hashes that are equal are those of one id, and every word is a hash. */
  lemma HashOfWidth(id: nat, other: nat, wide: bool)
    requires id < Pow2(Width(wide)) && other < Pow2(Width(wide))
    ensures var h := if wide then Hash64(id) else Hash32(id);
      var g := if wide then Hash64(other) else Hash32(other);
      h < Pow2(Width(wide)) && (h == g ==> id == other)
  {
    hide Hash32, Hash64, Unhash32, Unhash64, Pow2;
    if wide {
      Bijection64(id, id);
      Bijection64(other, other);
    } else {
      Bijection32(id, id);
      Bijection32(other, other);
    }
  }

  lemma HashHits(h: nat, wide: bool) returns (id: nat)
    requires h < Pow2(Width(wide))
    ensures id < Pow2(Width(wide)) && h == if wide then Hash64(id) else Hash32(id)
  {
    hide Hash32, Hash64, Unhash32, Unhash64, Pow2;
    if wide {
      Bijection64(h, h);
      id := Unhash64(h);
    } else {
      Bijection32(h, h);
      id := Unhash32(h);
    }
  }

  /** Distinct ids keep distinct hashes exactly when a size_t is as wide as the ids: a narrower one makes some collide. */
  lemma DistinctIdsDistinctHashes(wide: bool, sizeBits: nat)
    ensures TellsApart(wide, sizeBits) <==> sizeBits >= Width(wide)
  {
    hide Hash32, Hash64, Pow2;
    if sizeBits >= Width(wide) {
      Pow2Monotone(Width(wide), sizeBits);
      forall id: nat, other: nat | id < Pow2(Width(wide)) && other < Pow2(Width(wide)) && id != other
        ensures HashThreadId(id, wide, sizeBits) != HashThreadId(other, wide, sizeBits)
      {
        HashOfWidth(id, other, wide);
        HashOfWidth(other, id, wide);
        SmallMod(if wide then Hash64(id) else Hash32(id), Pow2(sizeBits));
        SmallMod(if wide then Hash64(other) else Hash32(other), Pow2(sizeBits));
      }
    } else {
      Pow2Grows(sizeBits, Width(wide));
      var id := HashHits(0, wide);
      var other := HashHits(Pow2(sizeBits), wide);
      SmallMod(0, Pow2(sizeBits));
      SmallMod(Pow2(sizeBits), Pow2(sizeBits));
      assert HashThreadId(id, wide, sizeBits) == HashThreadId(other, wide, sizeBits);
    }
  }

  lemma Pow2Grows(m: nat, n: nat)
    requires m < n
    ensures Pow2(m) < Pow2(n)
  {
    Pow2Monotone(m + 1, n);
  }
}
