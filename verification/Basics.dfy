/** The usual optional value; `None` stands for the null pointer wherever a pointer is modelled. */
module Options {
  datatype Option<+T> = None | Some(value: T)
}

module Numbers {
  function Min(a: int, b: int): int { if a < b then a else b }

  function Max(a: int, b: int): int { if a < b then b else a }

  function Sum(xs: seq<int>): int {
    if xs == [] then 0 else xs[0] + Sum(xs[1..])
  }

  lemma {:induction false} SumUpdate(xs: seq<int>, i: nat, x: int)
    requires i < |xs|
    ensures Sum(xs[i := x]) == Sum(xs) - xs[i] + x
  {
    if i == 0 {
      assert xs[i := x][1..] == xs[1..];
    } else {
      assert xs[i := x][1..] == xs[1..][i - 1 := x];
      SumUpdate(xs[1..], i - 1, x);
    }
  }

  lemma {:induction false} SumBounds(xs: seq<int>)
    requires forall i :: 0 <= i < |xs| ==> 0 <= xs[i]
    ensures forall i :: 0 <= i < |xs| ==> xs[i] <= Sum(xs)
    ensures 0 <= Sum(xs)
  {
    if xs != [] {
      SumBounds(xs[1..]);
      assert forall i :: 0 < i < |xs| ==> xs[i] == xs[1..][i - 1];
    }
  }

  lemma {:induction false} SumMonotone(xs: seq<int>, ys: seq<int>)
    requires |xs| == |ys| && forall i :: 0 <= i < |xs| ==> xs[i] <= ys[i]
    ensures Sum(xs) <= Sum(ys)
  {
    if xs != [] {
      SumMonotone(xs[1..], ys[1..]);
    }
  }

  lemma {:induction false} SumAppend(xs: seq<int>, x: int)
    ensures Sum(xs + [x]) == Sum(xs) + x
  {
    if xs == [] {
      assert xs + [x] == [x];
    } else {
      assert (xs + [x])[1..] == xs[1..] + [x];
      SumAppend(xs[1..], x);
    }
  }

  lemma {:induction false} SumZeros(xs: seq<int>)
    requires forall i :: 0 <= i < |xs| ==> xs[i] == 0
    ensures Sum(xs) == 0
  {
    if xs != [] {
      SumZeros(xs[1..]);
    }
  }

  // ---------- Division ----------

  lemma SmallMod(x: int, m: nat)
    requires 0 < m && 0 <= x + m && x < 2 * m
    ensures x % m == if x < 0 then x + m else if x < m then x else x - m
  {
    if x < 0 {
      DivisionIsUnique(x, m, -1, x + m);
    } else if x < m {
      DivisionIsUnique(x, m, 0, x);
    } else {
      DivisionIsUnique(x, m, 1, x - m);
    }
  }

  lemma DivisionIsUnique(x: int, m: nat, q: int, r: int)
    requires 0 < m && x == q * m + r && 0 <= r < m
    ensures x % m == r
  {
    var d := x / m - q;
    assert x == (x / m) * m + x % m;
    assert d * m == r - x % m;
    MulBounds(d, m);
  }

  lemma {:induction false} MulBounds(d: int, m: nat)
    ensures d >= 1 ==> d * m >= m
    ensures d <= -1 ==> d * m + m <= 0
    decreases if d < 0 then -d else d
  {
    if d > 1 {
      assert d * m == (d - 1) * m + m;
      MulBounds(d - 1, m);
    } else if d < -1 {
      assert d * m == (d + 1) * m - m;
      MulBounds(d + 1, m);
    }
  }

  lemma QuotientIsUnique(x: int, m: nat, q: int, r: int)
    requires 0 < m && x == q * m + r && 0 <= r < m
    ensures x / m == q
  {
    var d := x / m - q;
    assert d * m == r - x % m;
    MulBounds(d, m);
  }

  lemma SameRemainder(x: int, y: int, m: nat, q: int)
    requires 0 < m && x == y + q * m
    ensures x % m == y % m
  {
    var p := y / m;
    assert x == (p + q) * m + y % m by {
      assert (p + q) * m == p * m + q * m;
      assert y == p * m + y % m;
    }
    DivisionIsUnique(x, m, p + q, y % m);
  }
}
