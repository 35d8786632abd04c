/** Bits of unsigned integers, and the first-set-bit search of the kernel (kservice.c). */
module Bits {

  predicate Bit(v: nat, k: nat) {
    if k == 0 then v % 2 == 1 else Bit(v / 2, k - 1)
  }

  /** The unsigned operators `1 << k`, `|` and `& ~`. */
  function Shift(k: nat): nat {
    if k == 0 then 1 else 2 * Shift(k - 1)
  }

  function Or(a: nat, b: nat): (r: nat)
    decreases a + b
  {
    if a == 0 && b == 0 then 0
    else 2 * Or(a / 2, b / 2) + if a % 2 == 1 || b % 2 == 1 then 1 else 0
  }

  function AndNot(a: nat, b: nat): (r: nat)
    decreases a
  {
    if a == 0 then 0
    else 2 * AndNot(a / 2, b / 2) + if a % 2 == 1 && b % 2 == 0 then 1 else 0
  }

  lemma {:induction false} ZeroBits(k: nat)
    ensures !Bit(0, k)
  {
    if k > 0 {
      ZeroBits(k - 1);
    }
  }

  lemma {:induction false} OrBit(a: nat, b: nat, k: nat)
    ensures Bit(Or(a, b), k) <==> Bit(a, k) || Bit(b, k)
  {
    if a == 0 && b == 0 {
      ZeroBits(k);
    } else if k > 0 {
      OrBit(a / 2, b / 2, k - 1);
    }
  }

  lemma {:induction false} AndNotBit(a: nat, b: nat, k: nat)
    ensures Bit(AndNot(a, b), k) <==> Bit(a, k) && !Bit(b, k)
  {
    if a == 0 {
      ZeroBits(k);
    } else if k > 0 {
      AndNotBit(a / 2, b / 2, k - 1);
    }
  }

  lemma {:induction false} ShiftBit(p: nat, k: nat)
    ensures Bit(Shift(p), k) <==> k == p
  {
    if p == 0 {
      if k > 0 {
        ZeroBits(k - 1);
      }
    } else if k > 0 {
      ShiftBit(p - 1, k - 1);
    }
  }

  lemma {:induction false} OrBound(a: nat, b: nat, n: nat)
    requires a < Shift(n) && b < Shift(n)
    ensures Or(a, b) < Shift(n)
  {
    if n > 0 && (a > 0 || b > 0) {
      OrBound(a / 2, b / 2, n - 1);
    }
  }

  lemma {:induction false} AndNotBound(a: nat, b: nat)
    ensures AndNot(a, b) <= a
  {
    if a > 0 {
      AndNotBound(a / 2, b / 2);
    }
  }

  lemma {:induction false} ShiftBound(k: nat, n: nat)
    requires k < n
    ensures 0 < Shift(k) < Shift(n)
  {
    if k == 0 {
      ShiftPositive(n - 1);
    } else {
      ShiftBound(k - 1, n - 1);
    }
  }

  lemma {:induction false} ShiftPositive(k: nat)
    ensures 0 < Shift(k)
  {
    if k > 0 {
      ShiftPositive(k - 1);
    }
  }

  /** A number with no bit below `n` and smaller than 2^n is zero. */
  lemma {:induction false} NoBits(v: nat, n: nat)
    requires v < Shift(n) && forall k :: 0 <= k < n ==> !Bit(v, k)
    ensures v == 0
  {
    if n > 0 {
      assert !Bit(v, 0);
      forall k | 0 <= k < n - 1
        ensures !Bit(v / 2, k)
      {
        assert !Bit(v, k + 1);
      }
      NoBits(v / 2, n - 1);
    }
  }

  // ---- The first bit ----------------------------------------------------------------------

  /** The table of the lowest set bit of every byte, sixteen to a row. */
  const LOWEST: seq<seq<nat>> := [
    [0, 0, 1, 0, 2, 0, 1, 0, 3, 0, 1, 0, 2, 0, 1, 0],
    [4, 0, 1, 0, 2, 0, 1, 0, 3, 0, 1, 0, 2, 0, 1, 0],
    [5, 0, 1, 0, 2, 0, 1, 0, 3, 0, 1, 0, 2, 0, 1, 0],
    [4, 0, 1, 0, 2, 0, 1, 0, 3, 0, 1, 0, 2, 0, 1, 0],
    [6, 0, 1, 0, 2, 0, 1, 0, 3, 0, 1, 0, 2, 0, 1, 0],
    [4, 0, 1, 0, 2, 0, 1, 0, 3, 0, 1, 0, 2, 0, 1, 0],
    [5, 0, 1, 0, 2, 0, 1, 0, 3, 0, 1, 0, 2, 0, 1, 0],
    [4, 0, 1, 0, 2, 0, 1, 0, 3, 0, 1, 0, 2, 0, 1, 0],
    [7, 0, 1, 0, 2, 0, 1, 0, 3, 0, 1, 0, 2, 0, 1, 0],
    [4, 0, 1, 0, 2, 0, 1, 0, 3, 0, 1, 0, 2, 0, 1, 0],
    [5, 0, 1, 0, 2, 0, 1, 0, 3, 0, 1, 0, 2, 0, 1, 0],
    [4, 0, 1, 0, 2, 0, 1, 0, 3, 0, 1, 0, 2, 0, 1, 0],
    [6, 0, 1, 0, 2, 0, 1, 0, 3, 0, 1, 0, 2, 0, 1, 0],
    [4, 0, 1, 0, 2, 0, 1, 0, 3, 0, 1, 0, 2, 0, 1, 0],
    [5, 0, 1, 0, 2, 0, 1, 0, 3, 0, 1, 0, 2, 0, 1, 0],
    [4, 0, 1, 0, 2, 0, 1, 0, 3, 0, 1, 0, 2, 0, 1, 0]
  ]

  function LowestOf(b: nat): nat
    requires b < 256
  {
    LOWEST[b / 16][b % 16]
  }

  ghost predicate IsLowest(v: nat, k: nat) {
    Bit(v, k) && forall j :: 0 <= j < k ==> !Bit(v, j)
  }

  /** The lowest set bit, computed one bit at a time. */
  function Lowest(v: nat): (k: nat)
    requires v > 0
  {
    if v % 2 == 1 then 0 else 1 + Lowest(v / 2)
  }

  lemma {:induction false} LowestIs(v: nat)
    requires v > 0
    ensures IsLowest(v, Lowest(v))
  {
    if v % 2 == 0 {
      LowestIs(v / 2);
      forall j | 0 <= j < Lowest(v)
        ensures !Bit(v, j)
      {
        if j > 0 {
          assert !Bit(v / 2, j - 1);
        }
      }
    }
  }

  /** __rt_ffs, on the 32 bits of its argument. */
  function Ffs(value: nat): (r: nat)
    requires value < 0x1_0000_0000
  {
    if value == 0 then 0
    else if value % 256 != 0 then LowestOf(value % 256) + 1
    else if value / 0x100 % 256 != 0 then LowestOf(value / 0x100 % 256) + 9
    else if value / 0x1_0000 % 256 != 0 then LowestOf(value / 0x1_0000 % 256) + 17
    else LowestOf(value / 0x100_0000) + 25
  }

  lemma RowsAlike(r: nat, c: nat)
    requires r < 16 && 0 < c < 16
    ensures LOWEST[r][c] == LOWEST[0][c]
  {
  }

  lemma RowHead(r: nat)
    requires 0 < r < 16
    ensures LOWEST[r][0] == 4 + LOWEST[0][r]
  {
  }

  lemma FirstRow(c: nat)
    requires 0 < c < 16
    ensures LOWEST[0][c] == Lowest(c)
  {
  }

  /** The lowest bit of a number is that of its lower part, if there is one. */
  lemma {:induction false} LowestSplit(v: nat, hi: nat, lo: nat, n: nat)
    requires v == hi * Shift(n) + lo && lo < Shift(n) && v > 0
    ensures lo > 0 ==> Lowest(v) == Lowest(lo)
    ensures lo == 0 ==> hi > 0 && Lowest(v) == n + Lowest(hi)
  {
    if n > 0 {
      Halves(v, hi, lo, n);
      if v % 2 == 0 {
        LowestSplit(v / 2, hi, lo / 2, n - 1);
      }
    }
  }

  lemma Halves(v: nat, hi: nat, lo: nat, n: nat)
    requires n > 0 && v == hi * Shift(n) + lo && lo < Shift(n)
    ensures v % 2 == lo % 2 && v / 2 == hi * Shift(n - 1) + lo / 2 && lo / 2 < Shift(n - 1)
  {
    var half := hi * Shift(n - 1);
    assert hi * Shift(n) == 2 * half;
    assert v == 2 * (half + lo / 2) + lo % 2;
  }

  /** Every entry of the table is right. */
  lemma LowestOfIs(b: nat)
    requires 0 < b < 256
    ensures LowestOf(b) == Lowest(b)
  {
    hide Lowest;
    var r, c := b / 16, b % 16;
    assert Shift(4) == 16;
    LowestSplit(b, r, c, 4);
    if c > 0 {
      RowsAlike(r, c);
      FirstRow(c);
    } else {
      RowHead(r);
      FirstRow(r);
    }
  }

  /** Main result: for every value other than zero, the position of its lowest set bit, counted
      from one. */
  lemma FfsIs(value: nat)
    requires 0 < value < 0x1_0000_0000
    ensures 1 <= Ffs(value) && Ffs(value) == Lowest(value) + 1 && IsLowest(value, Ffs(value) - 1)
  {
    hide Lowest, LowestOf, IsLowest;
    LowestIs(value);
    assert Shift(8) == 0x100;
    var b1, b2, b3 := value / 0x100, value / 0x1_0000, value / 0x100_0000;
    LowestSplit(value, b1, value % 256, 8);
    if value % 256 != 0 {
      LowestOfIs(value % 256);
    } else {
      LowestSplit(b1, b2, b1 % 256, 8);
      if b1 % 256 != 0 {
        LowestOfIs(b1 % 256);
      } else {
        LowestSplit(b2, b3, b2 % 256, 8);
        LowestOfIs(if b2 % 256 != 0 then b2 % 256 else b3);
      }
    }
  }
}
