/**
Words as numbers, bit by bit, and the two versions of `__rt_ffs`, the position of the lowest
bit that is set.
*/
module Bits {

  function Pow2(k: nat): (r: nat)
    ensures r > 0
  {
    if k == 0 then 1 else 2 * Pow2(k - 1)
  }

  /** Bit `k` of `v`. */
  predicate Bit(v: nat, k: nat) {
    if k == 0 then v % 2 == 1 else Bit(v / 2, k - 1)
  }

  function Or(a: nat, b: nat): nat {
    if a == 0 then b else if b == 0 then a else
      2 * Or(a / 2, b / 2) + (if a % 2 == 1 || b % 2 == 1 then 1 else 0)
  }

  function And(a: nat, b: nat): nat {
    if a == 0 then 0 else 2 * And(a / 2, b / 2) + (if a % 2 == 1 && b % 2 == 1 then 1 else 0)
  }

  function Xor(a: nat, b: nat): nat {
    if a == 0 then b else 2 * Xor(a / 2, b / 2) + (if a % 2 != b % 2 then 1 else 0)
  }

  /** `a & ~b` */
  function AndNot(a: nat, b: nat): nat {
    if a == 0 then 0 else 2 * AndNot(a / 2, b / 2) + (if a % 2 == 1 && b % 2 == 0 then 1 else 0)
  }

  lemma {:induction false} OrBit(a: nat, b: nat, k: nat)
    ensures Bit(Or(a, b), k) == (Bit(a, k) || Bit(b, k))
    decreases k
  {
    ZeroBit(k);
    if a != 0 && b != 0 && k > 0 {
      OrBit(a / 2, b / 2, k - 1);
    }
  }

  lemma {:induction false} ZeroBit(k: nat)
    ensures !Bit(0, k)
  {
    if k > 0 {
      ZeroBit(k - 1);
    }
  }

  lemma {:induction false} AndNotBit(a: nat, b: nat, k: nat)
    ensures Bit(AndNot(a, b), k) == (Bit(a, k) && !Bit(b, k))
    decreases k
  {
    ZeroBit(k);
    if a != 0 && k > 0 {
      AndNotBit(a / 2, b / 2, k - 1);
    }
  }

  lemma {:induction false} Pow2Bit(k: nat, j: nat)
    ensures Bit(Pow2(k), j) <==> j == k
    decreases k
  {
    if k == 0 {
      if j > 0 {
        ZeroBit(j - 1);
      }
    } else if j > 0 {
      Pow2Bit(k - 1, j - 1);
    }
  }

  lemma {:induction false} OrBound(a: nat, b: nat, n: nat)
    requires a < Pow2(n) && b < Pow2(n)
    ensures Or(a, b) < Pow2(n)
    decreases n
  {
    if a != 0 && b != 0 {
      OrBound(a / 2, b / 2, n - 1);
    }
  }

  lemma {:induction false} AndNotBound(a: nat, b: nat)
    ensures AndNot(a, b) <= a
    decreases a
  {
    if a != 0 {
      AndNotBound(a / 2, b / 2);
    }
  }

  lemma {:induction false} Pow2Order(k: nat, n: nat)
    requires k < n
    ensures Pow2(k) < Pow2(n)
    decreases k
  {
    if k > 0 {
      Pow2Order(k - 1, n - 1);
    }
  }

  /** A word has a bit set exactly if it is not zero. */
  lemma NonZero(v: nat, k: nat)
    ensures Bit(v, k) ==> v > 0
    ensures v > 0 ==> Bit(v, Lowest(v))
  {
    ZeroBit(k);
    if v > 0 {
      LowestIsFirst(v, 0);
    }
  }

  // ---- the lowest bit ----------------------------------------------------------------------------

  function Lowest(v: nat): nat
    requires v > 0
  {
    if v % 2 == 1 then 0 else 1 + Lowest(v / 2)
  }

  /** It is set, and no bit below is. */
  lemma {:induction false} LowestIsFirst(v: nat, j: nat)
    requires v > 0
    ensures Bit(v, Lowest(v)) && (j < Lowest(v) ==> !Bit(v, j))
    decreases v
  {
    if v % 2 == 0 {
      LowestIsFirst(v / 2, if j > 0 then j - 1 else 0);
    }
  }

  /** A word with no bit set is zero, and one below `2^n` has its lowest bit below `n`. */
  lemma {:induction false} SomeBit(v: nat, n: nat)
    requires v < Pow2(n)
    ensures v > 0 ==> Lowest(v) < n
    decreases n
  {
    if v > 0 && v % 2 == 0 {
      SomeBit(v / 2, n - 1);
    }
  }

  lemma HalfOf(m: nat, lo: nat)
    ensures (2 * m + lo) % 2 == lo % 2 && (2 * m + lo) / 2 == m + lo / 2
  {
  }

  /** The lowest bit of a word made of two halves. */
  lemma {:induction false} LowestSplit(hi: nat, lo: nat, k: nat)
    requires lo < Pow2(k) && hi * Pow2(k) + lo > 0
    ensures Lowest(hi * Pow2(k) + lo) == if lo > 0 then Lowest(lo) else k + Lowest(hi)
    decreases k
  {
    hide Lowest;
    if k > 0 {
      var m := hi * Pow2(k - 1);
      assert hi * Pow2(k) == 2 * m;
      HalfOf(m, lo);
      LowestHalf(m, lo);
      if lo % 2 == 0 {
        LowestSplit(hi, lo / 2, k - 1);
      }
    } else {
      assert Pow2(0) == 1;
    }
  }

  lemma LowestHalf(m: nat, lo: nat)
    requires 2 * m + lo > 0
    ensures lo % 2 == 1 ==> Lowest(2 * m + lo) == 0 == Lowest(lo)
    ensures lo % 2 == 0 ==> Lowest(2 * m + lo) == 1 + Lowest(m + lo / 2)
    ensures lo % 2 == 0 && lo > 0 ==> Lowest(lo) == 1 + Lowest(lo / 2)
  {
    HalfOf(m, lo);
  }

  // ---- by table ----------------------------------------------------------------------------------

  /** One row of `__lowest_bit_bitmap`; the rows differ in their first entry only. */
  function Row(first: nat): (r: seq<nat>)
    ensures |r| == 16
  {
    [first, 0, 1, 0, 2, 0, 1, 0, 3, 0, 1, 0, 2, 0, 1, 0]
  }

  function FirstEntries(): (r: seq<nat>)
    ensures |r| == 16
  {
    [0, 4, 5, 4, 6, 4, 5, 4, 7, 4, 5, 4, 6, 4, 5, 4]
  }

  function LowestBitmap(b: nat): nat
    requires b < 256
  {
    Row(FirstEntries()[b / 16])[b % 16]
  }

  lemma RowEntry(b: nat, first: nat)
    requires 0 < b < 16
    ensures Row(first)[b] == Lowest(b)
  {
    if b % 2 == 0 && b % 4 != 0 {
      assert b / 2 % 2 == 1;
    }
  }

  lemma FirstEntry(hi: nat)
    requires 0 < hi < 16
    ensures FirstEntries()[hi] == 4 + Lowest(hi)
  {
    RowEntry(hi, 0);
  }

  lemma RowFirst(first: nat)
    ensures Row(first)[0] == first
  {
  }

  lemma TableEntry(b: nat)
    requires 0 < b < 256
    ensures LowestBitmap(b) == Lowest(b)
  {
    hide FirstEntries;
    hide Lowest;
    hide Row;
    var hi, lo := b / 16, b % 16;
    assert Pow2(4) == 16;
    LowestSplit(hi, lo, 4);
    if lo > 0 {
      RowEntry(lo, FirstEntries()[hi]);
    } else {
      FirstEntry(hi);
      RowFirst(FirstEntries()[hi]);
    }
  }

  /** `__rt_ffs` by table, a byte at a time. */
  function Ffs(v: nat): nat
    requires v < 0x1_0000_0000
  {
    if v == 0 then 0
    else if v % 256 != 0 then LowestBitmap(v % 256) + 1
    else if v / 256 % 256 != 0 then LowestBitmap(v / 256 % 256) + 9
    else if v / 65536 % 256 != 0 then LowestBitmap(v / 65536 % 256) + 17
    else LowestBitmap(v / 16777216) + 25
  }

  lemma FfsIsLowest(v: nat)
    requires 0 < v < 0x1_0000_0000
    ensures Ffs(v) == Lowest(v) + 1
  {
    assert Pow2(8) == 256;
    ByteSplit(v);
    if v % 256 == 0 {
      ByteSplit(v / 256);
      if v / 256 % 256 == 0 {
        ByteSplit(v / 65536);
        assert v / 256 / 256 == v / 65536;
        if v / 65536 % 256 == 0 {
          assert v / 65536 / 256 == v / 16777216;
          TableEntry(v / 16777216);
        }
      }
    }
  }

  lemma ByteSplit(v: nat)
    requires v > 0
    ensures Lowest(v) == if v % 256 > 0 then Lowest(v % 256) else 8 + Lowest(v / 256)
    ensures v % 256 > 0 ==> Lowest(v % 256) == LowestBitmap(v % 256)
  {
    assert Pow2(8) == 256;
    LowestSplit(v / 256, v % 256, 8);
    if v % 256 > 0 {
      TableEntry(v % 256);
    }
  }

  // ---- by remainder ------------------------------------------------------------------------------

  function RemainderBitmap(): (r: seq<nat>)
    ensures |r| == 37
  {
    [0, 1, 2, 27, 3, 24, 28, 32,
     4, 17, 25, 31, 29, 12, 32, 14,
     5, 8, 18, 32, 26, 23, 32, 16,
     30, 11, 13, 7, 32, 22, 15, 10,
     6, 21, 9, 20, 19]
  }

  /** `__rt_ffs` with RT_USING_TINY_FFS: isolates the lowest bit and looks up its remainder by 37. */
  function TinyFfs(v: nat): nat
    requires v < 0x1_0000_0000
  {
    if v == 0 then 0 else RemainderBitmap()[Xor(And(v, v - 1), v) % 37]
  }

  lemma {:induction false} AndSelf(a: nat)
    ensures And(a, a) == a && Xor(a, a) == 0
  {
    if a > 0 {
      AndSelf(a / 2);
    }
  }

  /** `v & (v - 1) ^ v` is the lowest bit alone. */
  lemma {:induction false} Isolated(v: nat)
    requires v > 0
    ensures Xor(And(v, v - 1), v) == Pow2(Lowest(v))
    decreases v
  {
    var a := v / 2;
    if v % 2 == 1 {
      assert (v - 1) / 2 == a;
      AndSelf(a);
      assert And(v, v - 1) == 2 * a == v - 1;
      if v - 1 > 0 {
        assert Xor(v - 1, v) == 2 * Xor(a, a) + 1;
      }
    } else {
      assert (v - 1) / 2 == a - 1 && (v - 1) % 2 == 1;
      Isolated(a);
      var x := And(a, a - 1);
      assert And(v, v - 1) == 2 * x;
      if x > 0 {
        assert (2 * x) / 2 == x;
        assert Xor(2 * x, v) == 2 * Xor(x, a);
      }
    }
  }

  lemma {:induction false} OrSelf(a: nat)
    ensures Or(a, a) == a
  {
    if a > 0 {
      OrSelf(a / 2);
    }
  }

  /** `v | (v - 1)` has all bits below the lowest one set as well. */
  lemma {:induction false} FilledBelow(v: nat)
    requires v > 0
    ensures Or(v, v - 1) == v + Pow2(Lowest(v)) - 1
    decreases v
  {
    var a := v / 2;
    if v % 2 == 1 {
      assert (v - 1) / 2 == a;
      OrSelf(a);
    } else {
      assert (v - 1) / 2 == a - 1 && (v - 1) % 2 == 1;
      FilledBelow(a);
      assert Or(v, v - 1) == 2 * Or(a, a - 1) + 1;
    }
  }

  lemma {:induction false} LowestOfPower(k: nat)
    ensures Lowest(Pow2(k)) == k
  {
    if k > 0 {
      LowestOfPower(k - 1);
      assert Pow2(k) / 2 == Pow2(k - 1) && Pow2(k) % 2 == 0;
    }
  }

  /** `(v | (v - 1)) + 1 == v << 1` tells the powers of two. */
  lemma PowerTest(v: nat)
    requires v > 0
    ensures Or(v, v - 1) + 1 == 2 * v <==> exists k: nat :: v == Pow2(k)
  {
    FilledBelow(v);
    if k: nat :| v == Pow2(k) {
      LowestOfPower(k);
    }
  }

  lemma {:induction false} Pow2Sum(a: nat, b: nat)
    ensures Pow2(a + b) == Pow2(a) * Pow2(b)
  {
    if a > 0 {
      Pow2Sum(a - 1, b);
      assert Pow2(a + b) == 2 * Pow2(a - 1 + b);
    }
  }

  /** The remainders of the powers of two. */
  function Remainders(): (r: seq<nat>)
    ensures |r| == 32
  {
    [1, 2, 4, 8, 16, 32, 27, 17, 34, 31, 25, 13, 26, 15, 30, 23,
     9, 18, 36, 35, 33, 29, 21, 5, 10, 20, 3, 6, 12, 24, 11, 22]
  }

  lemma {:induction false} PowerRemainder(k: nat)
    requires k < 32
    ensures Pow2(k) % 37 == Remainders()[k]
  {
    hide Remainders;
    if k == 0 {
      FirstRemainder();
    } else {
      PowerRemainder(k - 1);
      NextRemainder(k);
      DoubleRemainder(Pow2(k - 1));
    }
  }

  function TwiceMod(r: nat): nat {
    if 2 * r >= 37 then 2 * r - 37 else 2 * r
  }

  lemma DoubleRemainder(x: nat)
    ensures 2 * x % 37 == TwiceMod(x % 37)
  {
    var q, r := x / 37, x % 37;
    if 2 * r >= 37 {
      RemainderIs(2 * x, 2 * q + 1, 2 * r - 37);
    } else {
      RemainderIs(2 * x, 2 * q, 2 * r);
    }
  }

  lemma RemainderIs(x: nat, q: nat, r: nat)
    requires x == 37 * q + r && r < 37
    ensures x % 37 == r
  {
    var q', r' := x / 37, x % 37;
    assert 37 * (q - q') == r' - r;
  }

  lemma FirstRemainder()
    ensures Remainders()[0] == 1
  {
  }

  lemma NextRemainder(k: nat)
    requires 0 < k < 32
    ensures Remainders()[k] == TwiceMod(Remainders()[k - 1])
  {
  }

  lemma RemainderEntry(k: nat)
    requires k < 32
    ensures RemainderBitmap()[Remainders()[k]] == k + 1
  {
  }

  lemma FullWord()
    ensures Pow2(32) == 0x1_0000_0000
  {
    assert Pow2(8) == 256;
    assert Pow2(16) == 65536;
    assert Pow2(24) == 16777216;
  }

  lemma ZeroFfs()
    ensures Ffs(0) == 0
  {
  }

  /** Both versions of `__rt_ffs` give the same answer. */
  lemma TinyFfsIsFfs(v: nat)
    requires v < 0x1_0000_0000
    ensures TinyFfs(v) == Ffs(v)
  {
    hide RemainderBitmap;
    hide Remainders;
    hide Ffs;
    if v == 0 {
      ZeroFfs();
    } else {
      Isolated(v);
      FfsIsLowest(v);
      FullWord();
      SomeBit(v, 32);
      PowerRemainder(Lowest(v));
      RemainderEntry(Lowest(v));
    }
  }
}
