/**
A heap as the list of its blocks in address order. Every block begins with a header of
`h` bytes; its extent runs from `start` to `end`.
*/
module Blocks {

  datatype Block = Block(start: nat, end: nat, used: bool)

  /** The blocks lie end to end from `lo` to `hi`, each with room for its header. */
  ghost predicate Tiles(h: nat, bs: seq<Block>, lo: nat, hi: nat) {
    && (if bs == [] then lo == hi else bs[0].start == lo && bs[|bs| - 1].end == hi)
    && (forall i :: 0 <= i < |bs| ==> bs[i].start + h <= bs[i].end)
    && (forall i, j :: 0 <= i && j == i + 1 && j < |bs| ==> bs[i].end == bs[j].start)
  }

  ghost predicate NoTwoFree(bs: seq<Block>) {
    forall i, j :: 0 <= i && j == i + 1 && j < |bs| ==> bs[i].used || bs[j].used
  }

  lemma {:induction false} Ordered(h: nat, bs: seq<Block>, lo: nat, hi: nat, i: nat, j: nat)
    requires Tiles(h, bs, lo, hi) && i < j < |bs|
    ensures bs[i].end <= bs[j].start
    decreases j
  {
    if i < j - 1 {
      Ordered(h, bs, lo, hi, i, j - 1);
    }
  }

  /** No block starts before `lo` or ends after `hi`, and later blocks lie higher. */
  lemma AllOrdered(h: nat, bs: seq<Block>, lo: nat, hi: nat)
    requires Tiles(h, bs, lo, hi)
    ensures forall i, j :: 0 <= i < j < |bs| ==> bs[i].end <= bs[j].start
    ensures forall i :: 0 <= i < |bs| ==> lo <= bs[i].start && bs[i].end <= hi
  {
    forall i, j | 0 <= i < j < |bs| ensures bs[i].end <= bs[j].start {
      Ordered(h, bs, lo, hi, i, j);
    }
    forall i | 0 <= i < |bs| ensures lo <= bs[i].start && bs[i].end <= hi {
      if i > 0 { Ordered(h, bs, lo, hi, 0, i); }
      if i < |bs| - 1 { Ordered(h, bs, lo, hi, i, |bs| - 1); }
    }
  }

  lemma Within(h: nat, bs: seq<Block>, hi: nat, k: nat)
    requires Tiles(h, bs, 0, hi) && k < |bs|
    ensures bs[k].start + h <= bs[k].end <= hi
  {
    AllOrdered(h, bs, 0, hi);
  }

  /** No two blocks start at the same address. */
  lemma SameStart(h: nat, bs: seq<Block>, hi: nat, k: nat, b: Block)
    requires 0 < h && Tiles(h, bs, 0, hi) && k < |bs| && b.start == bs[k].start
    ensures b == bs[k] || b !in bs
  {
    AllOrdered(h, bs, 0, hi);
  }

  /** `n` blocks from `k` on replaced by `mid`. */
  function Replace(bs: seq<Block>, k: nat, n: nat, mid: seq<Block>): seq<Block>
    requires k + n <= |bs|
  {
    bs[..k] + mid + bs[k + n..]
  }

  lemma TilesConcat(h: nat, a: seq<Block>, b: seq<Block>, lo: nat, x: nat, hi: nat)
    requires Tiles(h, a, lo, x) && Tiles(h, b, x, hi)
    ensures Tiles(h, a + b, lo, hi)
  {
    var r := a + b;
    forall i | 0 <= i < |r| - 1 ensures r[i].end == r[i + 1].start {
      if i < |a| - 1 {
        assert a[i].end == a[i + 1].start;
      } else if i >= |a| {
        assert b[i - |a|].end == b[i - |a| + 1].start;
      }
    }
  }

  /** Where block `k` starts, or the end of the heap. */
  function StartAt(bs: seq<Block>, k: nat, hi: nat): nat
    requires k <= |bs|
  {
    if k < |bs| then bs[k].start else hi
  }

  lemma TilesSplit(h: nat, bs: seq<Block>, k: nat, lo: nat, hi: nat)
    requires Tiles(h, bs, lo, hi) && k <= |bs|
    ensures Tiles(h, bs[..k], lo, StartAt(bs, k, hi)) && Tiles(h, bs[k..], StartAt(bs, k, hi), hi)
  {
    if 0 < k < |bs| {
      assert bs[k - 1].end == bs[k - 1 + 1].start;
    }
  }

  lemma ReplaceTiles(h: nat, bs: seq<Block>, k: nat, n: nat, mid: seq<Block>, lo: nat, hi: nat)
    requires Tiles(h, bs, lo, hi) && k + n <= |bs|
    requires Tiles(h, mid, StartAt(bs, k, hi), StartAt(bs, k + n, hi))
    ensures Tiles(h, Replace(bs, k, n, mid), lo, hi)
  {
    TilesSplit(h, bs, k, lo, hi);
    TilesSplit(h, bs, k + n, lo, hi);
    TilesConcat(h, bs[..k], mid, lo, StartAt(bs, k, hi), StartAt(bs, k + n, hi));
    TilesConcat(h, bs[..k] + mid, bs[k + n..], lo, StartAt(bs, k + n, hi), hi);
  }

  // ---- accounting ----------------------------------------------------------------

  /** Extent, headers included, of those of the first `n` blocks that have the given state. */
  ghost function ExtentTo(bs: seq<Block>, n: nat, used: bool): (s: int)
    requires n <= |bs|
  {
    if n == 0 then 0
    else ExtentTo(bs, n - 1, used) + if bs[n - 1].used == used then bs[n - 1].end - bs[n - 1].start else 0
  }

  ghost function Extent(bs: seq<Block>, used: bool): (s: int) {
    ExtentTo(bs, |bs|, used)
  }

  lemma {:induction false} ExtentPrefix(a: seq<Block>, b: seq<Block>, n: nat, used: bool)
    requires n <= |a| && n <= |b| && forall i :: 0 <= i < n ==> a[i] == b[i]
    ensures ExtentTo(a, n, used) == ExtentTo(b, n, used)
  {
    if n > 0 {
      ExtentPrefix(a, b, n - 1, used);
    }
  }

  lemma {:induction false} ExtentConcat(a: seq<Block>, b: seq<Block>, n: nat, used: bool)
    requires n <= |b|
    ensures ExtentTo(a + b, |a| + n, used) == Extent(a, used) + ExtentTo(b, n, used)
  {
    if n == 0 {
      ExtentPrefix(a + b, a, |a|, used);
    } else {
      ExtentConcat(a, b, n - 1, used);
    }
  }

  lemma ExtentAround(a: seq<Block>, mid: seq<Block>, c: seq<Block>, used: bool)
    ensures Extent(a + mid + c, used) == Extent(a, used) + Extent(mid, used) + Extent(c, used)
  {
    ExtentConcat(a + mid, c, |c|, used);
    ExtentConcat(a, mid, |mid|, used);
  }

  /** `mid` in place of `was`. */
  lemma ReplaceExtent(bs: seq<Block>, k: nat, n: nat, was: seq<Block>, mid: seq<Block>, used: bool)
    requires k + n <= |bs| && was == bs[k..k + n]
    ensures Extent(Replace(bs, k, n, mid), used) == Extent(bs, used) - Extent(was, used) + Extent(mid, used)
  {
    assert bs == bs[..k] + was + bs[k + n..];
    ExtentAround(bs[..k], was, bs[k + n..], used);
    ExtentAround(bs[..k], mid, bs[k + n..], used);
  }

  /** Used and free extents together make up the heap. */
  lemma {:induction false} ExtentTotal(h: nat, bs: seq<Block>, lo: nat, hi: nat, n: nat)
    requires Tiles(h, bs, lo, hi) && n <= |bs|
    ensures ExtentTo(bs, n, true) + ExtentTo(bs, n, false) == StartAt(bs, n, hi) - lo
  {
    if n > 0 {
      ExtentTotal(h, bs, lo, hi, n - 1);
      assert n < |bs| ==> bs[n - 1].end == bs[n - 1 + 1].start;
    }
  }

  // ---- searching -----------------------------------------------------------------

  predicate Fits(h: nat, b: Block, size: nat) {
    !b.used && b.end - b.start - h >= size
  }

  /** Index of the first block that fits, or the length of the list. */
  function FirstFit(h: nat, bs: seq<Block>, size: nat): (k: nat)
    ensures k <= |bs|
    ensures forall i :: 0 <= i < k ==> !Fits(h, bs[i], size)
    ensures k < |bs| ==> Fits(h, bs[k], size)
  {
    if bs == [] then 0 else
    if Fits(h, bs[0], size) then 0 else
      var k := FirstFit(h, bs[1..], size);
      assert forall i :: 0 < i < k + 1 ==> bs[i] == bs[1..][i - 1];
      k + 1
  }

  function FirstFree(bs: seq<Block>): (k: nat)
    ensures k <= |bs|
    ensures forall i :: 0 <= i < k ==> bs[i].used
    ensures k < |bs| ==> !bs[k].used
  {
    if bs == [] then 0 else
    if !bs[0].used then 0 else
      var k := FirstFree(bs[1..]);
      assert forall i :: 0 < i < k + 1 ==> bs[i] == bs[1..][i - 1];
      k + 1
  }

  // ---- the operations on block lists ------------------------------------------------

  /** Block `k` cut behind `size` bytes: a used block and a free one. */
  function CutAt(h: nat, bs: seq<Block>, k: nat, size: nat): seq<Block>
    requires k < |bs|
  {
    var cut := bs[k].start + h + size;
    Replace(bs, k, 1, [Block(bs[k].start, cut, true), Block(cut, bs[k].end, false)])
  }

  /** Allocation in block `k`: split when the rest has room for a header and `min` bytes. */
  function AllocAt(h: nat, min: nat, bs: seq<Block>, k: nat, size: nat): seq<Block>
    requires k < |bs|
  {
    var b := bs[k];
    if b.end - b.start - h >= size + h + min
    then CutAt(h, bs, k, size)
    else bs[k := b.(used := true)]
  }

  /** Block `k` joined with the next one if that is free. */
  function MergeNext(bs: seq<Block>, k: nat): seq<Block>
    requires k < |bs|
  {
    if k + 1 < |bs| && !bs[k + 1].used
    then Replace(bs, k, 2, [Block(bs[k].start, bs[k + 1].end, bs[k].used)])
    else bs
  }

  /** A free block joined with its free neighbours, the next one first. */
  function Coalesce(bs: seq<Block>, k: nat): seq<Block>
    requires k < |bs|
  {
    var m := MergeNext(bs, k);
    if k > 0 && !m[k - 1].used then MergeNext(m, k - 1) else m
  }

  function FreeAt(bs: seq<Block>, k: nat): seq<Block>
    requires k < |bs|
  {
    Coalesce(bs[k := bs[k].(used := false)], k)
  }

  /** The end of block `k` cut off as a free block, which joins a free block behind it. */
  function ShrinkAt(h: nat, bs: seq<Block>, k: nat, size: nat): seq<Block>
    requires k < |bs|
  {
    MergeNext(CutAt(h, bs, k, size), k + 1)
  }

  // ---- what the operations keep -------------------------------------------------------

  ghost predicate HeapOk(h: nat, bs: seq<Block>, hi: nat) {
    Tiles(h, bs, 0, hi) && NoTwoFree(bs)
  }

  /** Of the used blocks, exactly `minus` are gone and exactly `plus` are new. */
  ghost predicate UsedChange(bs: seq<Block>, bs': seq<Block>, minus: set<Block>, plus: set<Block>) {
    forall b: Block :: b.used ==> (b in bs' <==> (b in bs && b !in minus) || b in plus)
  }

  lemma ReplaceUsed(h: nat, bs: seq<Block>, k: nat, n: nat, was: seq<Block>, mid: seq<Block>, lo: nat, hi: nat)
    requires 0 < h && Tiles(h, bs, lo, hi) && k + n <= |bs| && was == bs[k..k + n]
    ensures UsedChange(bs, Replace(bs, k, n, mid), set b | b in was && b.used, set b | b in mid && b.used)
  {
    AllOrdered(h, bs, lo, hi);
    assert forall i, j :: 0 <= i < j < |bs| ==> bs[i] != bs[j];
    ReplaceMembers(bs, k, n, was, mid);
  }

  lemma ReplaceMembers(bs: seq<Block>, k: nat, n: nat, was: seq<Block>, mid: seq<Block>)
    requires k + n <= |bs| && was == bs[k..k + n]
    requires forall i, j :: 0 <= i < j < |bs| ==> bs[i] != bs[j]
    ensures forall b :: b in Replace(bs, k, n, mid) <==> (b in bs && b !in was) || b in mid
  {
    var a, c := bs[..k], bs[k + n..];
    assert bs == a + was + c;
    forall b ensures b in Replace(bs, k, n, mid) <==> (b in bs && b !in was) || b in mid {
      assert b in bs <==> b in a || b in was || b in c;
      assert b in a || b in c ==> b !in was;
    }
  }

  lemma ExtentOf(b: Block, c: Block, used: bool)
    ensures Extent([b], used) == if b.used == used then b.end - b.start else 0
    ensures Extent([b, c], used) == Extent([b], used) + Extent([c], used)
  {
    assert ExtentTo([b, c], 1, used) == ExtentTo([b], 1, used);
    assert ExtentTo([b, c], 2, used) == ExtentTo([b, c], 1, used) + ExtentTo([c], 1, used);
  }

  // ---- allocation

  /** The block that an allocation in the free block `b` hands out. */
  function Handed(h: nat, min: nat, b: Block, size: nat): Block {
    if b.end - b.start - h >= size + h + min then Block(b.start, b.start + h + size, true) else b.(used := true)
  }

  lemma AllocTiles(h: nat, min: nat, bs: seq<Block>, hi: nat, k: nat, size: nat)
    requires HeapOk(h, bs, hi) && k < |bs| && Fits(h, bs[k], size)
    ensures HeapOk(h, AllocAt(h, min, bs, k, size), hi)
  {
    var b := bs[k];
    if b.end - b.start - h >= size + h + min {
      CutTiles(h, bs, hi, k, size);
      CutNoTwoFree(h, bs, k, size);
    } else {
      RemarkTiles(h, bs, hi, k, b.(used := true));
      MarkNoTwoFree(bs, k);
    }
  }

  lemma MarkNoTwoFree(bs: seq<Block>, k: nat)
    requires NoTwoFree(bs) && k < |bs|
    ensures NoTwoFree(bs[k := bs[k].(used := true)])
  {
  }

  lemma CutNoTwoFree(h: nat, bs: seq<Block>, k: nat, size: nat)
    requires NoTwoFree(bs) && k < |bs|
    ensures |CutAt(h, bs, k, size)| == |bs| + 1
    ensures CutAt(h, bs, k, size)[k].used && !CutAt(h, bs, k, size)[k + 1].used
    ensures NoTwoFreeBut(CutAt(h, bs, k, size), k + 1)
    ensures !bs[k].used ==> NoTwoFree(CutAt(h, bs, k, size))
  {
    var r := CutAt(h, bs, k, size);
    assert r[k].used && !r[k + 1].used;
    assert forall i :: 0 <= i < |r| && i != k && i != k + 1 ==> r[i] == if i < k then bs[i] else bs[i - 1];
    forall i, j | 0 <= i && j == i + 1 && j < |r| && (i != k + 1 || !bs[k].used) ensures r[i].used || r[j].used {
      if i > k {
        assert bs[i - 1].used || bs[j - 1].used;
      }
    }
  }

  lemma CutTiles(h: nat, bs: seq<Block>, hi: nat, k: nat, size: nat)
    requires Tiles(h, bs, 0, hi) && k < |bs| && bs[k].start + h + size + h <= bs[k].end
    ensures Tiles(h, CutAt(h, bs, k, size), 0, hi)
  {
    hide Replace;
    var cut := bs[k].start + h + size;
    assert k + 1 < |bs| ==> bs[k].end == bs[k + 1].start;
    ReplaceTiles(h, bs, k, 1, [Block(bs[k].start, cut, true), Block(cut, bs[k].end, false)], 0, hi);
  }

  /** Cutting a block exchanges it for its first half, or adds that if it was free. */
  lemma CutUsed(h: nat, bs: seq<Block>, hi: nat, k: nat, size: nat, u: Block)
    requires 0 < h && Tiles(h, bs, 0, hi) && k < |bs| && u == Block(bs[k].start, bs[k].start + h + size, true)
    ensures UsedChange(bs, CutAt(h, bs, k, size), if bs[k].used then {bs[k]} else {}, {u})
    ensures Extent(CutAt(h, bs, k, size), true) ==
      Extent(bs, true) - (if bs[k].used then bs[k].end - bs[k].start else 0) + (u.end - u.start)
  {
    hide Tiles, Replace, Extent, UsedChange;
    var f := Block(u.end, bs[k].end, false);
    assert bs[k..k + 1] == [bs[k]];
    ReplaceUsed(h, bs, k, 1, [bs[k]], [u, f], 0, hi);
    UsedOf(bs[k], u, f);
    ReplaceExtent(bs, k, 1, [bs[k]], [u, f], true);
    ExtentOf(bs[k], u, true);
    ExtentOf(u, f, true);
    ExtentOf(f, u, true);
  }

  lemma UsedOf(b: Block, u: Block, f: Block)
    requires u.used && !f.used
    ensures (set x | x in [b] && x.used) == (if b.used then {b} else {})
    ensures (set x | x in [u, f] && x.used) == {u}
  {
  }

  /** The used blocks gain the one handed out, and the used extent gains its extent. */
  /** What is handed out of block `k`: enough, and less than would leave room for another block of `min`
      bytes; the rest, if any, is a free block of at least `min` bytes behind it. */
  lemma AllocShape(h: nat, min: nat, bs: seq<Block>, k: nat, size: nat)
    requires 0 < h && k < |bs| && Fits(h, bs[k], size)
    ensures var r := AllocAt(h, min, bs, k, size);
      && k < |r| && r[k].used && r[k].start == bs[k].start && r[k].start + h + size <= r[k].end
      && r[k].end - r[k].start - h < size + h + min
      && (r[k].end == bs[k].end || (r[k].end == r[k].start + h + size
            && k + 1 < |r| && r[k + 1] == Block(r[k].end, bs[k].end, false) && r[k].end + h + min <= bs[k].end))
  {
  }

  lemma AllocUsed(h: nat, min: nat, bs: seq<Block>, hi: nat, k: nat, size: nat)
    requires 0 < h && Tiles(h, bs, 0, hi) && k < |bs| && Fits(h, bs[k], size)
    ensures UsedChange(bs, AllocAt(h, min, bs, k, size), {}, {Handed(h, min, bs[k], size)})
    ensures Extent(AllocAt(h, min, bs, k, size), true)
      == Extent(bs, true) + Handed(h, min, bs[k], size).end - bs[k].start
  {
    var b := bs[k];
    if b.end - b.start - h >= size + h + min {
      CutUsed(h, bs, hi, k, size, Block(b.start, b.start + h + size, true));
    } else {
      MarkUsed(h, bs, hi, k, b.(used := true));
    }
  }

  lemma MarkUsed(h: nat, bs: seq<Block>, hi: nat, k: nat, u: Block)
    requires 0 < h && Tiles(h, bs, 0, hi) && k < |bs| && !bs[k].used && u == bs[k].(used := true)
    ensures UsedChange(bs, bs[k := u], {}, {u})
    ensures Extent(bs[k := u], true) == Extent(bs, true) + (u.end - u.start)
  {
    assert bs[k := u] == Replace(bs, k, 1, [u]);
    ReplaceUsed(h, bs, k, 1, [bs[k]], [u], 0, hi);
    ReplaceExtent(bs, k, 1, [bs[k]], [u], true);
    ExtentOf(bs[k], u, true);
    ExtentOf(u, u, true);
  }

  // ---- freeing

  /** Joining a free block with the next one changes neither the used blocks nor the accounts. */
  lemma MergeKeeps(h: nat, bs: seq<Block>, hi: nat, k: nat)
    requires 0 < h && Tiles(h, bs, 0, hi) && k < |bs| && !bs[k].used
    ensures Tiles(h, MergeNext(bs, k), 0, hi)
    ensures UsedChange(bs, MergeNext(bs, k), {}, {}) && Extent(MergeNext(bs, k), true) == Extent(bs, true)
  {
    if k + 1 < |bs| && !bs[k + 1].used {
      var mid := [Block(bs[k].start, bs[k + 1].end, false)];
      MergeTiles(h, bs, hi, k);
      ReplaceUsed(h, bs, k, 2, [bs[k], bs[k + 1]], mid, 0, hi);
      ReplaceExtent(bs, k, 2, [bs[k], bs[k + 1]], mid, true);
      ExtentOf(bs[k], bs[k + 1], true);
      ExtentOf(bs[k + 1], mid[0], true);
      ExtentOf(mid[0], mid[0], true);
    }
  }

  lemma MergeTiles(h: nat, bs: seq<Block>, hi: nat, k: nat)
    requires Tiles(h, bs, 0, hi) && k + 1 < |bs|
    ensures Tiles(h, Replace(bs, k, 2, [Block(bs[k].start, bs[k + 1].end, bs[k].used)]), 0, hi)
  {
    assert bs[k].end == bs[k + 1].start;
    assert k + 2 < |bs| ==> bs[k + 1].end == bs[k + 1 + 1].start;
    ReplaceTiles(h, bs, k, 2, [Block(bs[k].start, bs[k + 1].end, bs[k].used)], 0, hi);
  }

  /** Only block `k` may have a free neighbour. */
  ghost predicate NoTwoFreeBut(bs: seq<Block>, k: nat) {
    forall i, j :: 0 <= i && j == i + 1 && j < |bs| && i != k && j != k ==> bs[i].used || bs[j].used
  }

  lemma MergeNoTwoFree(bs: seq<Block>, k: nat)
    requires k < |bs| && !bs[k].used && NoTwoFreeBut(bs, k)
    ensures var m := MergeNext(bs, k);
      && k < |m| <= |bs| && m[k].start == bs[k].start && !m[k].used && m[..k] == bs[..k]
      && NoTwoFreeBut(m, k) && (k + 1 < |m| ==> m[k + 1].used)
  {
    var m := MergeNext(bs, k);
    if k + 1 < |bs| && !bs[k + 1].used {
      assert forall i :: 0 <= i < |m| ==>
        m[i] == if i < k then bs[i] else if i == k then Block(bs[k].start, bs[k + 1].end, false) else bs[i + 1];
      assert k + 2 < |bs| ==> bs[k + 1].used || bs[k + 1 + 1].used;
      forall i | 0 <= i < |m| - 1 && i != k && i + 1 != k ensures m[i].used || m[i + 1].used {
        if i < k {
          assert bs[i].used || bs[i + 1].used;
        } else {
          assert bs[i + 1].used || bs[i + 1 + 1].used;
        }
      }
    }
  }

  lemma CoalesceNoTwoFree(bs: seq<Block>, k: nat)
    requires k < |bs| && !bs[k].used && NoTwoFreeBut(bs, k)
    ensures NoTwoFree(Coalesce(bs, k))
  {
    MergeNoTwoFree(bs, k);
    var m := MergeNext(bs, k);
    if k > 0 && !m[k - 1].used {
      var c := MergeNext(m, k - 1);
      assert forall i :: 0 <= i < |c| ==>
        c[i] == if i < k - 1 then m[i] else if i == k - 1 then Block(m[k - 1].start, m[k].end, false) else m[i + 1];
      if k > 1 {
        assert m[k - 2].used;
      }
      forall i | 0 <= i < |c| - 1 ensures c[i].used || c[i + 1].used {
        if i < k - 2 {
          assert m[i].used || m[i + 1].used;
        } else if i > k - 1 {
          assert m[i + 1].used || m[i + 1 + 1].used;
        }
      }
    } else {
      forall i | 0 <= i < |m| - 1 ensures m[i].used || m[i + 1].used {
        assert i != k && i + 1 != k ==> m[i].used || m[i + 1].used;
      }
    }
  }

  lemma CoalesceKeeps(h: nat, bs: seq<Block>, hi: nat, k: nat)
    requires 0 < h && Tiles(h, bs, 0, hi) && k < |bs| && !bs[k].used && NoTwoFreeBut(bs, k)
    ensures HeapOk(h, Coalesce(bs, k), hi)
    ensures UsedChange(bs, Coalesce(bs, k), {}, {}) && Extent(Coalesce(bs, k), true) == Extent(bs, true)
  {
    MergeKeeps(h, bs, hi, k);
    MergeNoTwoFree(bs, k);
    var m := MergeNext(bs, k);
    if k > 0 && !m[k - 1].used {
      MergeKeeps(h, m, hi, k - 1);
    }
    CoalesceNoTwoFree(bs, k);
  }

  lemma FreeKeeps(h: nat, bs: seq<Block>, hi: nat, k: nat)
    requires 0 < h && HeapOk(h, bs, hi) && k < |bs| && bs[k].used
    ensures HeapOk(h, FreeAt(bs, k), hi)
    ensures UsedChange(bs, FreeAt(bs, k), {bs[k]}, {})
    ensures Extent(FreeAt(bs, k), true) == Extent(bs, true) - (bs[k].end - bs[k].start)
  {
    var f := bs[k].(used := false);
    RemarkTiles(h, bs, hi, k, f);
    MarkFree(h, bs, hi, k, f);
    CoalesceKeeps(h, bs[k := f], hi, k);
  }

  lemma MarkFree(h: nat, bs: seq<Block>, hi: nat, k: nat, f: Block)
    requires 0 < h && Tiles(h, bs, 0, hi) && k < |bs| && bs[k].used && f == bs[k].(used := false)
    ensures UsedChange(bs, bs[k := f], {bs[k]}, {})
    ensures Extent(bs[k := f], true) == Extent(bs, true) - (bs[k].end - bs[k].start)
  {
    assert bs[k := f] == Replace(bs, k, 1, [f]);
    ReplaceUsed(h, bs, k, 1, [bs[k]], [f], 0, hi);
    ReplaceExtent(bs, k, 1, [bs[k]], [f], true);
    ExtentOf(bs[k], f, true);
    ExtentOf(f, f, true);
  }

  lemma RemarkTiles(h: nat, bs: seq<Block>, hi: nat, k: nat, b: Block)
    requires Tiles(h, bs, 0, hi) && k < |bs| && b.start == bs[k].start && b.end == bs[k].end
    ensures Tiles(h, bs[k := b], 0, hi)
  {
  }

  /** Freeing a block just allocated gives back the very same blocks. */
  lemma FreeUndoesAlloc(h: nat, min: nat, bs: seq<Block>, hi: nat, k: nat, size: nat, bs': seq<Block>)
    requires HeapOk(h, bs, hi) && k < |bs| && Fits(h, bs[k], size) && bs' == AllocAt(h, min, bs, k, size)
    ensures FreeAt(bs', k) == bs
  {
    var b := bs[k];
    assert k > 0 ==> bs[k - 1].used;
    if b.end - b.start - h >= size + h + min {
      MergeUndoesCut(h, bs, k, size, CutAt(h, bs, k, size));
    } else {
      UnmarkUndoesMark(bs, k);
    }
  }

  lemma UnmarkUndoesMark(bs: seq<Block>, k: nat)
    requires NoTwoFree(bs) && k < |bs| && !bs[k].used && (k > 0 ==> bs[k - 1].used)
    ensures FreeAt(bs[k := bs[k].(used := true)], k) == bs
  {
    assert bs[k := bs[k].(used := true)][k := bs[k]] == bs;
  }


  lemma MergeUndoesCut(h: nat, bs: seq<Block>, k: nat, size: nat, r: seq<Block>)
    requires k < |bs| && !bs[k].used && (k > 0 ==> bs[k - 1].used) && r == CutAt(h, bs, k, size)
    ensures FreeAt(r, k) == bs
  {
    var m := r[k := r[k].(used := false)];
    assert m[k].start == bs[k].start && m[k + 1].end == bs[k].end && !m[k + 1].used;
    assert Replace(m, k, 2, [bs[k]]) == bs;
  }

  // ---- shrinking

  /** A block cut short stays where it is; what it loses becomes free. */
  lemma ShrinkKeeps(h: nat, bs: seq<Block>, hi: nat, k: nat, size: nat)
    requires 0 < h && HeapOk(h, bs, hi) && k < |bs| && bs[k].used && bs[k].start + h + size + h <= bs[k].end
    ensures HeapOk(h, ShrinkAt(h, bs, k, size), hi)
    ensures UsedChange(bs, ShrinkAt(h, bs, k, size), {bs[k]}, {Block(bs[k].start, bs[k].start + h + size, true)})
    ensures Extent(ShrinkAt(h, bs, k, size), true) == Extent(bs, true) - (bs[k].end - (bs[k].start + h + size))
  {
    var r := CutAt(h, bs, k, size);
    CutTiles(h, bs, hi, k, size);
    CutUsed(h, bs, hi, k, size, Block(bs[k].start, bs[k].start + h + size, true));
    CutNoTwoFree(h, bs, k, size);
    MergeKeeps(h, r, hi, k + 1);
    ShrinkIsCoalesce(r, k);
    CoalesceNoTwoFree(r, k + 1);
  }

  lemma ShrinkIsCoalesce(r: seq<Block>, k: nat)
    requires k + 1 < |r| && r[k].used
    ensures Coalesce(r, k + 1) == MergeNext(r, k + 1)
  {
  }

  // ---- freeing everything

  /** Index of the block that starts at `p`, or the length of the list. */
  ghost function FindStart(bs: seq<Block>, p: nat): (k: nat)
    ensures k <= |bs|
    ensures k < |bs| ==> bs[k].start == p
    ensures k == |bs| ==> forall b :: b in bs ==> b.start != p
  {
    if exists k :: 0 <= k < |bs| && bs[k].start == p then var k :| 0 <= k < |bs| && bs[k].start == p; k else |bs|
  }

  /** All blocks that start at one of the given offsets freed, in the given order. */
  ghost function FreeInOrder(bs: seq<Block>, order: seq<nat>): seq<Block>
    decreases |order|
  {
    if order == [] then bs else
      var k := FindStart(bs, order[0]);
      FreeInOrder(if k < |bs| then FreeAt(bs, k) else bs, order[1..])
  }

  /** The used blocks are exactly those that start at one of the offsets. */
  ghost predicate UsedAre(bs: seq<Block>, starts: seq<nat>) {
    forall b :: b in bs ==> (b.used <==> b.start in starts)
  }

  ghost function FreeStarts(bs: seq<Block>): set<nat> {
    set b | b in bs && !b.used :: b.start
  }

  /** A joined block starts where a free block started. */
  lemma MergeStarts(bs: seq<Block>, k: nat)
    requires k < |bs| && !bs[k].used
    ensures FreeStarts(MergeNext(bs, k)) <= FreeStarts(bs)
  {
    if k + 1 < |bs| && !bs[k + 1].used {
      var mid := [Block(bs[k].start, bs[k + 1].end, false)];
      assert bs[k] in bs;
      forall b | b in MergeNext(bs, k) && !b.used ensures b.start in FreeStarts(bs) {
        assert b in bs[..k] || b in mid || b in bs[k + 2..];
      }
    }
  }

  lemma CoalesceStarts(bs: seq<Block>, k: nat)
    requires k < |bs| && !bs[k].used && NoTwoFreeBut(bs, k)
    ensures FreeStarts(Coalesce(bs, k)) <= FreeStarts(bs)
  {
    MergeStarts(bs, k);
    MergeNoTwoFree(bs, k);
    var m := MergeNext(bs, k);
    if k > 0 && !m[k - 1].used {
      MergeStarts(m, k - 1);
    }
  }

  lemma FirstTwo(bs: seq<Block>)
    requires NoTwoFree(bs) && |bs| > 1
    ensures bs[0].used || bs[1].used
  {
    assert bs[0].used || bs[0 + 1].used;
  }

  lemma OneBlockLeft(h: nat, bs: seq<Block>, hi: nat)
    requires HeapOk(h, bs, hi) && 0 < hi && forall b :: b in bs ==> !b.used
    ensures bs == [Block(0, hi, false)]
  {
    assert forall i :: 0 <= i < |bs| ==> bs[i] in bs && !bs[i].used;
    if |bs| > 1 {
      FirstTwo(bs);
      assert false;
    }
  }

  /** Freeing all live blocks, in any order, leaves one free block spanning the heap. */
  lemma {:induction false} FreeAll(h: nat, bs: seq<Block>, hi: nat, order: seq<nat>)
    requires 0 < h && 0 < hi && HeapOk(h, bs, hi) && UsedAre(bs, order)
    requires forall i, j :: 0 <= i < j < |order| ==> order[i] != order[j]
    ensures FreeInOrder(bs, order) == [Block(0, hi, false)]
    decreases |order|
  {
    hide HeapOk, FreeAt;
    if order == [] {
      OneBlockLeft(h, bs, hi);
    } else {
      var k := FindStart(bs, order[0]);
      if k < |bs| {
        assert bs[k] in bs;
        var next := FreeAt(bs, k);
        FreeOne(h, bs, hi, k, order);
        FreeAll(h, next, hi, order[1..]);
      } else {
        SkipOne(bs, order);
        FreeAll(h, bs, hi, order[1..]);
      }
    }
  }

  lemma SkipOne(bs: seq<Block>, order: seq<nat>)
    requires order != [] && UsedAre(bs, order) && forall b :: b in bs ==> b.start != order[0]
    ensures UsedAre(bs, order[1..])
  {
    assert order == [order[0]] + order[1..];
  }

  lemma FreeOne(h: nat, bs: seq<Block>, hi: nat, k: nat, order: seq<nat>)
    requires 0 < h && HeapOk(h, bs, hi) && UsedAre(bs, order) && order != []
    requires k < |bs| && bs[k].used && bs[k].start == order[0] && order[0] !in order[1..]
    ensures HeapOk(h, FreeAt(bs, k), hi) && UsedAre(FreeAt(bs, k), order[1..])
  {
    var f := bs[k].(used := false);
    FreeKeeps(h, bs, hi, k);
    AllOrdered(h, bs, 0, hi);
    CoalesceStarts(bs[k := f], k);
    UsedAfterFree(bs, k, f, order, FreeAt(bs, k));
  }

  lemma UsedAfterFree(bs: seq<Block>, k: nat, f: Block, order: seq<nat>, bs': seq<Block>)
    requires k < |bs| && UsedAre(bs, order) && order != [] && bs[k].start == order[0] && order[0] !in order[1..]
    requires bs[k].used && f == bs[k].(used := false)
    requires UsedChange(bs, bs', {bs[k]}, {}) && FreeStarts(bs') <= FreeStarts(bs[k := f])
    requires forall i, j :: 0 <= i < j < |bs| ==> bs[i].start < bs[i].end <= bs[j].start
    ensures UsedAre(bs', order[1..])
  {
    assert forall x :: x in order[1..] ==> x in order && x != order[0];
    forall b | b in bs' ensures b.used <==> b.start in order[1..] {
      if b.used {
        StillUsed(bs, k, b, order);
      } else {
        assert b.start in FreeStarts(bs[k := f]);
        var c :| c in bs[k := f] && !c.used && c.start == b.start;
        assert c in bs || c == f;
      }
    }
  }

  lemma StillUsed(bs: seq<Block>, k: nat, b: Block, order: seq<nat>)
    requires k < |bs| && b in bs && b != bs[k] && b.used && UsedAre(bs, order) && order != [] && bs[k].start == order[0]
    requires forall i, j :: 0 <= i < j < |bs| ==> bs[i].start < bs[j].start
    ensures b.start in order[1..]
  {
    assert b.start != order[0];
    assert order == [order[0]] + order[1..];
  }
}
