/** The free blocks of a block list: where they start and how many bytes they can hold. */
module FreeLists {
  import opened Lists
  import opened Blocks

  // ---- where free blocks start ------------------------------------------------------------------

  /** `free` names every free block once and nothing else. */
  ghost predicate FreeOk(free: seq<nat>, bs: seq<Block>) {
    Distinct(free) && forall p :: p in free <==> p in FreeStarts(bs)
  }

  /** `n` blocks replaced: the free blocks among them are gone, those of `mid` are new. */
  lemma ReplaceFree(h: nat, bs: seq<Block>, hi: nat, k: nat, n: nat, was: seq<Block>, mid: seq<Block>)
    requires 0 < h && Tiles(h, bs, 0, hi) && k + n <= |bs| && was == bs[k..k + n]
    ensures FreeStarts(Replace(bs, k, n, mid)) == (FreeStarts(bs) - FreeStarts(was)) + FreeStarts(mid)
  {
    AllOrdered(h, bs, 0, hi);
    assert forall i, j :: 0 <= i < j < |bs| ==> bs[i].start < bs[j].start;
    ReplaceMembers(bs, k, n, was, mid);
    StartsApart(bs, k, n, was);
    StartsOf(bs, was, mid, Replace(bs, k, n, mid));
  }

  lemma StartsOf(bs: seq<Block>, was: seq<Block>, mid: seq<Block>, r: seq<Block>)
    requires forall b :: b in r <==> (b in bs && b !in was) || b in mid
    requires forall b, c :: b in bs && b !in was && c in was ==> b.start != c.start
    ensures FreeStarts(r) == (FreeStarts(bs) - FreeStarts(was)) + FreeStarts(mid)
  {
    forall p | p in FreeStarts(bs) - FreeStarts(was) ensures p in FreeStarts(r) {
      var b :| b in bs && !b.used && b.start == p;
      assert b in r;
    }
    forall p | p in FreeStarts(r) ensures p in (FreeStarts(bs) - FreeStarts(was)) + FreeStarts(mid) {
      var b :| b in r && !b.used && b.start == p;
      assert b in mid || b !in was;
    }
  }

  lemma StartsApart(bs: seq<Block>, k: nat, n: nat, was: seq<Block>)
    requires k + n <= |bs| && was == bs[k..k + n] && forall i, j :: 0 <= i < j < |bs| ==> bs[i].start < bs[j].start
    ensures forall b, c :: b in bs && b !in was && c in was ==> b.start != c.start
  {
    forall b, c | b in bs && b !in was && c in was ensures b.start != c.start {
      var i :| 0 <= i < |bs| && bs[i] == b;
      var j :| 0 <= j < n && was[j] == c;
      assert bs[k + j] == c && i != k + j;
    }
  }

  lemma FreeStartsOne(b: Block)
    ensures FreeStarts([b]) == if b.used then {} else {b.start}
  {
    assert b in [b];
  }

  lemma FreeStartsTwo(b: Block, c: Block)
    ensures FreeStarts([b, c]) == FreeStarts([b]) + FreeStarts([c])
  {
    assert b in [b] && c in [c] && b in [b, c] && c in [b, c];
  }

  // ---- free bytes -------------------------------------------------------------------------------

  function Room(h: nat, b: Block): int {
    if b.used then 0 else b.end - b.start - h
  }

  /** What the free ones of the first `n` blocks can hold, headers excluded. */
  ghost function RoomTo(h: nat, bs: seq<Block>, n: nat): int
    requires n <= |bs|
  {
    if n == 0 then 0 else RoomTo(h, bs, n - 1) + Room(h, bs[n - 1])
  }

  ghost function FreeRoom(h: nat, bs: seq<Block>): int {
    RoomTo(h, bs, |bs|)
  }

  lemma {:induction false} RoomPrefix(h: nat, a: seq<Block>, b: seq<Block>, n: nat)
    requires n <= |a| && n <= |b| && forall i :: 0 <= i < n ==> a[i] == b[i]
    ensures RoomTo(h, a, n) == RoomTo(h, b, n)
  {
    if n > 0 {
      RoomPrefix(h, a, b, n - 1);
    }
  }

  lemma {:induction false} RoomConcat(h: nat, a: seq<Block>, b: seq<Block>, n: nat)
    requires n <= |b|
    ensures RoomTo(h, a + b, |a| + n) == FreeRoom(h, a) + RoomTo(h, b, n)
  {
    if n == 0 {
      RoomPrefix(h, a + b, a, |a|);
    } else {
      RoomConcat(h, a, b, n - 1);
    }
  }

  lemma RoomAround(h: nat, a: seq<Block>, mid: seq<Block>, c: seq<Block>)
    ensures FreeRoom(h, a + mid + c) == FreeRoom(h, a) + FreeRoom(h, mid) + FreeRoom(h, c)
  {
    RoomConcat(h, a + mid, c, |c|);
    RoomConcat(h, a, mid, |mid|);
  }

  lemma ReplaceRoom(h: nat, bs: seq<Block>, k: nat, n: nat, was: seq<Block>, mid: seq<Block>)
    requires k + n <= |bs| && was == bs[k..k + n]
    ensures FreeRoom(h, Replace(bs, k, n, mid)) == FreeRoom(h, bs) - FreeRoom(h, was) + FreeRoom(h, mid)
  {
    assert bs == bs[..k] + was + bs[k + n..];
    RoomAround(h, bs[..k], was, bs[k + n..]);
    RoomAround(h, bs[..k], mid, bs[k + n..]);
  }

  lemma RoomOf(h: nat, b: Block, c: Block)
    ensures FreeRoom(h, [b]) == Room(h, b)
    ensures FreeRoom(h, [b, c]) == Room(h, b) + Room(h, c)
  {
    assert RoomTo(h, [b], 1) == RoomTo(h, [b], 0) + Room(h, b);
    assert RoomTo(h, [b, c], 1) == RoomTo(h, [b, c], 0) + Room(h, b);
    assert RoomTo(h, [b, c], 2) == RoomTo(h, [b, c], 1) + Room(h, c);
  }

  /** No free block holds more than all of them together. */
  lemma {:induction false} RoomBound(h: nat, bs: seq<Block>, lo: nat, hi: nat, n: nat, k: nat)
    requires Tiles(h, bs, lo, hi) && k < n <= |bs|
    ensures 0 <= Room(h, bs[k]) <= RoomTo(h, bs, n)
    decreases n
  {
    if k < n - 1 {
      RoomBound(h, bs, lo, hi, n - 1, k);
    } else if n > 1 {
      RoomBound(h, bs, lo, hi, n - 1, 0);
    }
  }

  // ---- merging in the other order ---------------------------------------------------------------

  /** Merging with the block in front first and then with the one behind gives the same blocks. */
  lemma FrontFirst(bs: seq<Block>, k: nat)
    requires k < |bs| && !bs[k].used
    ensures k == 0 || bs[k - 1].used ==> Coalesce(bs, k) == MergeNext(bs, k)
    ensures k > 0 && !bs[k - 1].used ==>
      var m := MergeNext(bs, k - 1); k - 1 < |m| && Coalesce(bs, k) == MergeNext(m, k - 1)
  {
    hide MergeNext;
    Merges(bs, k);
    if k > 0 && !bs[k - 1].used {
      var j: nat := k - 1;
      FrontThenNext(bs, j);
      NextThenFront(bs, j);
    }
  }

  /** Three free blocks in a row become one, and two of them with a used one behind become one. */
  function Joined(bs: seq<Block>, j: nat): seq<Block>
    requires j + 1 < |bs|
  {
    if j + 2 < |bs| && !bs[j + 2].used
    then bs[..j] + [Block(bs[j].start, bs[j + 2].end, bs[j].used)] + bs[j + 3..]
    else bs[..j] + [Block(bs[j].start, bs[j + 1].end, bs[j].used)] + bs[j + 2..]
  }

  lemma FrontThenNext(bs: seq<Block>, j: nat)
    requires j + 1 < |bs| && !bs[j + 1].used
    ensures j < |MergeNext(bs, j)| && MergeNext(MergeNext(bs, j), j) == Joined(bs, j)
  {
    hide MergeNext;
    Merges(bs, j);
    var m := MergeNext(bs, j);
    Merges(m, j);
    assert m[..j] == bs[..j] && m[j].start == bs[j].start && m[j].used == bs[j].used;
    if j + 2 < |bs| {
      assert m[j + 1] == bs[j + 2] && m[j + 2..] == bs[j + 3..];
    }
  }

  lemma NextThenFront(bs: seq<Block>, j: nat)
    requires j + 1 < |bs| && !bs[j + 1].used
    ensures j < |MergeNext(bs, j + 1)| && MergeNext(MergeNext(bs, j + 1), j) == Joined(bs, j)
  {
    hide MergeNext;
    Merges(bs, j + 1);
    var m := MergeNext(bs, j + 1);
    Merges(m, j);
    assert m[..j] == bs[..j] && m[j] == bs[j] && !m[j + 1].used;
    if j + 2 < |bs| && !bs[j + 2].used {
      assert m[j + 2..] == bs[j + 3..];
    }
  }

  /** A merge block by block. */
  lemma Merges(bs: seq<Block>, k: nat)
    requires k < |bs|
    ensures var m := MergeNext(bs, k);
      if k + 1 < |bs| && !bs[k + 1].used
      then m == bs[..k] + [Block(bs[k].start, bs[k + 1].end, bs[k].used)] + bs[k + 2..]
      else m == bs
  {
  }
}
