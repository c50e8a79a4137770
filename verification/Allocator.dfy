/**
What a heap is to its clients: a set of pointers, each with the bytes last written there. A heap
of blocks is tied to it by `Owned`, and the lemmas follow one operation on the blocks each.
*/
module Allocator {
  import opened Lists
  import opened Blocks

  /** The bytes behind every pointer that was handed out and not given back. */
  type Live = map<nat, seq<int>>

  datatype Op =
    | AllocOp(n: nat)
    | FreeOp(p: nat)
    | ReallocOp(p: nat, n: nat)
    | WriteOp(p: nat, i: nat, v: int)

  /** A pointer not in use before got `n` bytes, and no other changed. */
  ghost predicate Gained(l: Live, p: nat, n: nat, l': Live) {
    p !in l && p in l' && |l'[p]| == n && l' == l[p := l'[p]]
  }

  /** One operation with the pointer it returns. An operation on a pointer not in use, or a write
      behind its bytes, is left out. */
  ghost predicate Steps(op: Op, r: Option<nat>, l: Live, l': Live) {
    match op
    case AllocOp(n) => if r == None then l' == l else Gained(l, r.value, n, l')
    case FreeOp(p) => l' == l - {p}
    case WriteOp(p, i, v) => l' == if p in l && i < |l[p]| then l[p := l[p][i := v]] else l
    case ReallocOp(p, n) =>
      if p !in l || (n > 0 && r == None) then l' == l
      else if n == 0 then r == None && l' == l - {p}
      else
        && Gained(l - {p}, r.value, n, l')
        && forall i :: 0 <= i < n && i < |l[p]| ==> l'[r.value][i] == l[p][i]
  }

  /** A whole run from an empty heap. */
  ghost predicate IsRun(ops: seq<Op>, results: seq<Option<nat>>, states: seq<Live>) {
    && |results| == |ops| && |states| == |ops| + 1 && states[0] == map[]
    && forall i, j :: 0 <= i < |ops| && j == i + 1 ==> Steps(ops[i], results[i], states[i], states[j])
  }

  lemma OneMore(ops: seq<Op>, k: nat, results: seq<Option<nat>>, states: seq<Live>, r: Option<nat>, l: Live)
    requires k < |ops| && IsRun(ops[..k], results, states) && Steps(ops[k], r, states[k], l)
    ensures IsRun(ops[..k + 1], results + [r], states + [l])
  {
    var ops', results', states' := ops[..k + 1], results + [r], states + [l];
    forall i, j | 0 <= i < |ops'| && j == i + 1 ensures Steps(ops'[i], results'[i], states'[i], states'[j]) {
      if i < k {
        assert Steps(ops[..k][i], results[i], states[i], states[j]);
      }
    }
  }

  // ---- blocks and pointers ----------------------------------------------------------------------

  /** The used block `b` is what `p` points to, and it has these bytes. */
  ghost predicate Holds(h: nat, bs: seq<Block>, data: seq<int>, b: Block, p: nat, bytes: seq<int>) {
    && b in bs && b.used && b.start + h == p && p + |bytes| <= b.end <= |data|
    && forall i :: 0 <= i < |bytes| ==> data[p + i] == bytes[i]
  }

  predicate IsLive(l: Live, p: nat) {
    p in l
  }

  /** Used blocks and live pointers are the same, and every pointer has its bytes. */
  ghost predicate Owned(h: nat, bs: seq<Block>, data: seq<int>, l: Live) {
    && (forall b :: b in bs && b.used ==> b.start + h in l)
    && (forall p {:trigger IsLive(l, p)} :: IsLive(l, p) ==> exists b :: Holds(h, bs, data, b, p, l[p]))
  }

  /** The bytes of the blocks in use both before and after are the same, but for block `but`. */
  ghost predicate Kept(h: nat, bs: seq<Block>, bs': seq<Block>, data: seq<int>, data': seq<int>, but: Block) {
    |data'| == |data| &&
    forall b, x :: b in bs && b in bs' && b.used && b != but && b.start + h <= x < b.end && x < |data| ==>
      data'[x] == data[x]
  }

  lemma StillHolds(h: nat, bs: seq<Block>, data: seq<int>, bs': seq<Block>, data': seq<int>, but: Block, b: Block,
                   p: nat, bytes: seq<int>)
    requires Holds(h, bs, data, b, p, bytes) && b in bs' && b != but && Kept(h, bs, bs', data, data', but)
    ensures Holds(h, bs', data', b, p, bytes)
  {
  }

  /** A free block has no live pointer. */
  lemma FreeIsUnknown(h: nat, bs: seq<Block>, hi: nat, data: seq<int>, l: Live, k: nat)
    requires 0 < h && Tiles(h, bs, 0, hi) && k < |bs| && !bs[k].used && Owned(h, bs, data, l)
    ensures bs[k].start + h !in l
  {
    if bs[k].start + h in l {
      assert IsLive(l, bs[k].start + h);
      var b :| Holds(h, bs, data, b, bs[k].start + h, l[bs[k].start + h]);
      SameStart(h, bs, hi, k, b);
    }
  }

  /** Where the block of a live pointer is. */
  lemma Locate(h: nat, bs: seq<Block>, hi: nat, data: seq<int>, l: Live, p: nat) returns (k: nat)
    requires 0 < h && Tiles(h, bs, 0, hi) && Owned(h, bs, data, l) && p in l
    ensures k < |bs| && bs[k].used && bs[k].start + h == p && Holds(h, bs, data, bs[k], p, l[p])
  {
    assert IsLive(l, p);
    var b :| Holds(h, bs, data, b, p, l[p]);
    k :| 0 <= k < |bs| && bs[k] == b;
  }

  // ---- one operation each -----------------------------------------------------------------------

  lemma GainBlock(h: nat, bs: seq<Block>, data: seq<int>, l: Live, bs': seq<Block>, data': seq<int>, c: Block, n: nat)
    requires Owned(h, bs, data, l) && UsedChange(bs, bs', {}, {c}) && Kept(h, bs, bs', data, data', c)
    requires c.used && c.start + h + n <= c.end <= |data'| && c.start + h !in l
    ensures var p := c.start + h; var l' := l[p := data'[p..p + n]]; Owned(h, bs', data', l') && Gained(l, p, n, l')
  {
    var p := c.start + h;
    var l' := l[p := data'[p..p + n]];
    forall q: nat {:trigger IsLive(l', q)} | IsLive(l', q) ensures exists b :: Holds(h, bs', data', b, q, l'[q]) {
      if q == p {
        assert Holds(h, bs', data', c, p, l'[p]);
      } else {
        assert IsLive(l, q);
        var b :| Holds(h, bs, data, b, q, l[q]);
        StillHolds(h, bs, data, bs', data', c, b, q, l[q]);
      }
    }
  }

  lemma LoseBlock(h: nat, bs: seq<Block>, hi: nat, data: seq<int>, l: Live, bs': seq<Block>, data': seq<int>, k: nat)
    requires 0 < h && Tiles(h, bs, 0, hi) && Owned(h, bs, data, l) && k < |bs| && bs[k].used
    requires UsedChange(bs, bs', {bs[k]}, {}) && Kept(h, bs, bs', data, data', bs[k])
    ensures Owned(h, bs', data', l - {bs[k].start + h})
  {
    hide Tiles, UsedChange, Kept;
    var l' := l - {bs[k].start + h};
    forall b | b in bs' && b.used ensures b.start + h in l' {
      OldBlock(h, bs, hi, bs', k, {}, b);
    }
    forall q: nat {:trigger IsLive(l', q)} | IsLive(l', q) ensures exists b :: Holds(h, bs', data', b, q, l'[q]) {
      assert IsLive(l, q) && l'[q] == l[q];
      var b :| Holds(h, bs, data, b, q, l[q]);
      Elsewhere(bs, bs', k, {}, b);
      StillHolds(h, bs, data, bs', data', bs[k], b, q, l[q]);
    }
  }

  /** The bytes from `p` to `end`, or `n` of them if there are more, are now at `q`. */
  ghost predicate SameFront(data: seq<int>, p: nat, end: nat, data': seq<int>, q: nat, n: nat) {
    forall x, y :: p <= x < end && x < |data| && y == x - p + q && y < q + n && y < |data'| ==> data'[y] == data[x]
  }

  /** Block `k` became block `c`, with room for `n` bytes and as many of the old bytes as fit. */
  ghost predicate Relocated(h: nat, bs: seq<Block>, data: seq<int>, bs': seq<Block>, data': seq<int>, k: nat, c: Block,
                            n: nat) {
    && k < |bs| && bs[k].used && UsedChange(bs, bs', {bs[k]}, {c}) && (c == bs[k] || c !in bs)
    && c.used && c.start + h + n <= c.end <= |data'| && Kept(h, bs, bs', data, data', c)
    && SameFront(data, bs[k].start + h, bs[k].end, data', c.start + h, n)
  }

  lemma ChangeBlock(h: nat, bs: seq<Block>, hi: nat, data: seq<int>, l: Live, bs': seq<Block>, data': seq<int>, k: nat,
                    c: Block, n: nat)
    requires 0 < h && Tiles(h, bs, 0, hi) && Tiles(h, bs', 0, hi) && Owned(h, bs, data, l)
    requires Relocated(h, bs, data, bs', data', k, c, n)
    ensures var p, q := bs[k].start + h, c.start + h; var l' := (l - {p})[q := data'[q..q + n]];
      Owned(h, bs', data', l') && Gained(l - {p}, q, n, l')
  {
    hide Tiles, UsedChange, Kept;
    var p, q := bs[k].start + h, c.start + h;
    var l' := (l - {p})[q := data'[q..q + n]];
    NewBlock(bs, bs', k, c);
    forall b | b in bs' && b.used ensures b.start + h in l' {
      if b != c {
        OldBlock(h, bs, hi, bs', k, {c}, b);
      }
    }
    forall x: nat {:trigger IsLive(l, x)} | IsLive(l, x) && x != p
      ensures x != q && exists b :: Holds(h, bs', data', b, x, l[x])
    {
      var b :| Holds(h, bs, data, b, x, l[x]);
      Elsewhere(bs, bs', k, {c}, b);
      NewStart(h, bs', hi, b, c);
      StillHolds(h, bs, data, bs', data', c, b, x, l[x]);
    }
    assert q !in l - {p} by {
      assert IsLive(l, q) <==> q in l;
    }
    forall x: nat {:trigger IsLive(l', x)} | IsLive(l', x) ensures exists b :: Holds(h, bs', data', b, x, l'[x]) {
      if x == q {
        assert Holds(h, bs', data', c, q, l'[q]);
      } else {
        assert IsLive(l, x) && x != p;
      }
    }
  }

  /** A reallocation as the client sees it. */
  lemma ReallocSteps(h: nat, bs: seq<Block>, hi: nat, data: seq<int>, l: Live, bs': seq<Block>, data': seq<int>, p: nat,
                     k: nat, c: Block, n: nat)
    requires 0 < h && Tiles(h, bs, 0, hi) && Tiles(h, bs', 0, hi) && Owned(h, bs, data, l) && p in l && n > 0
    requires Relocated(h, bs, data, bs', data', k, c, n) && bs[k].start + h == p
    ensures var q := c.start + h; var l' := (l - {p})[q := data'[q..q + n]];
      Owned(h, bs', data', l') && Steps(ReallocOp(p, n), Some(q), l, l')
  {
    hide Tiles, UsedChange, Kept, Owned;
    ChangeBlock(h, bs, hi, data, l, bs', data', k, c, n);
    var k' := Locate(h, bs, hi, data, l, p);
    SameStart(h, bs, hi, k, bs[k']);
    assert bs[k'] in bs;
    var q := c.start + h;
    forall i | 0 <= i < n && i < |l[p]| ensures data'[q..q + n][i] == l[p][i] {
      assert data'[q..q + n][i] == data'[q + i] == data[p + i];
    }
  }

  /** A block that is not new was there before, at another place than block `k`. */
  lemma OldBlock(h: nat, bs: seq<Block>, hi: nat, bs': seq<Block>, k: nat, plus: set<Block>, b: Block)
    requires 0 < h && Tiles(h, bs, 0, hi) && k < |bs| && bs[k].used && UsedChange(bs, bs', {bs[k]}, plus)
    requires b in bs' && b.used && b !in plus
    ensures b in bs && b.start != bs[k].start
  {
    if b.start == bs[k].start { SameStart(h, bs, hi, k, b); }
  }

  lemma NewBlock(bs: seq<Block>, bs': seq<Block>, k: nat, c: Block)
    requires k < |bs| && UsedChange(bs, bs', {bs[k]}, {c}) && c.used
    ensures c in bs'
  {
  }

  lemma Elsewhere(bs: seq<Block>, bs': seq<Block>, k: nat, plus: set<Block>, b: Block)
    requires k < |bs| && UsedChange(bs, bs', {bs[k]}, plus) && b in bs && b.used && b != bs[k]
    ensures b in bs'
  {
  }

  lemma NewStart(h: nat, bs: seq<Block>, hi: nat, b: Block, c: Block)
    requires 0 < h && Tiles(h, bs, 0, hi) && b in bs && c in bs && b != c
    ensures b.start != c.start && (b.end <= c.start || c.end <= b.start)
  {
    AllOrdered(h, bs, 0, hi);
    var i :| 0 <= i < |bs| && bs[i] == b;
    var j :| 0 <= j < |bs| && bs[j] == c;
    assert i < j || j < i;
  }

  /** A write through a live pointer reaches no other. */
  lemma WriteBlock(h: nat, bs: seq<Block>, hi: nat, data: seq<int>, l: Live, p: nat, i: nat, v: int)
    requires 0 < h && Tiles(h, bs, 0, hi) && Owned(h, bs, data, l) && p in l && i < |l[p]|
    ensures p + i < |data| && Owned(h, bs, data[p + i := v], l[p := l[p][i := v]])
  {
    var k := Locate(h, bs, hi, data, l, p);
    var data', l' := data[p + i := v], l[p := l[p][i := v]];
    forall q: nat {:trigger IsLive(l', q)} | IsLive(l', q) ensures exists b :: Holds(h, bs, data', b, q, l'[q]) {
      assert IsLive(l, q);
      var b :| Holds(h, bs, data, b, q, l[q]);
      if q == p {
        SameStart(h, bs, hi, k, b);
      } else {
        NewStart(h, bs, hi, b, bs[k]);
      }
      assert Holds(h, bs, data', b, q, l'[q]);
    }
  }

  lemma NothingOwned(h: nat, hi: nat, data: seq<int>)
    ensures Owned(h, [Block(0, hi, false)], data, map[])
  {
  }
}
