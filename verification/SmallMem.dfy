/**
The small memory algorithm: blocks linked by offsets in headers kept inside the heap, a
pointer to the lowest free block, first fit. Offsets count from `heap_ptr`; the sizes are
those of a 64-bit build without memory tracing.
*/
module SmallMem {
  import opened Lists
  import opened Blocks
  import opened MachineWords

  /** RT_ALIGN_SIZE */
  const ALIGN: nat := 8
  /** SIZEOF_STRUCT_MEM */
  const HEADER: nat := 24
  /** MIN_SIZE, which is aligned: MIN_SIZE_ALIGNED */
  const MIN_SIZE: nat := 24

  /** `pool_ptr`: null once the item is swallowed, else with the used bit clear or set. */
  datatype Pool = Null | Freed | Used

  datatype Item = Item(pool: Pool, next: nat, prev: nat)

  function AlignUp(n: nat): (r: nat)
    ensures r % ALIGN == 0 && n <= r < n + ALIGN
  {
    (n + ALIGN - 1) / ALIGN * ALIGN
  }

  /** The size `rt_smem_alloc` looks for. */
  function Rounded(n: nat): (r: nat)
    ensures r % ALIGN == 0 && n <= r && MIN_SIZE <= r && (r == MIN_SIZE || r < n + ALIGN)
  {
    if AlignUp(n) < MIN_SIZE then MIN_SIZE else AlignUp(n)
  }

  /** No smaller size would do. */
  lemma RoundedIsLeast(n: nat, m: nat)
    requires m % ALIGN == 0 && n <= m && MIN_SIZE <= m
    ensures Rounded(n) <= m
  {
  }

  function Payload(b: Block): int {
    b.end - b.start - HEADER
  }

  /** A free block with room for the bytes asked for. */
  predicate Serves(b: Block, request: nat) {
    !b.used && Payload(b) >= request && Payload(b) >= MIN_SIZE
  }

  /** `c` is handed out at `p`: room for the request, and no room for another block besides. */
  predicate HandsOut(c: Block, p: nat, request: nat) {
    c.used && c.start + HEADER == p && request <= Payload(c) < Rounded(request) + HEADER + MIN_SIZE
  }

  // ---- headers and blocks ------------------------------------------------------------

  ghost predicate ItemOk(items: map<nat, Item>, bs: seq<Block>, i: nat)
    requires i < |bs|
  {
    && bs[i].start in items
    && var it := items[bs[i].start];
       it.pool == (if bs[i].used then Used else Freed) && it.next == bs[i].end
       && it.prev == if i > 0 then bs[i - 1].start else 0
  }

  /** The headers link the blocks both ways; the `prev` of the end sentinel is not looked after. */
  ghost predicate Linked(items: map<nat, Item>, bs: seq<Block>, end: nat) {
    && (forall i :: 0 <= i < |bs| ==> ItemOk(items, bs, i))
    && end in items && items[end].pool == Used && items[end].next == end
  }

  ghost predicate Aligned(bs: seq<Block>) {
    forall i :: 0 <= i < |bs| ==> bs[i].start % ALIGN == 0 && bs[i].end % ALIGN == 0
  }

  /** Blocks end to end from 0 to `end`, linked by their headers, in a heap of `n` bytes. */
  ghost predicate Layout(items: map<nat, Item>, bs: seq<Block>, n: nat, end: nat) {
    Tiles(HEADER, bs, 0, end) && Linked(items, bs, end) && Aligned(bs) && n == end + HEADER
  }

  /** A header stored at `p` overwrites no byte handed out. */
  ghost predicate Safe(bs: seq<Block>, p: nat) {
    forall b :: b in bs && b.used ==> p <= b.start || b.end <= p
  }

  /** The bytes handed out are the same. */
  ghost predicate SameBytes(bs: seq<Block>, data: seq<int>, data': seq<int>) {
    |data| == |data'| &&
    forall b, x :: b in bs && b.used && b.start + HEADER <= x < b.end && x < |data| ==> data'[x] == data[x]
  }

  /** Item `b` swallowed by its predecessor `a`. */
  function Joined(items: map<nat, Item>, a: nat, b: nat): map<nat, Item>
    requires a in items && b in items && items[b].next in items
  {
    var c := items[b].next;
    var i1 := items[b := items[b].(pool := Null)];
    var i2 := i1[a := i1[a].(next := c)];
    i2[c := i2[c].(prev := a)]
  }

  lemma JoinedLookup(items: map<nat, Item>, a: nat, b: nat, c: nat)
    requires a in items && b in items && items[b].next == c && c in items && a != b && b != c && a != c
    ensures var items' := Joined(items, a, b);
      && a in items' && items'[a] == items[a].(next := c)
      && c in items' && items'[c] == items[c].(prev := a)
      && (forall p :: p in items && p != a && p != b && p != c ==> p in items' && items'[p] == items[p])
  {
  }

  ghost predicate Increasing(bs: seq<Block>, end: nat) {
    && (forall i, j :: 0 <= i < j < |bs| ==> bs[i].start < bs[j].start)
    && (forall i :: 0 <= i < |bs| ==> bs[i].start < bs[i].end <= end)
  }

  lemma TilesIncrease(bs: seq<Block>, end: nat)
    requires Tiles(HEADER, bs, 0, end)
    ensures Increasing(bs, end)
    ensures forall i :: 0 <= i < |bs| ==> bs[i].end == StartAt(bs, i + 1, end)
  {
    AllOrdered(HEADER, bs, 0, end);
  }

  lemma JoinedItem(items: map<nat, Item>, bs: seq<Block>, end: nat, k: nat, bs': seq<Block>, i: nat)
    requires Increasing(bs, end) && k + 1 < |bs| && !bs[k + 1].used && Linked(items, bs, end)
    requires bs[k + 1].end == StartAt(bs, k + 2, end) && bs' == MergeNext(bs, k) && i < |bs'|
    ensures bs[k].start in items && bs[k + 1].start in items && items[bs[k + 1].start].next in items
    ensures ItemOk(Joined(items, bs[k].start, bs[k + 1].start), bs', i)
  {
    assert ItemOk(items, bs, k) && ItemOk(items, bs, k + 1);
    assert k + 2 < |bs| ==> ItemOk(items, bs, k + 2);
    JoinedLookup(items, bs[k].start, bs[k + 1].start, bs[k + 1].end);
    if i < k {
      assert bs'[i] == bs[i] && ItemOk(items, bs, i);
    } else if i == k {
      assert bs'[k] == Block(bs[k].start, bs[k + 1].end, bs[k].used);
    } else {
      assert bs'[i] == bs[i + 1] && ItemOk(items, bs, i + 1);
      assert bs'[i - 1].start == if i == k + 1 then bs[k].start else bs[i].start;
    }
  }

  lemma JoinedLinks(items: map<nat, Item>, bs: seq<Block>, end: nat, k: nat)
    requires Tiles(HEADER, bs, 0, end) && k + 1 < |bs| && !bs[k + 1].used && Linked(items, bs, end)
    ensures bs[k].start in items && bs[k + 1].start in items && items[bs[k + 1].start].next in items
    ensures Linked(Joined(items, bs[k].start, bs[k + 1].start), MergeNext(bs, k), end)
  {
    TilesIncrease(bs, end);
    var bs' := MergeNext(bs, k);
    JoinedItem(items, bs, end, k, bs', 0);
    var items' := Joined(items, bs[k].start, bs[k + 1].start);
    forall i | 0 <= i < |bs'| ensures ItemOk(items', bs', i) {
      JoinedItem(items, bs, end, k, bs', i);
    }
    assert ItemOk(items, bs, k + 1);
    JoinedLookup(items, bs[k].start, bs[k + 1].start, bs[k + 1].end);
  }

  /** The item at `p` cut in two, the second half free at `q`. */
  function Cut(items: map<nat, Item>, p: nat, q: nat, end: nat): map<nat, Item>
    requires p in items && items[p].next in items
  {
    var n := items[p].next;
    var i1 := items[q := Item(Freed, n, p)];
    var i2 := i1[p := items[p].(next := q)];
    if n != end && n in i2 then i2[n := i2[n].(prev := q)] else i2
  }

  lemma CutLookup(items: map<nat, Item>, p: nat, q: nat, end: nat)
    requires p in items && items[p].next in items && p < q < items[p].next
    ensures var n, items' := items[p].next, Cut(items, p, q, end);
      && p in items' && items'[p] == items[p].(next := q)
      && q in items' && items'[q] == Item(Freed, n, p)
      && n in items' && items'[n] == (if n != end then items[n].(prev := q) else items[n])
      && (forall x :: x in items && x != p && x != q && x != n ==> x in items' && items'[x] == items[x])
  {
  }

  lemma CutItem(items: map<nat, Item>, bs: seq<Block>, end: nat, k: nat, size: nat, bs': seq<Block>, i: nat)
    requires Increasing(bs, end) && k < |bs| && Linked(items, bs, end) && bs[k].end == StartAt(bs, k + 1, end)
    requires bs[k].used && bs[k].start + HEADER + size < bs[k].end
    requires bs' == CutAt(HEADER, bs, k, size) && i < |bs'|
    ensures bs[k].start in items && items[bs[k].start].next in items
    ensures ItemOk(Cut(items, bs[k].start, bs[k].start + HEADER + size, end), bs', i)
  {
    var cut := bs[k].start + HEADER + size;
    assert ItemOk(items, bs, k);
    assert k + 1 < |bs| ==> ItemOk(items, bs, k + 1);
    CutLookup(items, bs[k].start, cut, end);
    if i < k {
      assert bs'[i] == bs[i] && ItemOk(items, bs, i);
    } else if i <= k + 1 {
      assert bs'[k] == Block(bs[k].start, cut, true) && bs'[k + 1] == Block(cut, bs[k].end, false);
    } else {
      assert bs'[i] == bs[i - 1] && ItemOk(items, bs, i - 1);
      assert bs'[i - 1].start == if i == k + 2 then cut else bs[i - 2].start;
    }
  }

  /** Cutting the item of a used block cuts the block. */
  lemma CutLinks(items: map<nat, Item>, bs: seq<Block>, end: nat, k: nat, size: nat, cut: nat, items': map<nat, Item>,
                 bs': seq<Block>)
    requires Tiles(HEADER, bs, 0, end) && k < |bs| && Linked(items, bs, end)
    requires bs[k].used && cut == bs[k].start + HEADER + size && cut < bs[k].end && bs' == CutAt(HEADER, bs, k, size)
    requires bs[k].start in items && items[bs[k].start].next in items && items' == Cut(items, bs[k].start, cut, end)
    ensures Linked(items', bs', end)
  {
    TilesIncrease(bs, end);
    forall i | 0 <= i < |bs'| ensures ItemOk(items', bs', i) {
      CutItem(items, bs, end, k, size, bs', i);
    }
    CutEnd(items, bs, end, k, cut, items');
  }

  lemma CutEnd(items: map<nat, Item>, bs: seq<Block>, end: nat, k: nat, cut: nat, items': map<nat, Item>)
    requires Increasing(bs, end) && k < |bs| && Linked(items, bs, end) && bs[k].start < cut < bs[k].end
    requires bs[k].start in items && items[bs[k].start].next in items && items' == Cut(items, bs[k].start, cut, end)
    ensures end in items' && items'[end].pool == Used && items'[end].next == end
  {
    assert ItemOk(items, bs, k);
    CutLookup(items, bs[k].start, cut, end);
  }

  lemma MarkItem(items: map<nat, Item>, bs: seq<Block>, k: nat, used: bool, items': map<nat, Item>, bs': seq<Block>,
                 i: nat)
    requires k < |bs| && i < |bs| && ItemOk(items, bs, i) && bs[k].start in items
    requires bs' == bs[k := bs[k].(used := used)]
    requires items' == items[bs[k].start := items[bs[k].start].(pool := if used then Used else Freed)]
    requires i != k ==> bs[i].start != bs[k].start
    ensures ItemOk(items', bs', i)
  {
    assert i > 0 ==> bs'[i - 1].start == bs[i - 1].start;
  }

  /** Setting the used bit of an item marks its block. */
  lemma MarkLinks(items: map<nat, Item>, bs: seq<Block>, end: nat, k: nat, used: bool, items': map<nat, Item>,
                  bs': seq<Block>)
    requires Increasing(bs, end) && k < |bs| && Linked(items, bs, end) && bs[k].start in items
    requires bs' == bs[k := bs[k].(used := used)]
    requires items' == items[bs[k].start := items[bs[k].start].(pool := if used then Used else Freed)]
    ensures Linked(items', bs', end)
  {
    forall i | 0 <= i < |bs'| ensures ItemOk(items', bs', i) {
      assert ItemOk(items, bs, i);
      MarkItem(items, bs, k, used, items', bs', i);
    }
  }

  // ---- the lowest free block ------------------------------------------------------------

  ghost function LowestFree(bs: seq<Block>, end: nat): nat {
    StartAt(bs, FirstFree(bs), end)
  }

  /** A mark of index `j` as the first free block. */
  lemma FirstFreeIs(bs: seq<Block>, j: nat)
    requires j <= |bs| && (forall i :: 0 <= i < j ==> bs[i].used) && (j < |bs| ==> !bs[j].used)
    ensures FirstFree(bs) == j
  {
  }

  /** Joining two free blocks does not change where the lowest free block starts. */
  lemma MergeLowest(bs: seq<Block>, end: nat, k: nat)
    requires k < |bs| && !bs[k].used
    ensures LowestFree(MergeNext(bs, k), end) == LowestFree(bs, end)
  {
    var j := FirstFree(bs);
    var m := MergeNext(bs, k);
    if k + 1 < |bs| && !bs[k + 1].used {
      assert m[..k] == bs[..k] && m[k].start == bs[k].start && !m[k].used;
      forall i | 0 <= i < j ensures m[i].used { assert m[i] == m[..k][i]; }
      assert j < k ==> m[j] == m[..k][j];
      FirstFreeIs(m, j);
    }
  }

  // ---- the memory object -------------------------------------------------------------------

  class SmallMemory {
    /** mem_size_aligned */
    const size: nat
    var items: map<nat, Item>
    /** The bytes of the heap; a header stored in it overwrites HEADER of them. */
    var data: seq<int>
    var lfree: nat
    var used: int
    var max: int
    ghost var blocks: seq<Block>

    /** Offset of `heap_end`. */
    function End(): nat {
      size + HEADER
    }

    ghost predicate Valid()
      reads this
    {
      && size % ALIGN == 0 && |data| == size + 2 * HEADER
      && HeapOk(HEADER, blocks, End()) && Aligned(blocks) && Linked(items, blocks, End())
      && lfree == LowestFree(blocks, End())
      && used == Extent(blocks, true) && used <= max
    }

    /** `rt_smem_init` once the addresses are aligned. */
    constructor (size: nat)
      requires size % ALIGN == 0
      ensures Valid() && this.size == size && blocks == [Block(0, size + HEADER, false)] && used == 0 && max == 0
    {
      this.size := size;
      var end := size + HEADER;
      items := map[0 := Item(Freed, end, 0), end := Item(Used, end, end)];
      data := seq(size + 2 * HEADER, _ => 0);
      lfree := 0;
      used := 0;
      max := 0;
      blocks := [Block(0, end, false)];
      new;
      assert ItemOk(items, blocks, 0);
      assert ExtentTo(blocks, 1, true) == ExtentTo(blocks, 0, true);
      FirstFreeIs(blocks, 0);
    }

    /** Stores a header where no byte handed out lies. The bytes it lies on are lost. */
    method Store(p: nat, item: Item, ghost live: seq<Block>)
      requires p + HEADER <= |data| && Safe(live, p)
      modifies this`items, this`data
      ensures items == old(items)[p := item] && |data| == |old(data)|
      ensures SameBytes(live, old(data), data)
    {
      items := items[p := item];
      var data' := data[..p] + seq(HEADER, _ => 0) + data[p + HEADER..];
      StoreSafe(live, data, data', p);
      data := data';
    }

    /** The item `b` swallowed by its predecessor `a`, as `plug_holes` does twice. */
    method Join(a: nat, b: nat, ghost k: nat)
      requires Tiles(HEADER, blocks, 0, End()) && Linked(items, blocks, End()) && |data| == size + 2 * HEADER
      requires k + 1 < |blocks| && blocks[k].start == a && blocks[k + 1].start == b && !blocks[k].used
      requires !blocks[k + 1].used
      modifies this`items, this`data, this`blocks
      ensures blocks == MergeNext(old(blocks), k)
      ensures Tiles(HEADER, blocks, 0, End()) && Linked(items, blocks, End())
      ensures |data| == |old(data)| && SameBytes(old(blocks), old(data), data)
    {
      JoinedLinks(items, blocks, End(), k);
      MergeTiles(HEADER, blocks, End(), k);
      JoinItems(a, b, k);
      blocks := MergeNext(blocks, k);
    }

    method JoinItems(a: nat, b: nat, ghost k: nat)
      requires Tiles(HEADER, blocks, 0, End()) && Linked(items, blocks, End()) && |data| == size + 2 * HEADER
      requires k + 1 < |blocks| && blocks[k].start == a && blocks[k + 1].start == b
      requires a in items && b in items && items[b].next in items
      modifies this`items, this`data
      ensures items == Joined(old(items), a, b)
      ensures |data| == |old(data)| && SameBytes(blocks, old(data), data)
    {
      StartsSafe(blocks, End());
      assert ItemOk(items, blocks, k + 1);
      var c := items[b].next;
      Store(b, items[b].(pool := Null), blocks);
      Store(a, items[a].(next := c), blocks);
      Store(c, items[c].(prev := a), blocks);
    }

    /** `plug_holes` */
    method PlugHoles(mem: nat, ghost k: nat)
      requires Layout(items, blocks, |data|, End()) && k < |blocks| && blocks[k].start == mem && !blocks[k].used
      requires NoTwoFreeBut(blocks, k)
      modifies this`items, this`data, this`blocks, this`lfree
      ensures Layout(items, blocks, |data|, End()) && blocks == Coalesce(old(blocks), k)
      ensures old(lfree == LowestFree(blocks, End())) ==> lfree == LowestFree(blocks, End())
      ensures SameBytes(old(blocks), old(data), data)
    {
      ghost var bs, d := blocks, data;
      PlugForward(mem, k);
      ghost var d1 := data;
      assert k < |blocks| && blocks[k].start == mem && !blocks[k].used by { MergeNoTwoFree(bs, k); }
      PlugBackward(mem, k);
      SameBytesMerged(bs, End(), k, d, d1, data);
      CoalesceLowest(bs, End(), k);
    }

    /** Joins the block with a free block behind it. */
    method PlugForward(mem: nat, ghost k: nat)
      requires Layout(items, blocks, |data|, End()) && k < |blocks| && blocks[k].start == mem && !blocks[k].used
      modifies this`items, this`data, this`blocks, this`lfree
      ensures Layout(items, blocks, |data|, End()) && blocks == MergeNext(old(blocks), k)
      ensures lfree == if k + 1 < |old(blocks)| && !old(blocks)[k + 1].used && old(lfree) == old(blocks)[k + 1].start
                       then mem else old(lfree)
      ensures SameBytes(old(blocks), old(data), data)
    {
      NextItem(items, blocks, End(), k);
      var nmem := items[mem].next;
      if mem != nmem && items[nmem].pool != Used && nmem != End() {
        if lfree == nmem {
          lfree := mem;
        }
        AlignedMerge(blocks, k);
        Join(mem, nmem, k);
      }
    }

    /** Joins the block with a free block in front of it. */
    method PlugBackward(mem: nat, ghost k: nat)
      requires Layout(items, blocks, |data|, End()) && k < |blocks| && blocks[k].start == mem && !blocks[k].used
      modifies this`items, this`data, this`blocks, this`lfree
      ensures Layout(items, blocks, |data|, End())
      ensures blocks == if k > 0 && !old(blocks)[k - 1].used then MergeNext(old(blocks), k - 1) else old(blocks)
      ensures lfree ==
        if k > 0 && !old(blocks)[k - 1].used && old(lfree) == mem then old(blocks)[k - 1].start else old(lfree)
      ensures SameBytes(old(blocks), old(data), data)
    {
      PrevItem(items, blocks, End(), k);
      var pmem := items[mem].prev;
      if pmem != mem && items[pmem].pool != Used {
        if lfree == mem {
          lfree := pmem;
        }
        ghost var p: nat := k - 1;
        AlignedMerge(blocks, p);
        Join(pmem, mem, p);
      }
    }

    /** `rt_smem_free`; `k` is the block that the caller was given. */
    method Free(rmem: Option<nat>, ghost k: nat)
      requires Valid()
      requires rmem.Some? ==> k < |blocks| && blocks[k].used && blocks[k].start + HEADER == rmem.value
      modifies this
      ensures Valid() && max == old(max)
      ensures blocks == if rmem.Some? then FreeAt(old(blocks), k) else old(blocks)
      ensures SameBytes(blocks, old(data), data)
    {
      if rmem.Some? {
        FreeBlock(rmem.value - HEADER, k);
      }
    }

    method FreeBlock(mem: nat, ghost k: nat)
      requires Valid() && k < |blocks| && blocks[k].used && blocks[k].start == mem
      modifies this
      ensures Valid() && max == old(max) && blocks == FreeAt(old(blocks), k)
      ensures SameBytes(blocks, old(data), data)
    {
      hide Tiles;
      hide Linked;
      hide SameBytes;
      hide LowestFree;
      hide Coalesce;
      ghost var bs, d := blocks, data;
      FreeKeeps(HEADER, bs, End(), k);
      ClearUsed(mem, k);
      ghost var d1 := data;
      NextItem(items, blocks, End(), k);
      used := used - (items[mem].next - mem);
      FreedBut(bs, k);
      PlugHoles(mem, k);
      SameBytesLess(bs, blocks, End(), k, d, d1, data);
    }

    /** The header of block `k` marked free, and `lfree` lowered if need be. */
    method ClearUsed(mem: nat, ghost k: nat)
      requires Layout(items, blocks, |data|, End()) && k < |blocks| && blocks[k].used && blocks[k].start == mem
      modifies this`items, this`data, this`blocks, this`lfree
      ensures Layout(items, blocks, |data|, End()) && blocks == old(blocks)[k := old(blocks)[k].(used := false)]
      ensures old(lfree == LowestFree(blocks, End())) ==> lfree == LowestFree(blocks, End())
      ensures SameBytes(old(blocks), old(data), data)
    {
      NextItem(items, blocks, End(), k);
      ghost var bs, items' := blocks, items[mem := items[mem].(pool := Freed)];
      ghost var bs' := bs[k := bs[k].(used := false)];
      MarkedFree(items, bs, End(), k, items', bs');
      Store(mem, items[mem].(pool := Freed), blocks);
      if mem < lfree {
        lfree := mem;
      }
      blocks := bs';
    }

    // ---- allocation ----------------------------------------------------------------------

    /** `rt_smem_alloc`: the lowest block that fits, or nothing if none in the whole heap does. */
    method Alloc(request: nat) returns (r: Option<nat>)
      requires Valid()
      modifies this
      ensures Valid()
      ensures var bs, k := old(blocks), FirstFit(HEADER, old(blocks), Rounded(request));
        if request == 0 || k == |bs|
        then
          && r == None && blocks == bs && items == old(items) && data == old(data)
          && lfree == old(lfree) && max == old(max)
        else
          && r == Some(bs[k].start + HEADER) && blocks == AllocAt(HEADER, MIN_SIZE, bs, k, Rounded(request))
          && max == (if old(max) < used then used else old(max)) && SameBytes(bs, old(data), data)
      ensures r == None <==> request == 0 || forall i :: 0 <= i < |old(blocks)| ==> !Serves(old(blocks)[i], request)
      ensures r != None ==> exists c :: c in blocks && HandsOut(c, r.value, request)
    {
      hide AllocAt, Serves, HandsOut, SameBytes, Rounded, FirstFit, Linked, LowestFree;
      AllocMeans(blocks, request);
      if request == 0 {
        return None;
      }
      var size := Rounded(request);
      if size > this.size {
        NothingFits(blocks, End(), size);
        return None;
      }
      ghost var k;
      r, k := Search(size);
      if r.Some? {
        AllocHands(blocks, k, request);
        AllocBlock(r.value, size, k);
        r := Some(r.value + HEADER);
        assert blocks[k] in blocks;
      }
    }

    /** The loop of `rt_smem_alloc`. It starts at `lfree` and stops where nothing can fit any more. */
    method Search(size: nat) returns (r: Option<nat>, ghost k: nat)
      requires Valid() && size <= this.size
      ensures k == FirstFit(HEADER, blocks, size)
      ensures r == if k < |blocks| then Some(blocks[k].start) else None
    {
      var ptr := lfree;
      k := FirstFree(blocks);
      while ptr <= this.size - size
        invariant k <= |blocks| && ptr == StartAt(blocks, k, End())
        invariant forall i :: 0 <= i < k ==> !Fits(HEADER, blocks[i], size)
        decreases |blocks| - k
      {
        NextItem(items, blocks, End(), k);
        if items[ptr].pool != Used && items[ptr].next - (ptr + HEADER) >= size {
          FirstFitIs(blocks, size, k);
          return Some(ptr), k;
        }
        ptr := items[ptr].next;
        k := k + 1;
      }
      NothingLater(blocks, End(), size, k);
      FirstFitIs(blocks, size, |blocks|);
      return None, |blocks|;
    }

    method AllocBlock(ptr: nat, size: nat, ghost k: nat)
      requires Valid() && k < |blocks| && blocks[k].start == ptr && Fits(HEADER, blocks[k], size) && size % ALIGN == 0
      modifies this
      ensures Valid() && blocks == AllocAt(HEADER, MIN_SIZE, old(blocks), k, size)
      ensures max == (if old(max) < used then used else old(max)) && SameBytes(old(blocks), old(data), data)
    {
      ghost var bs := blocks;
      ghost var bs' := AllocAt(HEADER, MIN_SIZE, bs, k, size);
      AllocTiles(HEADER, MIN_SIZE, bs, End(), k, size);
      AllocUsed(HEADER, MIN_SIZE, bs, End(), k, size);
      AlignedAlloc(bs, k, size);
      AllocLowest(bs, End(), k, size, bs');
      Carve(ptr, size, k);
      if max < used {
        max := used;
      }
      blocks := bs';
      if ptr == lfree {
        AdvanceFree(k);
      }
    }

    /** The headers of an allocation in block `k`, and the use of memory. */
    method Carve(ptr: nat, size: nat, ghost k: nat)
      requires Layout(items, blocks, |data|, End()) && k < |blocks| && blocks[k].start == ptr
      requires Fits(HEADER, blocks[k], size)
      modifies this`items, this`data, this`used
      ensures Linked(items, AllocAt(HEADER, MIN_SIZE, blocks, k, size), End())
      ensures used == old(used) + Handed(HEADER, MIN_SIZE, blocks[k], size).end - ptr
      ensures |data| == |old(data)| && SameBytes(blocks, old(data), data)
    {
      NextItem(items, blocks, End(), k);
      CutSafe(blocks, End(), k, ptr);
      var next := items[ptr].next;
      if next - (ptr + HEADER) >= size + HEADER + MIN_SIZE {
        CarveSplit(ptr, size, k);
        used := used + size + HEADER;
      } else {
        used := used + next - ptr;
        MarkedUsed(items, blocks, End(), k, blocks[k := blocks[k].(used := true)]);
        Store(ptr, items[ptr].(pool := Used), blocks);
      }
    }

    method CarveSplit(ptr: nat, size: nat, ghost k: nat)
      requires Layout(items, blocks, |data|, End()) && k < |blocks| && blocks[k].start == ptr && !blocks[k].used
      requires ptr + HEADER + size + HEADER <= blocks[k].end
      modifies this`items, this`data
      ensures Linked(items, CutAt(HEADER, blocks, k, size), End())
      ensures |data| == |old(data)| && SameBytes(blocks, old(data), data)
    {
      ghost var was := items;
      var ptr2 := ptr + HEADER + size;
      NextItem(items, blocks, End(), k);
      CutSafe(blocks, End(), k, ptr);
      CutSafe(blocks, End(), k, ptr2);
      CarveLinks(items, blocks, End(), k, size, ptr2);
      CutItems(ptr, ptr2, blocks);
      Store(ptr, items[ptr].(pool := Used), blocks);
    }

    /** The headers of a block cut in two. */
    method CutItems(p: nat, q: nat, ghost live: seq<Block>)
      requires p in items && items[p].next in items && p + HEADER <= |data| && q + HEADER <= |data|
      requires items[p].next + HEADER <= |data| && p < q < items[p].next
      requires Safe(live, p) && Safe(live, q) && Safe(live, items[p].next)
      modifies this`items, this`data
      ensures items == Cut(old(items), p, q, End())
      ensures |data| == |old(data)| && SameBytes(live, old(data), data)
    {
      var next := items[p].next;
      Store(q, Item(Freed, next, p), live);
      Store(p, items[p].(next := q), live);
      if items[q].next != End() {
        Store(next, items[next].(prev := q), live);
      }
    }

    /** Looks for the next free block from block `k` on, all blocks before it being used. */
    method AdvanceFree(ghost k: nat)
      requires Tiles(HEADER, blocks, 0, End()) && Linked(items, blocks, End())
      requires k < |blocks| && lfree == blocks[k].start && forall i :: 0 <= i < k ==> blocks[i].used
      modifies this`lfree
      ensures lfree == LowestFree(blocks, End())
    {
      ghost var j := k;
      NextItem(items, blocks, End(), k);
      while items[lfree].pool == Used && lfree != End()
        invariant j <= |blocks| && lfree == StartAt(blocks, j, End()) && lfree in items
        invariant forall i :: 0 <= i < j ==> blocks[i].used
        decreases |blocks| - j
      {
        NextItem(items, blocks, End(), j);
        lfree := items[lfree].next;
        j := j + 1;
      }
      if j < |blocks| {
        NextItem(items, blocks, End(), j);
        TilesIncrease(blocks, End());
      }
      FirstFreeIs(blocks, j);
    }

    // ---- reallocation ----------------------------------------------------------------------

    /** `rt_smem_realloc`; `k` is the block that the caller was given. */
    method Realloc(rmem: Option<nat>, request: nat, ghost k: nat) returns (r: Option<nat>)
      requires Valid()
      requires rmem.Some? ==> k < |blocks| && blocks[k].used && blocks[k].start + HEADER == rmem.value
      modifies this
      ensures Valid()
      ensures ReallocEffect(size, rmem, AlignUp(request), k, old(blocks), old(data), r, blocks, data)
      ensures r != None ==> exists c :: c in blocks && HandsOut(c, r.value, AlignUp(request))
    {
      hide Linked, SameBytes, LowestFree, ReallocEffect;
      ghost var bs, d := blocks, data;
      r := Resize(rmem, request, k);
      if r != None {
        ReallocHands(size, rmem, AlignUp(request), k, bs, d, r, blocks, data, End());
      }
    }

    method Resize(rmem: Option<nat>, request: nat, ghost k: nat) returns (r: Option<nat>)
      requires Valid()
      requires rmem.Some? ==> k < |blocks| && blocks[k].used && blocks[k].start + HEADER == rmem.value
      modifies this
      ensures Valid()
      ensures ReallocEffect(size, rmem, AlignUp(request), k, old(blocks), old(data), r, blocks, data)
    {
      hide Tiles;
      hide Linked;
      hide SameBytes;
      hide LowestFree;
      hide MoveEffect;
      hide FreeAt;
      hide AllocAt;
      hide ShrinkAt;
      var newsize := AlignUp(request);
      if newsize > size {
        return None;
      } else if newsize == 0 {
        Free(rmem, k);
        return None;
      }
      if rmem.None? {
        r := Alloc(newsize);
        return;
      }
      var mem := rmem.value - HEADER;
      NextItem(items, blocks, End(), k);
      var size := items[mem].next - mem - HEADER;
      if size == newsize {
        return rmem;
      }
      if newsize + HEADER + MIN_SIZE < size {
        Shrink(mem, newsize, k);
        return rmem;
      }
      r := Move(rmem.value, size, newsize, k);
    }

    /** The rest of a block split off and given back. */
    method Shrink(mem: nat, newsize: nat, ghost k: nat)
      requires Valid() && k < |blocks| && blocks[k].used && blocks[k].start == mem && newsize % ALIGN == 0
      requires mem + HEADER + newsize + HEADER <= blocks[k].end
      modifies this
      ensures Valid() && max == old(max) && blocks == ShrinkAt(HEADER, old(blocks), k, newsize)
      ensures SameBytes(blocks, old(data), data)
    {
      hide Tiles;
      hide Linked;
      hide SameBytes;
      hide LowestFree;
      hide Coalesce;
      hide MergeNext;
      ghost var bs, d := blocks, data;
      ghost var cut := CutAt(HEADER, bs, k, newsize);
      NextItem(items, bs, End(), k);
      var size := items[mem].next - mem - HEADER;
      used := used - (size - newsize);
      CutFacts(bs, End(), k, newsize, cut);
      CutOff(mem, newsize, k);
      ghost var d1 := data;
      PlugHoles(mem + HEADER + newsize, k + 1);
      ShrinkKeeps(HEADER, bs, End(), k, newsize);
      assert blocks == ShrinkAt(HEADER, bs, k, newsize) by { ShrinkIsCoalesce(cut, k); }
      ShrunkBytes(cut, End(), k + 1, d, d1, data);
    }

    /** The free block behind `newsize` bytes of block `k`, and `lfree` lowered if need be. */
    method CutOff(mem: nat, newsize: nat, ghost k: nat)
      requires Layout(items, blocks, |data|, End()) && k < |blocks| && blocks[k].used && blocks[k].start == mem
      requires newsize % ALIGN == 0
      requires mem + HEADER + newsize + HEADER <= blocks[k].end && NoTwoFree(blocks)
      requires lfree == LowestFree(blocks, End())
      modifies this`items, this`data, this`blocks, this`lfree
      ensures Layout(items, blocks, |data|, End()) && blocks == CutAt(HEADER, old(blocks), k, newsize)
      ensures lfree == LowestFree(blocks, End())
      ensures SameBytes(blocks, old(data), data)
    {
      hide Tiles;
      hide Linked;
      hide SameBytes;
      hide LowestFree;
      hide CutAt;
      hide Safe;
      ghost var bs, was := blocks, items;
      ghost var cut := CutAt(HEADER, bs, k, newsize);
      var ptr2 := mem + HEADER + newsize;
      CutFacts(bs, End(), k, newsize, cut);
      NextItem(items, bs, End(), k);
      CutItems(mem, ptr2, cut);
      CutLayout(was, bs, |data|, End(), k, newsize, ptr2, items, cut);
      if ptr2 < lfree {
        lfree := ptr2;
      }
      blocks := cut;
    }

    /** A new block, the contents copied, the old block freed. */
    method Move(rmem: nat, size: nat, newsize: nat, ghost k: nat) returns (r: Option<nat>)
      requires Valid() && k < |blocks| && blocks[k].used && blocks[k].start + HEADER == rmem
      requires rmem + size == blocks[k].end
      requires newsize > 0 && rmem <= blocks[k].end
      modifies this
      ensures Valid()
      ensures MoveEffect(rmem, newsize, k, old(blocks), old(data), r, blocks, data)
    {
      hide Tiles;
      hide Linked;
      hide SameBytes;
      hide SameBytesBut;
      hide LowestFree;
      hide FreeAt;
      hide AllocAt;
      hide Handed;
      hide Copied;
      hide SameOutside;
      hide NoTwoFree;
      ghost var bs, d := blocks, data;
      r := Alloc(newsize);
      if r.Some? {
        ghost var j := FirstFit(HEADER, bs, Rounded(newsize));
        ghost var bs1, d1 := blocks, data;
        ghost var k' := AfterAlloc(bs, j, Rounded(newsize), k);
        AllocFinds(bs, End(), j, Rounded(newsize), k, bs1);
        var n := if size < newsize then size else newsize;
        Copy(rmem, r.value, n);
        ghost var d2 := data;
        Free(Some(rmem), k');
        MovedBytes(bs, End(), j, Rounded(newsize), k, k', Handed(HEADER, MIN_SIZE, bs[j], Rounded(newsize)), bs1,
                   blocks, n, d, d1, d2, data);
      }
    }

    /** `rt_memcpy` between two blocks. */
    method Copy(from: nat, to: nat, n: nat)
      requires Valid() && from + n <= |data| && to + n <= |data|
      modifies this`data
      ensures Valid() && |data| == |old(data)|
      ensures Copied(old(data), data, from, to, n)
      ensures SameOutside(old(data), data, to, n)
    {
      data := data[..to] + data[from..from + n] + data[to + n..];
    }

    /** A client stores a byte. */
    method Write(p: nat, v: int)
      requires Valid() && p < |data|
      modifies this`data
      ensures Valid() && data == old(data)[p := v]
    {
      data := data[p := v];
    }
  }

  /** Where block `k` is in the list after an allocation in block `j`. */
  ghost function AfterAlloc(bs: seq<Block>, j: nat, size: nat, k: nat): nat
    requires j < |bs|
  {
    if j < k && bs[j].end - bs[j].start - HEADER >= size + HEADER + MIN_SIZE then k + 1 else k
  }

  /** `n` bytes at `to` are those that were at `from`. */
  ghost predicate Copied(d: seq<int>, d': seq<int>, from: nat, to: nat, n: nat) {
    from + n <= |d| && to + n <= |d'| && d'[to..to + n] == d[from..from + n]
  }

  ghost predicate SameOutside(d: seq<int>, d': seq<int>, to: nat, n: nat) {
    |d| == |d'| && forall x :: 0 <= x < |d| && !(to <= x < to + n) ==> d'[x] == d[x]
  }

  /** All bytes handed out but those of `but` are the same. */
  ghost predicate SameBytesBut(bs: seq<Block>, but: Block, d: seq<int>, d': seq<int>) {
    |d| == |d'| &&
    forall b, x :: b in bs && b.used && b != but && b.start + HEADER <= x < b.end && x < |d| ==> d'[x] == d[x]
  }

  /** Nothing happens if no block fits; else the contents move to the lowest block that does. */
  ghost predicate MoveEffect(rmem: nat, newsize: nat, k: nat, bs: seq<Block>, d: seq<int>,
                             r: Option<nat>, bs': seq<Block>, d': seq<int>)
    requires k < |bs| && rmem <= bs[k].end
  {
    var size := Rounded(newsize);
    var j := FirstFit(HEADER, bs, size);
    if j == |bs| then r == None && bs' == bs && d' == d else
      var bs1 := AllocAt(HEADER, MIN_SIZE, bs, j, size);
      var k' := AfterAlloc(bs, j, size, k);
      && r == Some(bs[j].start + HEADER)
      && k' < |bs1| && bs1[k'] == bs[k] && bs' == FreeAt(bs1, k')
      && Copied(d, d', rmem, r.value, if bs[k].end - rmem < newsize then bs[k].end - rmem else newsize)
      && SameBytesBut(bs', Handed(HEADER, MIN_SIZE, bs[j], size), d, d')
  }

  ghost predicate ReallocEffect(heapSize: nat, rmem: Option<nat>, newsize: nat, k: nat, bs: seq<Block>, d: seq<int>,
                                r: Option<nat>, bs': seq<Block>, d': seq<int>)
    requires rmem.Some? ==> k < |bs| && bs[k].used && bs[k].start + HEADER == rmem.value <= bs[k].end
  {
    if newsize > heapSize then r == None && bs' == bs && d' == d
    else if newsize == 0 then
      r == None && bs' == (if rmem.Some? then FreeAt(bs, k) else bs) && SameBytes(bs', d, d')
    else if rmem == None then
      var j := FirstFit(HEADER, bs, Rounded(newsize));
      if j == |bs| then r == None && bs' == bs && d' == d
      else
        && r == Some(bs[j].start + HEADER) && bs' == AllocAt(HEADER, MIN_SIZE, bs, j, Rounded(newsize))
        && SameBytes(bs, d, d')
    else
      var size := bs[k].end - bs[k].start - HEADER;
      if size == newsize then r == rmem && bs' == bs && d' == d
      else if newsize + HEADER + MIN_SIZE < size
      then r == rmem && bs' == ShrinkAt(HEADER, bs, k, newsize) && SameBytes(bs', d, d')
      else MoveEffect(rmem.value, newsize, k, bs, d, r, bs', d')
  }

  /** Whatever a reallocation does, the caller ends up with a block for what it asked for, not much
      larger. */
  lemma ReallocHands(heapSize: nat, rmem: Option<nat>, newsize: nat, k: nat, bs: seq<Block>, d: seq<int>,
                     r: Option<nat>, bs': seq<Block>, d': seq<int>, end: nat)
    requires HeapOk(HEADER, bs, end)
    requires rmem.Some? ==> k < |bs| && bs[k].used && bs[k].start + HEADER == rmem.value <= bs[k].end
    requires ReallocEffect(heapSize, rmem, newsize, k, bs, d, r, bs', d') && r != None
    ensures exists c :: c in bs' && HandsOut(c, r.value, newsize)
  {
    hide Tiles, NoTwoFree, FreeAt, AllocAt, ShrinkAt, SameBytes, SameBytesBut, Rounded, Copied;
    var j := FirstFit(HEADER, bs, Rounded(newsize));
    if rmem == None {
      AllocHands(bs, j, newsize);
    } else {
      var size := bs[k].end - bs[k].start - HEADER;
      if size == newsize {
        assert bs[k] in bs' && HandsOut(bs[k], r.value, newsize);
      } else if newsize + HEADER + MIN_SIZE < size {
        ShrinkKeeps(HEADER, bs, end, k, newsize);
        var c := Block(bs[k].start, bs[k].start + HEADER + newsize, true);
        assert c in bs' && HandsOut(c, r.value, newsize);
      } else {
        MovedHands(bs, end, k, newsize, j, AfterAlloc(bs, j, Rounded(newsize), k), bs');
      }
    }
  }

  lemma MovedHands(bs: seq<Block>, end: nat, k: nat, newsize: nat, j: nat, k': nat, bs': seq<Block>)
    requires HeapOk(HEADER, bs, end) && k < |bs| && bs[k].used && j < |bs| && Fits(HEADER, bs[j], Rounded(newsize))
    requires var bs1 := AllocAt(HEADER, MIN_SIZE, bs, j, Rounded(newsize));
      k' < |bs1| && bs1[k'] == bs[k] && bs' == FreeAt(bs1, k')
    ensures exists c :: c in bs' && HandsOut(c, bs[j].start + HEADER, newsize)
  {
    hide Tiles, NoTwoFree, FreeAt, AllocAt, Rounded;
    var bs1 := AllocAt(HEADER, MIN_SIZE, bs, j, Rounded(newsize));
    AllocHands(bs, j, newsize);
    AllocTiles(HEADER, MIN_SIZE, bs, end, j, Rounded(newsize));
    FreeKeeps(HEADER, bs1, end, k');
    AllocUsed(HEADER, MIN_SIZE, bs, end, j, Rounded(newsize));
    var c := bs1[j];
    AllocShape(HEADER, MIN_SIZE, bs, j, Rounded(newsize));
    SameStart(HEADER, bs, end, j, c);
    assert bs[k] in bs && c != bs[k];
    assert c in bs1 && c.used;
  }

  lemma FreedBut(bs: seq<Block>, k: nat)
    requires NoTwoFree(bs) && k < |bs|
    ensures NoTwoFreeBut(bs[k := bs[k].(used := false)], k)
  {
  }

  lemma MarkedFree(items: map<nat, Item>, bs: seq<Block>, end: nat, k: nat, items': map<nat, Item>, bs': seq<Block>)
    requires Tiles(HEADER, bs, 0, end) && Linked(items, bs, end) && Aligned(bs) && k < |bs| && bs[k].used
    requires bs[k].start in items && items' == items[bs[k].start := items[bs[k].start].(pool := Freed)]
    requires bs' == bs[k := bs[k].(used := false)]
    ensures Tiles(HEADER, bs', 0, end) && Linked(items', bs', end) && Aligned(bs')
    ensures Safe(bs, bs[k].start) && bs[k].start <= end
    ensures LowestFree(bs', end) == if bs[k].start < LowestFree(bs, end) then bs[k].start else LowestFree(bs, end)
  {
    assert Safe(bs, bs[k].start) && bs[k].start <= end by { StartsSafe(bs, end); }
    RemarkTiles(HEADER, bs, end, k, bs[k].(used := false));
    assert Increasing(bs, end) by { TilesIncrease(bs, end); }
    assert Linked(items', bs', end) by { MarkLinks(items, bs, end, k, false, items', bs'); }
    FreedLowest(bs, end, k, bs');
  }

  lemma NextItem(items: map<nat, Item>, bs: seq<Block>, end: nat, k: nat)
    requires Tiles(HEADER, bs, 0, end) && Linked(items, bs, end) && k < |bs|
    ensures bs[k].start in items && items[bs[k].start].next == bs[k].end && bs[k].start + HEADER <= bs[k].end
    ensures bs[k].end in items
    ensures items[bs[k].start].pool == if bs[k].used then Used else Freed
    ensures bs[k].end != end ==>
      k + 1 < |bs| && bs[k + 1].start == bs[k].end && items[bs[k].end].pool == if bs[k + 1].used then Used else Freed
    ensures bs[k].end == end ==> k + 1 == |bs|
  {
    TilesIncrease(bs, end);
    assert ItemOk(items, bs, k);
    assert k + 1 < |bs| ==> ItemOk(items, bs, k + 1) && bs[k + 1].start < end;
  }

  lemma PrevItem(items: map<nat, Item>, bs: seq<Block>, end: nat, k: nat)
    requires Tiles(HEADER, bs, 0, end) && Linked(items, bs, end) && k < |bs|
    ensures bs[k].start in items
    ensures k == 0 ==> items[bs[k].start].prev == bs[k].start
    ensures k > 0 ==> items[bs[k].start].prev == bs[k - 1].start && bs[k - 1].start < bs[k].start
    ensures k > 0 ==> bs[k - 1].start in items && items[bs[k - 1].start].pool == if bs[k - 1].used then Used else Freed
  {
    TilesIncrease(bs, end);
    assert ItemOk(items, bs, k);
    assert k > 0 ==> ItemOk(items, bs, k - 1);
  }

  /** The lowest free block stays where it is when a free block is joined with its neighbours;
      in particular it is neither the block behind nor, with a free block in front, the block. */
  lemma CoalesceLowest(bs: seq<Block>, end: nat, k: nat)
    requires Tiles(HEADER, bs, 0, end) && k < |bs| && !bs[k].used && NoTwoFreeBut(bs, k)
    ensures k + 1 < |bs| ==> LowestFree(bs, end) != bs[k + 1].start
    ensures k > 0 && !bs[k - 1].used ==> LowestFree(bs, end) != bs[k].start
    ensures LowestFree(Coalesce(bs, k), end) == LowestFree(bs, end)
  {
    assert Increasing(bs, end) by { TilesIncrease(bs, end); }
    hide Tiles;
    hide LowestFree;
    LowestAtMost(bs, end, k);
    MergeLowest(bs, end, k);
    if k > 0 {
      var p: nat := k - 1;
      MergeNoTwoFree(bs, k);
      var m := MergeNext(bs, k);
      assert m[p] == m[..k][p] == bs[p];
      if !bs[p].used {
        LowestAtMost(bs, end, p);
        MergeLowest(m, end, p);
      }
    }
  }

  lemma SameBytesMerged(bs: seq<Block>, end: nat, k: nat, d: seq<int>, d1: seq<int>, d2: seq<int>)
    requires Tiles(HEADER, bs, 0, end) && k < |bs| && !bs[k].used
    requires SameBytes(bs, d, d1) && SameBytes(MergeNext(bs, k), d1, d2)
    ensures SameBytes(bs, d, d2)
  {
    MergeKeeps(HEADER, bs, end, k);
    SameBytesUsed(bs, MergeNext(bs, k), d, d1, d2);
  }

  lemma AlignedMerge(bs: seq<Block>, k: nat)
    requires Aligned(bs) && k < |bs|
    ensures Aligned(MergeNext(bs, k))
  {
  }

  lemma LowestAtMost(bs: seq<Block>, end: nat, k: nat)
    requires Increasing(bs, end) && k < |bs| && !bs[k].used
    ensures LowestFree(bs, end) <= bs[k].start
  {
  }

  lemma FreedLowest(bs: seq<Block>, end: nat, k: nat, bs': seq<Block>)
    requires Increasing(bs, end) && k < |bs| && bs[k].used && bs' == bs[k := bs[k].(used := false)]
    ensures LowestFree(bs', end) == if bs[k].start < LowestFree(bs, end) then bs[k].start else LowestFree(bs, end)
  {
    var j := FirstFree(bs);
    FirstFreeIs(bs', if k < j then k else j);
  }

  lemma SameBytesUsed(bs: seq<Block>, bs': seq<Block>, d: seq<int>, d1: seq<int>, d2: seq<int>)
    requires UsedChange(bs, bs', {}, {}) && SameBytes(bs, d, d1) && SameBytes(bs', d1, d2)
    ensures SameBytes(bs, d, d2)
  {
    forall b, x | b in bs && b.used && b.start + HEADER <= x < b.end && x < |d| ensures d2[x] == d[x] {
      assert b in bs';
    }
  }

  /** After block `k` is freed, the bytes of the others are what they were. */
  lemma SameBytesLess(bs: seq<Block>, bs': seq<Block>, end: nat, k: nat, d: seq<int>, d1: seq<int>, d2: seq<int>)
    requires Tiles(HEADER, bs, 0, end) && k < |bs| && bs[k].used && UsedChange(bs, bs', {bs[k]}, {})
    requires SameBytes(bs, d, d1) && SameBytes(bs[k := bs[k].(used := false)], d1, d2)
    ensures SameBytes(bs', d, d2)
  {
    MarkFree(HEADER, bs, end, k, bs[k].(used := false));
    forall b, x | b in bs' && b.used && b.start + HEADER <= x < b.end && x < |d| ensures d2[x] == d[x] {
      assert b in bs && b in bs[k := bs[k].(used := false)];
    }
  }

  lemma StoreSafe(bs: seq<Block>, data: seq<int>, data': seq<int>, p: nat)
    requires p + HEADER <= |data| == |data'| && Safe(bs, p)
    requires forall x :: 0 <= x < |data| && !(p <= x < p + HEADER) ==> data'[x] == data[x]
    ensures SameBytes(bs, data, data')
  {
  }

  lemma StartsSafe(bs: seq<Block>, end: nat)
    requires Tiles(HEADER, bs, 0, end)
    ensures forall i :: 0 <= i < |bs| ==> Safe(bs, bs[i].start) && bs[i].start <= end
    ensures Safe(bs, end) && forall i :: 0 <= i < |bs| ==> Safe(bs, bs[i].end) && bs[i].end <= end
  {
    AllOrdered(HEADER, bs, 0, end);
  }

  // ---- facts for allocation

  /** Blocks are aligned, so a block fits the rounded request exactly if it has room for the request. */
  lemma FitsMeans(b: Block, request: nat)
    requires b.start % ALIGN == 0 && b.end % ALIGN == 0
    ensures Fits(HEADER, b, Rounded(request)) <==> Serves(b, request)
  {
    if Serves(b, request) {
      DifferenceOfMultiples(b.end, b.start);
      DifferenceOfMultiples(b.end - b.start, HEADER);
      RoundedIsLeast(request, Payload(b));
    }
  }

  lemma AllocMeans(bs: seq<Block>, request: nat)
    requires Aligned(bs)
    ensures FirstFit(HEADER, bs, Rounded(request)) == |bs| <==> forall i :: 0 <= i < |bs| ==> !Serves(bs[i], request)
  {
    hide Serves, Fits, Rounded, FirstFit;
    forall i | 0 <= i < |bs| ensures Fits(HEADER, bs[i], Rounded(request)) <==> Serves(bs[i], request) {
      FitsMeans(bs[i], request);
    }
  }

  lemma AllocHands(bs: seq<Block>, k: nat, request: nat)
    requires k < |bs| && Fits(HEADER, bs[k], Rounded(request))
    ensures var r := AllocAt(HEADER, MIN_SIZE, bs, k, Rounded(request));
      k < |r| && HandsOut(r[k], bs[k].start + HEADER, request)
  {
    hide AllocAt, Rounded;
    AllocShape(HEADER, MIN_SIZE, bs, k, Rounded(request));
  }

  lemma FirstFitIs(bs: seq<Block>, size: nat, k: nat)
    requires k <= |bs| && (forall i :: 0 <= i < k ==> !Fits(HEADER, bs[i], size))
    requires (k < |bs| ==> Fits(HEADER, bs[k], size))
    ensures FirstFit(HEADER, bs, size) == k
  {
  }

  /** No block at or behind block `k` has room for `size` bytes. */
  lemma NothingLater(bs: seq<Block>, end: nat, size: nat, k: nat)
    requires Tiles(HEADER, bs, 0, end) && k <= |bs| && end < StartAt(bs, k, end) + HEADER + size
    ensures forall i :: k <= i < |bs| ==> !Fits(HEADER, bs[i], size)
  {
    AllOrdered(HEADER, bs, 0, end);
  }

  lemma NothingFits(bs: seq<Block>, end: nat, size: nat)
    requires Tiles(HEADER, bs, 0, end) && bs != [] && end < HEADER + size
    ensures FirstFit(HEADER, bs, size) == |bs|
  {
    NothingLater(bs, end, size, 0);
    FirstFitIs(bs, size, |bs|);
  }

  lemma AlignedAlloc(bs: seq<Block>, k: nat, size: nat)
    requires Aligned(bs) && k < |bs| && size % ALIGN == 0
    ensures Aligned(AllocAt(HEADER, MIN_SIZE, bs, k, size)) && Aligned(CutAt(HEADER, bs, k, size))
  {
    AlignedCut(bs, k, size, CutAt(HEADER, bs, k, size));
  }

  lemma AlignedCut(bs: seq<Block>, k: nat, size: nat, bs': seq<Block>)
    requires Aligned(bs) && k < |bs| && size % ALIGN == 0 && bs' == CutAt(HEADER, bs, k, size)
    ensures Aligned(bs')
  {
    var cut := bs[k].start + HEADER + size;
    SumOfMultiples(bs[k].start, HEADER);
    SumOfMultiples(bs[k].start + HEADER, size);
    forall i | 0 <= i < |bs'| ensures bs'[i].start % ALIGN == 0 && bs'[i].end % ALIGN == 0 {
      assert bs'[i] == if i < k then bs[i] else if i == k then Block(bs[k].start, cut, true)
        else if i == k + 1 then Block(cut, bs[k].end, false) else bs[i - 1];
    }
  }

  lemma MarkedUsed(items: map<nat, Item>, bs: seq<Block>, end: nat, k: nat, bs': seq<Block>)
    requires Tiles(HEADER, bs, 0, end) && Linked(items, bs, end) && k < |bs|
    requires bs' == bs[k := bs[k].(used := true)] && bs[k].start in items
    ensures Tiles(HEADER, bs', 0, end) && Linked(items[bs[k].start := items[bs[k].start].(pool := Used)], bs', end)
    ensures Safe(bs, bs[k].start) && bs[k].start <= end
  {
    TilesIncrease(bs, end);
    StartsSafe(bs, end);
    RemarkTiles(HEADER, bs, end, k, bs[k].(used := true));
    MarkLinks(items, bs, end, k, true, items[bs[k].start := items[bs[k].start].(pool := Used)], bs');
  }

  /** Marking and cutting the item of a free block, in either order. */
  lemma CarveLinks(items: map<nat, Item>, bs: seq<Block>, end: nat, k: nat, size: nat, cut: nat)
    requires Tiles(HEADER, bs, 0, end) && Linked(items, bs, end) && k < |bs|
    requires cut == bs[k].start + HEADER + size && cut < bs[k].end
    requires bs[k].start in items && items[bs[k].start].next in items && items[bs[k].start].next == bs[k].end
    ensures var p := bs[k].start; var items' := Cut(items, p, cut, end);
      p in items' && Linked(items'[p := items'[p].(pool := Used)], CutAt(HEADER, bs, k, size), end)
  {
    var p, marked := bs[k].start, bs[k := bs[k].(used := true)];
    var items1 := items[p := items[p].(pool := Used)];
    MarkedUsed(items, bs, end, k, marked);
    CutMarked(bs, k, size, marked);
    CutLinks(items1, marked, end, k, size, cut, Cut(items1, p, cut, end), CutAt(HEADER, marked, k, size));
    CutThenMark(items, p, cut, end);
  }

  lemma CutThenMark(items: map<nat, Item>, p: nat, q: nat, end: nat)
    requires p in items && items[p].next in items && p < q < items[p].next
    ensures var items' := Cut(items, p, q, end);
      p in items' && items'[p := items'[p].(pool := Used)] == Cut(items[p := items[p].(pool := Used)], p, q, end)
  {
  }

  /** A header inside a free block is safe, and so is the one behind it. */
  lemma CutSafe(bs: seq<Block>, end: nat, k: nat, p: nat)
    requires Tiles(HEADER, bs, 0, end) && k < |bs| && !bs[k].used && bs[k].start <= p <= bs[k].end
    ensures Safe(bs, p) && Safe(bs, bs[k].end) && bs[k].end <= end
  {
    AllOrdered(HEADER, bs, 0, end);
  }

  lemma CutMarked(bs: seq<Block>, k: nat, size: nat, marked: seq<Block>)
    requires k < |bs| && marked == bs[k := bs[k].(used := true)]
    ensures CutAt(HEADER, marked, k, size) == CutAt(HEADER, bs, k, size)
  {
    assert marked[..k] == bs[..k] && marked[k + 1..] == bs[k + 1..];
  }

  lemma AllocPrefix(bs: seq<Block>, k: nat, size: nat, bs': seq<Block>)
    requires k < |bs| && bs' == AllocAt(HEADER, MIN_SIZE, bs, k, size)
    ensures |bs'| >= |bs| && bs'[k].start == bs[k].start && forall i :: 0 <= i < k ==> bs'[i] == bs[i]
  {
  }

  lemma AllocLowest(bs: seq<Block>, end: nat, k: nat, size: nat, bs': seq<Block>)
    requires Tiles(HEADER, bs, 0, end) && k < |bs| && Fits(HEADER, bs[k], size)
    requires bs' == AllocAt(HEADER, MIN_SIZE, bs, k, size)
    ensures k < |bs'| && bs'[k].start == bs[k].start
    ensures bs[k].start != LowestFree(bs, end) ==> LowestFree(bs', end) == LowestFree(bs, end)
    ensures bs[k].start == LowestFree(bs, end) ==> forall i :: 0 <= i < k ==> bs'[i].used
  {
    hide AllocAt, Tiles;
    TilesIncrease(bs, end);
    AllocPrefix(bs, k, size, bs');
    PrefixLowest(bs, bs', end, k);
  }

  lemma PrefixLowest(bs: seq<Block>, bs': seq<Block>, end: nat, k: nat)
    requires Increasing(bs, end) && k < |bs| <= |bs'| && !bs[k].used && forall i :: 0 <= i < k ==> bs'[i] == bs[i]
    ensures bs[k].start != LowestFree(bs, end) ==> LowestFree(bs', end) == LowestFree(bs, end)
    ensures bs[k].start == LowestFree(bs, end) ==> forall i :: 0 <= i < k ==> bs'[i].used
  {
    var j := FirstFree(bs);
    if j < k {
      FirstFreeIs(bs', j);
    }
  }

  lemma SameBytesUsedNew(bs: seq<Block>, bs': seq<Block>, d: seq<int>, d1: seq<int>, d2: seq<int>)
    requires UsedChange(bs, bs', {}, {}) && SameBytes(bs, d, d1) && SameBytes(bs, d1, d2)
    ensures SameBytes(bs', d, d2)
  {
    forall b, x | b in bs' && b.used && b.start + HEADER <= x < b.end && x < |d| ensures d2[x] == d[x] {
      assert b in bs;
    }
  }

  lemma ShrunkBytes(cut: seq<Block>, end: nat, k: nat, d: seq<int>, d1: seq<int>, d2: seq<int>)
    requires Tiles(HEADER, cut, 0, end) && k < |cut| && !cut[k].used && SameBytes(cut, d, d1) && SameBytes(cut, d1, d2)
    ensures SameBytes(MergeNext(cut, k), d, d2)
  {
    MergeKeeps(HEADER, cut, end, k);
    SameBytesUsedNew(cut, MergeNext(cut, k), d, d1, d2);
  }

  lemma CutFacts(bs: seq<Block>, end: nat, k: nat, size: nat, cut: seq<Block>)
    requires Tiles(HEADER, bs, 0, end) && NoTwoFree(bs) && Aligned(bs) && size % ALIGN == 0
    requires k < |bs| && bs[k].used && bs[k].start + HEADER + size + HEADER <= bs[k].end
    requires cut == CutAt(HEADER, bs, k, size)
    ensures Tiles(HEADER, cut, 0, end) && Aligned(cut) && NoTwoFreeBut(cut, k + 1)
    ensures |cut| == |bs| + 1 && cut[k].used && !cut[k + 1].used && cut[k + 1].start == bs[k].start + HEADER + size
    ensures Safe(cut, bs[k].start) && Safe(cut, bs[k].start + HEADER + size) && Safe(cut, bs[k].end) && bs[k].end <= end
    ensures LowestFree(cut, end) ==
      if bs[k].start + HEADER + size < LowestFree(bs, end) then bs[k].start + HEADER + size else LowestFree(bs, end)
  {
    CutTiles(HEADER, bs, end, k, size);
    CutNoTwoFree(HEADER, bs, k, size);
    CutHalves(bs, end, k, size, cut);
    AlignedAlloc(bs, k, size);
    CutLowest(bs, end, k, size, cut);
  }

  lemma CutLayout(items: map<nat, Item>, bs: seq<Block>, n: nat, end: nat, k: nat, size: nat, cut: nat,
                  items': map<nat, Item>, bs': seq<Block>)
    requires Layout(items, bs, n, end) && NoTwoFree(bs) && k < |bs| && size % ALIGN == 0
    requires bs[k].used && cut == bs[k].start + HEADER + size && cut + HEADER <= bs[k].end
    requires bs' == CutAt(HEADER, bs, k, size)
    requires bs[k].start in items && items[bs[k].start].next in items && items' == Cut(items, bs[k].start, cut, end)
    ensures Layout(items', bs', n, end)
  {
    CutFacts(bs, end, k, size, bs');
    CutLinks(items, bs, end, k, size, cut, items', bs');
  }

  lemma CutHalves(bs: seq<Block>, end: nat, k: nat, size: nat, bs': seq<Block>)
    requires Tiles(HEADER, bs, 0, end) && k < |bs| && bs[k].start + HEADER + size + HEADER <= bs[k].end
    requires bs' == CutAt(HEADER, bs, k, size) && Tiles(HEADER, bs', 0, end)
    ensures |bs'| == |bs| + 1 && bs'[k] == Block(bs[k].start, bs[k].start + HEADER + size, true)
    ensures bs'[k + 1] == Block(bs[k].start + HEADER + size, bs[k].end, false)
    ensures forall i :: 0 <= i < k ==> bs'[i] == bs[i]
    ensures Safe(bs', bs[k].start) && Safe(bs', bs[k].start + HEADER + size) && Safe(bs', bs[k].end) && bs[k].end <= end
  {
    var q := k + 1;
    assert bs'[k] == Block(bs[k].start, bs[k].start + HEADER + size, true);
    assert bs'[q] == Block(bs[k].start + HEADER + size, bs[k].end, false);
    StartsSafe(bs', end);
  }

  lemma CutLowest(bs: seq<Block>, end: nat, k: nat, size: nat, bs': seq<Block>)
    requires Tiles(HEADER, bs, 0, end) && k < |bs| && bs[k].used && bs[k].start + HEADER + size + HEADER <= bs[k].end
    requires bs' == CutAt(HEADER, bs, k, size) && |bs'| == |bs| + 1
    requires bs'[k].used && bs'[k + 1] == Block(bs[k].start + HEADER + size, bs[k].end, false)
    requires forall i :: 0 <= i < k ==> bs'[i] == bs[i]
    ensures LowestFree(bs', end) ==
      if bs[k].start + HEADER + size < LowestFree(bs, end) then bs[k].start + HEADER + size else LowestFree(bs, end)
  {
    AllOrdered(HEADER, bs, 0, end);
    var j, q := FirstFree(bs), k + 1;
    if j < k {
      FirstFreeIs(bs', j);
    } else {
      FirstFreeIs(bs', q);
    }
  }

  lemma AllocFinds(bs: seq<Block>, end: nat, j: nat, size: nat, k: nat, bs': seq<Block>)
    requires Tiles(HEADER, bs, 0, end) && j < |bs| && Fits(HEADER, bs[j], size) && k < |bs| && bs[k].used
    requires bs' == AllocAt(HEADER, MIN_SIZE, bs, j, size)
    ensures var k' := AfterAlloc(bs, j, size, k); k' < |bs'| && bs'[k'] == bs[k]
    ensures bs[j].start + HEADER + size <= Handed(HEADER, MIN_SIZE, bs[j], size).end <= end
    ensures bs[k].end <= end
  {
    AllOrdered(HEADER, bs, 0, end);
  }

  lemma MovedBytes(bs: seq<Block>, end: nat, j: nat, size: nat, k: nat, k': nat, copy: Block, bs1: seq<Block>,
                   bs2: seq<Block>,
                   n: nat, d: seq<int>, d1: seq<int>, d2: seq<int>, d3: seq<int>)
    requires HeapOk(HEADER, bs, end) && j < |bs| && Fits(HEADER, bs[j], size) && k < |bs| && bs[k].used
    requires bs1 == AllocAt(HEADER, MIN_SIZE, bs, j, size) && HeapOk(HEADER, bs1, end)
    requires k' < |bs1| && bs1[k'] == bs[k] && bs2 == FreeAt(bs1, k') && copy == Handed(HEADER, MIN_SIZE, bs[j], size)
    requires n <= size && bs[k].start + HEADER + n <= bs[k].end && end <= |d|
    requires |d| == |d1| == |d2| == |d3| && SameBytes(bs, d, d1) && SameBytes(bs2, d2, d3)
    requires Copied(d1, d2, bs[k].start + HEADER, bs[j].start + HEADER, n)
    requires SameOutside(d1, d2, bs[j].start + HEADER, n)
    ensures Copied(d, d3, bs[k].start + HEADER, bs[j].start + HEADER, n)
    ensures SameBytesBut(bs2, copy, d, d3)
  {
    hide FreeAt;
    hide AllocAt;
    hide NoTwoFree;
    hide Tiles;
    hide SameBytes;
    hide SameBytesBut;
    hide SameOutside;
    hide Copied;
    hide Handed;
    MovedUsed(bs, end, j, size, k, k', copy, bs1, bs2);
    assert bs[k] in bs;
    CopyKept(bs, bs2, bs[k], copy, n, d, d1, d2, d3);
    OthersKept(bs, end, j, copy, n, bs2, d, d1, d2, d3);
  }

  lemma MovedUsed(bs: seq<Block>, end: nat, j: nat, size: nat, k: nat, k': nat, copy: Block, bs1: seq<Block>,
                  bs2: seq<Block>)
    requires HeapOk(HEADER, bs, end) && j < |bs| && Fits(HEADER, bs[j], size) && k < |bs| && bs[k].used
    requires bs1 == AllocAt(HEADER, MIN_SIZE, bs, j, size) && HeapOk(HEADER, bs1, end)
    requires k' < |bs1| && bs1[k'] == bs[k] && bs2 == FreeAt(bs1, k') && copy == Handed(HEADER, MIN_SIZE, bs[j], size)
    ensures copy in bs2 && copy.used && copy.start == bs[j].start && bs[j].start + HEADER + size <= copy.end <= end
    ensures bs[k].end <= end
    ensures forall b: Block :: b.used && b in bs2 ==> b in bs || b == copy
  {
    AllocUsed(HEADER, MIN_SIZE, bs, end, j, size);
    FreeKeeps(HEADER, bs1, end, k');
    AllOrdered(HEADER, bs, 0, end);
    assert copy.start != bs[k].start;
  }

  lemma CopyKept(bs: seq<Block>, bs2: seq<Block>, was: Block, copy: Block, n: nat,
                 d: seq<int>, d1: seq<int>, d2: seq<int>, d3: seq<int>)
    requires was in bs && was.used && copy in bs2 && copy.used
    requires was.start + HEADER + n <= was.end <= |d| && copy.start + HEADER + n <= copy.end <= |d|
    requires |d| == |d1| == |d2| == |d3| && SameBytes(bs, d, d1) && SameBytes(bs2, d2, d3)
    requires Copied(d1, d2, was.start + HEADER, copy.start + HEADER, n)
    ensures Copied(d, d3, was.start + HEADER, copy.start + HEADER, n)
  {
    var from, to := was.start + HEADER, copy.start + HEADER;
    assert d3[to..to + n] == d2[to..to + n];
    assert d1[from..from + n] == d[from..from + n];
  }

  lemma OthersKept(bs: seq<Block>, end: nat, j: nat, copy: Block, n: nat, bs2: seq<Block>,
                   d: seq<int>, d1: seq<int>, d2: seq<int>, d3: seq<int>)
    requires Tiles(HEADER, bs, 0, end) && j < |bs| && !bs[j].used && bs[j].start + HEADER + n <= bs[j].end && end <= |d|
    requires forall b: Block :: b.used && b in bs2 ==> b in bs || b == copy
    requires |d| == |d1| == |d2| == |d3| && SameBytes(bs, d, d1) && SameBytes(bs2, d2, d3)
    requires SameOutside(d1, d2, bs[j].start + HEADER, n)
    ensures SameBytesBut(bs2, copy, d, d3)
  {
    AllOrdered(HEADER, bs, 0, end);
    forall b, x | b in bs2 && b.used && b != copy && b.start + HEADER <= x < b.end && x < |d| ensures d3[x] == d[x] {
      assert b in bs;
      assert d3[x] == d2[x] && d1[x] == d[x];
    }
  }

  // ---- clients ------------------------------------------------------------------------------

  /** Used and free extents make up the heap, `used` counting headers. */
  lemma Accounts(m: SmallMemory)
    requires m.Valid()
    ensures m.used + Extent(m.blocks, false) == m.size + HEADER
  {
    ExtentTotal(HEADER, m.blocks, 0, m.End(), |m.blocks|);
  }

  /** Freeing a block just allocated gives back the same blocks, accounts and lowest free block. */
  method AllocThenFree(m: SmallMemory, request: nat)
    requires m.Valid()
    modifies m
    ensures m.Valid() && m.blocks == old(m.blocks) && m.used == old(m.used) && m.lfree == old(m.lfree)
  {
    hide AllocAt;
    hide FreeAt;
    hide FirstFit;
    hide Linked;
    hide SameBytes;
    ghost var bs := m.blocks;
    ghost var k := FirstFit(HEADER, bs, Rounded(request));
    var r := m.Alloc(request);
    if r.Some? {
      AllocIndex(bs, m.End(), k, Rounded(request), m.blocks);
      FreeUndoesAlloc(HEADER, MIN_SIZE, bs, m.End(), k, Rounded(request), m.blocks);
      m.Free(r, k);
    }
  }

  lemma AllocIndex(bs: seq<Block>, hi: nat, k: nat, n: nat, bs': seq<Block>)
    requires k < |bs| && Fits(HEADER, bs[k], n) && bs' == AllocAt(HEADER, MIN_SIZE, bs, k, n)
    ensures k < |bs'| && bs'[k].start == bs[k].start && bs'[k].used
  {
  }

  ghost predicate StartsBlock(bs: seq<Block>, p: nat) {
    exists k :: 0 <= k < |bs| && bs[k].start == p
  }

  lemma FreeNext(bs: seq<Block>, hi: nat, order: seq<nat>, i: nat) returns (k: nat)
    requires HeapOk(HEADER, bs, hi) && Distinct(order) && i < |order| && UsedAre(bs, order[i..])
    requires forall j :: i <= j < |order| ==> StartsBlock(bs, order[j])
    ensures k < |bs| && bs[k].used && bs[k].start == order[i] && UsedAre(FreeAt(bs, k), order[i + 1..])
    ensures forall j :: i + 1 <= j < |order| ==> StartsBlock(FreeAt(bs, k), order[j])
  {
    hide FreeAt;
    assert StartsBlock(bs, order[i]);
    k :| 0 <= k < |bs| && bs[k].start == order[i];
    assert bs[k] in bs && order[i..][0] == order[i] && order[i..][1..] == order[i + 1..];
    FreeOne(HEADER, bs, hi, k, order[i..]);
    FreeKeeps(HEADER, bs, hi, k);
    forall j | i + 1 <= j < |order| ensures StartsBlock(FreeAt(bs, k), order[j]) {
      assert StartsBlock(bs, order[j]);
      var x :| 0 <= x < |bs| && bs[x].start == order[j];
      assert bs[x] in bs && order[i..][j - i] == order[j];
      assert bs[x] in FreeAt(bs, k);
      var y :| 0 <= y < |FreeAt(bs, k)| && FreeAt(bs, k)[y] == bs[x];
    }
  }

  /** Freeing all blocks in use, in whatever order, leaves one free block spanning the heap. */
  method FreeEverything(m: SmallMemory, order: seq<nat>)
    requires m.Valid() && Distinct(order) && UsedAre(m.blocks, order) && forall i :: 0 <= i < |order| ==>
      StartsBlock(m.blocks, order[i])
    modifies m
    ensures m.Valid() && m.blocks == [Block(0, m.End(), false)] && m.used == 0
  {
    hide HeapOk;
    hide FreeAt;
    hide Linked;
    for i := 0 to |order|
      invariant m.Valid() && UsedAre(m.blocks, order[i..])
      invariant forall j :: i <= j < |order| ==> StartsBlock(m.blocks, order[j])
    {
      ghost var k := FreeNext(m.blocks, m.End(), order, i);
      m.Free(Some(order[i] + HEADER), k);
    }
    assert order[|order|..] == [];
    OneBlockLeft(HEADER, m.blocks, m.End());
    ExtentOf(m.blocks[0], m.blocks[0], true);
  }
}
