/**
Ready queues: one list of threads per priority and a bitmap of one or two levels that says
which lists have threads in them.
*/
module ReadyQueue {
  import opened Lists
  import opened Bits

  /** RT_THREAD_PRIORITY_MAX beyond which there are two levels, and the number of groups. */
  const GROUPS: nat := 32

  /** `number`, `number_mask` and `high_mask` of a thread. */
  datatype Masks = Masks(number: nat, numberMask: nat, highMask: nat)

  function MasksOf(max: nat, p: nat): Masks {
    if max > GROUPS then Masks(p / 8, Pow2(p / 8), Pow2(p % 8)) else Masks(0, Pow2(p), 0)
  }

  datatype Queues = Queues(
    lists: seq<seq<nat>>,    // priority_table
    group: nat,              // ready_priority_group
    table: seq<nat>)         // ready_table

  // ---- the bitmap --------------------------------------------------------------------------------

  /** The bitmap marks exactly the priorities in `s`. */
  ghost predicate Marks(max: nat, group: nat, table: seq<nat>, s: set<nat>) {
    && |table| == GROUPS && group < Pow2(GROUPS)
    && if max <= GROUPS then OneLevel(group, s) else TwoLevels(group, table, s)
  }

  ghost predicate OneLevel(group: nat, s: set<nat>) {
    forall p: nat :: Bit(group, p) <==> p in s
  }

  ghost predicate TwoLevels(group: nat, table: seq<nat>, s: set<nat>) {
    && |table| == GROUPS && (forall p :: p in s ==> p < 8 * GROUPS)
    && (forall n: nat :: Bit(group, n) <==> n < GROUPS && table[n] != 0)
    && (forall n: nat :: n < GROUPS ==> Byte(table[n], n, s))
  }

  ghost predicate Byte(b: nat, n: nat, s: set<nat>) {
    && b < Pow2(8)
    && (forall k: nat :: Bit(b, k) ==> k < 8 && 8 * n + k in s)
    && (forall k: nat :: k < 8 && 8 * n + k in s ==> Bit(b, k))
  }

  function Mark(max: nat, q: Queues, m: Masks): (r: Queues)
    requires |q.table| == GROUPS && m.number < GROUPS
    ensures r.lists == q.lists && |r.table| == |q.table|
  {
    if max > GROUPS then
      q.(table := q.table[m.number := Or(q.table[m.number], m.highMask)], group := Or(q.group, m.numberMask))
    else q.(group := Or(q.group, m.numberMask))
  }

  function Unmark(max: nat, q: Queues, m: Masks): (r: Queues)
    requires |q.table| == GROUPS && m.number < GROUPS
    ensures r.lists == q.lists && |r.table| == |q.table|
  {
    if max > GROUPS then
      var table := q.table[m.number := AndNot(q.table[m.number], m.highMask)];
      q.(table := table, group := if table[m.number] == 0 then AndNot(q.group, m.numberMask) else q.group)
    else q.(group := AndNot(q.group, m.numberMask))
  }

  lemma MarkByte(b: nat, n: nat, s: set<nat>, k: nat)
    requires Byte(b, n, s) && k < 8
    ensures Byte(Or(b, Pow2(k)), n, s + {8 * n + k}) && Or(b, Pow2(k)) != 0
    ensures Byte(AndNot(b, Pow2(k)), n, s - {8 * n + k})
  {
    forall j: nat ensures Bit(Or(b, Pow2(k)), j) <==> Bit(b, j) || j == k {
      OrBit(b, Pow2(k), j);
      Pow2Bit(k, j);
    }
    forall j: nat ensures Bit(AndNot(b, Pow2(k)), j) <==> Bit(b, j) && j != k {
      AndNotBit(b, Pow2(k), j);
      Pow2Bit(k, j);
    }
    Pow2Order(k, 8);
    OrBound(b, Pow2(k), 8);
    AndNotBound(b, Pow2(k));
    NonZero(Or(b, Pow2(k)), k);
  }

  lemma OtherByte(b: nat, n: nat, s: set<nat>, p: nat)
    requires Byte(b, n, s) && p / 8 != n
    ensures Byte(b, n, s + {p}) && Byte(b, n, s - {p})
  {
  }

  lemma GroupBits(group: nat, n: nat)
    requires group < Pow2(GROUPS) && n < GROUPS
    ensures Or(group, Pow2(n)) < Pow2(GROUPS) && AndNot(group, Pow2(n)) < Pow2(GROUPS)
    ensures forall j: nat :: Bit(Or(group, Pow2(n)), j) <==> Bit(group, j) || j == n
    ensures forall j: nat :: Bit(AndNot(group, Pow2(n)), j) <==> Bit(group, j) && j != n
  {
    forall j: nat
      ensures Bit(Or(group, Pow2(n)), j) <==> Bit(group, j) || j == n
      ensures Bit(AndNot(group, Pow2(n)), j) <==> Bit(group, j) && j != n
    {
      OrBit(group, Pow2(n), j);
      AndNotBit(group, Pow2(n), j);
      Pow2Bit(n, j);
    }
    Pow2Order(n, GROUPS);
    OrBound(group, Pow2(n), GROUPS);
    AndNotBound(group, Pow2(n));
  }

  lemma MarkAdds(max: nat, q: Queues, p: nat, s: set<nat>)
    requires Marks(max, q.group, q.table, s) && p < max <= 256
    ensures MasksOf(max, p).number < GROUPS
    ensures var r := Mark(max, q, MasksOf(max, p)); Marks(max, r.group, r.table, s + {p})
  {
    hide Or;
    hide Bit;
    hide Byte;
    hide Pow2;
    if max <= GROUPS {
      GroupBits(q.group, p);
    } else {
      var n, k := p / 8, p % 8;
      GroupBits(q.group, n);
      var r := Mark(max, q, MasksOf(max, p));
      forall i: nat | i < GROUPS
        ensures Byte(r.table[i], i, s + {p}) && (r.table[i] != 0 <==> q.table[i] != 0 || i == n)
      {
        if i == n {
          MarkByte(q.table[n], n, s, k);
          assert 8 * n + k == p;
        } else {
          OtherByte(q.table[i], i, s, p);
        }
      }
    }
  }

  lemma UnmarkRemoves(max: nat, q: Queues, p: nat, s: set<nat>)
    requires Marks(max, q.group, q.table, s) && p < max <= 256
    ensures MasksOf(max, p).number < GROUPS
    ensures var r := Unmark(max, q, MasksOf(max, p)); Marks(max, r.group, r.table, s - {p})
  {
    hide AndNot;
    hide Bit;
    hide Byte;
    hide Pow2;
    if max <= GROUPS {
      GroupBits(q.group, p);
    } else {
      var n, k := p / 8, p % 8;
      GroupBits(q.group, n);
      var r := Unmark(max, q, MasksOf(max, p));
      forall i: nat | i < GROUPS ensures Byte(r.table[i], i, s - {p}) {
        if i == n {
          MarkByte(q.table[n], n, s, k);
          assert 8 * n + k == p;
        } else {
          OtherByte(q.table[i], i, s, p);
        }
      }
      assert q.table[n] == 0 ==> r.table[n] == 0 by { AndNotBound(q.table[n], Pow2(k)); }
    }
  }

  /** The words looked up are 32-bit words with a bit set. */
  predicate CanPick(max: nat, q: Queues) {
    && 0 < q.group < 0x1_0000_0000 && |q.table| == GROUPS
    && (max > GROUPS ==> var n := Ffs(q.group) - 1; 0 <= n < GROUPS && 0 < q.table[n] < 0x1_0000_0000)
  }

  /** `_scheduler_get_highest_priority_thread`: the priority, found with `__rt_ffs`. */
  function Highest(max: nat, q: Queues): nat
    requires CanPick(max, q)
  {
    if max > GROUPS then
      var number := Ffs(q.group) - 1;
      number * 8 + Ffs(q.table[number]) - 1
    else Ffs(q.group) - 1
  }

  lemma GroupFfs(group: nat)
    requires 0 < group < Pow2(GROUPS)
    ensures group < 0x1_0000_0000 && Ffs(group) == Lowest(group) + 1 && Lowest(group) < GROUPS
    ensures Bit(group, Lowest(group))
    ensures forall j: nat :: Bit(group, j) ==> Lowest(group) <= j
  {
    FullWord();
    FfsIsLowest(group);
    SomeBit(group, GROUPS);
    forall j: nat ensures Bit(group, Lowest(group)) && (Bit(group, j) ==> Lowest(group) <= j) {
      LowestIsFirst(group, j);
    }
  }

  lemma ByteFfs(b: nat)
    requires 0 < b < Pow2(8)
    ensures b < 256 && Ffs(b) == Lowest(b) + 1 && Bit(b, Lowest(b))
    ensures forall j: nat :: Bit(b, j) ==> Lowest(b) <= j
  {
    assert Pow2(8) == 256;
    FfsIsLowest(b);
    forall j: nat ensures Bit(b, Lowest(b)) && (Bit(b, j) ==> Lowest(b) <= j) {
      LowestIsFirst(b, j);
    }
  }

  /** The priority found through the bitmap is the least one marked. */
  lemma HighestIsLeast(max: nat, q: Queues, s: set<nat>)
    requires Marks(max, q.group, q.table, s)
    ensures q.group == 0 <==> s == {}
    ensures q.group != 0 ==>
      && CanPick(max, q)
      && Highest(max, q) in s && forall p :: p in s ==> Highest(max, q) <= p
  {
    hide Ffs;
    hide Lowest;
    hide TwoLevels;
    if q.group == 0 {
      forall p: nat ensures p !in s {
        NothingMarked(max, q, s, p);
      }
    } else {
      GroupFfs(q.group);
      if max > GROUPS {
        LeastOfTwoLevels(q, s);
      }
    }
  }

  lemma LeastOfTwoLevels(q: Queues, s: set<nat>)
    requires TwoLevels(q.group, q.table, s) && 0 < q.group < Pow2(GROUPS)
    ensures |q.table| == GROUPS && q.group < 0x1_0000_0000 && Ffs(q.group) == Lowest(q.group) + 1
    ensures Lowest(q.group) < GROUPS
    ensures var n := Lowest(q.group);
      && 0 < q.table[n] < 0x1_0000_0000 && Ffs(q.table[n]) == Lowest(q.table[n]) + 1
      && 8 * n + Lowest(q.table[n]) in s && forall p :: p in s ==> 8 * n + Lowest(q.table[n]) <= p
  {
    hide Ffs;
    hide Lowest;
    GroupFfs(q.group);
    var n := Lowest(q.group);
    ByteFfs(q.table[n]);
    forall p | p in s ensures 8 * n + Lowest(q.table[n]) <= p {
      InTable(q, s, p);
    }
  }

  lemma InTable(q: Queues, s: set<nat>, p: nat)
    requires TwoLevels(q.group, q.table, s) && p in s
    ensures p / 8 < GROUPS && q.table[p / 8] != 0 && Bit(q.group, p / 8) && Bit(q.table[p / 8], p % 8)
  {
    var n, k := p / 8, p % 8;
    assert 8 * n + k == p && Byte(q.table[n], n, s);
    NonZero(q.table[n], k);
  }

  lemma NothingMarked(max: nat, q: Queues, s: set<nat>, p: nat)
    requires Marks(max, q.group, q.table, s) && q.group == 0
    ensures p !in s
  {
    ZeroBit(p);
    if max > GROUPS && p in s {
      InTable(q, s, p);
      ZeroBit(p / 8);
    }
  }

  // ---- the lists ---------------------------------------------------------------------------------

  ghost function Occupied(lists: seq<seq<nat>>): set<nat> {
    set p: nat | p < |lists| && lists[p] != []
  }

  /** The bitmap agrees with the lists. */
  ghost predicate QueuesOk(max: nat, q: Queues) {
    0 < max <= 256 && |q.lists| == max && Marks(max, q.group, q.table, Occupied(q.lists))
  }

  /** `t` is in the list of priority `p` exactly if `home[t]` says so, and in no list twice. */
  ghost predicate Listed(lists: seq<seq<nat>>, home: seq<Option<nat>>) {
    forall p: nat :: p < |lists| ==> ListedAt(lists[p], home, p)
  }

  ghost predicate ListedAt(list: seq<nat>, home: seq<Option<nat>>, p: nat) {
    Distinct(list) && forall t: nat :: t in list <==> t < |home| && home[t] == Some(p)
  }

  /** Links a thread at the end or at the front of its list and marks the list. */
  function Enqueue(max: nat, q: Queues, p: nat, m: Masks, t: nat, last: bool): (r: Queues)
    requires |q.table| == GROUPS && m.number < GROUPS && p < |q.lists|
    ensures |r.table| == |q.table| && r.lists == q.lists[p := if last then q.lists[p] + [t] else [t] + q.lists[p]]
  {
    var list := if last then q.lists[p] + [t] else [t] + q.lists[p];
    Mark(max, q.(lists := q.lists[p := list]), m)
  }

  /** Unlinks a thread and unmarks its list if that leaves it empty. */
  function Dequeue(max: nat, q: Queues, p: nat, m: Masks, t: nat): (r: Queues)
    requires |q.table| == GROUPS && m.number < GROUPS && p < |q.lists|
    ensures |r.table| == |q.table| && r.lists == q.lists[p := Remove(q.lists[p], t)]
  {
    var r := q.(lists := q.lists[p := Remove(q.lists[p], t)]);
    if r.lists[p] == [] then Unmark(max, r, m) else r
  }

  /** Taking out a thread just put at either end leaves the list as it was. */
  lemma UndoEnqueue(lists: seq<seq<nat>>, home: seq<Option<nat>>, p: nat, t: nat)
    requires Listed(lists, home) && p < |lists| && t < |home| && home[t] == None
    ensures Remove(lists[p] + [t], t) == lists[p] && Remove([t] + lists[p], t) == lists[p]
  {
    hide Remove;
    assert t !in lists[p];
    RemoveMiddle(lists[p], t, []);
    RemoveMiddle([], t, lists[p]);
    assert lists[p] + [t] + [] == lists[p] + [t] && lists[p] + [] == lists[p];
    assert [] + [t] + lists[p] == [t] + lists[p] && [] + lists[p] == lists[p];
  }

  /** `t` leaves the list of `from` for the front of the list of `to`. */
  function Moved(lists: seq<seq<nat>>, from: nat, to: nat, t: nat): seq<seq<nat>>
    requires from < |lists| && to < |lists|
  {
    var rest := lists[from := Remove(lists[from], t)];
    rest[to := [t] + rest[to]]
  }

  /** What callers need to know before they change the queues. */
  lemma QueueBounds(max: nat, q: Queues, p: nat)
    requires QueuesOk(max, q) && p < max
    ensures |q.table| == GROUPS && MasksOf(max, p).number < GROUPS && p < |q.lists|
  {
  }

  lemma EnqueueKeeps(max: nat, q: Queues, home: seq<Option<nat>>, p: nat, t: nat, last: bool)
    requires QueuesOk(max, q) && Listed(q.lists, home) && p < max && t < |home| && home[t] == None
    ensures |q.table| == GROUPS && MasksOf(max, p).number < GROUPS
    ensures var r := Enqueue(max, q, p, MasksOf(max, p), t, last);
      QueuesOk(max, r) && Listed(r.lists, home[t := Some(p)])
  {
    hide Marks;
    QueueBounds(max, q, p);
    var list := if last then q.lists[p] + [t] else [t] + q.lists[p];
    var lists := q.lists[p := list];
    MarkAdds(max, q.(lists := lists), p, Occupied(q.lists));
    assert Occupied(lists) == Occupied(q.lists) + {p};
    ListChange(q.lists, home, p, t, Some(p), list);
  }

  lemma DequeueKeeps(max: nat, q: Queues, home: seq<Option<nat>>, p: nat, t: nat)
    requires QueuesOk(max, q) && Listed(q.lists, home) && p < max && t < |home|
    requires (home[t] == Some(p) || home[t] == None)
    ensures |q.table| == GROUPS && MasksOf(max, p).number < GROUPS
    ensures var r := Dequeue(max, q, p, MasksOf(max, p), t); QueuesOk(max, r) && Listed(r.lists, home[t := None])
    ensures home[t] == None ==> Dequeue(max, q, p, MasksOf(max, p), t).lists == q.lists
  {
    hide Marks;
    QueueBounds(max, q, p);
    RemoveFacts(q.lists[p], t);
    var list := Remove(q.lists[p], t);
    var lists := q.lists[p := list];
    UnmarkRemoves(max, q.(lists := lists), p, Occupied(q.lists));
    assert ListedAt(q.lists[p], home, p);
    if list == [] {
      assert Occupied(lists) == Occupied(q.lists) - {p};
    } else {
      assert list[0] in q.lists[p];
      assert Occupied(lists) == Occupied(q.lists);
    }
    ListChange(q.lists, home, p, t, None, list);
    if home[t] == None {
      assert t !in q.lists[p];
    }
  }

  lemma ListChange(lists: seq<seq<nat>>, home: seq<Option<nat>>, p: nat, t: nat, h: Option<nat>, list: seq<nat>)
    requires Listed(lists, home) && p < |lists| && t < |home| && (home[t] == None || home[t] == Some(p))
    requires (h == None || h == Some(p))
    requires Distinct(list) && forall x :: x in list <==> (x in lists[p] && x != t) || (x == t && h == Some(p))
    ensures Listed(lists[p := list], home[t := h])
  {
    var after, home' := lists[p := list], home[t := h];
    forall i: nat | i < |after| ensures ListedAt(after[i], home', i) {
      assert ListedAt(lists[i], home, i);
    }
  }

  /** The first thread of the most urgent list: nobody listed is more urgent. */
  lemma HighestThread(max: nat, q: Queues, home: seq<Option<nat>>)
    requires QueuesOk(max, q) && Listed(q.lists, home) && q.group != 0
    ensures CanPick(max, q)
    ensures var p := Highest(max, q);
      && p < max && q.lists[p] != [] && q.lists[p][0] < |home| && home[q.lists[p][0]] == Some(p)
      && forall t: nat :: t < |home| && home[t] != None && home[t].value < max ==> p <= home[t].value
  {
    hide Marks;
    hide Ffs;
    QueueBounds(max, q, 0);
    HighestIsLeast(max, q, Occupied(q.lists));
    var p := Highest(max, q);
    assert p in Occupied(q.lists);
    assert ListedAt(q.lists[p], home, p);
    assert q.lists[p][0] in q.lists[p];
    forall t: nat | t < |home| && home[t] != None && home[t].value < max ensures p <= home[t].value {
      ListedIsOccupied(q.lists, home, t);
    }
  }

  lemma ListedIsOccupied(lists: seq<seq<nat>>, home: seq<Option<nat>>, t: nat)
    requires Listed(lists, home) && t < |home| && home[t] != None && home[t].value < |lists|
    ensures home[t].value in Occupied(lists)
  {
    var i := home[t].value;
    assert ListedAt(lists[i], home, i);
    assert t in lists[i];
  }

  lemma NobodyListed(max: nat, q: Queues, home: seq<Option<nat>>, t: nat)
    requires QueuesOk(max, q) && Listed(q.lists, home) && t < |home| && home[t] != None && home[t].value < max
    ensures q.group != 0
  {
    hide Marks;
    ListedIsOccupied(q.lists, home, t);
    HighestIsLeast(max, q, Occupied(q.lists));
  }

  /** `rt_system_scheduler_init`: no thread is ready and no bit is set. */
  lemma EmptyQueues(max: nat, q: Queues)
    requires 0 < max <= 256 && |q.lists| == max && |q.table| == GROUPS && q.group == 0
    requires (forall p :: 0 <= p < max ==> q.lists[p] == []) && forall n :: 0 <= n < GROUPS ==> q.table[n] == 0
    ensures QueuesOk(max, q)
  {
    assert Occupied(q.lists) == {};
    forall k: nat ensures !Bit(0, k) {
      ZeroBit(k);
    }
  }
}
