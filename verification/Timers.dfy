/**
The timer list of timer.c: timers sorted by a wrapping deadline, kept in the rows of a skip
list. A ghost sequence holds the true deadlines, which do not wrap.
*/
module Timers {
  import opened Lists
  import opened TimerRows

  datatype Timer = Timer(
    initTick: int,       // period or delay
    timeoutTick: int,    // wrapped deadline
    periodic: bool,      // RT_TIMER_FLAG_PERIODIC
    active: bool,        // RT_TIMER_FLAG_ACTIVATED
    processing: bool)    // RT_TIMER_FLAG_PROCESSING

  /** RT_TIMER_SKIP_LIST_MASK + 1, and the number of values tested per level */
  const FANOUT: nat := 4

  /** In how many rows the insert counter puts a timer, the bottom row included. */
  function HeightOf(counter: nat, levels: nat): (h: nat)
    ensures levels >= 1 ==> 1 <= h <= levels
  {
    if levels <= 1 then levels
    else if counter % FANOUT != 0 then 1
    else 1 + HeightOf(counter / FANOUT, levels - 1)
  }

  ghost function Power(k: nat): (r: nat)
    ensures r > 0
  {
    if k == 0 then 1 else FANOUT * Power(k - 1)
  }

  /** A timer is linked `k` rows above the bottom exactly if the counter is a multiple of the `k`-th
      power of 4: every fourth timer reaches up one row more. */
  lemma {:induction false} HeightExactly(counter: nat, levels: nat, k: nat)
    requires k < levels
    ensures HeightOf(counter, levels) > k <==> counter % Power(k) == 0
  {
    if k > 0 {
      PowerDivides(counter, Power(k - 1));
      if counter % FANOUT == 0 {
        HeightExactly(counter / FANOUT, levels - 1, k - 1);
      }
    }
  }

  lemma PowerDivides(x: nat, p: nat)
    requires p > 0
    ensures x % (FANOUT * p) == 0 <==> x % FANOUT == 0 && x / FANOUT % p == 0
  {
    var q, r := x / (FANOUT * p), x % (FANOUT * p);
    assert x == FANOUT * (p * q) + r;
    assert x / FANOUT == p * q + r / FANOUT && x % FANOUT == r % FANOUT;
    Remainder(p, q, r / FANOUT);
  }

  lemma Remainder(p: nat, q: nat, r: nat)
    requires r < p
    ensures (p * q + r) % p == r
  {
    var x := p * q + r;
    var q', r' := x / p, x % p;
    assert x == p * q' + r' && 0 <= r' < p;
    assert p * (q - q') == r' - r;
    OnlyZero(p, q - q', r' - r);
  }

  lemma OnlyZero(p: int, a: int, r: int)
    requires p * a == r && -p < r < p
    ensures r == 0
  {
  }

  // ---- the invariant -------------------------------------------------------------------

  /** Each row holds exactly those timers of the row below that reach up to it, in order. */
  ghost predicate RowsOk(rows: seq<seq<nat>>, height: seq<int>) {
    forall l, below :: 0 <= l && below == l + 1 && below < |rows| ==> rows[l] == Keep(height, rows[below], |rows| - l)
  }

  ghost predicate RecordsOk(bottom: seq<nat>, timers: seq<Timer>, due: seq<int>) {
    && |due| == |timers|
    && (forall t :: t in bottom ==> t < |timers| && timers[t].timeoutTick == due[t] % WRAP)
    && (forall t :: 0 <= t < |timers| ==>
          0 <= timers[t].initTick < HALF && 0 <= timers[t].timeoutTick < WRAP)
  }

  ghost predicate ListOk(bottom: seq<nat>, due: seq<int>) {
    Distinct(bottom) && Sorted(due, bottom)
  }

  /** All timers in the list are due less than half the tick range from `d`. */
  ghost predicate NearAll(due: seq<int>, s: seq<nat>, d: int) {
    forall t :: t in s ==> Near(At(due, t), d)
  }

  /** Every row is sorted and holds timers of the bottom row only. */
  lemma {:induction false} RowFacts(rows: seq<seq<nat>>, height: seq<int>, due: seq<int>, l: nat)
    requires RowsOk(rows, height) && l < |rows| && Sorted(due, rows[|rows| - 1])
    ensures Sorted(due, rows[l])
    ensures forall x :: x in rows[l] ==> x in rows[|rows| - 1]
    ensures l > 0 ==> forall x :: x in rows[l - 1] ==> x in rows[l]
    decreases |rows| - l
  {
    if l < |rows| - 1 {
      var below := l + 1;
      RowFacts(rows, height, due, below);
      KeepSorted(height, due, rows[below], |rows| - l);
      KeepMembers(height, rows[below], |rows| - l);
    }
    if l > 0 {
      var above: nat := l - 1;
      assert rows[above] == Keep(height, rows[l], |rows| - above);
      KeepMembers(height, rows[l], |rows| - above);
    }
  }

  // ---- all rows changed at once ------------------------------------------------------------

  ghost function RemoveAll(rows: seq<seq<nat>>, t: nat): seq<seq<nat>> {
    seq(|rows|, l requires 0 <= l < |rows| => Remove(rows[l], t))
  }

  ghost function InsertAll(rows: seq<seq<nat>>, due: seq<int>, t: nat, h: nat): seq<seq<nat>> {
    seq(|rows|, l requires 0 <= l < |rows| => if |rows| - l <= h then Insert(due, rows[l], t) else rows[l])
  }

  lemma {:induction false} RowDistinct(rows: seq<seq<nat>>, height: seq<int>, l: nat)
    requires RowsOk(rows, height) && l < |rows| && Distinct(rows[|rows| - 1])
    ensures Distinct(rows[l])
    decreases |rows| - l
  {
    if l < |rows| - 1 {
      var below := l + 1;
      RowDistinct(rows, height, below);
      KeepDistinct(height, rows[below], |rows| - l);
    }
  }

  lemma {:induction false} KeepDistinct(height: seq<int>, s: seq<nat>, m: int)
    requires Distinct(s)
    ensures Distinct(Keep(height, s, m))
    decreases |s|
  {
    if s != [] {
      KeepDistinct(height, s[1..], m);
      KeepMembers(height, s[1..], m);
      var k, r := Keep(height, s, m), Keep(height, s[1..], m);
      if At(height, s[0]) >= m {
        assert k == [s[0]] + r;
        forall i | 0 <= i < |r| ensures r[i] != s[0] {
          assert r[i] in r;
        }
      } else {
        assert k == r;
      }
    }
  }

  lemma RemoveAllRows(rows: seq<seq<nat>>, height: seq<int>, t: nat)
    requires RowsOk(rows, height) && rows != [] && Distinct(rows[|rows| - 1])
    ensures RowsOk(RemoveAll(rows, t), height)
  {
    hide Keep, Remove;
    forall l, below | 0 <= l && below == l + 1 && below < |rows|
      ensures RemoveAll(rows, t)[l] == Keep(height, RemoveAll(rows, t)[below], |rows| - l)
    {
      RowDistinct(rows, height, below);
      KeepRemove(height, rows[below], |rows| - l, t);
    }
  }

  /** The new height of a timer in no row does not disturb the rows. */
  lemma HeightFrame(rows: seq<seq<nat>>, height: seq<int>, due: seq<int>, t: nat, h: int)
    requires RowsOk(rows, height) && rows != [] && Sorted(due, rows[|rows| - 1]) && t < |height|
    requires t !in rows[|rows| - 1]
    ensures RowsOk(rows, height[t := h])
  {
    forall l, below | 0 <= l && below == l + 1 && below < |rows|
      ensures rows[l] == Keep(height[t := h], rows[below], |rows| - l)
    {
      RowFacts(rows, height, due, below);
      KeepFrame(height, height[t := h], rows[below], |rows| - l);
    }
  }

  lemma InsertAllRows(rows: seq<seq<nat>>, height: seq<int>, due: seq<int>, t: nat, h: nat)
    requires RowsOk(rows, height) && rows != [] && Sorted(due, rows[|rows| - 1]) && At(height, t) == h
    ensures RowsOk(InsertAll(rows, due, t, h), height)
  {
    hide Keep;
    hide Insert;
    forall l, below | 0 <= l && below == l + 1 && below < |rows|
      ensures InsertAll(rows, due, t, h)[l] == Keep(height, InsertAll(rows, due, t, h)[below], |rows| - l)
    {
      RowFacts(rows, height, due, below);
      KeepInsert(height, due, rows[below], |rows| - l, t);
    }
  }

  // ---- firing ------------------------------------------------------------------------------

  /** The pending timers in order, all deadlines and all records. */
  datatype Pending = Pending(list: seq<nat>, due: seq<int>, timers: seq<Timer>)

  /** What firing `t` at `now` leaves: a periodic timer goes back into the list. */
  ghost function Fire(p: Pending, t: nat, now: int): Pending {
    if !(t < |p.timers| && t < |p.due|) then p
    else if p.timers[t].periodic then
      var d := now + p.timers[t].initTick;
      Pending(Insert(p.due[t := d], p.list, t), p.due[t := d],
              p.timers[t := p.timers[t].(active := true, timeoutTick := d % WRAP)])
    else Pending(p.list, p.due, p.timers[t := p.timers[t].(active := false)])
  }

  /** All timers of `batch` fired at `now`, one after the other. */
  ghost function FireAll(p: Pending, batch: seq<nat>, now: int): Pending {
    if batch == [] then p else Fire(FireAll(p, batch[..|batch| - 1], now), batch[|batch| - 1], now)
  }

  class TimerList {
    /** `_timer_list`; the last row holds all pending timers. */
    var rows: seq<seq<nat>>
    var timers: seq<Timer>
    /** The static insert counter of `_timer_start`. */
    var counter: nat
    ghost var due: seq<int>
    ghost var height: seq<int>

    function Bottom(): seq<nat>
      requires rows != []
      reads this
    {
      rows[|rows| - 1]
    }

    ghost predicate Valid()
      reads this
    {
      && rows != [] && |height| == |timers| && RowsOk(rows, height)
      && ListOk(Bottom(), due) && RecordsOk(Bottom(), timers, due)
      && (forall t :: 0 <= t < |timers| ==> !timers[t].processing && (timers[t].active <==> t in Bottom()))
    }

    /** `rt_system_timer_init` and `rt_timer_init` for every timer. */
    constructor (levels: nat, records: seq<(int, bool)>)
      requires levels >= 1 && forall i :: 0 <= i < |records| ==> 0 <= records[i].0 < HALF
      ensures Valid() && |rows| == levels && Bottom() == [] && |timers| == |records|
      ensures forall i :: 0 <= i < |records| ==> timers[i] == Timer(records[i].0, 0, records[i].1, false, false)
    {
      rows := seq(levels, _ => []);
      timers := seq(|records|, i requires 0 <= i < |records| => Timer(records[i].0, 0, records[i].1, false, false));
      counter := 0;
      due := seq(|records|, _ => 0);
      height := seq(|records|, _ => 0);
    }

    /** `_timer_remove`: unlinks the timer from every row. */
    method Unlink(t: nat)
      requires rows != []
      modifies this`rows
      ensures rows == RemoveAll(old(rows), t)
    {
      for i := 0 to |rows|
        invariant |rows| == |old(rows)|
        invariant forall l :: 0 <= l < |rows| ==> rows[l] == if l < i then Remove(old(rows)[l], t) else old(rows)[l]
      {
        rows := rows[i := Remove(rows[i], t)];
      }
    }

    /** The search of `_timer_start`: in each row, behind all timers due no later. */
    method FindHeads(t: nat) returns (heads: seq<nat>)
      requires rows != [] && RowsOk(rows, height) && ListOk(Bottom(), due) && RecordsOk(Bottom(), timers, due)
      requires t < |timers| && timers[t].timeoutTick == due[t] % WRAP && NearAll(due, Bottom(), due[t])
      ensures |heads| == |rows|
      ensures forall l :: 0 <= l < |rows| ==> heads[l] == Upper(due, rows[l], due[t])
    {
      hide RowsOk, NearAll, Upper;
      heads := [];
      for l := 0 to |rows|
        invariant |heads| == l
        invariant forall k :: 0 <= k < l ==> heads[k] == Upper(due, rows[k], due[t])
      {
        RowFacts(rows, height, due, l);
        var row := rows[l];
        var start := 0;
        if l > 0 && heads[l - 1] > 0 {
          // the node below the one reached in the row above
          var node := rows[l - 1][heads[l - 1] - 1];
          assert node in rows[l - 1];
          start := IndexOf(row, node) + 1;
        }
        var n := WalkRow(row, start, t);
        heads := heads + [n];
      }
    }

    /** One row of the search, from position `start` on. */
    method WalkRow(row: seq<nat>, start: nat, t: nat) returns (n: nat)
      requires rows != [] && RecordsOk(Bottom(), timers, due) && (forall x :: x in row ==> x in Bottom())
      requires t < |timers| && timers[t].timeoutTick == due[t] % WRAP && NearAll(due, Bottom(), due[t])
      requires Sorted(due, row) && start <= |row| && (start > 0 ==> At(due, row[start - 1]) <= due[t])
      ensures n == Upper(due, row, due[t])
    {
      n := start;
      while n < |row|
        invariant start <= n <= |row| && (n > 0 ==> At(due, row[n - 1]) <= due[t])
      {
        var p := row[n];
        assert p in row;
        NearComparisons(due[p], due[t]);
        var diff := Minus(timers[p].timeoutTick, timers[t].timeoutTick);
        if diff == 0 {
          n := n + 1;
          continue;
        } else if diff < HALF {
          break;
        }
        n := n + 1;
      }
      UpperIs(due, row, due[t], n);
    }

    /** `_timer_start` at tick `tick`, which stands for the true time `now`. */
    method Start(t: nat, tick: int, ghost now: int) returns (ok: bool)
      requires rows != [] && |height| == |timers| && RowsOk(rows, height)
      requires ListOk(Bottom(), due) && RecordsOk(Bottom(), timers, due)
      requires t < |timers| && tick == now % WRAP
      requires NearAll(due, Bottom(), now + timers[t].initTick)
      modifies this
      ensures |rows| == |old(rows)| && |height| == |timers| == |old(timers)| && RowsOk(rows, height)
      ensures ListOk(Bottom(), due) && RecordsOk(Bottom(), timers, due)
      ensures ok == !old(timers[t].processing)
      ensures !ok ==> rows == old(rows) && timers == old(timers) && due == old(due)
      ensures ok ==>
        && due == old(due[t := now + timers[t].initTick])
        && Bottom() == Insert(due, Remove(old(Bottom()), t), t)
        && timers == old(timers)[t := old(timers)[t].(active := true,
                                                      timeoutTick := (tick + old(timers)[t].initTick) % WRAP)]
    {
      hide Insert;
      hide InsertAll;
      hide Remove;
      hide RemoveAll;
      hide HeightOf;
      hide RowsOk;
      hide ListOk;
      hide RecordsOk;
      hide NearAll;
      if timers[t].processing {
        return false;
      }
      var timeout := (tick + timers[t].initTick) % WRAP;
      DeadlineWraps(now, timers[t].initTick);
      StartFacts(rows, timers, height, due, t, now + timers[t].initTick, timeout);
      Unlink(t);
      timers := timers[t := timers[t].(active := false, timeoutTick := timeout)];
      due := due[t := now + timers[t].initTick];
      Link(t);
      timers := timers[t := timers[t].(active := true)];
      return true;
    }

    /** The insertion of `_timer_start`: always in the bottom row, and as far up as the bits of
        the insert counter say. */
    method Link(t: nat)
      requires rows != [] && |height| == |timers| && RowsOk(rows, height)
      requires ListOk(Bottom(), due) && RecordsOk(Bottom(), timers, due) && t < |timers| && t !in Bottom()
      requires timers[t].timeoutTick == due[t] % WRAP && NearAll(due, Bottom(), due[t])
      modifies this`rows, this`counter, this`height
      ensures |rows| == |old(rows)| && |height| == |timers| && RowsOk(rows, height)
      ensures Bottom() == Insert(due, old(Bottom()), t)
      ensures rows == InsertAll(old(rows), due, t, HeightOf(counter, |rows|)) && counter == (old(counter) + 1) % WRAP
    {
      hide Insert;
      hide InsertAll;
      hide InsertAt;
      hide RowsOk;
      hide ListOk;
      hide RecordsOk;
      hide NearAll;
      hide HeightOf;
      var heads := FindHeads(t);
      counter := (counter + 1) % WRAP;
      LinkFacts(rows, timers, height, due, heads, t, HeightOf(counter, |rows|));
      height := height[t := HeightOf(counter, |rows|)];
      Climb(t, heads, HeightOf(counter, |rows|));
    }

    method Climb(t: nat, heads: seq<nat>, ghost h: nat)
      requires rows != [] && |heads| == |rows| && h == HeightOf(counter, |rows|)
      requires forall l :: 0 <= l < |rows| ==>
        heads[l] <= |rows[l]| && InsertAt(rows[l], heads[l], t) == Insert(due, rows[l], t)
      modifies this`rows
      ensures rows == InsertAll(old(rows), due, t, h)
    {
      hide Insert;
      hide InsertAt;
      ghost var levels := |rows|;
      var tst: nat := counter;
      rows := rows[|rows| - 1 := InsertAt(rows[|rows| - 1], heads[|rows| - 1], t)];
      for lvl := 2 to |rows| + 1
        invariant |rows| == levels && 2 <= lvl <= levels + 1
        invariant forall l :: 0 <= l < levels ==>
          rows[l] == if levels - l < lvl then Insert(due, old(rows)[l], t) else old(rows)[l]
        invariant h == (lvl - 2) + HeightOf(tst, levels - (lvl - 2))
      {
        if tst % FANOUT == 0 {
          rows := rows[|rows| - lvl := InsertAt(rows[|rows| - lvl], heads[|rows| - lvl], t)];
        } else {
          break;
        }
        tst := tst / FANOUT;
      }
    }

    /** `rt_timer_start`. */
    method StartTimer(t: nat, tick: int, ghost now: int) returns (ok: bool)
      requires Valid() && t < |timers| && tick == now % WRAP && NearAll(due, Bottom(), now + timers[t].initTick)
      modifies this
      ensures Valid() && ok && |rows| == |old(rows)|
      ensures due == old(due[t := now + timers[t].initTick]) && Bottom() == Insert(due, Remove(old(Bottom()), t), t)
      ensures timers == old(timers)[t := old(timers)[t].(active := true, timeoutTick := due[t] % WRAP)]
    {
      hide Insert;
      hide Remove;
      hide RowsOk;
      DeadlineWraps(now, timers[t].initTick);
      RemovedList(Bottom(), due, t);
      InsertMembers(due[t := now + timers[t].initTick], Remove(Bottom(), t), t);
      ok := Start(t, tick, now);
    }

    /** `rt_timer_stop`. */
    method Stop(t: nat) returns (ok: bool)
      requires Valid() && t < |timers|
      modifies this
      ensures Valid() && |rows| == |old(rows)| && due == old(due)
      ensures ok == (t in old(Bottom())) && Bottom() == Remove(old(Bottom()), t)
      ensures timers == old(timers)[t := old(timers)[t].(active := false)]
    {
      hide Remove;
      hide RowsOk;
      RemoveAllRows(rows, height, t);
      RemovedList(Bottom(), due, t);
      if !timers[t].active {
        assert timers == timers[t := timers[t].(active := false)];
        return false;
      }
      Unlink(t);
      timers := timers[t := timers[t].(active := false)];
      return true;
    }

    /** One turn of the loop of `rt_timer_check`, for a callback that touches no timer. */
    method FireHead(tick: int, ghost now: int) returns (t: nat)
      requires Valid() && Bottom() != [] && tick == now % WRAP
      requires var p := Pending(Bottom(), due, timers);
        IsPeriodic(p, p.list[0]) ==> NearAll(due, Bottom(), now + Period(p, p.list[0]))
      modifies this
      ensures Valid() && |rows| == |old(rows)|
      ensures t == old(Bottom()[0])
      ensures Pending(Bottom(), due, timers) == Fire(old(Pending(Bottom()[1..], due, timers)), t, now)
    {
      hide Insert, Remove, RowsOk, NearAll, ListOk, RecordsOk, HeightOf, Upper, Keep;
      t := Bottom()[0];
      assert t in Bottom();
      HeadKnown(Bottom(), timers, due);
      FireFacts(rows, timers, height, due, t, now + timers[t].initTick);
      FlagsKeep(Bottom()[1..], timers, due, t);
      ghost var off := timers[t := timers[t].(active := false, processing := false)];
      Unlink(t);
      if !timers[t].periodic {
        timers := timers[t := timers[t].(active := false)];
      }
      timers := timers[t := timers[t].(processing := true)];
      timers := timers[t := timers[t].(processing := false)];
      if timers[t].periodic && timers[t].active {
        timers := timers[t := timers[t].(active := false)];
        assert timers == off;
        var _ := Start(t, tick, now);
      } else {
        assert timers == off;
      }
    }

    /** `rt_timer_check` at a fixed tick: fires exactly the due timers, in deadline order. */
    method Check(tick: int, ghost now: int) returns (fired: seq<nat>)
      requires Valid() && tick == now % WRAP && CheckOk(Pending(Bottom(), due, timers), now)
      modifies this
      ensures Valid() && |rows| == |old(rows)|
      ensures var n := Upper(old(due), old(Bottom()), now);
        && fired == old(Bottom())[..n]
        && Pending(Bottom(), due, timers) == FireAll(Pending(old(Bottom())[n..], old(due), old(timers)), fired, now)
      ensures forall u :: u in Bottom() ==> At(due, u) > now
    {
      hide FireAll;
      hide Insert;
      hide RowsOk;
      fired := [];
      ghost var start := Pending(Bottom(), due, timers);
      FiringStarts(start, now);
      while Bottom() != []
        invariant Valid() && |rows| == |old(rows)|
        invariant |fired| <= DueCount(start, now) && fired == start.list[..|fired|]
        invariant Firing(Pending(Bottom(), due, timers), start, |fired|, now)
        decreases DueCount(start, now) - |fired|
      {
        ghost var p := Pending(Bottom(), due, timers);
        HeadFacts(p, start, |fired|, now);
        var t := Bottom()[0];
        NearComparisons(now, due[t]);
        if Minus(tick, timers[t].timeoutTick) < HALF {
          t := FireHead(tick, now);
          FiringStep(p, Pending(Bottom(), due, timers), start, |fired|, now);
          fired := fired + [t];
        } else {
          break;
        }
      }
      FiringEnds(Pending(Bottom(), due, timers), start, |fired|, now);
    }
  }

  // ---- a check, step by step -----------------------------------------------------------------

  ghost predicate PendingOk(p: Pending) {
    ListOk(p.list, p.due) && RecordsOk(p.list, p.timers, p.due)
  }

  /** All deadlines lie near the current tick and near the next deadlines of the periodic timers
      that are due. */
  ghost predicate InRange(p: Pending, now: int) {
    && NearAll(p.due, p.list, now)
    && forall t :: t in p.list && At(p.due, t) <= now && IsPeriodic(p, t) ==>
         NearAll(p.due, p.list, now + Period(p, t))
  }

  /** So they do, and no due timer has period zero. */
  ghost predicate CheckOk(p: Pending, now: int) {
    && PendingOk(p) && InRange(p, now)
    && forall t :: t in p.list && At(p.due, t) <= now && IsPeriodic(p, t) ==> Period(p, t) > 0
  }

  /** How many timers are due. */
  ghost function DueCount(p: Pending, now: int): (n: nat)
    ensures n <= |p.list|
  {
    Upper(p.due, p.list, now)
  }

  ghost function After(start: Pending, k: nat, now: int): Pending
    requires k <= DueCount(start, now)
  {
    FireAll(start.(list := start.list[DueCount(start, now)..]), start.list[..k], now)
  }

  /** `p` is what `start` has become once its first `k` timers have fired. */
  ghost predicate Firing(p: Pending, start: Pending, k: nat, now: int) {
    && k <= DueCount(start, now)
    && p == After(start, k, now).(list := start.list[k..DueCount(start, now)] + After(start, k, now).list)
  }

  lemma FiringStarts(start: Pending, now: int)
    ensures Firing(start, start, 0, now)
  {
    var n := DueCount(start, now);
    assert start.list[..0] == [] && start.list[0..n] + start.list[n..] == start.list;
  }

  /** The first `DueCount` timers are exactly the due ones, most overdue first. */
  lemma FiredAreDue(p: Pending, now: int, t: nat)
    requires PendingOk(p) && t in p.list
    ensures t in p.list[..DueCount(p, now)] <==> At(p.due, t) <= now
    ensures Sorted(p.due, p.list[..DueCount(p, now)])
  {
    var n := DueCount(p, now);
    var i :| 0 <= i < |p.list| && p.list[i] == t;
    if i < n {
      assert p.list[..n][i] == t;
    } else {
      assert t !in p.list[..n];
    }
  }

  function Period(p: Pending, u: nat): int {
    if u < |p.timers| then p.timers[u].initTick else 0
  }

  predicate IsPeriodic(p: Pending, u: nat) {
    u < |p.timers| && p.timers[u].periodic
  }

  /** Periods and kinds are as before; `q` differs from `start` in fired timers only. */
  ghost predicate Untouched(start: Pending, q: Pending, k: nat)
    requires k <= |start.list|
  {
    && |q.due| == |start.due| && |q.timers| == |start.timers|
    && (forall u: nat :: Period(q, u) == Period(start, u) && IsPeriodic(q, u) == IsPeriodic(start, u))
    && (forall u: nat :: u < |start.timers| && u !in start.list[..k] ==>
        At(q.due, u) == At(start.due, u) && q.timers[u] == start.timers[u])
  }

  /** Fired periodic timers have a fresh deadline. */
  ghost predicate Refreshed(start: Pending, q: Pending, k: nat, now: int)
    requires k <= |start.list|
  {
    forall u :: u in start.list[..k] && IsPeriodic(start, u) ==> At(q.due, u) == now + Period(start, u)
  }

  /** Pending are the timers not due yet and the fired periodic ones. */
  ghost predicate Repeated(start: Pending, q: Pending, k: nat, now: int)
    requires k <= |start.list|
  {
    forall u :: u in q.list <==>
      u in start.list[DueCount(start, now)..] || (u in start.list[..k] && IsPeriodic(start, u))
  }

  /** What the first `k` timers leave. */
  lemma {:induction false} AfterFacts(start: Pending, k: nat, now: int)
    requires CheckOk(start, now) && k <= DueCount(start, now)
    ensures var q := After(start, k, now);
      Untouched(start, q, k) && Refreshed(start, q, k, now) && Repeated(start, q, k, now)
  {
    if k == 0 {
      assert start.list[..k] == [];
    } else {
      hide Insert;
      hide Untouched;
      hide Refreshed;
      hide Repeated;
      hide CheckOk;
      var m: nat := k - 1;
      AfterFacts(start, m, now);
      AfterStep(start, m, now);
      FireKeeps(start, After(start, m, now), m, now);
      FireRefreshes(start, After(start, m, now), m, now);
      FireRepeats(start, After(start, m, now), m, now);
    }
  }

  lemma FireKeeps(start: Pending, q: Pending, m: nat, now: int)
    requires m < DueCount(start, now) && Untouched(start, q, m)
    ensures Untouched(start, Fire(q, start.list[m], now), m + 1)
  {
    hide Insert;
    hide DueCount;
    var t, q' := start.list[m], Fire(q, start.list[m], now);
    assert start.list[..m + 1] == start.list[..m] + [t];
    assert forall u: nat :: Period(q', u) == Period(q, u) && IsPeriodic(q', u) == IsPeriodic(q, u);
    assert forall u: nat :: u < |q.timers| && u != t ==> At(q'.due, u) == At(q.due, u) && q'.timers[u] == q.timers[u];
  }

  lemma FireRefreshes(start: Pending, q: Pending, m: nat, now: int)
    requires CheckOk(start, now) && m < DueCount(start, now)
    requires Untouched(start, q, m) && Refreshed(start, q, m, now)
    ensures Refreshed(start, Fire(q, start.list[m], now), m + 1, now)
  {
    hide Insert;
    hide NearAll;
    var t := start.list[m];
    assert t in start.list && start.list[..m + 1] == start.list[..m] + [t];
    assert t !in start.list[..m];
    assert IsPeriodic(q, t) == IsPeriodic(start, t) && Period(q, t) == Period(start, t);
  }

  lemma FireRepeats(start: Pending, q: Pending, m: nat, now: int)
    requires CheckOk(start, now) && m < DueCount(start, now)
    requires Untouched(start, q, m) && Repeated(start, q, m, now)
    ensures Repeated(start, Fire(q, start.list[m], now), m + 1, now)
  {
    hide Insert;
    var t := start.list[m];
    assert t in start.list && start.list[..m + 1] == start.list[..m] + [t];
    InsertMembers(q.due[t := now + q.timers[t].initTick], q.list, t);
  }

  /** No timer is left that is due. */
  lemma AfterLate(start: Pending, k: nat, now: int, u: nat)
    requires CheckOk(start, now) && k <= DueCount(start, now) && u in After(start, k, now).list
    ensures At(After(start, k, now).due, u) > now
  {
    hide FireAll;
    var n := DueCount(start, now);
    AfterFacts(start, k, now);
    if u in start.list[n..] {
      var i :| n <= i < |start.list| && start.list[i] == u;
      assert u !in start.list[..k] && u in start.list;
      assert At(start.due, start.list[n]) <= At(start.due, u);
    } else {
      var i :| 0 <= i < k && start.list[..k][i] == u;
      assert start.list[i] == u && u in start.list;
    }
  }

  lemma AfterStep(start: Pending, k: nat, now: int)
    requires k < DueCount(start, now)
    ensures After(start, k + 1, now) == Fire(After(start, k, now), start.list[k], now)
  {
    var b := start.list[..k + 1];
    assert b[..|b| - 1] == start.list[..k] && b[|b| - 1] == start.list[k];
  }

  lemma HeadFacts(p: Pending, start: Pending, k: nat, now: int)
    requires CheckOk(start, now) && PendingOk(p) && Firing(p, start, k, now) && p.list != []
    ensures var t, n := p.list[0], DueCount(start, now);
      && t in p.list && Near(now, At(p.due, t)) && (k < n <==> At(p.due, t) <= now)
      && (k < n ==> t == start.list[k])
      && (k < n && IsPeriodic(p, t) ==> NearAll(p.due, p.list, now + Period(p, t)))
  {
    hide FireAll;
    var n, q, t := DueCount(start, now), After(start, k, now), p.list[0];
    AfterFacts(start, k, now);
    forall u | u in p.list ensures Near(At(p.due, u), now) {
      PendingDeadline(p, start, k, now, u);
    }
    if k < n {
      assert t == start.list[k];
      HeadUntouched(start, k, k, now);
      forall u | u in p.list && IsPeriodic(p, t) ensures Near(At(p.due, u), now + Period(p, t)) {
        PendingDeadline(p, start, k, now, u);
      }
    } else {
      assert t in q.list;
      AfterLate(start, k, now, t);
    }
  }

  /** A due timer that has not fired yet still has its record and its deadline. */
  lemma HeadUntouched(start: Pending, k: nat, i: nat, now: int)
    requires CheckOk(start, now) && k <= i < DueCount(start, now)
    ensures start.list[i] in start.list && At(start.due, start.list[i]) <= now
    ensures At(After(start, k, now).due, start.list[i]) == At(start.due, start.list[i])
    ensures IsPeriodic(After(start, k, now), start.list[i]) == IsPeriodic(start, start.list[i])
    ensures Period(After(start, k, now), start.list[i]) == Period(start, start.list[i])
  {
    hide FireAll;
    AfterFacts(start, k, now);
    assert start.list[i] in start.list && start.list[i] !in start.list[..k];
  }

  /** The deadline of a pending timer is the one it had, or a fresh one. */
  lemma PendingDeadline(p: Pending, start: Pending, k: nat, now: int, u: nat)
    requires CheckOk(start, now) && Firing(p, start, k, now) && u in p.list
    ensures
      || (u in start.list && At(p.due, u) == At(start.due, u))
      || (0 < Period(start, u) < HALF && At(p.due, u) == now + Period(start, u))
  {
    hide FireAll;
    var n, q := DueCount(start, now), After(start, k, now);
    AfterFacts(start, k, now);
    if u in q.list && u in start.list[..k] {
      var i :| 0 <= i < k && start.list[..k][i] == u;
      assert start.list[i] == u && u in start.list;
    } else {
      assert u in start.list[k..n] || u in start.list[n..];
      var i :| k <= i < |start.list| && start.list[i] == u;
      assert u !in start.list[..k];
    }
  }

  lemma FiringStep(p: Pending, p': Pending, start: Pending, k: nat, now: int)
    requires CheckOk(start, now) && PendingOk(p) && Firing(p, start, k, now) && p.list != []
    requires At(p.due, p.list[0]) <= now
    requires p' == Fire(p.(list := p.list[1..]), p.list[0], now)
    ensures k < DueCount(start, now) && Firing(p', start, k + 1, now)
    ensures start.list[..k] + [p.list[0]] == start.list[..k + 1]
  {
    hide FireAll;
    hide After;
    hide Insert;
    HeadFacts(p, start, k, now);
    var n, q, t := DueCount(start, now), After(start, k, now), p.list[0];
    AfterStep(start, k, now);
    var a := start.list[k + 1..n];
    assert p.list[1..] == a + q.list;
    if IsPeriodic(q, t) {
      StepInsert(start, k, now);
    }
  }

  /** A repeated timer goes behind the due timers that have not fired yet. */
  lemma StepInsert(start: Pending, k: nat, now: int)
    requires CheckOk(start, now) && k < DueCount(start, now) && IsPeriodic(After(start, k, now), start.list[k])
    ensures var n, q, t := DueCount(start, now), After(start, k, now), start.list[k];
      t < |q.due| && var due := q.due[t := now + Period(q, t)];
      Insert(due, start.list[k + 1..n] + q.list, t) == start.list[k + 1..n] + Insert(due, q.list, t)
  {
    hide FireAll;
    hide After;
    hide Insert;
    var n, q, t := DueCount(start, now), After(start, k, now), start.list[k];
    var a := start.list[k + 1..n];
    AfterFacts(start, k, now);
    HeadUntouched(start, k, k, now);
    var due := q.due[t := now + Period(q, t)];
    forall i | 0 <= i < |a| ensures At(due, a[i]) <= At(due, t) {
      assert a[i] == start.list[k + 1 + i];
      HeadUntouched(start, k, k + 1 + i, now);
    }
    InsertBehind(due, a, q.list, t);
  }

  lemma {:induction false} InsertBehind(due: seq<int>, a: seq<nat>, b: seq<nat>, x: nat)
    requires forall i :: 0 <= i < |a| ==> At(due, a[i]) <= At(due, x)
    ensures Insert(due, a + b, x) == a + Insert(due, b, x)
    decreases |a|
  {
    if a == [] {
      assert a + b == b;
    } else {
      InsertBehind(due, a[1..], b, x);
      assert (a + b)[1..] == a[1..] + b;
    }
  }

  lemma FiringEnds(p: Pending, start: Pending, k: nat, now: int)
    requires CheckOk(start, now) && PendingOk(p) && Firing(p, start, k, now)
    requires p.list == [] || At(p.due, p.list[0]) > now
    ensures k == DueCount(start, now) && p == After(start, k, now)
    ensures forall u :: u in p.list ==> At(p.due, u) > now
  {
    hide FireAll;
    var n, q := DueCount(start, now), After(start, k, now);
    if p.list != [] {
      HeadFacts(p, start, k, now);
    }
    assert start.list[k..n] == [];
    assert p.list == q.list;
    forall u | u in p.list ensures At(p.due, u) > now {
      AfterLate(start, k, now, u);
    }
  }

  // ---- when a check ends ---------------------------------------------------------------------

  /** `n` turns of the loop of a check; a turn does nothing once no timer is due. */
  ghost function Turns(p: Pending, n: nat, now: int): Pending {
    if n == 0 then p else
      var q := Turns(p, n - 1, now);
      if Settled(q, now) then q else Turn(q, now)
  }

  ghost function Turn(p: Pending, now: int): Pending
    requires p.list != []
  {
    Fire(p.(list := p.list[1..]), p.list[0], now)
  }

  ghost predicate Settled(p: Pending, now: int) {
    p.list == [] || At(p.due, p.list[0]) > now
  }

  /** `t` is due, periodic and of period zero. */
  ghost predicate Stuck(p: Pending, t: nat, now: int) {
    t in p.list && At(p.due, t) <= now && IsPeriodic(p, t) && Period(p, t) == 0
  }

  lemma TurnKeeps(p: Pending, now: int)
    requires PendingOk(p) && p.list != []
    ensures PendingOk(Turn(p, now))
  {
    hide Insert;
    var t, s := p.list[0], p.list[1..];
    assert t in p.list && forall x :: x in p.list <==> x in s || x == t;
    var due := p.due[t := now + p.timers[t].initTick];
    assert Sorted(due, s) && Sorted(p.due, s);
    InsertSorted(due, s, t);
  }

  /** A due timer of period zero is due again after every turn. */
  lemma StuckStays(p: Pending, t: nat, now: int)
    requires PendingOk(p) && Stuck(p, t, now)
    ensures !Settled(p, now) && Stuck(Turn(p, now), t, now)
  {
    hide Insert;
    var h, s := p.list[0], p.list[1..];
    assert h in p.list && forall x :: x in p.list <==> x in s || x == h;
    assert At(p.due, h) <= At(p.due, t);
    InsertMembers(p.due[h := now + p.timers[h].initTick], s, h);
  }

  lemma {:induction false} NeverSettles(p: Pending, t: nat, n: nat, now: int)
    requires PendingOk(p) && Stuck(p, t, now)
    ensures PendingOk(Turns(p, n, now)) && Stuck(Turns(p, n, now), t, now) && !Settled(Turns(p, n, now), now)
  {
    hide PendingOk, Stuck, Settled, Turn;
    if n > 0 {
      NeverSettles(p, t, n - 1, now);
      var q := Turns(p, n - 1, now);
      StuckStays(q, t, now);
      assert q.list != [] by { NotEmpty(q, now); }
      TurnKeeps(q, now);
    }
    StuckStays(Turns(p, n, now), t, now);
  }

  lemma NotEmpty(p: Pending, now: int)
    requires !Settled(p, now)
    ensures p.list != [] && At(p.due, p.list[0]) <= now
  {
  }

  /** Otherwise every due timer has its turn once. */
  lemma {:induction false} Settles(start: Pending, k: nat, now: int)
    requires CheckOk(start, now) && k <= DueCount(start, now)
    ensures PendingOk(Turns(start, k, now)) && Firing(Turns(start, k, now), start, k, now)
    ensures k == DueCount(start, now) ==> Settled(Turns(start, k, now), now)
  {
    hide Firing, CheckOk, DueCount, Turn;
    if k == 0 {
      FiringStarts(start, now);
      assert PendingOk(start) by { CheckedPending(start, now); }
    } else {
      var m: nat := k - 1;
      Settles(start, m, now);
      var q := Turns(start, m, now);
      StillDue(q, start, m, now);
      TurnKeeps(q, now);
      TurnFires(q, start, m, now);
    }
    if k == DueCount(start, now) {
      NothingDue(Turns(start, k, now), start, k, now);
    }
  }

  lemma CheckedPending(p: Pending, now: int)
    requires CheckOk(p, now)
    ensures PendingOk(p)
  {
  }

  lemma TurnFires(p: Pending, start: Pending, k: nat, now: int)
    requires CheckOk(start, now) && PendingOk(p) && Firing(p, start, k, now) && !Settled(p, now)
    ensures p.list != [] && Firing(Turn(p, now), start, k + 1, now)
  {
    hide Firing, CheckOk, PendingOk, Fire;
    FiringStep(p, Turn(p, now), start, k, now);
  }

  lemma StillDue(p: Pending, start: Pending, k: nat, now: int)
    requires CheckOk(start, now) && PendingOk(p) && Firing(p, start, k, now) && k < DueCount(start, now)
    ensures !Settled(p, now)
  {
    hide FireAll, After;
    assert p.list[0] == start.list[k];
    HeadFacts(p, start, k, now);
  }

  lemma NothingDue(p: Pending, start: Pending, k: nat, now: int)
    requires CheckOk(start, now) && PendingOk(p) && Firing(p, start, k, now) && k == DueCount(start, now)
    ensures Settled(p, now)
  {
    hide FireAll, After;
    if p.list != [] {
      HeadFacts(p, start, k, now);
    }
  }

  /** With all deadlines in range, a check at a fixed tick ends if and only if no timer of period zero
      is due. */
  lemma EndsExactly(p: Pending, now: int)
    requires PendingOk(p) && InRange(p, now)
    ensures (exists n: nat :: Settled(Turns(p, n, now), now)) <==> !exists t: nat :: Stuck(p, t, now)
  {
    hide Turns, Settled;
    if t: nat :| Stuck(p, t, now) {
      forall n: nat ensures !Settled(Turns(p, n, now), now) {
        NeverSettles(p, t, n, now);
      }
    } else {
      RangeIsEnough(p, now);
      Settles(p, DueCount(p, now), now);
    }
  }

  lemma RangeIsEnough(p: Pending, now: int)
    requires PendingOk(p) && InRange(p, now) && !exists t: nat :: Stuck(p, t, now)
    ensures CheckOk(p, now)
  {
    hide NearAll;
    forall t | t in p.list && At(p.due, t) <= now && IsPeriodic(p, t) ensures Period(p, t) > 0 {
      assert !Stuck(p, t, now);
    }
  }

  lemma FireFacts(rows: seq<seq<nat>>, timers: seq<Timer>, height: seq<int>, due: seq<int>, t: nat, d: int)
    requires rows != [] && RowsOk(rows, height) && ListOk(rows[|rows| - 1], due)
    requires RecordsOk(rows[|rows| - 1], timers, due)
    requires rows[|rows| - 1] != [] && t == rows[|rows| - 1][0]
    ensures |RemoveAll(rows, t)| == |rows| && RowsOk(RemoveAll(rows, t), height)
    ensures var b := rows[|rows| - 1]; var s := b[1..];
      && RemoveAll(rows, t)[|rows| - 1] == s && t !in s && Remove(s, t) == s
      && (forall x :: x in b <==> x in s || x == t)
      && ListOk(s, due) && RecordsOk(s, timers, due)
      && (NearAll(due, b, d) ==> NearAll(due, s, d))
      && (forall x :: x in Insert(due[t := d], s, t) <==> x in b)
  {
    hide RowsOk;
    hide Insert;
    var b := rows[|rows| - 1];
    RemoveAllRows(rows, height, t);
    RemovedList(b, due, t);
    assert IndexOf(b, t) == 0;
    assert Remove(b, t) == b[1..];
    InsertMembers(due[t := d], b[1..], t);
  }

  lemma HeadKnown(b: seq<nat>, timers: seq<Timer>, due: seq<int>)
    requires RecordsOk(b, timers, due) && b != []
    ensures b[0] < |timers| == |due|
  {
    assert b[0] in b;
  }

  /** The flags of a timer do not concern the records. */
  lemma FlagsKeep(s: seq<nat>, timers: seq<Timer>, due: seq<int>, t: nat)
    requires RecordsOk(s, timers, due) && t < |timers|
    ensures forall a, p :: RecordsOk(s, timers[t := timers[t].(active := a, processing := p)], due)
  {
    forall a, p ensures RecordsOk(s, timers[t := timers[t].(active := a, processing := p)], due) {
    }
  }

  lemma InsertMembers(due: seq<int>, s: seq<nat>, x: nat)
    ensures forall y :: y in Insert(due, s, x) <==> y in s || y == x
  {
    InsertAtUpper(due, s, x);
    InsertFacts(s, Upper(due, s, At(due, x)), x);
  }

  lemma StartFacts(rows: seq<seq<nat>>, timers: seq<Timer>, height: seq<int>, due: seq<int>, t: nat, d: int,
                   timeout: int)
    requires rows != [] && |height| == |timers| && RowsOk(rows, height) && t < |timers| && timeout == d % WRAP
    requires ListOk(rows[|rows| - 1], due) && RecordsOk(rows[|rows| - 1], timers, due)
    requires NearAll(due, rows[|rows| - 1], d)
    ensures |due| == |timers| && |RemoveAll(rows, t)| == |rows| && RowsOk(RemoveAll(rows, t), height)
    ensures var s, due', off := Remove(rows[|rows| - 1], t), due[t := d],
      timers[t := timers[t].(active := false, timeoutTick := timeout)];
      && RemoveAll(rows, t)[|rows| - 1] == s && t !in s
      && ListOk(s, due') && RecordsOk(s, off, due') && NearAll(due', s, d)
      && ListOk(Insert(due', s, t), due') && RecordsOk(Insert(due', s, t), off[t := off[t].(active := true)], due')
      && off[t := off[t].(active := true)] == timers[t := timers[t].(active := true, timeoutTick := timeout)]
  {
    hide RowsOk;
    hide Insert;
    hide Remove;
    var bottom := rows[|rows| - 1];
    var s, off := Remove(bottom, t), timers[t := timers[t].(active := false, timeoutTick := timeout)];
    RemoveAllRows(rows, height, t);
    RemovedList(bottom, due, t);
    OutsideFrame(due, due[t := d], s, d);
    RecordFrame(bottom, s, timers, due, t, off[t], d);
    InsertedList(s, off, due[t := d], t);
  }

  lemma LinkFacts(rows: seq<seq<nat>>, timers: seq<Timer>, height: seq<int>, due: seq<int>, heads: seq<nat>, t: nat,
                  h: nat)
    requires rows != [] && |height| == |timers| && RowsOk(rows, height) && 1 <= h
    requires ListOk(rows[|rows| - 1], due) && RecordsOk(rows[|rows| - 1], timers, due) && t < |timers|
    requires t !in rows[|rows| - 1]
    requires |heads| == |rows| && forall l :: 0 <= l < |rows| ==> heads[l] == Upper(due, rows[l], due[t])
    ensures |InsertAll(rows, due, t, h)| == |rows| && RowsOk(InsertAll(rows, due, t, h), height[t := h])
    ensures InsertAll(rows, due, t, h)[|rows| - 1] == Insert(due, rows[|rows| - 1], t)
    ensures forall l :: 0 <= l < |rows| ==>
      heads[l] <= |rows[l]| && InsertAt(rows[l], heads[l], t) == Insert(due, rows[l], t)
  {
    hide Insert;
    hide RowsOk;
    HeightFrame(rows, height, due, t, h);
    InsertAllRows(rows, height[t := h], due, t, h);
    InsertAtHeads(rows, due, heads, t);
  }

  lemma InsertedList(s: seq<nat>, timers: seq<Timer>, due: seq<int>, t: nat)
    requires ListOk(s, due) && RecordsOk(s, timers, due) && t < |timers| && t !in s
    requires timers[t].timeoutTick == due[t] % WRAP
    ensures ListOk(Insert(due, s, t), due) && RecordsOk(Insert(due, s, t), timers, due)
  {
    InsertSorted(due, s, t);
  }

  lemma RemovedList(s: seq<nat>, due: seq<int>, t: nat)
    requires ListOk(s, due)
    ensures ListOk(Remove(s, t), due) && forall x :: x in Remove(s, t) <==> x in s && x != t
    ensures t !in s ==> Remove(s, t) == s
  {
    RemoveFacts(s, t);
    var r := Remove(s, t);
    if t in s {
      var k := IndexOf(s, t);
      forall i, j | 0 <= i < j < |r| ensures At(due, r[i]) <= At(due, r[j]) {
        assert r[i] == s[if i < k then i else i + 1] && r[j] == s[if j < k then j else j + 1];
      }
    }
  }

  lemma DeadlineWraps(now: int, d: int)
    ensures (now % WRAP + d) % WRAP == (now + d) % WRAP
  {
    var q := now / WRAP;
    assert now == q * WRAP + now % WRAP;
    ModAddMultiple(now % WRAP + d, q);
  }

  /** A new deadline for a timer outside the list does not disturb the list. */
  lemma OutsideFrame(due: seq<int>, due': seq<int>, s: seq<nat>, d: int)
    requires |due| == |due'| && forall x :: x in s ==> At(due, x) == At(due', x)
    ensures Sorted(due, s) ==> Sorted(due', s)
    ensures NearAll(due, s, d) ==> NearAll(due', s, d)
  {
    assert forall i :: 0 <= i < |s| ==> s[i] in s;
  }

  lemma RecordFrame(s: seq<nat>, s': seq<nat>, timers: seq<Timer>, due: seq<int>, t: nat, record: Timer, d: int)
    requires RecordsOk(s, timers, due) && t < |timers| && forall x :: x in s' ==> x in s && x != t
    requires 0 <= record.initTick < HALF && record.timeoutTick == d % WRAP
    ensures RecordsOk(s', timers[t := record], due[t := d])
  {
  }

  /** The positions found are those of plain sorted insertion. */
  lemma InsertAtHeads(rows: seq<seq<nat>>, due: seq<int>, heads: seq<nat>, t: nat)
    requires |heads| == |rows| && t < |due| && forall l :: 0 <= l < |rows| ==> heads[l] == Upper(due, rows[l], due[t])
    ensures forall l :: 0 <= l < |rows| ==>
      heads[l] <= |rows[l]| && InsertAt(rows[l], heads[l], t) == Insert(due, rows[l], t)
  {
    forall l | 0 <= l < |rows| ensures InsertAt(rows[l], heads[l], t) == Insert(due, rows[l], t) {
      InsertAtUpper(due, rows[l], t);
    }
  }
}
