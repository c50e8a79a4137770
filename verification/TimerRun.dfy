/**
Whole runs of the timer list: it is a table of deadlines. A check fires exactly the timers whose
deadline has been reached, however often the tick counter wraps around; with a check after every
tick that is when it is reached.
*/
module TimerRun {
  import opened Lists
  import opened TimerRows
  import opened Timers

  /** The deadline of every timer that is running, in true time. */
  type Clocks = map<nat, int>

  /** Delay or period of a timer, and whether it is periodic. */
  type Kinds = seq<(int, bool)>

  /** A start, a stop, or `n` ticks and then a check. */
  datatype Op = StartOp(t: nat) | StopOp(t: nat) | TickOp(n: nat)

  function Later(op: Op, now: int): int {
    if op.TickOp? then now + op.n else now
  }

  /** One operation that ends at `now`: what fires and which deadlines there are. */
  ghost predicate Steps(op: Op, kinds: Kinds, now: int, a: Clocks, fired: seq<nat>, b: Clocks) {
    match op
    case StartOp(t) => fired == [] && b == if t < |kinds| then a[t := now + kinds[t].0] else a
    case StopOp(t) => fired == [] && b == a - {t}
    case TickOp(n) =>
      && Distinct(fired) && (forall t :: t in fired <==> t in a && a[t] <= now)
      && (forall i, j :: 0 <= i < j < |fired| && fired[i] in a && fired[j] in a ==> a[fired[i]] <= a[fired[j]])
      && b.Keys <= a.Keys
      && forall t :: t in a ==>
           t < |kinds| && if a[t] > now then t in b && b[t] == a[t]
                          else if kinds[t].1 then t in b && b[t] == now + kinds[t].0 else t !in b
  }

  /** A check at `now` finds the deadlines less than half the tick range apart, those that periodic
      timers will have then included, and no timer of period zero due. */
  predicate CanCheck(l: Clocks, kinds: Kinds, now: int) {
    && (forall u :: u in l ==> now - l[u] < HALF)
    && (forall t :: t in l && l[t] <= now && t < |kinds| && kinds[t].1 ==> kinds[t].0 > 0)
    && (forall t, u :: t in l && u in l && l[t] <= now && t < |kinds| && kinds[t].1 ==> now + kinds[t].0 - l[u] < HALF)
  }

  /** A run from no running timers at time `start`. */
  ghost predicate IsRun(kinds: Kinds, start: int, ops: seq<Op>, fired: seq<seq<nat>>, states: seq<Clocks>,
                        times: seq<int>) {
    && |fired| == |ops| && |states| == |times| == |ops| + 1 && states[0] == map[] && times[0] == start
    && forall i, j :: 0 <= i < |ops| && j == i + 1 ==>
         times[j] == Later(ops[i], times[i]) && Steps(ops[i], kinds, times[j], states[i], fired[i], states[j])
  }

  lemma OneMore(kinds: Kinds, start: int, ops: seq<Op>, k: nat, fired: seq<seq<nat>>, states: seq<Clocks>,
                times: seq<int>,
                f: seq<nat>, l: Clocks, now: int)
    requires k < |ops| && IsRun(kinds, start, ops[..k], fired, states, times)
    requires now == Later(ops[k], times[k]) && Steps(ops[k], kinds, now, states[k], f, l)
    ensures IsRun(kinds, start, ops[..k + 1], fired + [f], states + [l], times + [now])
  {
    hide Steps;
    var ops', fired', states', times' := ops[..k + 1], fired + [f], states + [l], times + [now];
    forall i, j | 0 <= i < |ops'| && j == i + 1
      ensures times'[j] == Later(ops'[i], times'[i])
      ensures Steps(ops'[i], kinds, times'[j], states'[i], fired'[i], states'[j])
    {
      if i < k {
        assert ops[..k][i] == ops[i];
        assert Steps(ops[..k][i], kinds, times[j], states[i], fired[i], states[j]);
      }
    }
  }

  // ---- the list and the table ---------------------------------------------------------------------

  ghost predicate SameKinds(p: Pending, kinds: Kinds) {
    && |p.timers| == |kinds|
    && forall t: nat :: t < |kinds| ==>
         Period(p, t) == kinds[t].0 && IsPeriodic(p, t) == kinds[t].1 && 0 <= kinds[t].0 < HALF
  }

  /** The list holds the running timers with their deadlines, which lie less than half the tick
      range ahead. */
  ghost predicate Tracks(p: Pending, now: int, l: Clocks) {
    && (forall t :: t in p.list <==> t in l)
    && forall t :: t in l ==> At(p.due, t) == l[t] && now <= l[t] < now + HALF
  }

  lemma StartNear(p: Pending, now: int, l: Clocks, d: int)
    requires Tracks(p, now, l) && now <= d < now + HALF
    ensures NearAll(p.due, p.list, d)
  {
  }

  lemma Started(p: Pending, now: int, l: Clocks, t: nat, d: int, q: Pending)
    requires Tracks(p, now, l) && now <= d < now + HALF && t < |p.due| && Distinct(p.list)
    requires q.due == p.due[t := d] && q.list == Insert(q.due, Remove(p.list, t), t)
    ensures Tracks(q, now, l[t := d])
  {
    hide Insert, Remove;
    RemoveFacts(p.list, t);
    InsertMembers(q.due, Remove(p.list, t), t);
  }

  lemma Stopped(p: Pending, now: int, l: Clocks, t: nat, q: Pending)
    requires Tracks(p, now, l) && Distinct(p.list) && q.due == p.due && q.list == Remove(p.list, t)
    ensures Tracks(q, now, l - {t})
  {
    hide Remove;
    RemoveFacts(p.list, t);
  }

  /** What the table says about the range of the deadlines holds of the list. */
  lemma ChecksInRange(p: Pending, now: int, l: Clocks, kinds: Kinds, next: int)
    requires PendingOk(p) && Tracks(p, now, l) && SameKinds(p, kinds) && now <= next && CanCheck(l, kinds, next)
    ensures CheckOk(p, next)
  {
    hide PendingOk;
    forall t | t in p.list && At(p.due, t) <= next && IsPeriodic(p, t)
      ensures Period(p, t) > 0 && NearAll(p.due, p.list, next + Period(p, t))
    {
      Listed(p, t);
      assert l[t] <= next && kinds[t].1;
    }
  }

  /** The table after a check. */
  function Ticked(l: Clocks, kinds: Kinds, now: int): Clocks {
    map t | t in l && t < |kinds| && (l[t] > now || kinds[t].1) :: if l[t] <= now then now + kinds[t].0 else l[t]
  }

  lemma Fired(p: Pending, now: int, l: Clocks, kinds: Kinds, next: int, q: Pending, fired: seq<nat>)
    requires PendingOk(p) && Tracks(p, now, l) && SameKinds(p, kinds) && now <= next && CheckOk(p, next)
    requires CanCheck(l, kinds, next)
    requires fired == p.list[..DueCount(p, next)] && q == After(p, DueCount(p, next), next)
    ensures forall n :: Steps(TickOp(n), kinds, next, l, fired, Ticked(l, kinds, next))
    ensures Tracks(q, next, Ticked(l, kinds, next)) && SameKinds(q, kinds)
    ensures forall t :: t in Ticked(l, kinds, next) ==> next < Ticked(l, kinds, next)[t]
  {
    hide After, PendingOk, CheckOk, DueCount, CanCheck;
    var n := DueCount(p, next);
    AfterFacts(p, n, next);
    FiredSet(p, now, l, next, fired);
    KindsKept(p, q, n, kinds);
    forall t: nat | t in l ensures t < |kinds| {
      Listed(p, t);
    }
    forall t: nat ensures t in q.list <==> t in Ticked(l, kinds, next) {
      if t in p.list {
        RestOrFired(p, n, t);
      }
    }
    forall t | t in Ticked(l, kinds, next)
      ensures At(q.due, t) == Ticked(l, kinds, next)[t] && next < Ticked(l, kinds, next)[t] < next + HALF
    {
      assert t in p.list;
      if l[t] <= next {
        NextDeadline(l, kinds, next, t);
      }
    }
  }

  lemma NextDeadline(l: Clocks, kinds: Kinds, now: int, t: nat)
    requires CanCheck(l, kinds, now) && t in l && t < |kinds| && kinds[t].1 && l[t] <= now
    ensures kinds[t].0 > 0
  {
  }

  lemma Listed(p: Pending, t: nat)
    requires PendingOk(p) && t in p.list
    ensures t < |p.timers|
  {
  }

  /** Exactly the timers whose deadline has been reached fire, each once and in the order of their
      deadlines. */
  lemma FiredSet(p: Pending, now: int, l: Clocks, next: int, fired: seq<nat>)
    requires PendingOk(p) && Tracks(p, now, l) && fired == p.list[..DueCount(p, next)]
    ensures Distinct(fired) && forall t: nat :: t in fired <==> t in l && l[t] <= next
    ensures forall i, j :: 0 <= i < j < |fired| && fired[i] in l && fired[j] in l ==> l[fired[i]] <= l[fired[j]]
  {
    hide DueCount;
    forall t: nat ensures t in fired <==> t in l && l[t] <= next {
      if t in p.list {
        FiredAreDue(p, next, t);
      }
    }
  }

  lemma KindsKept(p: Pending, q: Pending, n: nat, kinds: Kinds)
    requires n <= |p.list| && Untouched(p, q, n) && SameKinds(p, kinds)
    ensures SameKinds(q, kinds)
  {
  }

  lemma RestOrFired(p: Pending, n: nat, t: nat)
    requires PendingOk(p) && n <= |p.list| && t in p.list
    ensures t in p.list[n..] <==> t !in p.list[..n]
  {
    var i :| 0 <= i < |p.list| && p.list[i] == t;
    if i < n {
      assert p.list[..n][i] == t;
    } else {
      assert p.list[n..][i - n] == t;
    }
  }

  // ---- runs ---------------------------------------------------------------------------------------

  ghost function PendingOf(list: TimerList): Pending
    requires list.Valid()
    reads list
  {
    Pending(list.Bottom(), list.due, list.timers)
  }

  method Step(list: TimerList, op: Op, kinds: Kinds, now: int, l: Clocks) returns (fired: seq<nat>, l': Clocks)
    requires list.Valid() && Tracks(PendingOf(list), now, l) && SameKinds(PendingOf(list), kinds)
    requires op.TickOp? ==> CanCheck(l, kinds, now + op.n)
    modifies list
    ensures list.Valid() && Tracks(PendingOf(list), Later(op, now), l') && SameKinds(PendingOf(list), kinds)
    ensures Steps(op, kinds, Later(op, now), l, fired, l')
    ensures Ahead(kinds, now, l) ==> Ahead(kinds, Later(op, now), l')
  {
    hide RowsOk, Insert, Remove, FireAll, NearAll, Tracks, CanCheck;
    ghost var p := PendingOf(list);
    fired, l' := [], l;
    match op {
      case StartOp(t) =>
        if t < |kinds| {
          ghost var d := now + kinds[t].0;
          assert Period(p, t) == kinds[t].0;
          StartNear(p, now, l, d);
          var _ := list.StartTimer(t, now % WRAP, now);
          Started(p, now, l, t, d, PendingOf(list));
          l' := l[t := now + kinds[t].0];
        }
      case StopOp(t) =>
        l' := l - {t};
        if t < |kinds| {
          var _ := list.Stop(t);
          Stopped(p, now, l, t, PendingOf(list));
        } else {
          Unknown(p, now, l, t);
        }
      case TickOp(n) =>
        fired, l' := Tick(list, kinds, now, n, l);
    }
  }

  lemma Unknown(p: Pending, now: int, l: Clocks, t: nat)
    requires PendingOk(p) && Tracks(p, now, l) && t >= |p.timers|
    ensures l - {t} == l
  {
  }

  method Tick(list: TimerList, kinds: Kinds, now: int, n: nat, l: Clocks) returns (fired: seq<nat>, l': Clocks)
    requires list.Valid() && Tracks(PendingOf(list), now, l) && SameKinds(PendingOf(list), kinds)
    requires CanCheck(l, kinds, now + n)
    modifies list
    ensures list.Valid() && Tracks(PendingOf(list), now + n, l') && SameKinds(PendingOf(list), kinds)
    ensures Steps(TickOp(n), kinds, now + n, l, fired, l') && forall t :: t in l' ==> now + n < l'[t]
  {
    hide RowsOk, FireAll, NearAll, Tracks, SameKinds, Steps, Ticked, CanCheck;
    ghost var p := PendingOf(list);
    ChecksInRange(p, now, l, kinds, now + n);
    fired := list.Check((now + n) % WRAP, now + n);
    Fired(p, now, l, kinds, now + n, PendingOf(list), fired);
    l' := Ticked(l, kinds, now + n);
  }

  // ---- when every check can be made ---------------------------------------------------------------

  /** No delay is zero, and so no deadline has been reached. */
  ghost predicate Ahead(kinds: Kinds, now: int, l: Clocks) {
    && (forall t :: 0 <= t < |kinds| ==> kinds[t].0 > 0)
    && (forall t :: t in l ==> now < l[t])
  }

  /** No delay is zero and every tick is checked. */
  ghost predicate EveryTick(kinds: Kinds, ops: seq<Op>) {
    && (forall t :: 0 <= t < |kinds| ==> kinds[t].0 > 0)
    && (forall i :: 0 <= i < |ops| && ops[i].TickOp? ==> ops[i].n <= 1)
  }

  /** No period is zero, and delays and the ticks between two checks are together less than half the
      tick range. */
  ghost predicate WithinHalf(kinds: Kinds, ops: seq<Op>) {
    && (forall t :: 0 <= t < |kinds| && kinds[t].1 ==> kinds[t].0 > 0)
    && (forall i :: 0 <= i < |ops| && ops[i].TickOp? ==> ops[i].n < HALF)
    && (forall i, t :: 0 <= i < |ops| && ops[i].TickOp? && 0 <= t < |kinds| ==> ops[i].n + kinds[t].0 < HALF)
  }

  lemma AlwaysInRange(p: Pending, now: int, l: Clocks, kinds: Kinds, ops: seq<Op>, i: nat)
    requires Tracks(p, now, l) && SameKinds(p, kinds) && i < |ops| && ops[i].TickOp?
    requires (EveryTick(kinds, ops) && Ahead(kinds, now, l)) || WithinHalf(kinds, ops)
    ensures CanCheck(l, kinds, now + ops[i].n)
  {
  }

  /** Any sequence of starts, stops and checks is a run of the table, as long as the deadlines are in
      range. They always are if no delay is zero and every tick is checked, or if delays and the
      ticks between two checks are together less than half the tick range. */
  method Run(levels: nat, kinds: Kinds, start: int, ops: seq<Op>)
    returns (list: TimerList, fired: seq<seq<nat>>, states: seq<Clocks>, times: seq<int>, done: nat)
    requires levels >= 1 && forall i :: 0 <= i < |kinds| ==> 0 <= kinds[i].0 < HALF
    ensures list.Valid() && done <= |ops| && IsRun(kinds, start, ops[..done], fired, states, times)
    ensures Tracks(PendingOf(list), times[done], states[done])
    ensures done < |ops| ==> ops[done].TickOp? && !CanCheck(states[done], kinds, times[done] + ops[done].n)
    ensures EveryTick(kinds, ops) || WithinHalf(kinds, ops) ==> done == |ops|
  {
    hide RowsOk, Steps, CanCheck, EveryTick, WithinHalf;
    list := new TimerList(levels, kinds);
    fired, states, times, done := [], [map[]], [start], 0;
    var l: Clocks, now := map[], start;
    ghost var ahead := EveryTick(kinds, ops);
    if ahead {
      StartsAhead(kinds, start, ops);
    }
    while done < |ops|
      invariant fresh(list) && list.Valid() && Tracks(PendingOf(list), now, l) && SameKinds(PendingOf(list), kinds)
      invariant done <= |ops| && IsRun(kinds, start, ops[..done], fired, states, times)
      invariant l == states[done] && now == times[done] && (ahead ==> Ahead(kinds, now, l))
    {
      if ops[done].TickOp? {
        if EveryTick(kinds, ops) || WithinHalf(kinds, ops) {
          AlwaysInRange(PendingOf(list), now, l, kinds, ops, done);
        }
        if !CanCheck(l, kinds, now + ops[done].n) {
          return;
        }
      }
      var f, l' := Step(list, ops[done], kinds, now, l);
      OneMore(kinds, start, ops, done, fired, states, times, f, l', Later(ops[done], now));
      l, now := l', Later(ops[done], now);
      fired, states, times, done := fired + [f], states + [l], times + [now], done + 1;
    }
  }

  lemma StartsAhead(kinds: Kinds, start: int, ops: seq<Op>)
    requires EveryTick(kinds, ops)
    ensures Ahead(kinds, start, map[])
  {
  }
}
