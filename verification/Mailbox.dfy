/**
The mailbox: a ring of words, threads that wait for a word or for a free slot, and the steps
between which other threads run. A call is one step up to its `rt_schedule`; a woken thread
goes on in a step of its own; a timeout is a step.
*/
module Mailbox {
  import opened SuspendList
  import opened TimerRows
  import opened Waiting

  /** RT_MB_ENTRY_MAX */
  const ENTRY_MAX: nat := 0xffff

  // ---- the ring ---------------------------------------------------------------------------------

  /** The slot `i` places behind `out`. */
  function Slot(size: nat, out: nat, i: nat): nat {
    if out + i >= size then out + i - size else out + i
  }

  predicate RingOk(size: nat, inOffset: nat, outOffset: nat, entry: nat) {
    entry <= size && (outOffset < size || outOffset == size == 0) && inOffset == Slot(size, outOffset, entry)
  }

  /** The words in the ring, the next to be received first. */
  ghost function Words(pool: seq<int>, outOffset: nat, entry: nat): seq<int>
    requires entry <= |pool| && (outOffset < |pool| || outOffset == |pool| == 0)
  {
    seq(entry, i requires 0 <= i < entry => pool[Slot(|pool|, outOffset, i)])
  }

  lemma PutBack(pool: seq<int>, inOffset: nat, outOffset: nat, entry: nat, v: int)
    requires RingOk(|pool|, inOffset, outOffset, entry) && entry < |pool|
    ensures inOffset < |pool|
    ensures RingOk(|pool|, if inOffset + 1 >= |pool| then 0 else inOffset + 1, outOffset, entry + 1)
    ensures Words(pool[inOffset := v], outOffset, entry + 1) == Words(pool, outOffset, entry) + [v]
  {
  }

  lemma PutFront(pool: seq<int>, inOffset: nat, outOffset: nat, entry: nat, v: int, out': nat)
    requires RingOk(|pool|, inOffset, outOffset, entry) && entry < |pool|
    requires out' == if outOffset > 0 then outOffset - 1 else |pool| - 1
    ensures RingOk(|pool|, inOffset, out', entry + 1)
    ensures Words(pool[out' := v], out', entry + 1) == [v] + Words(pool, outOffset, entry)
  {
  }

  lemma TakeFront(pool: seq<int>, inOffset: nat, outOffset: nat, entry: nat, out': nat)
    requires RingOk(|pool|, inOffset, outOffset, entry) && entry > 0
    requires out' == if outOffset + 1 >= |pool| then 0 else outOffset + 1
    ensures RingOk(|pool|, inOffset, out', entry - 1)
    ensures Words(pool, outOffset, entry) == [pool[outOffset]] + Words(pool, out', entry - 1)
  {
  }

  // ---- the mailbox ------------------------------------------------------------------------------

  /** What the mailbox holds and who waits, without the ring. */
  datatype State = State(now: int, words: seq<int>, calls: Calls, value: seq<int>)

  class Mailbox {
    const pool: array<int>      // msg_pool
    var inOffset: nat
    var outOffset: nat
    var entry: nat
    var waits: Waits
    var value: seq<int>         // what each sleeping sender has to send
    const policy: Policy
    // True times, which do not wrap, for the record: `rt_tick_get` is the clock modulo WRAP.
    var began: seq<int>         // when each running wait began
    var deadline: seq<int>      // when each timed call has to give up
    var clock: int

    ghost predicate Valid()
      reads this, pool
    {
      && RingOk(pool.Length, inOffset, outOffset, entry) && pool.Length <= ENTRY_MAX
      && |value| == |waits.threads| == |began| == |deadline|
      && Quiet(waits, entry, pool.Length - entry, began, deadline, clock)
    }

    /** The bounded deque the ring stands for. */
    ghost function Contents(): seq<int>
      requires RingOk(pool.Length, inOffset, outOffset, entry)
      reads this, pool
    {
      Words(pool[..], outOffset, entry)
    }

    ghost function AllCalls(): Calls
      reads this
    {
      Calls(waits, began, deadline)
    }

    ghost function View(now: int): State
      requires RingOk(pool.Length, inOffset, outOffset, entry)
      reads this, pool
    {
      State(now, Contents(), AllCalls(), value)
    }

    /** `rt_mb_init` with `size` slots. */
    constructor (size: nat, policy: Policy, prio: seq<nat>, now: int)
      requires size <= ENTRY_MAX
      ensures Valid() && Contents() == [] && pool.Length == size && fresh(pool) && clock == now
      ensures waits.receivers == [] && waits.senders == [] && waits.prio == prio
      ensures forall t :: 0 <= t < |waits.threads| ==> waits.threads[t].status == Idle
    {
      pool := new int[size];
      inOffset, outOffset, entry := 0, 0, 0;
      this.policy := policy;
      waits := Waits(seq(|prio|, _ => Thread(Sender, Wait(0, 0), Idle)), [], [], prio);
      value, began, deadline := seq(|prio|, _ => 0), seq(|prio|, _ => 0), seq(|prio|, _ => 0);
      clock := now;
    }

    /** Stores a word behind the last one. */
    method Store(v: int) returns (ok: bool)
      requires RingOk(pool.Length, inOffset, outOffset, entry) && entry < pool.Length
      modifies this`inOffset, this`entry, pool
      ensures ok == (old(entry) < ENTRY_MAX)
      ensures ok ==>
        && entry == old(entry) + 1 && RingOk(pool.Length, inOffset, outOffset, entry)
        && Contents() == old(Contents()) + [v]
    {
      hide Words;
      hide RingOk;
      ghost var was := pool[..];
      PutBack(was, inOffset, outOffset, entry, v);
      pool[inOffset] := v;
      assert pool[..] == was[inOffset := v];
      inOffset := inOffset + 1;
      if inOffset >= pool.Length {
        inOffset := 0;
      }
      if entry < ENTRY_MAX {
        entry := entry + 1;
      } else {
        return false;
      }
      return true;
    }

    /** Stores a word before the first one. */
    method StoreFront(v: int)
      requires RingOk(pool.Length, inOffset, outOffset, entry) && entry < pool.Length
      modifies this`outOffset, this`entry, pool
      ensures entry == old(entry) + 1 && RingOk(pool.Length, inOffset, outOffset, entry)
      ensures Contents() == [v] + old(Contents())
    {
      hide Words;
      ghost var was := pool[..];
      PutFront(was, inOffset, outOffset, entry, v, if outOffset > 0 then outOffset - 1 else |was| - 1);
      if outOffset > 0 {
        outOffset := outOffset - 1;
      } else {
        outOffset := pool.Length - 1;
      }
      pool[outOffset] := v;
      assert pool[..] == was[outOffset := v];
      entry := entry + 1;
    }

    /** Takes out the first word. */
    method Fetch() returns (v: int)
      requires RingOk(pool.Length, inOffset, outOffset, entry) && entry > 0
      modifies this`outOffset, this`entry
      ensures entry == old(entry) - 1 && RingOk(pool.Length, inOffset, outOffset, entry)
      ensures old(Contents()) == [v] + Contents()
    {
      hide Words;
      TakeFront(pool[..], inOffset, outOffset, entry, if outOffset + 1 >= pool.Length then 0 else outOffset + 1);
      v := pool[outOffset];
      outOffset := outOffset + 1;
      if outOffset >= pool.Length {
        outOffset := 0;
      }
      if entry > 0 {
        entry := entry - 1;
      }
    }

    /** `rt_mb_send_wait` by thread `t`; `rt_mb_send` has `timeout` zero. */
    method SendWait(t: nat, v: int, timeout: int, now: int) returns (o: Outcome)
      requires Valid() && t < |waits.threads| && waits.threads[t].status == Idle
      requires clock <= now && timeout < WRAP / 2
      modifies this, pool
      ensures Valid() && clock == now
      ensures o == if old(entry) < pool.Length then Returns(EOK) else if timeout == 0 then Returns(EFULL) else Sleeps
      ensures Contents() == if o == Returns(EOK) then old(Contents()) + [v] else old(Contents())
      ensures Began(old(AllCalls()), AllCalls(), policy, t, Sender, timeout, now, o)
      ensures value == if o == Sleeps then old(value)[t := v] else old(value)
    {
      hide Quiet;
      hide Words;
      hide RingOk;
      SleepersKnown(waits, entry, pool.Length - entry, began, deadline, clock);
      EnterQuietly(waits, entry, pool.Length - entry, began, deadline, clock, t, now + timeout, now);
      clock, deadline := now, deadline[t := now + timeout];
      assert deadline[t := now + timeout] == deadline;
      if entry == pool.Length && timeout == 0 {
        return Returns(EFULL);
      }
      o := SendLoop(t, v, timeout, now, now + timeout);
    }

    /** The loop of `_rt_mb_send_wait`, from its test to the next `rt_schedule`, and what follows it. */
    method SendLoop(t: nat, v: int, timeout: int, now: int, d: int) returns (o: Outcome)
      requires Valid() && Runs(waits, t, Sender) && clock == now
      requires timeout > 0 ==> timeout < WRAP / 2 && now + timeout == d
      modifies this, pool
      ensures Valid() && clock == now && deadline == if o == Sleeps then old(deadline)[t := d] else old(deadline)
      ensures o == if old(entry) < pool.Length then Returns(EOK) else if timeout == 0 then Returns(EFULL) else Sleeps
      ensures Contents() == if o == Returns(EOK) then old(Contents()) + [v] else old(Contents())
      ensures CallEffect(old(waits), waits, policy, t, Sender, Wait(timeout, now % WRAP), o)
      ensures value == if o == Sleeps then old(value)[t := v] else old(value)
      ensures began == if o == Sleeps then old(began)[t := now] else old(began)
    {
      hide Quiet;
      hide Words;
      hide RingOk;
      hide WakeFirst;
      SleepersKnown(waits, entry, pool.Length - entry, began, deadline, clock);
      RingBounds(pool.Length, inOffset, outOffset, entry);
      if entry == pool.Length {
        if timeout == 0 {
          FinishQuietly(waits, entry, 0, began, deadline, now, t, Sender, entry, 0);
          waits := Finish(waits, t);
          return Returns(EFULL);
        }
        waits := SleepQuietly(waits, policy, entry, 0, began, deadline, now, t, Sender, Wait(timeout, now % WRAP), d);
        value := value[t := v];
        began, deadline := began[t := now], deadline[t := d];
        return Sleeps;
      }
      FinishQuietly(waits, entry, pool.Length - entry, began, deadline, now, t, Sender, entry, pool.Length - entry - 1);
      DeliverQuietly(Finish(waits, t), entry, pool.Length - entry - 1, began, deadline, now);
      var _ := Store(v);
      waits := Finish(waits, t);
      waits := WakeFirst(waits, Receiver);
      return Returns(EOK);
    }

    /** A sleeping sender goes on: it may have timed out, or it tests the mailbox again. */
    method ResumeSend(t: nat, now: int) returns (o: Outcome)
      requires Valid() && t < |waits.threads| && waits.threads[t].status.Woken? && waits.threads[t].role == Sender
      requires clock <= now
      modifies this, pool
      ensures Valid() && clock == now && |deadline| == |old(deadline)| && deadline == old(deadline)[t := deadline[t]]
      ensures old(InTime(waits.threads[t], began[t], deadline[t], now)) ==> deadline == old(deadline)
      ensures old(waits.threads[t].status) != Woken(EOK) ==>
        o == Returns(old(waits.threads[t].status).error) && now >= deadline[t] && deadline == old(deadline)
      ensures old(waits.threads[t].status) == Woken(EOK) ==> o.Sleeps? || o == Returns(EFULL) || o == Returns(EOK)
      ensures old(waits.threads[t].status) == Woken(EOK) ==> (o == Returns(EOK) <==> old(entry) < pool.Length)
      ensures o == Returns(EFULL) && old(waits.threads[t].wait.timeout) != 0 ==> now >= deadline[t]
      ensures |waits.threads| == |old(waits.threads)|
      ensures WentOn(old(AllCalls()), AllCalls(), policy, t, now, old(entry) < pool.Length, Returns(EOK), EFULL, o)
      ensures CallEffect(old(waits), waits, policy, t, Sender, waits.threads[t].wait, o)
      ensures o == Sleeps ==> waits.threads[t].wait.tick == now % WRAP
      ensures value == old(value)
      ensures o == Sleeps && waits.threads[t].wait.timeout > 0 ==>
        && now + waits.threads[t].wait.timeout == deadline[t]
        && (deadline[t] == old(deadline[t]) <==> old(InTime(waits.threads[t], began[t], deadline[t], now)))
      ensures Contents() ==
        if old(waits.threads[t].status) == Woken(EOK) && o == Returns(EOK) then old(Contents()) + [old(value[t])]
        else old(Contents())
    {
      hide Quiet;
      hide Words;
      hide RingOk;
      hide Finish;
      hide WakeFirst;
      SleepersKnown(waits, entry, pool.Length - entry, began, deadline, clock);
      if waits.threads[t].status.error != EOK {
        GiveUpQuietly(waits, entry, pool.Length - entry, began, deadline, clock, t);
        o := Returns(waits.threads[t].status.error);
        TimePasses(Finish(waits, t), entry, pool.Length - entry, began, deadline, clock, now);
        waits := Finish(waits, t);
        clock := now;
        return;
      }
      TickInRange(waits, entry, pool.Length - entry, began, deadline, clock, t);
      var left := Remaining(waits.threads[t].wait.timeout, waits.threads[t].wait.tick, now % WRAP);
      BackQuietly(waits, entry, pool.Length - entry, began, deadline, clock, t, now, left);
      TimePasses(waits, entry, pool.Length - entry, began, deadline, clock, now);
      clock := now;
      o := SendLoop(t, value[t], left, now, if left > 0 then now + left else deadline[t]);
    }

    /** `rt_mb_urgent`. */
    method Urgent(v: int, now: int) returns (r: Error)
      requires Valid() && clock <= now
      modifies this, pool
      ensures Valid() && clock == now && value == old(value) && began == old(began) && deadline == old(deadline)
      ensures r == if old(entry) < pool.Length then EOK else EFULL
      ensures Contents() == if r == EOK then [v] + old(Contents()) else old(Contents())
      ensures waits == if r == EOK then WakeFirst(old(waits), Receiver) else old(waits)
    {
      hide Quiet;
      hide Words;
      hide RingOk;
      hide WakeFirst;
      RingBounds(pool.Length, inOffset, outOffset, entry);
      TimePasses(waits, entry, pool.Length - entry, began, deadline, clock, now);
      clock := now;
      if entry == pool.Length {
        return EFULL;
      }
      UrgentQuietly(waits, entry, pool.Length - entry, began, deadline, now);
      StoreFront(v);
      waits := WakeFirst(waits, Receiver);
      return EOK;
    }

    /** `rt_mb_recv` by thread `t`. */
    method RecvWait(t: nat, timeout: int, now: int) returns (o: Outcome, v: int)
      requires Valid() && t < |waits.threads| && waits.threads[t].status == Idle
      requires clock <= now && timeout < WRAP / 2
      modifies this, pool
      ensures Valid() && clock == now
      ensures o == if old(entry) > 0 then Returns(EOK) else if timeout == 0 then Returns(ETIMEOUT) else Sleeps
      ensures old(Contents()) == if o == Returns(EOK) then [v] + Contents() else Contents()
      ensures Began(old(AllCalls()), AllCalls(), policy, t, Receiver, timeout, now, o) && value == old(value)
    {
      hide Quiet;
      hide Words;
      hide RingOk;
      SleepersKnown(waits, entry, pool.Length - entry, began, deadline, clock);
      v := 0;
      EnterQuietly(waits, entry, pool.Length - entry, began, deadline, clock, t, now + timeout, now);
      clock, deadline := now, deadline[t := now + timeout];
      assert deadline[t := now + timeout] == deadline;
      if entry == 0 && timeout == 0 {
        return Returns(ETIMEOUT), 0;
      }
      o, v := RecvLoop(t, timeout, now, now + timeout);
    }

    /** The loop of `_rt_mb_recv`, from its test to the next `rt_schedule`, and what follows it. */
    method RecvLoop(t: nat, timeout: int, now: int, d: int) returns (o: Outcome, v: int)
      requires Valid() && Runs(waits, t, Receiver) && clock == now
      requires timeout > 0 ==> timeout < WRAP / 2 && now + timeout == d
      modifies this, pool
      ensures Valid() && clock == now && deadline == if o == Sleeps then old(deadline)[t := d] else old(deadline)
      ensures o == if old(entry) > 0 then Returns(EOK) else if timeout == 0 then Returns(ETIMEOUT) else Sleeps
      ensures old(Contents()) == if o == Returns(EOK) then [v] + Contents() else Contents()
      ensures CallEffect(old(waits), waits, policy, t, Receiver, Wait(timeout, now % WRAP), o)
      ensures value == old(value) && began == if o == Sleeps then old(began)[t := now] else old(began)
    {
      hide Quiet;
      hide Words;
      hide RingOk;
      hide WakeFirst;
      SleepersKnown(waits, entry, pool.Length - entry, began, deadline, clock);
      RingBounds(pool.Length, inOffset, outOffset, entry);
      v := 0;
      if entry == 0 {
        if timeout == 0 {
          FinishQuietly(waits, 0, pool.Length, began, deadline, now, t, Receiver, 0, pool.Length);
          waits := Finish(waits, t);
          return Returns(ETIMEOUT), 0;
        }
        waits := SleepQuietly(waits, policy, 0, pool.Length, began, deadline, now, t, Receiver,
                              Wait(timeout, now % WRAP), d);
        began, deadline := began[t := now], deadline[t := d];
        return Sleeps, 0;
      }
      FinishQuietly(waits, entry, pool.Length - entry, began, deadline, now, t, Receiver, entry - 1,
                    pool.Length - entry);
      ReleaseQuietly(Finish(waits, t), entry - 1, pool.Length - entry, began, deadline, now);
      v := Fetch();
      waits := Finish(waits, t);
      waits := WakeFirst(waits, Sender);
      return Returns(EOK), v;
    }

    /** A sleeping receiver goes on. */
    method ResumeRecv(t: nat, now: int) returns (o: Outcome, v: int)
      requires Valid() && t < |waits.threads| && waits.threads[t].status.Woken? && waits.threads[t].role == Receiver
      requires clock <= now
      modifies this, pool
      ensures Valid() && clock == now && |deadline| == |old(deadline)| && deadline == old(deadline)[t := deadline[t]]
      ensures old(InTime(waits.threads[t], began[t], deadline[t], now)) ==> deadline == old(deadline)
      ensures old(waits.threads[t].status) != Woken(EOK) ==>
        o == Returns(old(waits.threads[t].status).error) && now >= deadline[t] && deadline == old(deadline)
      ensures old(waits.threads[t].status) == Woken(EOK) ==> o.Sleeps? || o == Returns(ETIMEOUT) || o == Returns(EOK)
      ensures old(waits.threads[t].status) == Woken(EOK) ==> (o == Returns(EOK) <==> old(entry) > 0)
      ensures o == Returns(ETIMEOUT) && old(waits.threads[t].wait.timeout) != 0 ==> now >= deadline[t]
      ensures |waits.threads| == |old(waits.threads)|
      ensures WentOn(old(AllCalls()), AllCalls(), policy, t, now, old(entry) > 0, Returns(EOK), ETIMEOUT, o)
      ensures CallEffect(old(waits), waits, policy, t, Receiver, waits.threads[t].wait, o)
      ensures value == old(value)
      ensures o == Sleeps ==> waits.threads[t].wait.tick == now % WRAP
      ensures o == Sleeps && waits.threads[t].wait.timeout > 0 ==>
        && now + waits.threads[t].wait.timeout == deadline[t]
        && (deadline[t] == old(deadline[t]) <==> old(InTime(waits.threads[t], began[t], deadline[t], now)))
      ensures old(Contents()) ==
        if old(waits.threads[t].status) == Woken(EOK) && o == Returns(EOK) then [v] + Contents() else Contents()
    {
      hide Quiet;
      hide Words;
      hide RingOk;
      hide Finish;
      hide WakeFirst;
      SleepersKnown(waits, entry, pool.Length - entry, began, deadline, clock);
      v := 0;
      if waits.threads[t].status.error != EOK {
        GiveUpQuietly(waits, entry, pool.Length - entry, began, deadline, clock, t);
        o := Returns(waits.threads[t].status.error);
        TimePasses(Finish(waits, t), entry, pool.Length - entry, began, deadline, clock, now);
        waits := Finish(waits, t);
        clock := now;
        return;
      }
      TickInRange(waits, entry, pool.Length - entry, began, deadline, clock, t);
      var left := Remaining(waits.threads[t].wait.timeout, waits.threads[t].wait.tick, now % WRAP);
      BackQuietly(waits, entry, pool.Length - entry, began, deadline, clock, t, now, left);
      TimePasses(waits, entry, pool.Length - entry, began, deadline, clock, now);
      clock := now;
      o, v := RecvLoop(t, left, now, if left > 0 then now + left else deadline[t]);
    }

    /** `_thread_timeout` of a sleeping thread, when its timer runs out. */
    method Timeout(t: nat, now: int)
      requires Valid() && t < |waits.threads| && waits.threads[t].status == Suspended && clock <= now
      requires waits.threads[t].wait.timeout > 0 && began[t] + waits.threads[t].wait.timeout <= now
      modifies this`waits, this`clock
      ensures Valid() && clock == now && waits == Expire(old(waits), t)
    {
      hide Quiet;
      hide RingOk;
      ExpireQuietly(waits, entry, pool.Length - entry, began, deadline, clock, t, now);
      waits := Expire(waits, t);
      clock := now;
    }

    /** `rt_sched_thread_change_priority`: a sleeping thread stays where it is in its list. */
    method ChangePriority(t: nat, p: nat)
      requires Valid() && t < |waits.prio|
      modifies this`waits
      ensures Valid() && waits == old(waits).(prio := old(waits).prio[t := p])
    {
      hide Quiet;
      hide RingOk;
      PriorityQuietly(waits, entry, pool.Length - entry, began, deadline, clock, t, p);
      waits := waits.(prio := waits.prio[t := p]);
    }
  }

  lemma RingBounds(size: nat, inOffset: nat, outOffset: nat, entry: nat)
    requires RingOk(size, inOffset, outOffset, entry)
    ensures entry <= size
  {
  }
}
