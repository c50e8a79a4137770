/**
The message queue. Sending takes a node off the free list, copies the message with the lock
released, and links the node; receiving unlinks a node, copies it out and frees it. Other
threads run between these steps.
*/
module MessageQueue {
  import opened Lists
  import opened SuspendList
  import opened TimerRows
  import opened Waiting
  import opened MessagePool

  /** RT_MQ_ENTRY_MAX */
  const ENTRY_MAX: nat := 0xffff

  // ---- the pool with all threads -----------------------------------------------------------------

  /** What a thread copies out is the message it took off the queue. */
  ghost predicate KeepsMessages(data: seq<Message>, phase: seq<Phase>, taken: seq<Message>) {
    |phase| == |taken| && forall t :: 0 <= t < |phase| && phase[t].CopyOut? ==>
      phase[t].node < |data| && data[phase[t].node] == taken[t]
  }

  ghost predicate PoolOk(p: Pool, queue: seq<nat>, free: seq<nat>, place: seq<Place>, phase: seq<Phase>,
                         taken: seq<Message>) {
    && Linked(p, queue, free) && |place| == |p.next|
    && Placed(queue, free, place, phase) && KeepsMessages(p.data, phase, taken)
  }

  lemma GrabFree(p: Pool, queue: seq<nat>, free: seq<nat>, place: seq<Place>, phase: seq<Phase>, taken: seq<Message>,
                 t: nat, urgent: bool)
    requires PoolOk(p, queue, free, place, phase, taken) && p.free != None && t < |phase| && phase[t] == Outside
    ensures free != [] && p.free == Some(free[0]) && free[0] < |p.next| == |place|
    ensures var n := free[0];
      PoolOk(p.(free := p.next[n]), queue, free[1..], place[n := Held(t)], phase[t := CopyIn(n, urgent)], taken)
  {
    TakeFree(p, queue, free);
    var n := free[0];
    assert n in free;
    assert forall y :: y in free[1..] <==> y in free && y != n;
    MovedList(place, free, Free, n, Held(t), free[1..]);
    MovedList(place, queue, Queued, n, Held(t), queue);
    Grabbed(place, phase, n, t, CopyIn(n, urgent));
  }

  /** The queue never holds all nodes while one is being copied in. */
  lemma RoomForOne(p: Pool, queue: seq<nat>, free: seq<nat>, place: seq<Place>, phase: seq<Phase>, taken: seq<Message>,
                   t: nat)
    requires PoolOk(p, queue, free, place, phase, taken) && t < |phase| && phase[t].CopyIn?
    ensures var n := phase[t].node;
      n < |p.next| && n !in queue && n !in free && p.entry < |p.next| && forall x :: x in queue ==> x !in free
  {
    var n := phase[t].node;
    assert place[n] == Held(t);
    assert Distinct(queue + [n]) by {
      assert forall i :: 0 <= i < |queue| ==> queue[i] in queue;
    }
    Pigeonhole(queue + [n], |p.next|);
  }

  lemma OtherNode(p: Pool, queue: seq<nat>, free: seq<nat>, place: seq<Place>, phase: seq<Phase>, taken: seq<Message>,
                  t: nat, m: Message)
    requires PoolOk(p, queue, free, place, phase, taken) && t < |phase| && phase[t].CopyIn?
    ensures phase[t].node < |p.data| && KeepsMessages(p.data[phase[t].node := m], phase[t := Outside], taken)
  {
    var n := phase[t].node;
    assert place[n] == Held(t);
    forall u | 0 <= u < |phase| && phase[u].CopyOut? ensures phase[u].node != n {
      assert place[phase[u].node] == Held(u);
    }
  }

  lemma LinkIn(p: Pool, queue: seq<nat>, free: seq<nat>, place: seq<Place>, phase: seq<Phase>, taken: seq<Message>,
               t: nat, m: Message)
    requires PoolOk(p, queue, free, place, phase, taken) && t < |phase| && phase[t].CopyIn?
    ensures phase[t].node < |p.data| == |p.next| == |place| && p.entry < |p.next|
    ensures (p.tail == None || p.tail.value < |p.next|)
    ensures var n := phase[t].node; var q := p.(data := p.data[n := m]);
      if phase[t].urgent
      then
        && PoolOk(Before(q, n).(entry := p.entry + 1), [n] + queue, free, place[n := Queued], phase[t := Outside],
                  taken)
        && Messages(q.data, [n] + queue) == [m] + Messages(p.data, queue)
      else
        && PoolOk(Behind(q, n).(entry := p.entry + 1), queue + [n], free, place[n := Queued], phase[t := Outside],
                  taken)
        && Messages(q.data, queue + [n]) == Messages(p.data, queue) + [m]
  {
    var n := phase[t].node;
    var q := p.(data := p.data[n := m]);
    RoomForOne(p, queue, free, place, phase, taken, t);
    OtherNode(p, queue, free, place, phase, taken, t, m);
    LetGo(place, phase, n, t, Queued);
    MovedList(place, free, Free, n, Queued, free);
    MessagesFrame(p.data, queue, n, m);
    TailKnown(p, queue, free);
    if phase[t].urgent {
      LinkBefore(q, queue, free, n);
      MovedList(place, queue, Queued, n, Queued, [n] + queue);
      assert Messages(q.data, [n] + queue) == [m] + Messages(q.data, queue);
    } else {
      LinkBehind(q, queue, free, n);
      MovedList(place, queue, Queued, n, Queued, queue + [n]);
      assert Messages(q.data, queue + [n]) == Messages(q.data, queue) + [m];
    }
  }

  lemma GrabHead(p: Pool, queue: seq<nat>, free: seq<nat>, place: seq<Place>, phase: seq<Phase>, taken: seq<Message>,
                 t: nat, size: nat)
    requires PoolOk(p, queue, free, place, phase, taken) && p.entry > 0 && t < |phase| && phase[t] == Outside
    ensures queue != [] && p.head == Some(queue[0]) && queue[0] < |p.next| == |p.data| == |place| && |taken| == |phase|
    ensures var n := queue[0];
      PoolOk(p.(head := p.next[n], tail := if p.tail == p.head then None else p.tail, entry := p.entry - 1),
             queue[1..], free, place[n := Held(t)], phase[t := CopyOut(n, size)], taken[t := p.data[n]])
    ensures Messages(p.data, queue) == [p.data[queue[0]]] + Messages(p.data, queue[1..])
  {
    TakeHead(p, queue, free);
    var n := queue[0];
    assert n in queue;
    assert forall y :: y in queue[1..] <==> y in queue && y != n;
    MovedList(place, free, Free, n, Held(t), free);
    MovedList(place, queue, Queued, n, Held(t), queue[1..]);
    Grabbed(place, phase, n, t, CopyOut(n, size));
  }

  lemma GiveBack(p: Pool, queue: seq<nat>, free: seq<nat>, place: seq<Place>, phase: seq<Phase>, taken: seq<Message>,
                 t: nat)
    requires PoolOk(p, queue, free, place, phase, taken) && t < |phase| && phase[t].CopyOut?
    ensures phase[t].node < |p.next| == |p.data| == |place| && |taken| == |phase| && p.data[phase[t].node] == taken[t]
    ensures var n := phase[t].node;
      PoolOk(p.(next := p.next[n := p.free], free := Some(n)), queue, [n] + free, place[n := Free], phase[t := Outside],
             taken)
  {
    var n := phase[t].node;
    assert place[n] == Held(t);
    PutFree(p, queue, free, n);
    LetGo(place, phase, n, t, Free);
    MovedList(place, free, Free, n, Free, [n] + free);
    MovedList(place, queue, Queued, n, Free, queue);
  }

  /** A thread that copies is not asleep. */
  ghost predicate Apart(ts: seq<Thread>, phase: seq<Phase>) {
    |ts| == |phase| && forall t :: 0 <= t < |phase| && phase[t] != Outside ==> ts[t].status == Idle
  }

  lemma ApartWake(w: Waits, messages: int, room: int, began: seq<int>, deadline: seq<int>, clock: int,
                  phase: seq<Phase>, role: Role)
    requires Quiet(w, messages, room, began, deadline, clock) && Apart(w.threads, phase)
    ensures forall t :: t in w.receivers || t in w.senders ==> t < |w.threads|
    ensures Apart(WakeFirst(w, role).threads, phase)
  {
    hide Balanced;
    hide Timed;
    assert w.receivers != [] ==> w.receivers[0] in w.receivers;
    assert w.senders != [] ==> w.senders[0] in w.senders;
  }

  /** The message as far as the buffer of the receiver holds it. */
  function Cut(m: Message, size: nat): (r: Message)
    ensures IsFront(r, m, size)
  {
    if |m| > size then m[..size] else m
  }

  /** As many bytes of `whole` as fit into `size`, from the front. */
  predicate IsFront(r: Message, whole: Message, size: nat) {
    r <= whole && |r| == if |whole| <= size then |whole| else size
  }

  /** What the queue holds and who waits or copies, without the links. */
  datatype State = State(
    now: int,
    messages: seq<Message>,
    free: seq<nat>,
    phase: seq<Phase>,
    calls: Calls,
    message: seq<Message>,
    size: seq<nat>,
    taken: seq<Message>)

  class Queue {
    var pool: Pool
    var phase: seq<Phase>
    var waits: Waits
    var message: seq<Message>   // what each sender has to send
    var size: seq<nat>          // the buffer size of each receiver
    const msgSize: nat
    const policy: Policy
    // True times, which do not wrap.
    var began: seq<int>
    var deadline: seq<int>
    var clock: int
    var taken: seq<Message>     // the message each receiver took off the queue, for the record
    ghost var queue: seq<nat>
    ghost var free: seq<nat>
    ghost var place: seq<Place>

    ghost predicate Valid()
      reads this
    {
      && |pool.next| <= ENTRY_MAX
      && PoolOk(pool, queue, free, place, phase, taken)
      && Apart(waits.threads, phase) && |message| == |size| == |began| == |deadline| == |phase| == |taken|
      && Quiet(waits, pool.entry, |free|, began, deadline, clock)
    }

    /** The queued messages. */
    ghost function Contents(): seq<Message>
      reads this
    {
      Messages(pool.data, queue)
    }

    ghost function AllCalls(): Calls
      reads this
    {
      Calls(waits, began, deadline)
    }

    ghost function View(now: int): State
      reads this
    {
      State(now, Contents(), free, phase, AllCalls(), message, size, taken)
    }

    /** `rt_mq_init` for a pool of `maxMsgs` nodes. */
    constructor (maxMsgs: nat, msgSize: nat, policy: Policy, prio: seq<nat>, now: int)
      requires 1 <= maxMsgs <= ENTRY_MAX
      ensures Valid() && Contents() == [] && |pool.next| == maxMsgs && clock == now && this.msgSize == msgSize
    {
      this.msgSize, this.policy := msgSize, policy;
      pool := Pool(seq(maxMsgs, _ => None), seq(maxMsgs, _ => []), None, None, None, 0);
      phase, waits := seq(|prio|, _ => Outside),
        Waits(seq(|prio|, _ => Thread(Sender, Wait(0, 0), Idle)), [], [], prio);
      message, size := seq(|prio|, _ => []), seq(|prio|, _ => 0);
      began, deadline, clock := seq(|prio|, _ => 0), seq(|prio|, _ => 0), now;
      queue, free, place, taken := [], [], seq(maxMsgs, _ => Free), seq(|prio|, _ => []);
      new;
      FillFree();
      InitQuiet(waits, |free|, began, deadline, clock);
    }

    /** The loop of `rt_mq_init` that links all nodes into the free list. */
    method FillFree()
      requires pool.head == pool.tail == pool.free == None && pool.entry == 0 && |pool.data| == |pool.next| == |place|
      requires free == [] && forall x :: 0 <= x < |place| ==> place[x] == Free
      requires |phase| == |taken| && forall t :: 0 <= t < |phase| ==> phase[t] == Outside
      modifies this`pool, this`free
      ensures |pool.next| == |old(pool.next)| && pool.entry == 0 && PoolOk(pool, [], free, place, phase, taken)
    {
      ghost var n := |pool.next|;
      for i := 0 to |pool.next|
        invariant |pool.next| == n && pool.head == pool.tail == None && pool.entry == 0
        invariant Linked(pool, [], free) && forall x: nat :: x in free <==> x < i
      {
        PutFree(pool, [], free, i);
        pool := pool.(next := pool.next[i := pool.free], free := Some(i));
        free := [i] + free;
      }
    }

    /** `rt_mq_send_wait` by thread `t`, up to the copy or the sleep. */
    method SendWait(t: nat, m: Message, timeout: int, now: int) returns (o: Outcome)
      requires Valid() && t < |phase| && waits.threads[t].status == Idle && phase[t] == Outside
      requires clock <= now && timeout < WRAP / 2 && m != []
      modifies this
      ensures Valid() && clock == now && Contents() == old(Contents())
      ensures o ==
        if |m| > msgSize then Returns(ERROR)
        else if old(free) != [] then Copies else if timeout == 0 then Returns(EFULL) else Sleeps
      ensures o == Copies ==> phase == old(phase)[t := CopyIn(old(free[0]), false)] && free == old(free)[1..]
      ensures o != Copies ==> phase == old(phase) && free == old(free)
      ensures Began(old(AllCalls()), AllCalls(), policy, t, Sender, timeout, now, o)
      ensures message == old(message)[t := m] && size == old(size) && taken == old(taken)
    {
      hide Quiet;
      hide PoolOk;
      SleepersKnown(waits, pool.entry, |free|, began, deadline, clock);
      EnterQuietly(waits, pool.entry, |free|, began, deadline, clock, t, now + timeout, now);
      FreeHead(pool, queue, free, place, phase, taken);
      clock, deadline, message := now, deadline[t := now + timeout], message[t := m];
      assert deadline[t := now + timeout] == deadline;
      if |m| > msgSize {
        return Returns(ERROR);
      }
      if pool.free == None && timeout == 0 {
        return Returns(EFULL);
      }
      o := SendLoop(t, timeout, now, now + timeout);
    }

    /** The loop of `_rt_mq_send_wait` from its test to the copy or the next `rt_schedule`. */
    method SendLoop(t: nat, timeout: int, now: int, d: int) returns (o: Outcome)
      requires Valid() && Runs(waits, t, Sender) && clock == now && phase[t] == Outside
      requires timeout > 0 ==> timeout < WRAP / 2 && now + timeout == d
      modifies this`pool, this`phase, this`waits, this`began, this`deadline, this`free, this`place
      ensures Valid() && Contents() == old(Contents())
      ensures deadline == if o == Sleeps then old(deadline)[t := d] else old(deadline)
      ensures o == if old(free) != [] then Copies else if timeout == 0 then Returns(EFULL) else Sleeps
      ensures o == Copies ==> phase == old(phase)[t := CopyIn(old(free[0]), false)] && free == old(free)[1..]
      ensures o != Copies ==> phase == old(phase) && free == old(free)
      ensures began == if o == Sleeps then old(began)[t := now] else old(began)
      ensures CallEffect(old(waits), waits, policy, t, Sender, Wait(timeout, now % WRAP), o)
    {
      hide Quiet;
      hide PoolOk;
      SleepersKnown(waits, pool.entry, |free|, began, deadline, clock);
      FreeHead(pool, queue, free, place, phase, taken);
      if pool.free == None {
        if timeout == 0 {
          FinishQuietly(waits, pool.entry, 0, began, deadline, now, t, Sender, pool.entry, 0);
          waits := Finish(waits, t);
          return Returns(EFULL);
        }
        waits := SleepQuietly(waits, policy, pool.entry, 0, began, deadline, now, t, Sender, Wait(timeout, now % WRAP),
                              d);
        began, deadline := began[t := now], deadline[t := d];
        return Sleeps;
      }
      FinishQuietly(waits, pool.entry, |free|, began, deadline, now, t, Sender, pool.entry, |free| - 1);
      waits := Finish(waits, t);
      TakeNode(t, false);
      return Copies;
    }

    /** A sleeping sender goes on: it may have timed out, or it looks for a node again. */
    method ResumeSend(t: nat, now: int) returns (o: Outcome)
      requires Valid() && t < |phase| && waits.threads[t].status.Woken? && waits.threads[t].role == Sender
      requires clock <= now
      modifies this
      ensures |deadline| == |old(deadline)| && deadline == old(deadline)[t := deadline[t]]
      ensures old(InTime(waits.threads[t], began[t], deadline[t], now)) ==> deadline == old(deadline)
      ensures Valid() && clock == now && message == old(message) && Contents() == old(Contents())
      ensures old(waits.threads[t].status) != Woken(EOK) ==>
        o == Returns(old(waits.threads[t].status).error) && now >= deadline[t] && deadline == old(deadline)
      ensures old(waits.threads[t].status) == Woken(EOK) ==> o == Copies || o == Sleeps || o == Returns(EFULL)
      ensures old(waits.threads[t].status) == Woken(EOK) ==> (o == Copies <==> old(free) != [])
      ensures phase == if o == Copies then old(phase)[t := CopyIn(old(free[0]), false)] else old(phase)
      ensures o == Returns(EFULL) && old(waits.threads[t].wait.timeout) != 0 ==> now >= deadline[t]
      ensures |waits.threads| == |old(waits.threads)| && size == old(size) && taken == old(taken)
      ensures free == if o == Copies then old(free)[1..] else old(free)
      ensures WentOn(old(AllCalls()), AllCalls(), policy, t, now, old(free) != [], Copies, EFULL, o)
      ensures CallEffect(old(waits), waits, policy, t, Sender, waits.threads[t].wait, o)
      ensures o == Sleeps ==> waits.threads[t].wait.tick == now % WRAP
      ensures o == Sleeps && waits.threads[t].wait.timeout > 0 ==>
        && now + waits.threads[t].wait.timeout == deadline[t]
        && (deadline[t] == old(deadline[t]) <==> old(InTime(waits.threads[t], began[t], deadline[t], now)))
    {
      hide Quiet;
      hide PoolOk;
      SleepersKnown(waits, pool.entry, |free|, began, deadline, clock);
      if waits.threads[t].status.error != EOK {
        o := GiveUp(t, now);
        return;
      }
      var left := TimeLeft(t, now);
      o := SendLoop(t, left, now, if left > 0 then now + left else deadline[t]);
    }

    /** A thread whose timer ran out leaves its call. */
    method GiveUp(t: nat, now: int) returns (o: Outcome)
      requires Valid() && t < |phase| && waits.threads[t].status.Woken? && waits.threads[t].status != Woken(EOK)
      requires clock <= now
      modifies this`waits, this`clock
      ensures Valid() && clock == now && o == Returns(old(waits.threads[t].status).error) && now >= deadline[t]
      ensures waits == Finish(old(waits), t)
    {
      hide Quiet;
      hide PoolOk;
      GiveUpQuietly(waits, pool.entry, |free|, began, deadline, clock, t);
      TimePasses(Finish(waits, t), pool.entry, |free|, began, deadline, clock, now);
      o := Returns(waits.threads[t].status.error);
      waits := Finish(waits, t);
      clock := now;
    }

    /** The waiting time a woken thread has left. */
    method TimeLeft(t: nat, now: int) returns (left: int)
      requires Valid() && t < |phase| && waits.threads[t].status == Woken(EOK)
      requires clock <= now
      modifies this`clock
      ensures Valid() && clock == now && phase[t] == Outside
      ensures waits.threads[t].wait.timeout > 0 ==> 0 <= waits.threads[t].wait.tick < WRAP
      ensures left == Remaining(waits.threads[t].wait.timeout, waits.threads[t].wait.tick, now % WRAP)
      ensures left > 0 ==>
        left < WRAP / 2 && (now + left == deadline[t] <==> InTime(waits.threads[t], began[t], deadline[t], now))
      ensures left == 0 && waits.threads[t].wait.timeout != 0 ==> now >= deadline[t]
      ensures left < 0 <==> waits.threads[t].wait.timeout < 0
    {
      hide Quiet;
      hide PoolOk;
      TickInRange(waits, pool.entry, |free|, began, deadline, clock, t);
      left := Remaining(waits.threads[t].wait.timeout, waits.threads[t].wait.tick, now % WRAP);
      BackQuietly(waits, pool.entry, |free|, began, deadline, clock, t, now, left);
      TimePasses(waits, pool.entry, |free|, began, deadline, clock, now);
      clock := now;
    }

    /** `rt_mq_urgent`, up to the copy. */
    method Urgent(t: nat, m: Message, now: int) returns (o: Outcome)
      requires Valid() && t < |phase| && waits.threads[t].status == Idle && phase[t] == Outside && clock <= now
      requires m != []
      modifies this
      ensures Valid() && clock == now && Contents() == old(Contents())
      ensures o == if |m| > msgSize then Returns(ERROR) else if old(free) != [] then Copies else Returns(EFULL)
      ensures AllCalls() == old(AllCalls()) && message == old(message)[t := m]
      ensures size == old(size) && taken == old(taken)
      ensures o == Copies ==> phase == old(phase)[t := CopyIn(old(free[0]), true)] && free == old(free)[1..]
      ensures o != Copies ==> phase == old(phase) && free == old(free)
    {
      hide Quiet;
      hide PoolOk;
      TimePasses(waits, pool.entry, |free|, began, deadline, clock, now);
      FreeHead(pool, queue, free, place, phase, taken);
      clock, message := now, message[t := m];
      if |m| > msgSize {
        return Returns(ERROR);
      }
      if pool.free == None {
        return Returns(EFULL);
      }
      LessQuietly(waits, pool.entry, |free|, began, deadline, now, |free| - 1);
      TakeNode(t, true);
      return Copies;
    }

    /** The copy and the second locked part of a send. */
    method EndSend(t: nat, now: int) returns (r: Error)
      requires Valid() && t < |phase| && phase[t].CopyIn? && clock <= now
      modifies this
      ensures Valid() && clock == now && r == EOK && phase == old(phase)[t := Outside]
      ensures Contents() ==
        if old(phase[t]).urgent then [old(message[t])] + old(Contents()) else old(Contents()) + [old(message[t])]
      ensures AllCalls() == old(AllCalls()).(waits := WakeFirst(old(waits), Receiver))
      ensures free == old(free) && message == old(message) && size == old(size) && taken == old(taken)
    {
      hide Quiet;
      hide PoolOk;
      hide Behind;
      hide Before;
      hide WakeFirst;
      hide Messages;
      ghost var n := phase[t].node;
      LinkIn(pool, queue, free, place, phase, taken, t, message[t]);
      TimePasses(waits, pool.entry, |free|, began, deadline, clock, now);
      DeliverQuietly(waits, pool.entry, |free|, began, deadline, now);
      ApartWake(waits, pool.entry, |free|, began, deadline, now, phase, Receiver);
      ApartOut(WakeFirst(waits, Receiver).threads, phase, t);
      clock := now;
      var ok := Link(t);
      queue := if phase[t].urgent then [n] + queue else queue + [n];
      place := place[n := Queued];
      phase := phase[t := Outside];
      waits := WakeFirst(waits, Receiver);
      r := if ok then EOK else EFULL;
    }

    /** Stores the message in the node and links it. */
    method Link(t: nat) returns (ok: bool)
      requires t < |phase| && phase[t].CopyIn? && t < |message|
      requires phase[t].node < |pool.next| == |pool.data| && (pool.tail == None || pool.tail.value < |pool.next|)
      modifies this`pool
      ensures ok == (old(pool).entry < ENTRY_MAX)
      ensures var n := phase[t].node; var p := old(pool).(data := old(pool).data[n := message[t]]);
        var q := if phase[t].urgent then Before(p, n) else Behind(p, n);
        pool == q.(entry := if ok then old(pool).entry + 1 else old(pool).entry)
    {
      var n := phase[t].node;
      if !phase[t].urgent {
        pool := pool.(next := pool.next[n := None]);
      }
      pool := pool.(data := pool.data[n := message[t]]);
      if phase[t].urgent {
        pool := pool.(next := pool.next[n := pool.head], head := Some(n));
        if pool.tail == None {
          pool := pool.(tail := Some(n));
        }
      } else {
        if pool.tail != None {
          pool := pool.(next := pool.next[pool.tail.value := Some(n)]);
        }
        pool := pool.(tail := Some(n));
        if pool.head == None {
          pool := pool.(head := Some(n));
        }
      }
      if pool.entry < ENTRY_MAX {
        pool := pool.(entry := pool.entry + 1);
      } else {
        return false;
      }
      return true;
    }

    /** `rt_mq_recv` by thread `t` into a buffer of `bytes`, up to the copy or the sleep. */
    method RecvWait(t: nat, bytes: nat, timeout: int, now: int) returns (o: Outcome)
      requires Valid() && t < |phase| && waits.threads[t].status == Idle && phase[t] == Outside
      requires clock <= now && timeout < WRAP / 2 && bytes != 0
      modifies this
      ensures Valid() && clock == now && |phase| == |old(phase)| == |taken|
      ensures o == if old(Contents()) != [] then Copies else if timeout == 0 then Returns(ETIMEOUT) else Sleeps
      ensures o == Copies ==> old(Contents()) == [taken[t]] + Contents() && phase[t].CopyOut? && phase[t].size == bytes
      ensures o != Copies ==> Contents() == old(Contents()) && phase == old(phase)
      ensures phase == old(phase)[t := phase[t]] && taken == old(taken)[t := taken[t]] && message == old(message)
      ensures o != Copies ==> taken == old(taken)
      ensures Began(old(AllCalls()), AllCalls(), policy, t, Receiver, timeout, now, o)
      ensures size == old(size)[t := bytes] && free == old(free)
    {
      hide Quiet;
      hide PoolOk;
      hide Messages;
      SleepersKnown(waits, pool.entry, |free|, began, deadline, clock);
      EnterQuietly(waits, pool.entry, |free|, began, deadline, clock, t, now + timeout, now);
      FreeHead(pool, queue, free, place, phase, taken);
      MessageCount(pool.data, queue);
      clock, deadline, size := now, deadline[t := now + timeout], size[t := bytes];
      assert deadline[t := now + timeout] == deadline;
      if pool.entry == 0 && timeout == 0 {
        return Returns(ETIMEOUT);
      }
      o := RecvLoop(t, timeout, now, now + timeout);
    }

    /** The loop of `_rt_mq_recv` from its test to the copy or the next `rt_schedule`. */
    method RecvLoop(t: nat, timeout: int, now: int, d: int) returns (o: Outcome)
      requires Valid() && Runs(waits, t, Receiver) && clock == now && phase[t] == Outside
      requires timeout > 0 ==> timeout < WRAP / 2 && now + timeout == d
      modifies this`pool, this`phase, this`waits, this`began, this`deadline, this`queue, this`place, this`taken
      ensures Valid() && deadline == if o == Sleeps then old(deadline)[t := d] else old(deadline)
      ensures o == if old(Contents()) != [] then Copies else if timeout == 0 then Returns(ETIMEOUT) else Sleeps
      ensures o == Copies ==>
        old(Contents()) == [taken[t]] + Contents() && phase[t].CopyOut? && phase[t].size == size[t]
      ensures o != Copies ==> Contents() == old(Contents()) && phase == old(phase)
      ensures phase == old(phase)[t := phase[t]] && taken == old(taken)[t := taken[t]]
      ensures o != Copies ==> taken == old(taken)
      ensures began == if o == Sleeps then old(began)[t := now] else old(began)
      ensures CallEffect(old(waits), waits, policy, t, Receiver, Wait(timeout, now % WRAP), o)
    {
      hide Quiet;
      hide PoolOk;
      hide Messages;
      SleepersKnown(waits, pool.entry, |free|, began, deadline, clock);
      FreeHead(pool, queue, free, place, phase, taken);
      MessageCount(pool.data, queue);
      if pool.entry == 0 {
        if timeout == 0 {
          FinishQuietly(waits, 0, |free|, began, deadline, now, t, Receiver, 0, |free|);
          waits := Finish(waits, t);
          return Returns(ETIMEOUT);
        }
        waits := SleepQuietly(waits, policy, 0, |free|, began, deadline, now, t, Receiver, Wait(timeout, now % WRAP),
                              d);
        began, deadline := began[t := now], deadline[t := d];
        return Sleeps;
      }
      FinishQuietly(waits, pool.entry, |free|, began, deadline, now, t, Receiver, pool.entry - 1, |free|);
      waits := Finish(waits, t);
      TakeMessage(t);
      return Copies;
    }

    method TakeMessage(t: nat)
      requires PoolOk(pool, queue, free, place, phase, taken) && pool.entry > 0 && t < |phase| == |size|
      requires phase[t] == Outside
      modifies this`pool, this`phase, this`queue, this`place, this`taken
      ensures PoolOk(pool, queue, free, place, phase, taken)
      ensures |pool.next| == |old(pool).next| && pool.entry == old(pool).entry - 1
      ensures |taken| == |phase| == |old(phase)| && old(Contents()) == [taken[t]] + Contents()
      ensures phase[t].CopyOut? && phase[t].size == size[t]
      ensures phase == old(phase)[t := phase[t]] && |taken| == |old(taken)| && taken == old(taken)[t := taken[t]]
    {
      hide PoolOk;
      hide Messages;
      GrabHead(pool, queue, free, place, phase, taken, t, size[t]);
      var msg := pool.head.value;
      var d := pool.data[msg];
      var last := pool.tail == Some(msg);
      pool := pool.(head := pool.next[msg]);
      if last {
        pool := pool.(tail := None);
      }
      if pool.entry > 0 {
        pool := pool.(entry := pool.entry - 1);
      }
      phase := phase[t := CopyOut(msg, size[t])];
      queue, place, taken := queue[1..], place[msg := Held(t)], taken[t := d];
    }

    /** A sleeping receiver goes on. */
    method ResumeRecv(t: nat, now: int) returns (o: Outcome)
      requires Valid() && t < |phase| && waits.threads[t].status.Woken? && waits.threads[t].role == Receiver
      requires clock <= now
      modifies this
      ensures |deadline| == |old(deadline)| && deadline == old(deadline)[t := deadline[t]]
      ensures old(InTime(waits.threads[t], began[t], deadline[t], now)) ==> deadline == old(deadline)
      ensures Valid() && clock == now && message == old(message)
      ensures old(waits.threads[t].status) != Woken(EOK) ==>
        o == Returns(old(waits.threads[t].status).error) && now >= deadline[t] && deadline == old(deadline)
      ensures old(waits.threads[t].status) == Woken(EOK) ==> o == Copies || o == Sleeps || o == Returns(ETIMEOUT)
      ensures old(waits.threads[t].status) == Woken(EOK) ==> (o == Copies <==> old(Contents()) != [])
      ensures o == Copies ==>
        old(Contents()) == [taken[t]] + Contents() && phase[t].CopyOut? && phase[t].size == old(size[t])
      ensures o != Copies ==> Contents() == old(Contents()) && phase == old(phase)
      ensures phase == old(phase)[t := phase[t]] && |taken| == |phase| && taken == old(taken)[t := taken[t]]
      ensures o == Returns(ETIMEOUT) && old(waits.threads[t].wait.timeout) != 0 ==> now >= deadline[t]
      ensures |waits.threads| == |old(waits.threads)| && size == old(size) && free == old(free)
      ensures o != Copies ==> taken == old(taken)
      ensures WentOn(old(AllCalls()), AllCalls(), policy, t, now, old(Contents()) != [], Copies, ETIMEOUT, o)
      ensures CallEffect(old(waits), waits, policy, t, Receiver, waits.threads[t].wait, o)
      ensures o == Sleeps ==> waits.threads[t].wait.tick == now % WRAP
      ensures o == Sleeps && waits.threads[t].wait.timeout > 0 ==>
        && now + waits.threads[t].wait.timeout == deadline[t]
        && (deadline[t] == old(deadline[t]) <==> old(InTime(waits.threads[t], began[t], deadline[t], now)))
    {
      hide Quiet;
      hide PoolOk;
      hide Messages;
      SleepersKnown(waits, pool.entry, |free|, began, deadline, clock);
      FreeHead(pool, queue, free, place, phase, taken);
      if waits.threads[t].status.error != EOK {
        o := GiveUp(t, now);
        return;
      }
      var left := TimeLeft(t, now);
      o := RecvLoop(t, left, now, if left > 0 then now + left else deadline[t]);
    }

    /** The copy and the second locked part of a receive: the receiver gets the message it took,
        cut to its buffer. */
    method EndRecv(t: nat, now: int) returns (m: Message)
      requires Valid() && t < |phase| && phase[t].CopyOut? && clock <= now
      modifies this
      ensures Valid() && clock == now && Contents() == old(Contents()) && phase == old(phase)[t := Outside]
      ensures taken == old(taken) && message == old(message) && size == old(size)
      ensures t < |taken| && IsFront(m, taken[t], old(phase[t]).size)
      ensures free == [old(phase[t]).node] + old(free)
      ensures AllCalls() == old(AllCalls()).(waits := WakeFirst(old(waits), Sender))
    {
      hide Quiet;
      hide PoolOk;
      hide WakeFirst;
      GiveBack(pool, queue, free, place, phase, taken, t);
      TimePasses(waits, pool.entry, |free|, began, deadline, clock, now);
      ReleaseQuietly(waits, pool.entry, |free|, began, deadline, now);
      ApartWake(waits, pool.entry, |free|, began, deadline, now, phase, Sender);
      ApartOut(WakeFirst(waits, Sender).threads, phase, t);
      var msg := phase[t].node;
      m := Cut(pool.data[msg], phase[t].size);
      pool := pool.(next := pool.next[msg := pool.free], free := Some(msg));
      free, place := [msg] + free, place[msg := Free];
      phase := phase[t := Outside];
      waits := WakeFirst(waits, Sender);
      clock := now;
    }

    /** `_thread_timeout` of a sleeping thread, when its timer runs out. */
    method Timeout(t: nat, now: int)
      requires Valid() && t < |phase| && waits.threads[t].status == Suspended && clock <= now
      requires waits.threads[t].wait.timeout > 0 && began[t] + waits.threads[t].wait.timeout <= now
      modifies this`waits, this`clock
      ensures Valid() && clock == now && waits == Expire(old(waits), t)
    {
      hide Quiet;
      hide PoolOk;
      ExpireQuietly(waits, pool.entry, |free|, began, deadline, clock, t, now);
      waits := Expire(waits, t);
      clock := now;
    }

    /** `rt_sched_thread_change_priority`: a sleeping thread stays where it is in its list. */
    method ChangePriority(t: nat, p: nat)
      requires Valid() && t < |waits.prio|
      modifies this`waits
      ensures Valid() && waits == old(waits).(prio := old(waits).prio[t := p]) && Contents() == old(Contents())
    {
      hide Quiet;
      hide PoolOk;
      PriorityQuietly(waits, pool.entry, |free|, began, deadline, clock, t, p);
      waits := waits.(prio := waits.prio[t := p]);
    }

    method TakeNode(t: nat, urgent: bool)
      requires PoolOk(pool, queue, free, place, phase, taken) && pool.free != None && t < |phase| && phase[t] == Outside
      modifies this`pool, this`phase, this`free, this`place
      ensures PoolOk(pool, queue, free, place, phase, taken) && pool == old(pool).(free := pool.free)
      ensures old(free) != [] && free == old(free)[1..] && phase == old(phase)[t := CopyIn(old(free)[0], urgent)]
    {
      hide PoolOk;
      GrabFree(pool, queue, free, place, phase, taken, t, urgent);
      var n := pool.free.value;
      pool := pool.(free := pool.next[n]);
      phase := phase[t := CopyIn(n, urgent)];
      free, place := free[1..], place[n := Held(t)];
    }
  }

  lemma MessageCount(data: seq<Message>, queue: seq<nat>)
    ensures |Messages(data, queue)| == |queue|
  {
  }

  lemma ApartOut(ts: seq<Thread>, phase: seq<Phase>, t: nat)
    requires Apart(ts, phase) && t < |phase|
    ensures Apart(ts, phase[t := Outside])
  {
  }

  lemma LessQuietly(w: Waits, messages: int, room: int,
                    began: seq<int>, deadline: seq<int>, clock: int, room': int)
    requires Quiet(w, messages, room, began, deadline, clock) && room' <= room
    ensures Quiet(w, messages, room', began, deadline, clock)
  {
    LessRoom(w, messages, room, room');
  }

  lemma InitQuiet(w: Waits, room: int, began: seq<int>, deadline: seq<int>, clock: int)
    requires w.receivers == w.senders == [] && |w.threads| == |w.prio| == |began| == |deadline|
    requires forall t :: 0 <= t < |w.threads| ==> w.threads[t].status == Idle
    ensures Quiet(w, 0, room, began, deadline, clock)
  {
  }

  lemma FreeHead(p: Pool, queue: seq<nat>, free: seq<nat>, place: seq<Place>, phase: seq<Phase>, taken: seq<Message>)
    requires PoolOk(p, queue, free, place, phase, taken)
    ensures p.free == None <==> free == []
    ensures p.entry == |queue| && |phase| == |taken|
  {
  }
}
