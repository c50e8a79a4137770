/**
Threads that sleep in a mailbox or message queue call: who is suspended, who has been woken
but has not run yet, and until when a call may wait.
*/
module Waiting {
  import opened Lists
  import opened MachineWords
  import opened SuspendList
  import opened TimerRows

  datatype Error = EOK | ERROR | ETIMEOUT | EINTR | EFULL

  datatype Role = Sender | Receiver

  /** The waiting time left and the tick at which the current wait began. */
  datatype Wait = Wait(timeout: int, tick: int)

  /** Outside a call, asleep in one, or ready to go on with `thread->error` set. */
  datatype Status = Idle | Suspended | Woken(error: Error)

  datatype Thread = Thread(role: Role, wait: Wait, status: Status)

  /** What a call has come to when its thread stops running. */
  datatype Outcome = Sleeps | Copies | Returns(error: Error)

  predicate Asleep(th: Thread, role: Role) {
    th.status == Suspended && th.role == role
  }

  /** Woken for a message or a slot, but not yet back in the call. */
  predicate Called(th: Thread, role: Role) {
    th.status == Woken(EOK) && th.role == role
  }

  ghost function CalledSet(ts: seq<Thread>, role: Role): set<nat> {
    set t: nat | t < |ts| && Called(ts[t], role)
  }

  // ---- one side: the senders or the receivers ---------------------------------------------------

  /** `list` holds exactly the threads asleep in this role. */
  ghost predicate SideOk(ts: seq<Thread>, list: seq<nat>, role: Role) {
    && Distinct(list)
    && forall t: nat :: t in list <==> t < |ts| && Asleep(ts[t], role)
  }

  /** No lost wakeup: while a thread sleeps, everything it could use is meant for a thread that
      has been woken and has not run yet. */
  ghost predicate Balanced(ts: seq<Thread>, list: seq<nat>, role: Role, available: int) {
    list != [] ==> available <= |CalledSet(ts, role)|
  }

  ghost predicate Side(ts: seq<Thread>, list: seq<nat>, role: Role, available: int) {
    SideOk(ts, list, role) && Balanced(ts, list, role, available)
  }

  function Count(b: bool): int {
    if b then 1 else 0
  }

  lemma OneElement(a: set<nat>, b: set<nat>, t: nat)
    requires forall u :: u != t ==> (u in a <==> u in b)
    ensures |b| == |a| - Count(t in a) + Count(t in b)
  {
    if t in a && t !in b {
      assert a == b + {t};
    } else if t in b && t !in a {
      assert b == a + {t};
    } else {
      assert a == b;
    }
  }

  lemma CalledChange(ts: seq<Thread>, t: nat, th: Thread, role: Role)
    requires t < |ts|
    ensures |CalledSet(ts[t := th], role)|
      == |CalledSet(ts, role)| - Count(Called(ts[t], role)) + Count(Called(th, role))
  {
    OneElement(CalledSet(ts, role), CalledSet(ts[t := th], role), t);
  }

  /** A thread that is not asleep in this role before or after changes at most the count. */
  lemma SideAwake(ts: seq<Thread>, list: seq<nat>, role: Role, available: int,
                  t: nat, th: Thread, available': int)
    requires Side(ts, list, role, available) && t < |ts|
    requires !Asleep(ts[t], role) && !Asleep(th, role)
    requires available' + Count(Called(ts[t], role)) <= available + Count(Called(th, role)) || available' <= 0
    ensures Side(ts[t := th], list, role, available')
  {
    CalledChange(ts, t, th, role);
  }

  /** A thread goes to sleep only if there is nothing for it. */
  lemma SideSleep(ts: seq<Thread>, list: seq<nat>, role: Role, available: int,
                  t: nat, th: Thread, list': seq<nat>)
    requires Side(ts, list, role, available) && available <= 0 && t < |ts|
    requires Asleep(th, role) && Distinct(list') && forall x :: x in list' <==> x in list || x == t
    ensures Side(ts[t := th], list', role, available)
  {
  }

  /** One more thing to have, and the first sleeper is called for it. */
  lemma SideWake(ts: seq<Thread>, list: seq<nat>, role: Role, available: int)
    requires Side(ts, list, role, available)
    ensures list == [] ==> Side(ts, list, role, available + 1)
    ensures list != [] ==> list[0] in list && list[0] < |ts| && Asleep(ts[list[0]], role)
    ensures list != [] ==> Side(ts[list[0] := ts[list[0]].(status := Woken(EOK))], list[1..], role, available + 1)
  {
    if list != [] {
      var t := list[0];
      assert t in list;
      CalledChange(ts, t, ts[t].(status := Woken(EOK)), role);
      assert forall x :: x in list <==> x == t || x in list[1..];
    }
  }

  lemma SideExpire(ts: seq<Thread>, list: seq<nat>, role: Role, available: int, t: nat)
    requires Side(ts, list, role, available) && t in list
    ensures t < |ts| && Asleep(ts[t], role)
    ensures Side(ts[t := ts[t].(status := Woken(ETIMEOUT))], Remove(list, t), role, available)
  {
    hide Remove;
    RemoveFacts(list, t);
    CalledChange(ts, t, ts[t].(status := Woken(ETIMEOUT)), role);
    if Remove(list, t) != [] {
      assert list != [];
    }
  }

  // ---- both sides -------------------------------------------------------------------------------

  datatype Waits = Waits(
    threads: seq<Thread>,
    receivers: seq<nat>,    // parent.suspend_thread
    senders: seq<nat>,      // suspend_sender_thread
    prio: seq<nat>)         // current_priority of each thread

  ghost predicate WaitsOk(w: Waits, messages: int, room: int) {
    && |w.prio| == |w.threads|
    && Side(w.threads, w.receivers, Receiver, messages)
    && Side(w.threads, w.senders, Sender, room)
  }

  /** `t` runs in this role: it enters its call or comes back from a wakeup. */
  predicate Runs(w: Waits, t: nat, role: Role) {
    t < |w.threads| && (w.threads[t].status == Idle || Called(w.threads[t], role))
  }

  /** `t` sleeps, at its place in the list of its role; everybody else is as before. */
  ghost predicate FellAsleep(w: Waits, w': Waits, policy: Policy, t: nat, role: Role, wait: Wait) {
    && t < |w.threads| && w'.threads == w.threads[t := Thread(role, wait, Suspended)] && w'.prio == w.prio
    && if role == Receiver
       then w'.senders == w.senders && Joined(w.receivers, w.prio, policy, t, w'.receivers)
       else w'.receivers == w.receivers && Joined(w.senders, w.prio, policy, t, w'.senders)
  }

  /** `rt_thread_suspend_to_list` and the start of the thread timer. */
  method GoToSleep(w: Waits, policy: Policy, ghost messages: int, ghost room: int,
                   t: nat, role: Role, wait: Wait) returns (w': Waits)
    requires WaitsOk(w, messages, room) && Runs(w, t, role)
    requires if role == Receiver then messages <= 0 else room <= 0
    ensures WaitsOk(w', messages, room)
    ensures FellAsleep(w, w', policy, t, role, wait)
  {
    hide Balanced;
    hide Place;
    hide InOrder;
    var th := Thread(role, wait, Suspended);
    assert Known(w.receivers, |w.prio|) && Known(w.senders, |w.prio|) by {
      assert forall i :: 0 <= i < |w.receivers| ==> w.receivers[i] in w.receivers;
      assert forall i :: 0 <= i < |w.senders| ==> w.senders[i] in w.senders;
    }
    if role == Receiver {
      var list, _ := Enqueue(w.receivers, w.prio, policy, t);
      SideSleep(w.threads, w.receivers, role, messages, t, th, list);
      SideAwake(w.threads, w.senders, Sender, room, t, th, room);
      return w.(threads := w.threads[t := th], receivers := list);
    } else {
      var list, _ := Enqueue(w.senders, w.prio, policy, t);
      SideSleep(w.threads, w.senders, role, room, t, th, list);
      SideAwake(w.threads, w.receivers, Receiver, messages, t, th, messages);
      return w.(threads := w.threads[t := th], senders := list);
    }
  }

  ghost predicate KnownThreads(w: Waits) {
    forall t :: t in w.receivers || t in w.senders ==> t < |w.threads|
  }

  /** `rt_susp_list_dequeue`: the first sleeper of this role becomes ready. */
  function WakeFirst(w: Waits, role: Role): (r: Waits)
    requires KnownThreads(w)
    ensures |r.threads| == |w.threads|
  {
    if role == Receiver then
      if w.receivers == [] then w else
        var t := w.receivers[0];
        assert t in w.receivers;
        w.(threads := w.threads[t := w.threads[t].(status := Woken(EOK))], receivers := w.receivers[1..])
    else
      if w.senders == [] then w else
        var t := w.senders[0];
        assert t in w.senders;
        w.(threads := w.threads[t := w.threads[t].(status := Woken(EOK))], senders := w.senders[1..])
  }

  lemma WakeReceiver(w: Waits, messages: int, room: int)
    requires WaitsOk(w, messages, room)
    ensures KnownThreads(w)
    ensures WaitsOk(WakeFirst(w, Receiver), messages + 1, room)
  {
    hide Balanced;
    SideWake(w.threads, w.receivers, Receiver, messages);
    if w.receivers != [] {
      var t := w.receivers[0];
      SideAwake(w.threads, w.senders, Sender, room, t, w.threads[t].(status := Woken(EOK)), room);
    }
  }

  lemma WakeSender(w: Waits, messages: int, room: int)
    requires WaitsOk(w, messages, room)
    ensures KnownThreads(w)
    ensures WaitsOk(WakeFirst(w, Sender), messages, room + 1)
  {
    hide Balanced;
    SideWake(w.threads, w.senders, Sender, room);
    if w.senders != [] {
      var t := w.senders[0];
      SideAwake(w.threads, w.receivers, Receiver, messages, t, w.threads[t].(status := Woken(EOK)), messages);
    }
  }

  /** The call of `t` returns. */
  function Finish(w: Waits, t: nat): (r: Waits)
    requires t < |w.threads|
    ensures |r.threads| == |w.threads|
  {
    w.(threads := w.threads[t := w.threads[t].(status := Idle)])
  }

  /** What a call of `t` has done to the sleepers when it sleeps, starts to copy or returns: a
      call that succeeds wakes the first sleeper of the other side. */
  ghost predicate CallEffect(w: Waits, w': Waits, policy: Policy, t: nat, role: Role, wait: Wait, o: Outcome) {
    && t < |w.threads| && KnownThreads(w)
    && match o
       case Sleeps => FellAsleep(w, w', policy, t, role, wait)
       case Copies => w' == Finish(w, t)
       case Returns(e) => w' == if e == EOK then WakeFirst(Finish(w, t), Other(role)) else Finish(w, t)
  }

  function Other(role: Role): Role {
    if role == Sender then Receiver else Sender
  }

  /** A returning sender may use one slot, or none if there is none; the same with messages. */
  lemma FinishKeeps(w: Waits, messages: int, room: int, t: nat, role: Role, messages': int, room': int)
    requires WaitsOk(w, messages, room) && Runs(w, t, role)
    requires if role == Sender then messages' == messages && (room' <= room - 1 || room' <= 0)
      else room' == room && (messages' <= messages - 1 || messages' <= 0)
    ensures WaitsOk(Finish(w, t), messages', room')
  {
    hide SideOk;
    hide Balanced;
    var th := w.threads[t].(status := Idle);
    FinishSide(w.threads, w.receivers, Receiver, messages, t, th, messages');
    FinishSide(w.threads, w.senders, Sender, room, t, th, room');
  }

  lemma FinishSide(ts: seq<Thread>, list: seq<nat>, role: Role, available: int,
                   t: nat, th: Thread, available': int)
    requires Side(ts, list, role, available) && t < |ts| && th.status == Idle && !Asleep(ts[t], role)
    requires available' <= available - Count(Called(ts[t], role)) || available' <= 0
    ensures Side(ts[t := th], list, role, available')
  {
    SideAwake(ts, list, role, available, t, th, available');
  }

  /** The thread timer of a sleeper runs out. */
  function Expire(w: Waits, t: nat): Waits
    requires t < |w.threads|
  {
    w.(threads := w.threads[t := w.threads[t].(status := Woken(ETIMEOUT))],
       receivers := Remove(w.receivers, t), senders := Remove(w.senders, t))
  }

  lemma ExpireKeeps(w: Waits, messages: int, room: int, t: nat)
    requires WaitsOk(w, messages, room) && t < |w.threads| && w.threads[t].status == Suspended
    ensures WaitsOk(Expire(w, t), messages, room)
  {
    hide Balanced;
    var th := w.threads[t].(status := Woken(ETIMEOUT));
    if w.threads[t].role == Receiver {
      SideExpire(w.threads, w.receivers, Receiver, messages, t);
      SideAwake(w.threads, w.senders, Sender, room, t, th, room);
    } else {
      SideExpire(w.threads, w.senders, Sender, room, t);
      SideAwake(w.threads, w.receivers, Receiver, messages, t, th, messages);
    }
  }

  /** A thread woken by its timer leaves the call. */
  lemma GiveUpKeeps(w: Waits, messages: int, room: int, t: nat)
    requires WaitsOk(w, messages, room) && t < |w.threads|
    requires w.threads[t].status.Woken? && w.threads[t].status != Woken(EOK)
    ensures WaitsOk(Finish(w, t), messages, room)
  {
    hide SideOk;
    hide Balanced;
    var th := w.threads[t].(status := Idle);
    FinishSide(w.threads, w.receivers, Receiver, messages, t, th, messages);
    FinishSide(w.threads, w.senders, Sender, room, t, th, room);
  }

  // ---- order ------------------------------------------------------------------------------------

  /** Both lists are in the order of the policy. */
  ghost predicate WaitsInOrder(w: Waits, policy: Policy) {
    InOrder(w.receivers, w.prio, policy) && InOrder(w.senders, w.prio, policy)
  }

  lemma WakeInOrder(w: Waits, policy: Policy, role: Role)
    requires KnownThreads(w)
    requires WaitsInOrder(w, policy)
    ensures WaitsInOrder(WakeFirst(w, role), policy)
  {
  }

  lemma FinishInOrder(w: Waits, policy: Policy, t: nat)
    requires t < |w.threads| && WaitsInOrder(w, policy)
    ensures WaitsInOrder(Finish(w, t), policy)
  {
  }

  lemma ExpireInOrder(w: Waits, policy: Policy, t: nat)
    requires t < |w.threads| && WaitsInOrder(w, policy)
    ensures WaitsInOrder(Expire(w, t), policy)
  {
    hide InOrder;
    RemoveInOrder(w.receivers, w.prio, policy, t);
    RemoveInOrder(w.senders, w.prio, policy, t);
  }

  lemma CallInOrder(w: Waits, w': Waits, policy: Policy, t: nat, role: Role, wait: Wait, o: Outcome)
    requires CallEffect(w, w', policy, t, role, wait, o) && WaitsInOrder(w, policy)
    ensures WaitsInOrder(w', policy)
  {
    hide InOrder;
    hide Joined;
    match o {
      case Sleeps =>
        if role == Receiver {
          JoinedInOrder(w.receivers, w.prio, policy, t, w'.receivers);
        } else {
          JoinedInOrder(w.senders, w.prio, policy, t, w'.senders);
        }
      case Copies =>
      case Returns(e) => WakeInOrder(Finish(w, t), policy, Other(role));
    }
  }

  /** Nobody is forgotten when a priority changes: sleepers stay where they are. */
  lemma PriorityQuietly(w: Waits, messages: int, room: int, began: seq<int>, deadline: seq<int>, clock: int, t: nat,
                        p: nat)
    requires Quiet(w, messages, room, began, deadline, clock) && t < |w.prio|
    ensures Quiet(w.(prio := w.prio[t := p]), messages, room, began, deadline, clock)
  {
  }

  // ---- deadlines --------------------------------------------------------------------------------

  /** The waiting time left of `timeout` at `tick` for a wait that began at `start`. */
  function Remaining(timeout: int, start: int, tick: int): int
    requires timeout > 0 ==> 0 <= start < WRAP && 0 <= tick < WRAP
  {
    if timeout > 0 then
      var left := Signed32(timeout - Minus(tick, start));
      if left < 0 then 0 else left
    else timeout
  }

  /** The time left is exact precisely as long as the thread runs no later than half the tick
      range after its deadline. */
  lemma RemainingExact(timeout: int, began: int, now: int)
    requires 0 < timeout < WRAP / 2 && began <= now < began + WRAP
    ensures var left := began + timeout - now;
      Remaining(timeout, began % WRAP, now % WRAP) == (if left < 0 then 0 else left) <==> left >= -(WRAP / 2)
  {
    MinusWraps(now, began);
    var e := now - began;
    assert Minus(now % WRAP, began % WRAP) == e;
    SignedIs(timeout - e);
  }

  /** A thread that comes back more than half the tick range late is told to wait on. */
  lemma LateWait()
    ensures Remaining(10, 0, 10 + WRAP / 2 + 1) == WRAP / 2 - 1
  {
  }

  /** The running wait of every thread in a timed call ends at the deadline of the call, and a
      thread that has timed out is past it. */
  ghost predicate Timed(ts: seq<Thread>, began: seq<int>, deadline: seq<int>, clock: int) {
    && |began| == |deadline| == |ts|
    && forall t :: 0 <= t < |ts| ==> TimedThread(ts[t], began[t], deadline[t], clock)
  }

  ghost predicate TimedThread(th: Thread, began: int, deadline: int, clock: int) {
    match th.status
    case Idle => true
    case Suspended => TimedWait(th.wait, began, deadline, clock)
    case Woken(e) => if e == EOK then TimedWait(th.wait, began, deadline, clock) else deadline <= clock
  }

  ghost predicate TimedWait(wait: Wait, began: int, deadline: int, clock: int) {
    wait.timeout > 0 ==>
      wait.timeout < WRAP / 2 && began <= clock && wait.tick == began % WRAP && began + wait.timeout == deadline
  }

  /** The thread runs again at `now`, not too late for 32-bit ticks: at most half the tick range
      after its deadline. */
  predicate InTime(th: Thread, began: int, deadline: int, now: int) {
    th.wait.timeout > 0 ==> now < began + WRAP && now <= deadline + WRAP / 2
  }

  /** A woken thread that gives up is past the deadline of its call. One that waits again keeps it,
      unless it is too late for 32-bit ticks: then it gets a later one. */
  lemma WaitAgain(th: Thread, began: int, deadline: int, clock: int, now: int, left: int)
    requires TimedThread(th, began, deadline, clock) && th.status == Woken(EOK) && clock <= now
    requires left == Remaining(th.wait.timeout, th.wait.tick, now % WRAP)
    ensures left > 0 ==> left < WRAP / 2 && (now + left == deadline <==> InTime(th, began, deadline, now))
    ensures left == 0 && th.wait.timeout != 0 ==> now >= deadline
    ensures left < 0 <==> th.wait.timeout < 0
  {
    if th.wait.timeout > 0 && InTime(th, began, deadline, now) {
      RemainingExact(th.wait.timeout, began, now);
    }
  }

  // ---- one part of a call -----------------------------------------------------------------------

  /** The sleepers, and the true times at which their waits began and their calls have to end. */
  datatype Calls = Calls(waits: Waits, began: seq<int>, deadline: seq<int>) {
    predicate Sized() {
      |waits.threads| == |began| == |deadline|
    }
  }

  /** A call that begins at `now` has come to `o`. */
  ghost predicate Began(c: Calls, c': Calls, policy: Policy, t: nat, role: Role, timeout: int, now: int, o: Outcome) {
    && c.Sized() && CallEffect(c.waits, c'.waits, policy, t, role, Wait(timeout, now % WRAP), o)
    && c'.began == (if o == Sleeps then c.began[t := now] else c.began)
    && c'.deadline == c.deadline[t := now + timeout]
  }

  /** A woken thread has gone on with its call at `now`: with an error it gives up; otherwise it
      has `success` if there is something for it, `failure` if its time is over, or sleeps for the
      time it has left. */
  ghost predicate WentOn(c: Calls, c': Calls, policy: Policy, t: nat, now: int,
                         there: bool, success: Outcome, failure: Error, o: Outcome)
  {
    && c.Sized() && t < |c.began| && c.waits.threads[t].status.Woken?
    && var th := c.waits.threads[t];
       if th.status.error != EOK then
         o == Returns(th.status.error) && c' == c.(waits := Finish(c.waits, t))
       else
         && (th.wait.timeout > 0 ==> 0 <= th.wait.tick < WRAP)
         && var left := Remaining(th.wait.timeout, th.wait.tick, now % WRAP);
            && o == (if there then success else if left == 0 then Returns(failure) else Sleeps)
            && CallEffect(c.waits, c'.waits, policy, t, th.role, Wait(left, now % WRAP), o)
            && c'.began == (if o == Sleeps then c.began[t := now] else c.began)
            && c'.deadline == (if o == Sleeps && left > 0 then c.deadline[t := now + left] else c.deadline)
  }

  /** Time passes and one thread changes. */
  lemma TimedChange(ts: seq<Thread>, began: seq<int>, deadline: seq<int>, clock: int, t: nat, th: Thread, b: int,
                    d: int, now: int)
    requires Timed(ts, began, deadline, clock) && clock <= now && t < |ts| && TimedThread(th, b, d, now)
    ensures Timed(ts[t := th], began[t := b], deadline[t := d], now)
  {
  }

  // ---- both together ------------------------------------------------------------------------------

  /** What holds between any two steps, for `messages` to receive and `room` for more. */
  ghost predicate Quiet(w: Waits, messages: int, room: int,
                        began: seq<int>, deadline: seq<int>, clock: int) {
    WaitsOk(w, messages, room) && Timed(w.threads, began, deadline, clock)
  }

  /** `t` enters a call at `now`. */
  lemma EnterQuietly(w: Waits, messages: int, room: int,
                     began: seq<int>, deadline: seq<int>, clock: int, t: nat, d: int, now: int)
    requires Quiet(w, messages, room, began, deadline, clock) && clock <= now
    requires t < |w.threads| && w.threads[t].status == Idle
    ensures |deadline| == |began| == |w.threads|
    ensures Quiet(w, messages, room, began, deadline[t := d], now)
  {
    hide WaitsOk;
    TimedChange(w.threads, began, deadline, clock, t, w.threads[t], began[t], d, now);
    assert w.threads[t := w.threads[t]] == w.threads && began[t := began[t]] == began;
  }

  lemma TimePasses(w: Waits, messages: int, room: int,
                   began: seq<int>, deadline: seq<int>, clock: int, now: int)
    requires Quiet(w, messages, room, began, deadline, clock) && clock <= now
    ensures Quiet(w, messages, room, began, deadline, now)
    ensures |deadline| == |began| == |w.threads|
  {
    hide WaitsOk;
  }

  /** The lists name threads of the system, and a thread outside a call has none to finish. */
  lemma SleepersKnown(w: Waits, messages: int, room: int, began: seq<int>, deadline: seq<int>, clock: int)
    requires Quiet(w, messages, room, began, deadline, clock)
    ensures |w.prio| == |w.threads|
    ensures forall x :: x in w.receivers || x in w.senders ==> x < |w.threads|
    ensures forall t :: 0 <= t < |w.threads| && w.threads[t].status == Idle ==> Finish(w, t) == w
  {
    forall t | 0 <= t < |w.threads| && w.threads[t].status == Idle ensures Finish(w, t) == w {
      assert w.threads[t := w.threads[t].(status := Idle)] == w.threads;
    }
  }

  /** The thread of a call that found nothing goes to sleep at `now`, with `d` as its deadline. */
  method SleepQuietly(w: Waits, policy: Policy, ghost messages: int, ghost room: int,
                      ghost began: seq<int>, ghost deadline: seq<int>, ghost now: int,
                      t: nat, role: Role, wait: Wait, ghost d: int) returns (w': Waits)
    requires Quiet(w, messages, room, began, deadline, now) && Runs(w, t, role)
    requires if role == Receiver then messages <= 0 else room <= 0
    requires wait.tick == now % WRAP && (wait.timeout > 0 ==> wait.timeout < WRAP / 2 && now + wait.timeout == d)
    ensures |began| == |deadline| == |w.threads|
    ensures Quiet(w', messages, room, began[t := now], deadline[t := d], now)
    ensures FellAsleep(w, w', policy, t, role, wait)
  {
    hide WaitsOk;
    w' := GoToSleep(w, policy, messages, room, t, role, wait);
    TimedChange(w.threads, began, deadline, now, t, Thread(role, wait, Suspended), now, d, now);
  }

  /** A sender takes a slot or a receiver takes a message; or it gives up because there is none. */
  lemma FinishQuietly(w: Waits, messages: int, room: int,
                      began: seq<int>, deadline: seq<int>, clock: int, t: nat, role: Role, messages': int, room': int)
    requires Quiet(w, messages, room, began, deadline, clock) && Runs(w, t, role)
    requires if role == Sender then messages' == messages && (room' <= room - 1 || room' <= 0)
      else room' == room && (messages' <= messages - 1 || messages' <= 0)
    ensures Quiet(Finish(w, t), messages', room', began, deadline, clock)
  {
    hide WaitsOk;
    FinishKeeps(w, messages, room, t, role, messages', room');
  }

  /** A message is there for the receivers. */
  lemma DeliverQuietly(w: Waits, messages: int, room: int,
                       began: seq<int>, deadline: seq<int>, clock: int)
    requires Quiet(w, messages, room, began, deadline, clock)
    ensures KnownThreads(w)
    ensures Quiet(WakeFirst(w, Receiver), messages + 1, room, began, deadline, clock)
  {
    WakeReceiver(w, messages, room);
    WakeTimed(w, messages, room, began, deadline, clock);
  }

  /** A slot is there for the senders. */
  lemma ReleaseQuietly(w: Waits, messages: int, room: int,
                       began: seq<int>, deadline: seq<int>, clock: int)
    requires Quiet(w, messages, room, began, deadline, clock)
    ensures KnownThreads(w)
    ensures Quiet(WakeFirst(w, Sender), messages, room + 1, began, deadline, clock)
  {
    WakeSender(w, messages, room);
    WakeTimed(w, messages, room, began, deadline, clock);
  }

  lemma WakeTimed(w: Waits, messages: int, room: int,
                  began: seq<int>, deadline: seq<int>, clock: int)
    requires Quiet(w, messages, room, began, deadline, clock)
    ensures KnownThreads(w)
    ensures Timed(WakeFirst(w, Sender).threads, began, deadline, clock)
    ensures Timed(WakeFirst(w, Receiver).threads, began, deadline, clock)
  {
    hide Balanced;
    assert w.receivers != [] ==> w.receivers[0] in w.receivers;
    assert w.senders != [] ==> w.senders[0] in w.senders;
  }

  lemma ExpireQuietly(w: Waits, messages: int, room: int,
                      began: seq<int>, deadline: seq<int>, clock: int, t: nat, now: int)
    requires Quiet(w, messages, room, began, deadline, clock) && clock <= now
    requires t < |w.threads| && w.threads[t].status == Suspended && w.threads[t].wait.timeout > 0
    requires |began| == |w.threads| && began[t] + w.threads[t].wait.timeout <= now
    ensures Quiet(Expire(w, t), messages, room, began, deadline, now)
  {
    hide WaitsOk;
    ExpireKeeps(w, messages, room, t);
    TimedChange(w.threads, began, deadline, clock, t, w.threads[t].(status := Woken(ETIMEOUT)), began[t], deadline[t],
                now);
    assert deadline[t := deadline[t]] == deadline && began[t := began[t]] == began;
  }

  lemma GiveUpQuietly(w: Waits, messages: int, room: int,
                      began: seq<int>, deadline: seq<int>, clock: int, t: nat)
    requires Quiet(w, messages, room, began, deadline, clock) && t < |w.threads|
    requires w.threads[t].status.Woken? && w.threads[t].status != Woken(EOK)
    ensures |deadline| == |w.threads| && deadline[t] <= clock
    ensures Quiet(Finish(w, t), messages, room, began, deadline, clock)
  {
    hide WaitsOk;
    GiveUpKeeps(w, messages, room, t);
    TimedChange(w.threads, began, deadline, clock, t, w.threads[t].(status := Idle), began[t], deadline[t], clock);
    assert deadline[t := deadline[t]] == deadline && began[t := began[t]] == began;
  }

  /** A woken thread comes back at `now`, with `left` of its waiting time. */
  lemma BackQuietly(w: Waits, messages: int, room: int, began: seq<int>, deadline: seq<int>, clock: int, t: nat,
                    now: int, left: int)
    requires Quiet(w, messages, room, began, deadline, clock) && clock <= now
    requires t < |w.threads| && w.threads[t].status == Woken(EOK) && |began| == |deadline| == |w.threads|
    requires left == Remaining(w.threads[t].wait.timeout, w.threads[t].wait.tick, now % WRAP)
    ensures left > 0 ==>
      left < WRAP / 2 && (now + left == deadline[t] <==> InTime(w.threads[t], began[t], deadline[t], now))
    ensures left == 0 && w.threads[t].wait.timeout != 0 ==> now >= deadline[t]
    ensures left < 0 <==> w.threads[t].wait.timeout < 0
  {
    hide WaitsOk;
    WaitAgain(w.threads[t], began[t], deadline[t], clock, now, left);
  }

  lemma TickInRange(w: Waits, messages: int, room: int,
                    began: seq<int>, deadline: seq<int>, clock: int, t: nat)
    requires Quiet(w, messages, room, began, deadline, clock)
    requires t < |w.threads| && w.threads[t].status == Woken(EOK)
    ensures w.threads[t].wait.timeout > 0 ==> 0 <= w.threads[t].wait.tick < WRAP
    ensures |began| == |deadline| == |w.threads|
  {
    hide WaitsOk;
  }

  /** A message comes in past the senders: it takes a slot and serves a receiver. */
  lemma UrgentQuietly(w: Waits, messages: int, room: int,
                      began: seq<int>, deadline: seq<int>, clock: int)
    requires Quiet(w, messages, room, began, deadline, clock)
    ensures KnownThreads(w)
    ensures Quiet(WakeFirst(w, Receiver), messages + 1, room - 1, began, deadline, clock)
  {
    DeliverQuietly(w, messages, room, began, deadline, clock);
    LessRoom(WakeFirst(w, Receiver), messages + 1, room, room - 1);
  }

  /** Having less to give than before leaves nobody forgotten. */
  lemma LessRoom(w: Waits, messages: int, room: int, room': int)
    requires WaitsOk(w, messages, room) && room' <= room
    ensures WaitsOk(w, messages, room')
  {
  }
}
