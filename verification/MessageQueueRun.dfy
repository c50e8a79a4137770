/** Runs of the message queue: what every step does and answers, and what holds in all runs. */
module MessageQueueRun {
  import opened Arrival
  import opened Ledger
  import opened Lists
  import opened MessagePool
  import opened MessageQueue
  import opened SuspendList
  import opened TimerRows
  import opened Waiting

  datatype Op =
    | SendOp(t: nat, m: Message, timeout: int)
    | UrgentOp(t: nat, m: Message)
    | EndSendOp(t: nat)
    | RecvOp(t: nat, bytes: nat, timeout: int)
    | EndRecvOp(t: nat)
    | ResumeOp(t: nat)
    | TimeoutOp(t: nat)
    | PriorityOp(t: nat, p: nat)

  /** What a step gives back: nothing if it cannot happen; the end of a receive gives the message. */
  datatype Result = Skipped | Done | Answer(outcome: Outcome) | Got(message: Message)

  type Record = Entry<State, (Op, nat), Result>

  predicate Sized(s: State) {
    |s.calls.waits.threads| == |s.calls.began| == |s.phase| == |s.message| == |s.size| == |s.taken|
  }

  /** The step can happen: the thread is where the operation takes it up. */
  predicate Enabled(op: Op, s: State)
    requires Sized(s)
  {
    match op
    case SendOp(t, m, timeout) => Unoccupied(s, t) && timeout < WRAP / 2 && m != []
    case UrgentOp(t, m) => Unoccupied(s, t) && m != []
    case EndSendOp(t) => t < |s.phase| && s.phase[t].CopyIn?
    case RecvOp(t, bytes, timeout) => Unoccupied(s, t) && timeout < WRAP / 2 && bytes != 0
    case EndRecvOp(t) => t < |s.phase| && s.phase[t].CopyOut?
    case ResumeOp(t) => t < |s.phase| && s.calls.waits.threads[t].status.Woken?
    case TimeoutOp(t) =>
      && t < |s.phase| && s.calls.waits.threads[t].status == Suspended
      && s.calls.waits.threads[t].wait.timeout > 0 && s.calls.began[t] + s.calls.waits.threads[t].wait.timeout <= s.now
    case PriorityOp(t, _) => t < |s.calls.waits.prio|
  }

  predicate Unoccupied(s: State, t: nat)
    requires Sized(s)
  {
    t < |s.phase| && s.calls.waits.threads[t].status == Idle && s.phase[t] == Outside
  }

  /** The state in which the step begins: time has passed. */
  function Later(e: Record): State {
    e.before.(now := e.before.now + e.op.1)
  }

  /** What each step does to a queue with messages of up to `msgSize` bytes, and answers. */
  ghost predicate Steps(msgSize: nat, policy: Policy, e: Record) {
    Sized(e.before) && Sized(e.after) &&
    var s, s' := Later(e), e.after;
    var now := s.now;
    if !Enabled(e.op.0, s) then e.result == Skipped && s' == s else
    match e.op.0
    case SendOp(t, m, timeout) =>
      && e.result.Answer? && NodeTaken(s, s', t, m, false, e.result.outcome)
      && e.result.outcome == (if |m| > msgSize then Returns(ERROR) else if s.free != [] then Copies
                              else if timeout == 0 then Returns(EFULL) else Sleeps)
      && Began(s.calls, s'.calls, policy, t, Sender, timeout, now, e.result.outcome)
    case UrgentOp(t, m) =>
      && e.result.Answer? && NodeTaken(s, s', t, m, true, e.result.outcome) && s'.calls == s.calls
      && e.result.outcome == (if |m| > msgSize then Returns(ERROR) else if s.free != [] then Copies else Returns(EFULL))
    case EndSendOp(t) =>
      && e.result == Answer(Returns(EOK)) && KnownThreads(s.calls.waits)
      && s' == s.(
        messages := if s.phase[t].urgent then Links(e) + s.messages else s.messages + Links(e),
        phase := s.phase[t := Outside],
        calls := s.calls.(waits := WakeFirst(s.calls.waits, Receiver)))
    case RecvOp(t, bytes, timeout) =>
      && e.result.Answer? && MessageTaken(s.(size := s.size[t := bytes]), s', t, e.result.outcome)
      && e.result.outcome ==
         (if s.messages != [] then Copies else if timeout == 0 then Returns(ETIMEOUT) else Sleeps)
      && Began(s.calls, s'.calls, policy, t, Receiver, timeout, now, e.result.outcome)
    case EndRecvOp(t) =>
      && e.result.Got? && IsFront(e.result.message, s.taken[t], s.phase[t].size) && KnownThreads(s.calls.waits)
      && s' == s.(
        free := [s.phase[t].node] + s.free,
        phase := s.phase[t := Outside],
        calls := s.calls.(waits := WakeFirst(s.calls.waits, Sender)))
    case ResumeOp(t) =>
      && e.result.Answer?
      && if s.calls.waits.threads[t].role == Sender then
           && NodeTaken(s, s', t, s.message[t], false, e.result.outcome)
           && WentOn(s.calls, s'.calls, policy, t, now, s.free != [], Copies, EFULL, e.result.outcome)
         else
           && MessageTaken(s, s', t, e.result.outcome)
           && WentOn(s.calls, s'.calls, policy, t, now, s.messages != [], Copies, ETIMEOUT, e.result.outcome)
    case TimeoutOp(t) =>
      e.result == Done && s' == s.(calls := s.calls.(waits := Expire(s.calls.waits, t)))
    case PriorityOp(t, p) =>
      e.result == Done && s' == s.(calls := s.calls.(waits := s.calls.waits.(prio := s.calls.waits.prio[t := p])))
  }

  /** A sender has the first free node if it can copy; nothing is queued yet. */
  ghost predicate NodeTaken(s: State, s': State, t: nat, m: Message, urgent: bool, o: Outcome)
    requires Sized(s) && t < |s.phase|
  {
    var s1 := s.(message := s.message[t := m], calls := s'.calls);
    if o == Copies then s.free != [] && s' == s1.(free := s.free[1..], phase := s.phase[t := CopyIn(s.free[0], urgent)])
    else s' == s1
  }

  /** A receiver has the first message if it can copy. */
  ghost predicate MessageTaken(s: State, s': State, t: nat, o: Outcome)
    requires Sized(s) && Sized(s') && t < |s.phase|
  {
    if o == Copies then
      && t < |s'.phase| && s.messages == [s'.taken[t]] + s'.messages
      && s'.phase[t].CopyOut? && s'.phase[t].size == s.size[t]
      && s' == s.(messages := s'.messages, calls := s'.calls, phase := s.phase[t := s'.phase[t]],
                  taken := s.taken[t := s'.taken[t]])
    else s' == s.(calls := s'.calls)
  }

  /** The message a step links: the one its sender came with. */
  ghost function Links(e: Record): seq<Message> {
    if e.op.0.EndSendOp? && e.result.Answer? && e.op.0.t < |e.before.message| then [e.before.message[e.op.0.t]] else []
  }

  /** The message a step unlinks. */
  ghost function Unlinks(e: Record): seq<Message> {
    if e.result != Answer(Copies) then [] else
    match e.op.0
    case RecvOp(t, _, _) => if t < |e.after.taken| then [e.after.taken[t]] else []
    case ResumeOp(t) =>
      if t < |e.after.taken| && t < |e.before.calls.waits.threads| && e.before.calls.waits.threads[t].role == Receiver
      then [e.after.taken[t]] else []
    case _ => []
  }

  /** No urgent message is being copied in. */
  predicate NoneUrgent(phase: seq<Phase>) {
    forall t :: 0 <= t < |phase| && phase[t].CopyIn? ==> !phase[t].urgent
  }

  /** The step links an urgent message. */
  predicate LinksUrgent(e: Record) {
    && e.op.0.EndSendOp? && e.op.0.t < |e.before.phase|
    && e.before.phase[e.op.0.t].CopyIn? && e.before.phase[e.op.0.t].urgent
  }

  /** The first part of a call. */
  method StartStep(mq: Queue, op: Op, now: int, ghost delay: nat) returns (result: Result)
    requires mq.Valid() && mq.clock <= now && (op.SendOp? || op.UrgentOp? || op.RecvOp?)
    modifies mq
    ensures mq.Valid() && mq.clock <= now
    ensures Steps(mq.msgSize, mq.policy, Entry((op, delay), old(mq.View(now - delay)), result, mq.View(now)))
  {
    hide Quiet, PoolOk, Messages, CallEffect, WakeFirst, Remaining, Began, WentOn;
    result := Skipped;
    SleepersKnown(mq.waits, mq.pool.entry, |mq.free|, mq.began, mq.deadline, mq.clock);
    match op {
      case SendOp(t, m, timeout) =>
        if t < |mq.phase| && mq.waits.threads[t].status == Idle && mq.phase[t] == Outside
           && timeout < WRAP / 2 && m != [] {
          var o := mq.SendWait(t, m, timeout, now);
          result := Answer(o);
        }
      case UrgentOp(t, m) =>
        if t < |mq.phase| && mq.waits.threads[t].status == Idle && mq.phase[t] == Outside && m != [] {
          var o := mq.Urgent(t, m, now);
          result := Answer(o);
        }
      case RecvOp(t, bytes, timeout) =>
        if t < |mq.phase| && mq.waits.threads[t].status == Idle && mq.phase[t] == Outside
           && timeout < WRAP / 2 && bytes != 0 {
          var o := mq.RecvWait(t, bytes, timeout, now);
          result := Answer(o);
        }
    }
  }

  /** One step at time `now`, `delay` after the last; a step that cannot happen does nothing. */
  method Step(mq: Queue, op: Op, now: int, ghost delay: nat) returns (result: Result)
    requires mq.Valid() && mq.clock <= now
    modifies mq
    ensures mq.Valid() && mq.clock <= now
    ensures Steps(mq.msgSize, mq.policy, Entry((op, delay), old(mq.View(now - delay)), result, mq.View(now)))
  {
    hide Quiet, PoolOk, Messages, CallEffect, WakeFirst, Expire, Remaining, Began, WentOn;
    result := Skipped;
    SleepersKnown(mq.waits, mq.pool.entry, |mq.free|, mq.began, mq.deadline, mq.clock);
    match op {
      case SendOp(_, _, _) => result := StartStep(mq, op, now, delay);
      case UrgentOp(_, _) => result := StartStep(mq, op, now, delay);
      case RecvOp(_, _, _) => result := StartStep(mq, op, now, delay);
      case EndSendOp(t) =>
        if t < |mq.phase| && mq.phase[t].CopyIn? {
          var r := mq.EndSend(t, now);
          result := Answer(Returns(r));
        }
      case EndRecvOp(t) =>
        if t < |mq.phase| && mq.phase[t].CopyOut? {
          var m := mq.EndRecv(t, now);
          result := Got(m);
        }
      case ResumeOp(t) =>
        if t < |mq.phase| && mq.waits.threads[t].status.Woken? {
          result := ResumeStep(mq, t, now, delay);
        }
      case TimeoutOp(t) =>
        if t < |mq.phase| && mq.waits.threads[t].status == Suspended && mq.waits.threads[t].wait.timeout > 0
           && mq.began[t] + mq.waits.threads[t].wait.timeout <= now {
          mq.Timeout(t, now);
          result := Done;
        }
      case PriorityOp(t, p) =>
        if t < |mq.waits.prio| {
          mq.ChangePriority(t, p);
          result := Done;
        }
    }
  }

  method ResumeStep(mq: Queue, t: nat, now: int, ghost delay: nat) returns (result: Result)
    requires mq.Valid() && mq.clock <= now && t < |mq.phase| && mq.waits.threads[t].status.Woken?
    modifies mq
    ensures mq.Valid() && mq.clock <= now
    ensures Steps(mq.msgSize, mq.policy, Entry((ResumeOp(t), delay), old(mq.View(now - delay)), result, mq.View(now)))
  {
    hide Quiet, PoolOk, Messages, CallEffect, WakeFirst, Remaining, Began, WentOn;
    var o;
    if mq.waits.threads[t].role == Sender {
      o := mq.ResumeSend(t, now);
    } else {
      o := mq.ResumeRecv(t, now);
    }
    result := Answer(o);
  }

  /** Every step moves the messages it links and unlinks and no others: urgent messages go to the
      front, all others to the back. */
  lemma StepMoves(msgSize: nat, policy: Policy, e: Record)
    requires Steps(msgSize, policy, e)
    ensures !LinksUrgent(e) ==> Unlinks(e) + e.after.messages == e.before.messages + Links(e)
    ensures LinksUrgent(e) ==> Unlinks(e) == [] && e.after.messages == Links(e) + e.before.messages
    ensures NoneUrgent(e.before.phase) ==> !LinksUrgent(e) && (!e.op.0.UrgentOp? ==> NoneUrgent(e.after.phase))
  {
    hide Began, WentOn, WakeFirst, Expire;
  }

  /** No step but a change of priority disturbs the order of the sleepers. */
  lemma StepInOrder(msgSize: nat, policy: Policy, e: Record)
    requires Steps(msgSize, policy, e) && !e.op.0.PriorityOp? && WaitsInOrder(e.before.calls.waits, policy)
    ensures WaitsInOrder(e.after.calls.waits, policy)
  {
    hide CallEffect, WaitsInOrder, WakeFirst, Expire, Remaining, NodeTaken, MessageTaken;
    var w, w' := e.before.calls.waits, e.after.calls.waits;
    if Enabled(e.op.0, Later(e)) {
      match e.op.0 {
        case SendOp(t, _, timeout) =>
          CallInOrder(w, w', policy, t, Sender, Wait(timeout, Later(e).now % WRAP), e.result.outcome);
        case UrgentOp(_, _) =>
        case EndSendOp(_) => WakeInOrder(w, policy, Receiver);
        case RecvOp(t, _, timeout) =>
          CallInOrder(w, w', policy, t, Receiver, Wait(timeout, Later(e).now % WRAP), e.result.outcome);
        case EndRecvOp(_) => WakeInOrder(w, policy, Sender);
        case ResumeOp(t) =>
          if w.threads[t].status.error != EOK {
            FinishInOrder(w, policy, t);
          } else {
            var left := Remaining(w.threads[t].wait.timeout, w.threads[t].wait.tick, Later(e).now % WRAP);
            CallInOrder(w, w', policy, t, w.threads[t].role, Wait(left, Later(e).now % WRAP), e.result.outcome);
          }
        case TimeoutOp(t) => ExpireInOrder(w, policy, t);
      }
    }
  }

  /** The lists hold exactly the sleepers, who copy nothing, and nobody sleeps on a message or a node
      that is there and meant for nobody. */
  ghost predicate Sound(s: State) {
    WaitsOk(s.calls.waits, |s.messages|, |s.free|) && Apart(s.calls.waits.threads, s.phase)
  }

  ghost predicate SoundStep(msgSize: nat, policy: Policy, e: Record) {
    Steps(msgSize, policy, e) && Sound(e.before) && Sound(e.after)
  }

  /** A record of steps of a queue that lead from `start` to `end`. */
  ghost predicate IsRun(msgSize: nat, policy: Policy, trace: seq<Record>, ops: seq<(Op, nat)>,
                        start: State, end: State)
  {
    Recorded(trace, ops, start, end) && forall i :: 0 <= i < |trace| ==> SoundStep(msgSize, policy, trace[i])
  }

  lemma EmptyRun(msgSize: nat, policy: Policy, ops: seq<(Op, nat)>, start: State, end: State)
    requires IsRun(msgSize, policy, [], ops, start, end)
    ensures ops == [] && end == start
  {
  }

  lemma OneStepLess(msgSize: nat, policy: Policy, trace: seq<Record>, ops: seq<(Op, nat)>,
                    start: State, end: State)
    requires IsRun(msgSize, policy, trace, ops, start, end) && trace != []
    ensures var n := |trace| - 1;
      && |ops| == n + 1 && trace[n].op == ops[n] && trace[n].after == end && SoundStep(msgSize, policy, trace[n])
      && IsRun(msgSize, policy, trace[..n], ops[..n], start, trace[n].before)
  {
    hide SoundStep, Recorded;
    OneEntryLess(trace, ops, start, end);
  }

  /** In any run no message is lost or handed out twice; without urgent messages they come out in
      the order in which they were linked. */
  lemma {:induction false} RunConserves(msgSize: nat, policy: Policy, trace: seq<Record>,
                                        ops: seq<(Op, nat)>, start: State, end: State)
    requires IsRun(msgSize, policy, trace, ops, start, end)
    ensures Conserved(start.messages, Gathered(Links, trace), Gathered(Unlinks, trace), end.messages)
    ensures NoneUrgent(start.phase) && (forall i :: 0 <= i < |ops| ==> !ops[i].0.UrgentOp?) ==>
      && NoneUrgent(end.phase)
      && Gathered(Unlinks, trace) + end.messages == start.messages + Gathered(Links, trace)
  {
    hide IsRun, Steps, Sound, Conserved, Gathered, Links, Unlinks, NoneUrgent;
    if trace == [] {
      EmptyRun(msgSize, policy, ops, start, end);
      NoPart(Links);
      NoPart(Unlinks);
      NothingYet(start.messages);
    } else {
      var n := |trace| - 1;
      var e := trace[n];
      OneStepLess(msgSize, policy, trace, ops, start, end);
      RunConserves(msgSize, policy, trace[..n], ops[..n], start, e.before);
      StepMoves(msgSize, policy, e);
      LastPart(Links, trace);
      LastPart(Unlinks, trace);
      StepConserves(start.messages, Gathered(Links, trace[..n]), Gathered(Unlinks, trace[..n]), e.before.messages,
                    Links(e), Unlinks(e), end.messages);
    }
  }

  /** The size of the buffer `t` came with last. */
  ghost function Buffer(trace: seq<Record>, start: State, t: nat): nat {
    if trace == [] then if t < |start.size| then start.size[t] else 0 else
      var n := |trace| - 1;
      var e := trace[n];
      if e.op.0.RecvOp? && e.op.0.t == t && e.result != Skipped then e.op.0.bytes else Buffer(trace[..n], start, t)
  }

  /** Some sender linked the message, or it was in the queue at the start. */
  ghost predicate WasSent(trace: seq<Record>, start: State, m: Message) {
    m in start.messages || m in Gathered(Links, trace)
  }

  /** Everything queued or being received was sent, and is received into the buffer asked for. */
  ghost predicate Genuine(trace: seq<Record>, start: State, s: State) {
    && Sized(s) && (forall m :: m in s.messages ==> WasSent(trace, start, m))
    && forall t :: 0 <= t < |s.phase| ==>
         && s.size[t] == Buffer(trace, start, t)
         && (s.phase[t].CopyOut? ==> s.phase[t].size == s.size[t] && WasSent(trace, start, s.taken[t]))
  }

  lemma StillSent(trace: seq<Record>, e: Record, start: State)
    ensures forall m :: WasSent(trace, start, m) ==> WasSent(trace + [e], start, m)
    ensures forall m :: m in Links(e) ==> WasSent(trace + [e], start, m)
  {
    LastPart(Links, trace + [e]);
    assert (trace + [e])[..|trace|] == trace;
  }

  lemma NextBuffer(trace: seq<Record>, e: Record, start: State, t: nat)
    ensures Buffer(trace + [e], start, t) ==
      if e.op.0.RecvOp? && e.op.0.t == t && e.result != Skipped then e.op.0.bytes else Buffer(trace, start, t)
  {
    assert (trace + [e])[..|trace|] == trace;
  }

  lemma StepGenuine(msgSize: nat, policy: Policy, trace: seq<Record>, e: Record, start: State)
    requires SoundStep(msgSize, policy, e) && Genuine(trace, start, e.before)
    ensures Genuine(trace + [e], start, e.after)
  {
    hide WasSent, Buffer, Began, WentOn, WakeFirst, Expire, IsFront, Links, Sound;
    StillSent(trace, e, start);
    StepMoves(msgSize, policy, e);
    forall m | m in e.after.messages ensures WasSent(trace + [e], start, m) {
      assert m in Unlinks(e) + e.after.messages;
      assert m in e.before.messages || m in Links(e);
    }
    forall t | 0 <= t < |e.after.phase|
      ensures e.after.size[t] == Buffer(trace + [e], start, t)
      ensures e.after.phase[t].CopyOut? ==>
        e.after.phase[t].size == e.after.size[t] && WasSent(trace + [e], start, e.after.taken[t])
    {
      NextBuffer(trace, e, start, t);
      StepCopies(msgSize, policy, e, t);
      if e.after.phase[t].CopyOut? && !e.before.phase[t].CopyOut? {
        assert e.after.taken[t] in e.before.messages;
      }
    }
  }

  /** Who begins to copy out takes a queued message; who goes on keeps it. */
  lemma StepCopies(msgSize: nat, policy: Policy, e: Record, t: nat)
    requires SoundStep(msgSize, policy, e) && t < |e.after.phase|
    ensures Sized(e.before) && Sized(e.after) && |e.before.phase| == |e.after.phase|
    ensures e.after.size[t] ==
      if e.op.0.RecvOp? && e.op.0.t == t && e.result != Skipped then e.op.0.bytes else e.before.size[t]
    ensures e.after.phase[t].CopyOut? && e.before.phase[t].CopyOut? ==>
      && e.after.phase[t] == e.before.phase[t] && e.after.taken[t] == e.before.taken[t]
      && e.after.size[t] == e.before.size[t]
    ensures e.after.phase[t].CopyOut? && !e.before.phase[t].CopyOut? ==>
      && e.after.phase[t].size == e.after.size[t]
      && e.before.messages != [] && e.after.taken[t] == e.before.messages[0]
  {
    hide Began, WentOn, WakeFirst, Expire, IsFront, Links, WaitsOk;
  }

  lemma {:induction false} RunGenuine(msgSize: nat, policy: Policy, trace: seq<Record>, ops: seq<(Op, nat)>,
                                      start: State, end: State)
    requires IsRun(msgSize, policy, trace, ops, start, end) && Sized(start)
    requires forall t :: 0 <= t < |start.phase| ==> start.phase[t] == Outside
    ensures Genuine(trace, start, end)
  {
    hide IsRun, Steps, Sound, Gathered;
    if trace == [] {
      EmptyRun(msgSize, policy, ops, start, end);
    } else {
      var n := |trace| - 1;
      OneStepLess(msgSize, policy, trace, ops, start, end);
      RunGenuine(msgSize, policy, trace[..n], ops[..n], start, trace[n].before);
      StepGenuine(msgSize, policy, trace[..n], trace[n], start);
      assert trace == trace[..n] + [trace[n]];
    }
  }

  /** In any run from a queue that nobody is copying to or from, what a receiver gets is a message that
      some sender linked, whole if its buffer holds it, and otherwise its front. */
  lemma {:induction false} ReceiverGets(msgSize: nat, policy: Policy, trace: seq<Record>, ops: seq<(Op, nat)>,
                                        start: State, end: State, i: nat, t: nat) returns (whole: Message)
    requires IsRun(msgSize, policy, trace, ops, start, end) && Sized(start) && i < |trace|
    requires forall u :: 0 <= u < |start.phase| ==> start.phase[u] == Outside
    requires trace[i].op.0 == EndRecvOp(t) && trace[i].result != Skipped
    ensures trace[i].result.Got? && IsFront(trace[i].result.message, whole, Buffer(trace[..i], start, t))
    ensures WasSent(trace[..i], start, whole)
  {
    hide IsRun, Sound, Gathered, Buffer, IsFront, WasSent, WakeFirst;
    var n := |trace| - 1;
    OneStepLess(msgSize, policy, trace, ops, start, end);
    if i < n {
      assert trace[..n][..i] == trace[..i];
      whole := ReceiverGets(msgSize, policy, trace[..n], ops[..n], start, trace[n].before, i, t);
    } else {
      RunGenuine(msgSize, policy, trace[..n], ops[..n], start, trace[n].before);
      whole := trace[n].before.taken[t];
    }
  }

  /** In any run without a change of priority the sleepers stay in order. */
  lemma {:induction false} RunInOrder(msgSize: nat, policy: Policy, trace: seq<Record>,
                                      ops: seq<(Op, nat)>, start: State, end: State)
    requires IsRun(msgSize, policy, trace, ops, start, end) && WaitsInOrder(start.calls.waits, policy)
    requires forall i :: 0 <= i < |ops| ==> !ops[i].0.PriorityOp?
    ensures WaitsInOrder(end.calls.waits, policy)
  {
    hide IsRun, Steps, Sound, WaitsInOrder;
    if trace == [] {
      EmptyRun(msgSize, policy, ops, start, end);
    } else {
      var n := |trace| - 1;
      OneStepLess(msgSize, policy, trace, ops, start, end);
      RunInOrder(msgSize, policy, trace[..n], ops[..n], start, trace[n].before);
      StepInOrder(msgSize, policy, trace[n]);
    }
  }

  /** Every step wakes whoever stands first, and lists change in order. */
  lemma StepInTurn(msgSize: nat, policy: Policy, e: Record)
    requires SoundStep(msgSize, policy, e)
    ensures Listed(e.before.calls.waits) && Listed(e.after.calls.waits)
    ensures InTurn(e.before.calls.waits, e.after.calls.waits, policy)
  {
    hide CallEffect, InTurn, WakeFirst, Expire, Remaining, Balanced, NodeTaken, MessageTaken;
    var w, w' := e.before.calls.waits, e.after.calls.waits;
    if !Enabled(e.op.0, Later(e)) {
      SameInTurn(w, w', policy);
    } else {
      match e.op.0 {
        case SendOp(t, _, timeout) =>
          CallInTurn(w, w', policy, t, Sender, Wait(timeout, Later(e).now % WRAP), e.result.outcome);
        case UrgentOp(_, _) => SameInTurn(w, w', policy);
        case EndSendOp(_) => WakeInTurn(w, w, policy, Receiver);
        case EndRecvOp(_) => WakeInTurn(w, w, policy, Sender);
        case RecvOp(t, _, timeout) =>
          CallInTurn(w, w', policy, t, Receiver, Wait(timeout, Later(e).now % WRAP), e.result.outcome);
        case ResumeOp(t) =>
          if w.threads[t].status.error != EOK {
            FinishInTurn(w, t, policy);
          } else {
            var left := Remaining(w.threads[t].wait.timeout, w.threads[t].wait.tick, Later(e).now % WRAP);
            CallInTurn(w, w', policy, t, w.threads[t].role, Wait(left, Later(e).now % WRAP), e.result.outcome);
          }
        case TimeoutOp(t) => ExpireInTurn(w, t, policy);
        case PriorityOp(_, _) => SameInTurn(w, w', policy);
      }
    }
  }

  /** With sorted lists a step wakes a thread only if nobody that goes on sleeping in the same role is
      more urgent. */
  lemma WokenIsMostUrgent(msgSize: nat, e: Record, t: nat, u: nat)
    requires SoundStep(msgSize, Prio, e) && WaitsInOrder(e.before.calls.waits, Prio)
    requires Wakes(e.before.calls.waits, e.after.calls.waits, t) && u < |e.after.calls.waits.threads|
    requires Asleep(e.after.calls.waits.threads[u], e.before.calls.waits.threads[t].role)
    ensures t < |e.before.calls.waits.prio| && u < |e.before.calls.waits.prio|
    ensures e.before.calls.waits.prio[t] <= e.before.calls.waits.prio[u]
  {
    hide SoundStep, InTurn, WaitsInOrder;
    StepInTurn(msgSize, Prio, e);
    MostUrgentFirst(e.before.calls.waits, e.after.calls.waits, t, u);
  }

  ghost function WaitsAfter(e: Record): seq<Waits> {
    [e.after.calls.waits]
  }

  /** All sleepers at the start and after every step. */
  ghost function History(trace: seq<Record>, start: State): (h: seq<Waits>)
    ensures h != []
  {
    [start.calls.waits] + Gathered(WaitsAfter, trace)
  }

  lemma {:induction false} HistoryEnd(msgSize: nat, policy: Policy, trace: seq<Record>, ops: seq<(Op, nat)>,
                                      start: State, end: State)
    requires IsRun(msgSize, policy, trace, ops, start, end)
    ensures |History(trace, start)| == |trace| + 1 && History(trace, start)[|trace|] == end.calls.waits
    ensures trace != [] ==> History(trace, start) == History(trace[..|trace| - 1], start) + [end.calls.waits]
  {
    hide IsRun, SoundStep;
    if trace == [] {
      EmptyRun(msgSize, policy, ops, start, end);
    } else {
      var n := |trace| - 1;
      OneStepLess(msgSize, policy, trace, ops, start, end);
      HistoryEnd(msgSize, policy, trace[..n], ops[..n], start, trace[n].before);
      LastPart(WaitsAfter, trace);
    }
  }

  /** In any run with the FIFO policy the sleepers of each role stand in the order in which they fell
      asleep. */
  lemma {:induction false} RunByArrival(msgSize: nat, trace: seq<Record>, ops: seq<(Op, nat)>, start: State, end: State)
    requires IsRun(msgSize, Fifo, trace, ops, start, end) && Listed(start.calls.waits)
    ensures Listed(end.calls.waits)
    ensures ByArrival(History(trace, start), end.calls.waits.receivers)
    ensures ByArrival(History(trace, start), end.calls.waits.senders)
  {
    hide IsRun, SoundStep, Listed, ByArrival, Orderly, HeadWakes, History;
    HistoryEnd(msgSize, Fifo, trace, ops, start, end);
    if trace == [] {
      EmptyRun(msgSize, Fifo, ops, start, end);
      assert History(trace, start) == [start.calls.waits];
      SinceStart(start.calls.waits, Receiver);
      SinceStart(start.calls.waits, Sender);
    } else {
      var n := |trace| - 1;
      OneStepLess(msgSize, Fifo, trace, ops, start, end);
      RunByArrival(msgSize, trace[..n], ops[..n], start, trace[n].before);
      HistoryEnd(msgSize, Fifo, trace[..n], ops[..n], start, trace[n].before);
      StepInTurn(msgSize, Fifo, trace[n]);
      var h := History(trace[..n], start);
      ArrivalStep(h, end.calls.waits, Receiver, end.calls.waits.receivers);
      ArrivalStep(h, end.calls.waits, Sender, end.calls.waits.senders);
    }
  }

  /** In any run with the FIFO policy a step wakes a thread only if nobody that goes on sleeping in the
      same role fell asleep earlier. */
  lemma {:induction false} FirstComeFirstServed(msgSize: nat, trace: seq<Record>, ops: seq<(Op, nat)>,
                                                start: State, end: State, i: nat, t: nat, u: nat)
    requires IsRun(msgSize, Fifo, trace, ops, start, end) && Listed(start.calls.waits) && i < |trace|
    requires Wakes(trace[i].before.calls.waits, trace[i].after.calls.waits, t)
    requires u < |trace[i].after.calls.waits.threads|
    requires Asleep(trace[i].after.calls.waits.threads[u], trace[i].before.calls.waits.threads[t].role)
    ensures Since(History(trace[..i], start), t) < Since(History(trace[..i], start), u)
  {
    hide IsRun, SoundStep, Listed, ByArrival, InTurn, History, Since;
    var n := |trace| - 1;
    OneStepLess(msgSize, Fifo, trace, ops, start, end);
    if i < n {
      FirstComeFirstServed(msgSize, trace[..n], ops[..n], start, trace[n].before, i, t, u);
      assert trace[..n][..i] == trace[..i];
    } else {
      RunByArrival(msgSize, trace[..n], ops[..n], start, trace[n].before);
      HistoryEnd(msgSize, Fifo, trace[..n], ops[..n], start, trace[n].before);
      StepInTurn(msgSize, Fifo, trace[n]);
      FirstFirst(History(trace[..n], start), end.calls.waits, t, u);
    }
  }

  /** No step but its own changes a thread that has been woken. */
  lemma StepLeaves(msgSize: nat, policy: Policy, e: Record, t: nat)
    requires SoundStep(msgSize, policy, e) && e.op.0 != ResumeOp(t)
    ensures StaysWoken(e.before.calls.waits, e.after.calls.waits, t)
  {
    hide CallEffect, WakeFirst, Remaining, Balanced, NodeTaken, MessageTaken;
    var w, w' := e.before.calls.waits, e.after.calls.waits;
    if Enabled(e.op.0, Later(e)) && t < |w.threads| && w.threads[t].status.Woken? {
      match e.op.0 {
        case SendOp(u, _, timeout) =>
          CallLeaves(w, w', policy, u, Sender, Wait(timeout, Later(e).now % WRAP), e.result.outcome, t);
        case UrgentOp(_, _) =>
        case EndSendOp(_) => WakeLeaves(w, Receiver, t);
        case EndRecvOp(_) => WakeLeaves(w, Sender, t);
        case RecvOp(u, _, timeout) =>
          CallLeaves(w, w', policy, u, Receiver, Wait(timeout, Later(e).now % WRAP), e.result.outcome, t);
        case ResumeOp(u) =>
          if w.threads[u].status.error == EOK {
            var left := Remaining(w.threads[u].wait.timeout, w.threads[u].wait.tick, Later(e).now % WRAP);
            CallLeaves(w, w', policy, u, w.threads[u].role, Wait(left, Later(e).now % WRAP), e.result.outcome, t);
          }
        case TimeoutOp(_) =>
        case PriorityOp(_, _) =>
      }
    }
  }

  /** A thread whose timer has run out is woken with that error, and so it finds itself when it runs. */
  lemma {:induction false} StillTimedOut(msgSize: nat, policy: Policy, trace: seq<Record>, ops: seq<(Op, nat)>,
                                         start: State, end: State, i: nat, j: nat, t: nat)
    requires IsRun(msgSize, policy, trace, ops, start, end) && i < j < |trace|
    requires trace[i].op.0 == TimeoutOp(t) && trace[i].result != Skipped
    requires forall k :: i < k < j ==> trace[k].op.0 != ResumeOp(t)
    ensures t < |trace[j].before.calls.waits.threads|
    ensures trace[j].before.calls.waits.threads[t].status == Woken(ETIMEOUT)
    decreases j
  {
    hide SoundStep;
    assert trace[j].before == trace[j - 1].after;
    if j == i + 1 {
      assert SoundStep(msgSize, policy, trace[i]);
      TimerRunsOut(msgSize, policy, trace[i], t);
    } else {
      StillTimedOut(msgSize, policy, trace, ops, start, end, i, j - 1, t);
      assert SoundStep(msgSize, policy, trace[j - 1]);
      StepLeaves(msgSize, policy, trace[j - 1], t);
    }
  }

  lemma TimerRunsOut(msgSize: nat, policy: Policy, e: Record, t: nat)
    requires SoundStep(msgSize, policy, e) && e.op.0 == TimeoutOp(t) && e.result != Skipped
    ensures t < |e.after.calls.waits.threads| && e.after.calls.waits.threads[t].status == Woken(ETIMEOUT)
    ensures t !in e.after.calls.waits.receivers && t !in e.after.calls.waits.senders
  {
    hide Balanced, Expire;
    TimerWakes(e.before.calls.waits, t);
  }

  /** In any run a call whose timer ran out returns the timeout when its thread runs again, whatever
      happens in between, and moves no message. */
  lemma TimeoutAnswers(msgSize: nat, policy: Policy, trace: seq<Record>, ops: seq<(Op, nat)>,
                       start: State, end: State, i: nat, j: nat, t: nat)
    requires IsRun(msgSize, policy, trace, ops, start, end) && i < j < |trace|
    requires trace[i].op.0 == TimeoutOp(t) && trace[i].result != Skipped && trace[j].op.0 == ResumeOp(t)
    requires forall k :: i < k < j ==> trace[k].op.0 != ResumeOp(t)
    ensures trace[j].result.Answer? && trace[j].result.outcome == Returns(ETIMEOUT)
    ensures trace[j].after.messages == trace[j].before.messages
  {
    hide Sound;
    StillTimedOut(msgSize, policy, trace, ops, start, end, i, j, t);
    assert SoundStep(msgSize, policy, trace[j]);
  }

  lemma ViewSound(mq: Queue, now: int)
    requires mq.Valid()
    ensures Sound(mq.View(now))
  {
    hide Side, PoolOk;
    FreeHead(mq.pool, mq.queue, mq.free, mq.place, mq.phase, mq.taken);
    MessageCount(mq.pool.data, mq.queue);
  }

  /**
  Any sequence of steps at any times is a run of `Steps`, after which nobody sleeps on a message
  or a node that is there and every node is queued, free or held by one thread (`Valid`). The
  messages that were linked are in the queue or were unlinked once; without urgent messages they
  come out in the order in which they were linked. If no priority changed, the lists of sleepers
  are in order.
  */
  method Run(mq: Queue, ops: seq<(Op, nat)>)
    returns (now: int, results: seq<Result>, ghost trace: seq<Record>,
             ghost sent: seq<Message>, ghost received: seq<Message>)
    requires mq.Valid()
    modifies mq
    ensures mq.Valid() && IsRun(mq.msgSize, mq.policy, trace, ops, old(mq.View(mq.clock)), mq.View(now))
    ensures |results| == |trace| && forall i :: 0 <= i < |trace| ==> trace[i].result == results[i]
    ensures sent == Gathered(Links, trace) && received == Gathered(Unlinks, trace)
    ensures Conserved(old(mq.Contents()), sent, received, mq.Contents())
    ensures old(NoneUrgent(mq.phase)) && (forall i :: 0 <= i < |ops| ==> !ops[i].0.UrgentOp?) ==>
      received + mq.Contents() == old(mq.Contents()) + sent
    ensures old(WaitsInOrder(mq.waits, mq.policy)) && (forall i :: 0 <= i < |ops| ==> !ops[i].0.PriorityOp?) ==>
      WaitsInOrder(mq.waits, mq.policy)
  {
    hide Quiet, PoolOk, Messages, Conserved, WaitsInOrder, Steps, Sound, Recorded, Gathered, NoneUrgent;
    results, trace := [], [];
    now := mq.clock;
    ghost var start := mq.View(now);
    NothingRecorded<State, (Op, nat), Result>(ops, start);
    for i := 0 to |ops|
      invariant mq.Valid() && mq.clock <= now
      invariant IsRun(mq.msgSize, mq.policy, trace, ops[..i], start, mq.View(now))
      invariant |results| == |trace| && forall k :: 0 <= k < |trace| ==> trace[k].result == results[k]
    {
      ghost var s := mq.View(now);
      ViewSound(mq, now);
      now := now + ops[i].1;
      var result := Step(mq, ops[i].0, now, ops[i].1);
      ghost var e := Entry(ops[i], s, result, mq.View(now));
      ViewSound(mq, now);
      OneMoreEntry(trace, ops, start, s, i, e);
      results, trace := results + [result], trace + [e];
    }
    assert ops[..|ops|] == ops;
    sent, received := Gathered(Links, trace), Gathered(Unlinks, trace);
    RunConserves(mq.msgSize, mq.policy, trace, ops, start, mq.View(now));
    if WaitsInOrder(start.calls.waits, mq.policy) && forall i :: 0 <= i < |ops| ==> !ops[i].0.PriorityOp? {
      RunInOrder(mq.msgSize, mq.policy, trace, ops, start, mq.View(now));
    }
  }
}
