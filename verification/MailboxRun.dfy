/** Runs of the mailbox: what every step does and answers, and what holds in all runs. */
module MailboxRun {
  import opened Arrival
  import opened Ledger
  import opened Mailbox
  import opened SuspendList
  import opened TimerRows
  import opened Waiting

  datatype Op =
    | SendOp(t: nat, v: int, timeout: int)
    | UrgentOp(v: int)
    | RecvOp(t: nat, timeout: int)
    | ResumeOp(t: nat)
    | TimeoutOp(t: nat)
    | PriorityOp(t: nat, p: nat)

  /** What a step gives back: nothing if it cannot happen, and no word unless it receives one. */
  datatype Result = Skipped | Done | Answer(outcome: Outcome, word: int)

  type Record = Entry<State, (Op, nat), Result>

  /** The step can happen: the thread is where the operation takes it up. */
  predicate Enabled(op: Op, s: State) {
    match op
    case SendOp(t, _, timeout) => Unoccupied(s, t) && timeout < WRAP / 2
    case UrgentOp(_) => true
    case RecvOp(t, timeout) => Unoccupied(s, t) && timeout < WRAP / 2
    case ResumeOp(t) => t < |s.calls.waits.threads| && s.calls.waits.threads[t].status.Woken?
    case TimeoutOp(t) =>
      && t < |s.calls.waits.threads| && s.calls.waits.threads[t].status == Suspended && t < |s.calls.began|
      && s.calls.waits.threads[t].wait.timeout > 0 && s.calls.began[t] + s.calls.waits.threads[t].wait.timeout <= s.now
    case PriorityOp(t, _) => t < |s.calls.waits.prio|
  }

  predicate Unoccupied(s: State, t: nat) {
    t < |s.calls.waits.threads| && s.calls.waits.threads[t].status == Idle
  }

  /** The state in which the step begins: time has passed. */
  function Later(e: Record): State {
    e.before.(now := e.before.now + e.op.1)
  }

  /** What each step does to a mailbox of `size` slots and answers. */
  ghost predicate Steps(size: nat, policy: Policy, e: Record) {
    var s, s' := Later(e), e.after;
    var now := s.now;
    s'.now == now &&
    if !Enabled(e.op.0, s) then e.result == Skipped && s' == s else
    match e.op.0
    case SendOp(t, v, timeout) =>
      && e.result.Answer? && t < |s.value| && var o := e.result.outcome;
         && o == (if |s.words| < size then Returns(EOK) else if timeout == 0 then Returns(EFULL) else Sleeps)
         && s'.words == s.words + Sends(e) && Began(s.calls, s'.calls, policy, t, Sender, timeout, now, o)
         && s'.value == if o == Sleeps then s.value[t := v] else s.value
    case UrgentOp(v) =>
      && e.result.Answer? && KnownThreads(s.calls.waits) && var o := e.result.outcome;
         && o == Returns(if |s.words| < size then EOK else EFULL) && s'.words == Sends(e) + s.words
         && s'.value == s.value
         && s'.calls == if o == Returns(EOK) then s.calls.(waits := WakeFirst(s.calls.waits, Receiver)) else s.calls
    case RecvOp(t, timeout) =>
      && e.result.Answer? && var o := e.result.outcome;
         && o == (if s.words != [] then Returns(EOK) else if timeout == 0 then Returns(ETIMEOUT) else Sleeps)
         && s.words == Receives(e) + s'.words && Began(s.calls, s'.calls, policy, t, Receiver, timeout, now, o)
         && s'.value == s.value
    case ResumeOp(t) =>
      && e.result.Answer? && s'.value == s.value && var o := e.result.outcome;
         if s.calls.waits.threads[t].role == Sender then
           && s'.words == s.words + Sends(e)
           && WentOn(s.calls, s'.calls, policy, t, now, |s.words| < size, Returns(EOK), EFULL, o)
         else
           && s.words == Receives(e) + s'.words
           && WentOn(s.calls, s'.calls, policy, t, now, s.words != [], Returns(EOK), ETIMEOUT, o)
    case TimeoutOp(t) =>
      e.result == Done && s' == s.(calls := s.calls.(waits := Expire(s.calls.waits, t)))
    case PriorityOp(t, p) =>
      e.result == Done && s' == s.(calls := s.calls.(waits := s.calls.waits.(prio := s.calls.waits.prio[t := p])))
  }

  /** The word a step puts in: the word of a send or an urgent send that succeeds, at once or when
      the sender goes on after a sleep. */
  ghost function Sends(e: Record): seq<int> {
    if !e.result.Answer? || e.result.outcome != Returns(EOK) then [] else
    match e.op.0
    case SendOp(_, v, _) => [v]
    case UrgentOp(v) => [v]
    case ResumeOp(t) => if InRole(e.before, t, Sender) && t < |e.before.value| then [e.before.value[t]] else []
    case _ => []
  }

  /** The word a receive that succeeds gives to its caller, at once or after a sleep. */
  ghost function Receives(e: Record): seq<int> {
    if !e.result.Answer? || e.result.outcome != Returns(EOK) then [] else
    match e.op.0
    case RecvOp(_, _) => [e.result.word]
    case ResumeOp(t) => if InRole(e.before, t, Receiver) then [e.result.word] else []
    case _ => []
  }

  predicate InRole(s: State, t: nat, role: Role) {
    t < |s.calls.waits.threads| && s.calls.waits.threads[t].role == role
  }

  /** One step at time `now`, `delay` after the last; a step that cannot happen does nothing. */
  method Step(mb: Mailbox, op: Op, now: int, ghost delay: nat) returns (result: Result)
    requires mb.Valid() && mb.clock <= now
    modifies mb, mb.pool
    ensures mb.Valid() && mb.clock <= now
    ensures Steps(mb.pool.Length, mb.policy, Entry((op, delay), old(mb.View(now - delay)), result, mb.View(now)))
  {
    hide Quiet, RingOk, Words, CallEffect, WakeFirst, Expire, Remaining, Began, WentOn;
    result := Skipped;
    WordCount(mb);
    SleepersKnown(mb.waits, mb.entry, mb.pool.Length - mb.entry, mb.began, mb.deadline, mb.clock);
    match op {
      case SendOp(t, v, timeout) =>
        if t < |mb.waits.threads| && mb.waits.threads[t].status == Idle && timeout < WRAP / 2 {
          var o := mb.SendWait(t, v, timeout, now);
          result := Answer(o, 0);
        }
      case UrgentOp(v) =>
        var r := mb.Urgent(v, now);
        result := Answer(Returns(r), 0);
      case RecvOp(t, timeout) =>
        if t < |mb.waits.threads| && mb.waits.threads[t].status == Idle && timeout < WRAP / 2 {
          var o, v := mb.RecvWait(t, timeout, now);
          result := Answer(o, v);
        }
      case ResumeOp(t) =>
        if t < |mb.waits.threads| && mb.waits.threads[t].status.Woken? {
          result := ResumeStep(mb, t, now, delay);
        }
      case TimeoutOp(t) =>
        if t < |mb.waits.threads| && mb.waits.threads[t].status == Suspended && mb.waits.threads[t].wait.timeout > 0
           && mb.began[t] + mb.waits.threads[t].wait.timeout <= now {
          mb.Timeout(t, now);
          result := Done;
        }
      case PriorityOp(t, p) =>
        if t < |mb.waits.prio| {
          mb.ChangePriority(t, p);
          result := Done;
        }
    }
  }

  method ResumeStep(mb: Mailbox, t: nat, now: int, ghost delay: nat) returns (result: Result)
    requires mb.Valid() && mb.clock <= now && t < |mb.waits.threads| && mb.waits.threads[t].status.Woken?
    modifies mb, mb.pool
    ensures mb.Valid() && mb.clock <= now
    ensures Steps(mb.pool.Length, mb.policy,
                  Entry((ResumeOp(t), delay), old(mb.View(now - delay)), result, mb.View(now)))
  {
    hide Quiet, RingOk, Words, CallEffect, WakeFirst, Remaining, Began, WentOn;
    WordCount(mb);
    if mb.waits.threads[t].role == Sender {
      var o := mb.ResumeSend(t, now);
      result := Answer(o, 0);
    } else {
      var o, v := mb.ResumeRecv(t, now);
      result := Answer(o, v);
    }
  }

  lemma WordCount(mb: Mailbox)
    requires mb.Valid()
    ensures |mb.Contents()| == mb.entry
  {
  }

  /** Every step moves the words it puts in and takes out and no others: urgent words go to the
      front, all others to the back. */
  lemma StepMoves(size: nat, policy: Policy, e: Record)
    requires Steps(size, policy, e)
    ensures !e.op.0.UrgentOp? ==> Receives(e) + e.after.words == e.before.words + Sends(e)
    ensures e.op.0.UrgentOp? ==> Receives(e) == [] && e.after.words == Sends(e) + e.before.words
  {
  }

  /** No step but a change of priority disturbs the order of the sleepers. */
  lemma StepInOrder(size: nat, policy: Policy, e: Record)
    requires Steps(size, policy, e) && !e.op.0.PriorityOp? && WaitsInOrder(e.before.calls.waits, policy)
    ensures WaitsInOrder(e.after.calls.waits, policy)
  {
    hide CallEffect, WaitsInOrder, WakeFirst, Expire, Remaining;
    var w, w' := e.before.calls.waits, e.after.calls.waits;
    if Enabled(e.op.0, Later(e)) {
      match e.op.0 {
        case SendOp(t, _, timeout) =>
          CallInOrder(w, w', policy, t, Sender, Wait(timeout, Later(e).now % WRAP), e.result.outcome);
        case UrgentOp(_) => WakeInOrder(w, policy, Receiver);
        case RecvOp(t, timeout) =>
          CallInOrder(w, w', policy, t, Receiver, Wait(timeout, Later(e).now % WRAP), e.result.outcome);
        case ResumeOp(t) =>
          if w.threads[t].status.error != EOK {
            FinishInOrder(w, policy, t);
          } else {
            var left := Remaining(w.threads[t].wait.timeout, w.threads[t].wait.tick, Later(e).now % WRAP);
            CallInOrder(w, w', policy, t, w.threads[t].role, Wait(left, Later(e).now % WRAP), e.result.outcome);
          }
        case TimeoutOp(t) => ExpireInOrder(w, policy, t);
      }
    }
  }

  /** The lists hold exactly the sleepers, and nobody sleeps on a word or a slot that is there and
      meant for nobody. */
  ghost predicate Sound(size: nat, s: State) {
    WaitsOk(s.calls.waits, |s.words|, size - |s.words|)
  }

  ghost predicate SoundStep(size: nat, policy: Policy, e: Record) {
    Steps(size, policy, e) && Sound(size, e.before) && Sound(size, e.after)
  }

  /** A record of steps of a mailbox of `size` slots that lead from `start` to `end`. */
  ghost predicate IsRun(size: nat, policy: Policy, trace: seq<Record>, ops: seq<(Op, nat)>,
                        start: State, end: State)
  {
    Recorded(trace, ops, start, end) && forall i :: 0 <= i < |trace| ==> SoundStep(size, policy, trace[i])
  }

  lemma EmptyRun(size: nat, policy: Policy, ops: seq<(Op, nat)>, start: State, end: State)
    requires IsRun(size, policy, [], ops, start, end)
    ensures ops == [] && end == start
  {
  }

  lemma OneStepLess(size: nat, policy: Policy, trace: seq<Record>, ops: seq<(Op, nat)>,
                    start: State, end: State)
    requires IsRun(size, policy, trace, ops, start, end) && trace != []
    ensures var n := |trace| - 1;
      && |ops| == n + 1 && trace[n].op == ops[n] && trace[n].after == end && SoundStep(size, policy, trace[n])
      && IsRun(size, policy, trace[..n], ops[..n], start, trace[n].before)
  {
    hide SoundStep, Recorded;
    OneEntryLess(trace, ops, start, end);
  }

  /** In any run no word is lost or handed out twice; without urgent words they come out in the
      order in which they went in. */
  lemma {:induction false} RunConserves(size: nat, policy: Policy, trace: seq<Record>,
                                        ops: seq<(Op, nat)>, start: State, end: State)
    requires IsRun(size, policy, trace, ops, start, end)
    ensures Conserved(start.words, Gathered(Sends, trace), Gathered(Receives, trace), end.words)
    ensures (forall i :: 0 <= i < |ops| ==> !ops[i].0.UrgentOp?) ==>
      Gathered(Receives, trace) + end.words == start.words + Gathered(Sends, trace)
  {
    hide IsRun, Steps, Sound, Conserved, Gathered, Sends, Receives;
    if trace == [] {
      EmptyRun(size, policy, ops, start, end);
      NoPart(Sends);
      NoPart(Receives);
      NothingYet(start.words);
    } else {
      var n := |trace| - 1;
      var e := trace[n];
      OneStepLess(size, policy, trace, ops, start, end);
      RunConserves(size, policy, trace[..n], ops[..n], start, e.before);
      StepMoves(size, policy, e);
      LastPart(Sends, trace);
      LastPart(Receives, trace);
      StepConserves(start.words, Gathered(Sends, trace[..n]), Gathered(Receives, trace[..n]), e.before.words,
                    Sends(e), Receives(e), end.words);
    }
  }

  /** In any run without a change of priority the sleepers stay in order. */
  lemma {:induction false} RunInOrder(size: nat, policy: Policy, trace: seq<Record>,
                                      ops: seq<(Op, nat)>, start: State, end: State)
    requires IsRun(size, policy, trace, ops, start, end) && WaitsInOrder(start.calls.waits, policy)
    requires forall i :: 0 <= i < |ops| ==> !ops[i].0.PriorityOp?
    ensures WaitsInOrder(end.calls.waits, policy)
  {
    hide IsRun, Steps, Sound, WaitsInOrder;
    if trace == [] {
      EmptyRun(size, policy, ops, start, end);
    } else {
      var n := |trace| - 1;
      OneStepLess(size, policy, trace, ops, start, end);
      RunInOrder(size, policy, trace[..n], ops[..n], start, trace[n].before);
      StepInOrder(size, policy, trace[n]);
    }
  }

  /** Every step wakes whoever stands first, and lists change in order. */
  lemma StepInTurn(size: nat, policy: Policy, e: Record)
    requires SoundStep(size, policy, e)
    ensures Listed(e.before.calls.waits) && Listed(e.after.calls.waits)
    ensures InTurn(e.before.calls.waits, e.after.calls.waits, policy)
  {
    hide CallEffect, InTurn, WakeFirst, Expire, Remaining, Balanced;
    var w, w' := e.before.calls.waits, e.after.calls.waits;
    if !Enabled(e.op.0, Later(e)) {
      SameInTurn(w, w', policy);
    } else {
      match e.op.0 {
        case SendOp(t, _, timeout) =>
          CallInTurn(w, w', policy, t, Sender, Wait(timeout, Later(e).now % WRAP), e.result.outcome);
        case UrgentOp(_) =>
          SameInTurn(w, w, policy);
          WakeInTurn(w, w, policy, Receiver);
        case RecvOp(t, timeout) =>
          CallInTurn(w, w', policy, t, Receiver, Wait(timeout, Later(e).now % WRAP), e.result.outcome);
        case ResumeOp(t) =>
          if w.threads[t].status.error != EOK {
            FinishInTurn(w, t, policy);
          } else {
            var left := Remaining(w.threads[t].wait.timeout, w.threads[t].wait.tick, Later(e).now % WRAP);
            CallInTurn(w, w', policy, t, w.threads[t].role, Wait(left, Later(e).now % WRAP), e.result.outcome);
          }
        case TimeoutOp(t) => ExpireInTurn(w, t, policy);
        case PriorityOp(_, _) => SameInTurn(w, w', policy);
      }
    }
  }

  /** With sorted lists a step wakes a thread only if nobody that goes on sleeping in the same role is
      more urgent. */
  lemma WokenIsMostUrgent(size: nat, e: Record, t: nat, u: nat)
    requires SoundStep(size, Prio, e) && WaitsInOrder(e.before.calls.waits, Prio)
    requires Wakes(e.before.calls.waits, e.after.calls.waits, t) && u < |e.after.calls.waits.threads|
    requires Asleep(e.after.calls.waits.threads[u], e.before.calls.waits.threads[t].role)
    ensures t < |e.before.calls.waits.prio| && u < |e.before.calls.waits.prio|
    ensures e.before.calls.waits.prio[t] <= e.before.calls.waits.prio[u]
  {
    hide SoundStep, InTurn, WaitsInOrder;
    StepInTurn(size, Prio, e);
    MostUrgentFirst(e.before.calls.waits, e.after.calls.waits, t, u);
  }

  ghost function WaitsAfter(e: Record): seq<Waits> {
    [e.after.calls.waits]
  }

  /** All sleepers at the start and after every step. */
  ghost function History(trace: seq<Record>, start: State): (h: seq<Waits>)
    ensures h != []
  {
    [start.calls.waits] + Gathered(WaitsAfter, trace)
  }

  lemma {:induction false} HistoryEnd(size: nat, policy: Policy, trace: seq<Record>, ops: seq<(Op, nat)>,
                                      start: State, end: State)
    requires IsRun(size, policy, trace, ops, start, end)
    ensures |History(trace, start)| == |trace| + 1 && History(trace, start)[|trace|] == end.calls.waits
    ensures trace != [] ==> History(trace, start) == History(trace[..|trace| - 1], start) + [end.calls.waits]
  {
    hide IsRun, SoundStep;
    if trace == [] {
      EmptyRun(size, policy, ops, start, end);
    } else {
      var n := |trace| - 1;
      OneStepLess(size, policy, trace, ops, start, end);
      HistoryEnd(size, policy, trace[..n], ops[..n], start, trace[n].before);
      LastPart(WaitsAfter, trace);
    }
  }

  /** In any run with the FIFO policy the sleepers of each role stand in the order in which they fell
      asleep. */
  lemma {:induction false} RunByArrival(size: nat, trace: seq<Record>, ops: seq<(Op, nat)>, start: State, end: State)
    requires IsRun(size, Fifo, trace, ops, start, end) && Listed(start.calls.waits)
    ensures Listed(end.calls.waits)
    ensures ByArrival(History(trace, start), end.calls.waits.receivers)
    ensures ByArrival(History(trace, start), end.calls.waits.senders)
  {
    hide IsRun, SoundStep, Listed, ByArrival, Orderly, HeadWakes, History;
    HistoryEnd(size, Fifo, trace, ops, start, end);
    if trace == [] {
      EmptyRun(size, Fifo, ops, start, end);
      assert History(trace, start) == [start.calls.waits];
      SinceStart(start.calls.waits, Receiver);
      SinceStart(start.calls.waits, Sender);
    } else {
      var n := |trace| - 1;
      OneStepLess(size, Fifo, trace, ops, start, end);
      RunByArrival(size, trace[..n], ops[..n], start, trace[n].before);
      HistoryEnd(size, Fifo, trace[..n], ops[..n], start, trace[n].before);
      StepInTurn(size, Fifo, trace[n]);
      var h := History(trace[..n], start);
      ArrivalStep(h, end.calls.waits, Receiver, end.calls.waits.receivers);
      ArrivalStep(h, end.calls.waits, Sender, end.calls.waits.senders);
    }
  }

  /** In any run with the FIFO policy a step wakes a thread only if nobody that goes on sleeping in the
      same role fell asleep earlier. */
  lemma {:induction false} FirstComeFirstServed(size: nat, trace: seq<Record>, ops: seq<(Op, nat)>,
                                                start: State, end: State, i: nat, t: nat, u: nat)
    requires IsRun(size, Fifo, trace, ops, start, end) && Listed(start.calls.waits) && i < |trace|
    requires Wakes(trace[i].before.calls.waits, trace[i].after.calls.waits, t)
    requires u < |trace[i].after.calls.waits.threads|
    requires Asleep(trace[i].after.calls.waits.threads[u], trace[i].before.calls.waits.threads[t].role)
    ensures Since(History(trace[..i], start), t) < Since(History(trace[..i], start), u)
  {
    hide IsRun, SoundStep, Listed, ByArrival, InTurn, History, Since;
    var n := |trace| - 1;
    OneStepLess(size, Fifo, trace, ops, start, end);
    if i < n {
      FirstComeFirstServed(size, trace[..n], ops[..n], start, trace[n].before, i, t, u);
      assert trace[..n][..i] == trace[..i];
    } else {
      RunByArrival(size, trace[..n], ops[..n], start, trace[n].before);
      HistoryEnd(size, Fifo, trace[..n], ops[..n], start, trace[n].before);
      StepInTurn(size, Fifo, trace[n]);
      FirstFirst(History(trace[..n], start), end.calls.waits, t, u);
    }
  }

  /** No step but its own changes a thread that has been woken. */
  lemma StepLeaves(size: nat, policy: Policy, e: Record, t: nat)
    requires SoundStep(size, policy, e) && e.op.0 != ResumeOp(t)
    ensures StaysWoken(e.before.calls.waits, e.after.calls.waits, t)
  {
    hide CallEffect, WakeFirst, Remaining, Balanced;
    var w, w' := e.before.calls.waits, e.after.calls.waits;
    if Enabled(e.op.0, Later(e)) && t < |w.threads| && w.threads[t].status.Woken? {
      match e.op.0 {
        case SendOp(u, _, timeout) =>
          CallLeaves(w, w', policy, u, Sender, Wait(timeout, Later(e).now % WRAP), e.result.outcome, t);
        case UrgentOp(_) => WakeLeaves(w, Receiver, t);
        case RecvOp(u, timeout) =>
          CallLeaves(w, w', policy, u, Receiver, Wait(timeout, Later(e).now % WRAP), e.result.outcome, t);
        case ResumeOp(u) =>
          if w.threads[u].status.error == EOK {
            var left := Remaining(w.threads[u].wait.timeout, w.threads[u].wait.tick, Later(e).now % WRAP);
            CallLeaves(w, w', policy, u, w.threads[u].role, Wait(left, Later(e).now % WRAP), e.result.outcome, t);
          }
        case TimeoutOp(_) =>
        case PriorityOp(_, _) =>
      }
    }
  }

  /** A thread whose timer has run out is woken with that error, and so it finds itself when it runs. */
  lemma {:induction false} StillTimedOut(size: nat, policy: Policy, trace: seq<Record>, ops: seq<(Op, nat)>,
                                         start: State, end: State, i: nat, j: nat, t: nat)
    requires IsRun(size, policy, trace, ops, start, end) && i < j < |trace|
    requires trace[i].op.0 == TimeoutOp(t) && trace[i].result != Skipped
    requires forall k :: i < k < j ==> trace[k].op.0 != ResumeOp(t)
    ensures t < |trace[j].before.calls.waits.threads|
    ensures trace[j].before.calls.waits.threads[t].status == Woken(ETIMEOUT)
    decreases j
  {
    hide SoundStep;
    assert trace[j].before == trace[j - 1].after;
    if j == i + 1 {
      assert SoundStep(size, policy, trace[i]);
      TimerRunsOut(size, policy, trace[i], t);
    } else {
      StillTimedOut(size, policy, trace, ops, start, end, i, j - 1, t);
      assert SoundStep(size, policy, trace[j - 1]);
      StepLeaves(size, policy, trace[j - 1], t);
    }
  }

  lemma TimerRunsOut(size: nat, policy: Policy, e: Record, t: nat)
    requires SoundStep(size, policy, e) && e.op.0 == TimeoutOp(t) && e.result != Skipped
    ensures t < |e.after.calls.waits.threads| && e.after.calls.waits.threads[t].status == Woken(ETIMEOUT)
    ensures t !in e.after.calls.waits.receivers && t !in e.after.calls.waits.senders
  {
    hide Balanced, Expire;
    TimerWakes(e.before.calls.waits, t);
  }

  /** In any run a call whose timer ran out returns the timeout when its thread runs again, whatever
      happens in between, and moves no word. */
  lemma TimeoutAnswers(size: nat, policy: Policy, trace: seq<Record>, ops: seq<(Op, nat)>,
                       start: State, end: State, i: nat, j: nat, t: nat)
    requires IsRun(size, policy, trace, ops, start, end) && i < j < |trace|
    requires trace[i].op.0 == TimeoutOp(t) && trace[i].result != Skipped && trace[j].op.0 == ResumeOp(t)
    requires forall k :: i < k < j ==> trace[k].op.0 != ResumeOp(t)
    ensures trace[j].result.Answer? && trace[j].result.outcome == Returns(ETIMEOUT)
    ensures trace[j].after.words == trace[j].before.words
  {
    hide Sound;
    StillTimedOut(size, policy, trace, ops, start, end, i, j, t);
    assert SoundStep(size, policy, trace[j]);
  }

  lemma ViewSound(mb: Mailbox, now: int)
    requires mb.Valid()
    ensures Sound(mb.pool.Length, mb.View(now))
  {
    hide Side;
    WordCount(mb);
  }

  /**
  Any sequence of steps at any times is a run of `Steps`, after which nobody sleeps on a word or
  a slot that is there (`Valid`). The words that were sent are in the mailbox or were received
  once; without urgent words they come out in the order in which they went in. If no priority
  changed, the lists of sleepers are in order.
  */
  method Run(mb: Mailbox, ops: seq<(Op, nat)>)
    returns (now: int, results: seq<Result>, ghost trace: seq<Record>, ghost sent: seq<int>, ghost received: seq<int>)
    requires mb.Valid()
    modifies mb, mb.pool
    ensures mb.Valid() && IsRun(mb.pool.Length, mb.policy, trace, ops, old(mb.View(mb.clock)), mb.View(now))
    ensures |results| == |trace| && forall i :: 0 <= i < |trace| ==> trace[i].result == results[i]
    ensures sent == Gathered(Sends, trace) && received == Gathered(Receives, trace)
    ensures Conserved(old(mb.Contents()), sent, received, mb.Contents())
    ensures (forall i :: 0 <= i < |ops| ==> !ops[i].0.UrgentOp?) ==>
      received + mb.Contents() == old(mb.Contents()) + sent
    ensures old(WaitsInOrder(mb.waits, mb.policy)) && (forall i :: 0 <= i < |ops| ==> !ops[i].0.PriorityOp?) ==>
      WaitsInOrder(mb.waits, mb.policy)
  {
    hide Quiet, RingOk, Words, Conserved, WaitsInOrder, Steps, Sound, Recorded, Gathered;
    results, trace := [], [];
    now := mb.clock;
    ghost var start := mb.View(now);
    NothingRecorded<State, (Op, nat), Result>(ops, start);
    for i := 0 to |ops|
      invariant mb.Valid() && mb.clock <= now
      invariant IsRun(mb.pool.Length, mb.policy, trace, ops[..i], start, mb.View(now))
      invariant |results| == |trace| && forall k :: 0 <= k < |trace| ==> trace[k].result == results[k]
    {
      ghost var s := mb.View(now);
      ViewSound(mb, now);
      now := now + ops[i].1;
      var result := Step(mb, ops[i].0, now, ops[i].1);
      ghost var e := Entry(ops[i], s, result, mb.View(now));
      ViewSound(mb, now);
      OneMoreEntry(trace, ops, start, s, i, e);
      results, trace := results + [result], trace + [e];
    }
    assert ops[..|ops|] == ops;
    sent, received := Gathered(Sends, trace), Gathered(Receives, trace);
    RunConserves(mb.pool.Length, mb.policy, trace, ops, start, mb.View(now));
    if WaitsInOrder(start.calls.waits, mb.policy) && forall i :: 0 <= i < |ops| ==> !ops[i].0.PriorityOp? {
      RunInOrder(mb.pool.Length, mb.policy, trace, ops, start, mb.View(now));
    }
  }

}
