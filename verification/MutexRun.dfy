/** Runs of the mutexes: what the answers of all takes and releases say about who holds what. */
module MutexRun {
  import opened Ledger
  import opened Lists
  import opened MutexState
  import opened MutexSteps
  import opened MutexChains
  import opened PriorityMutex

  // ---- steps ------------------------------------------------------------------------------

  datatype Op =
    | TakeOp(t: nat, m: nat, timeout: int)
    | ReleaseOp(t: nat, m: nat)
    | TimeoutOp(t: nat)
    | ReturnOp(t: nat)
    | SleepOrWakeOp(t: nat)

  /** Every timed-out thread cleans up before anything else happens. */
  ghost predicate Prompt(ops: seq<Op>) {
    forall i :: 0 <= i < |ops| ==> PromptAt(ops, i)
  }

  predicate PromptAt(ops: seq<Op>, i: nat)
    requires i < |ops|
  {
    ops[i].TimeoutOp? ==> i + 1 < |ops| && ops[i + 1] == ReturnOp(ops[i].t)
  }

  datatype Result = Skipped | Done | Take(r: TakeResult) | Answer(ok: bool)

  type Record = Entry<State, Op, Result>

  predicate Enabled(op: Op, s: State) {
    match op
    case TakeOp(t, m, _) => MayCall(s.ts, t) && m < |s.ms|
    case ReleaseOp(t, m) => MayCall(s.ts, t) && m < |s.ms|
    case TimeoutOp(t) => t < |s.ts| && s.ts[t].timer
    case ReturnOp(t) => t < |s.ts| && !s.ts[t].suspended && s.ts[t].call.InTake?
    case SleepOrWakeOp(t) => t < |s.ts| && s.ts[t].call == Idle
  }

  /** What each step does and answers. */
  ghost predicate Steps(e: Record) {
    var s, s' := e.before, e.after;
    if !Enabled(e.op, s) then e.result == Skipped && s' == s else
    match e.op
    case TakeOp(t, m, timeout) => e.result.Take? && TakeEffect(s.ts, s.ms, t, m, timeout, e.result.r, s'.ts, s'.ms)
    case ReleaseOp(t, m) => e.result.Answer? && UnlockEffect(s.ts, s.ms, t, m, e.result.ok, s'.ts, s'.ms)
    case TimeoutOp(t) => e.result == Done && TimeoutEffect(s.ts, s.ms, t, s'.ts, s'.ms)
    case ReturnOp(t) => e.result.Answer? && ResumeEffect(s.ts, s.ms, t, e.result.ok, s'.ts, s'.ms)
    case SleepOrWakeOp(t) =>
      e.result == Done && s' == s.(ts := s.ts[t := s.ts[t].(suspended := !s.ts[t].suspended)])
  }

  /** A step between states in which the invariant holds. */
  ghost predicate SoundStep(e: Record) {
    Steps(e) && Inv(e.before.ts, e.before.ms) && Inv(e.after.ts, e.after.ms)
  }

  /** A record of steps that lead from `start` to `end`, with their results. */
  ghost predicate IsRun(trace: seq<Record>, ops: seq<Op>, results: seq<Result>, start: State, end: State) {
    && Recorded(trace, ops, start, end) && |results| == |trace|
    && forall i :: 0 <= i < |trace| ==> trace[i].result == results[i] && SoundStep(trace[i])
  }

  lemma OneMoreStep(trace: seq<Record>, ops: seq<Op>, results: seq<Result>, start: State, end: State, i: nat, e: Record)
    requires i < |ops| && IsRun(trace, ops[..i], results, start, end)
    requires e.op == ops[i] && e.before == end && SoundStep(e)
    ensures IsRun(trace + [e], ops[..i + 1], results + [e.result], start, e.after)
  {
    hide SoundStep, Recorded;
    OneMoreEntry(trace, ops, start, end, i, e);
  }

  function Initial(priorities: seq<nat>, mutexCount: nat): State {
    State(seq(|priorities|, i requires 0 <= i < |priorities| =>
                Thread(priorities[i], priorities[i], false, None, [], EOK, false, Idle)),
          seq(mutexCount, _ => Mutex(None, 0, NO_PRIORITY, [])))
  }

  lemma NoStepYet(ops: seq<Op>, start: State)
    ensures IsRun([], ops[..0], [], start, start)
  {
  }

  /** A timeout and the clean-up behind it are two steps. */
  lemma TwoSteps(trace: seq<Record>, ops: seq<Op>, results: seq<Result>, start: State, v: State, i: nat,
                 mid: State, ok: bool, end: State)
    requires i + 1 < |ops| && IsRun(trace, ops[..i], results, start, v)
    requires Fires(v.ts, ops[i]) && ops[i + 1] == ReturnOp(ops[i].t)
    requires TimeoutEffect(v.ts, v.ms, ops[i].t, mid.ts, mid.ms)
    requires |mid.ts| == |v.ts| && ResumeEffect(mid.ts, mid.ms, ops[i].t, ok, end.ts, end.ms)
    requires Inv(v.ts, v.ms) && Inv(mid.ts, mid.ms) && Inv(end.ts, end.ms)
    ensures IsRun(trace + [Entry(ops[i], v, Done, mid)] + [Entry(ops[i + 1], mid, Answer(ok), end)], ops[..i + 2],
                  results + [Done] + [Answer(ok)], start, end)
  {
    hide IsRun, ResumeEffect, Inv;
    var first, second := Entry(ops[i], v, Done, mid), Entry(ops[i + 1], mid, Answer(ok), end);
    assert mid.ts[ops[i].t].call.InTake? && !mid.ts[ops[i].t].suspended;
    OneMoreStep(trace, ops, results, start, v, i, first);
    OneMoreStep(trace + [first], ops, results + [Done], start, mid, i + 1, second);
  }

  /** A timeout takes place. */
  predicate Fires(ts: Threads, op: Op) {
    op.TimeoutOp? && op.t < |ts| && ts[op.t].timer
  }

  /** One step, unless it is not enabled. */
  method Step(s: MutexSystem, op: Op) returns (result: Result)
    requires s.Valid()
    modifies s
    ensures s.Valid() && Steps(Entry(op, old(s.View()), result, s.View()))
    ensures old(Exact(s.threads, s.mutexes) && !Fires(s.threads, op)) ==> Exact(s.threads, s.mutexes)
  {
    hide Inv, Exact, TakeEffect, UnlockEffect, TimeoutEffect, ResumeEffect;
    result := Skipped;
    match op {
      case TakeOp(t, m, timeout) =>
        if MayCall(s.threads, t) && m < |s.mutexes| {
          var r := s.Take(t, m, timeout);
          result := Take(r);
        }
      case ReleaseOp(t, m) =>
        if MayCall(s.threads, t) && m < |s.mutexes| {
          var ok := s.Release(t, m);
          result := Answer(ok);
        }
      case TimeoutOp(t) =>
        if t < |s.threads| && s.threads[t].timer {
          s.Timeout(t);
          result := Done;
        }
      case ReturnOp(t) =>
        if t < |s.threads| && !s.threads[t].suspended && s.threads[t].call.InTake? {
          var ok := s.Return(t);
          result := Answer(ok);
        }
      case SleepOrWakeOp(t) =>
        if t < |s.threads| && s.threads[t].call == Idle {
          s.SleepOrWake(t);
          result := Done;
        }
    }
  }

  // ---- who holds what -----------------------------------------------------------------------

  /** The mutex `t` asked for in its last take that had to wait. */
  ghost function Wanted(trace: seq<Record>, t: nat): Option<nat> {
    if trace == [] then None else
      var n := |trace| - 1;
      var e := trace[n];
      if e.op.TakeOp? && e.op.t == t && e.result == Take(Blocked) then Some(e.op.m) else Wanted(trace[..n], t)
  }

  /** Whether that take was to wait for a limited time only. */
  ghost function Limited(trace: seq<Record>, t: nat): bool {
    if trace == [] then false else
      var n := |trace| - 1;
      var e := trace[n];
      if e.op.TakeOp? && e.op.t == t && e.result == Take(Blocked) then e.op.timeout > 0 else Limited(trace[..n], t)
  }

  /** One more take of `m` by `t` has succeeded, at once or after waiting, or one more release. */
  function Gain(e: Record, wanted: Option<nat>, t: nat, m: nat): int {
    match e.op
    case TakeOp(u, k, _) => if u == t && k == m && e.result == Take(Taken) then 1 else 0
    case ReturnOp(u) => if u == t && wanted == Some(m) && e.result == Answer(true) then 1 else 0
    case ReleaseOp(u, k) => if u == t && k == m && e.result == Answer(true) then -1 else 0
    case _ => 0
  }

  /** The takes of `m` by `t` that have succeeded, less its releases: from operations and answers alone. */
  ghost function Net(trace: seq<Record>, t: nat, m: nat): int {
    if trace == [] then 0 else
      var n := |trace| - 1;
      Net(trace[..n], t, m) + Gain(trace[n], Wanted(trace[..n], t), t, m)
  }

  /** How often `t` has the mutex, if it has returned from the take that got it. */
  function Owns(s: State, t: nat, m: nat): int
    requires t < |s.ts| && m < |s.ms|
  {
    if s.ms[m].owner == Some(t) && s.ts[t].call != InTake(m) then s.ms[m].hold else 0
  }

  /** A mutex handed to a thread that has not run since is held once. */
  predicate HandedOnce(s: State, t: nat, m: nat)
    requires t < |s.ts| && m < |s.ms|
  {
    s.ms[m].owner == Some(t) && s.ts[t].call == InTake(m) ==> s.ms[m].hold == 1
  }

  /** The hold count is the count of takes and releases. */
  ghost predicate TallyAt(trace: seq<Record>, s: State, t: nat, m: nat)
    requires t < |s.ts| && m < |s.ms|
  {
    && Net(trace, t, m) == Owns(s, t, m) && HandedOnce(s, t, m)
    && (s.ts[t].call.InTake? ==> Wanted(trace, t) == Some(s.ts[t].call.mutex))
    && (s.ts[t].call.InTake? && s.ts[t].suspended ==> (s.ts[t].timer <==> Limited(trace, t)))
  }

  ghost predicate Tally(trace: seq<Record>, s: State) {
    forall t, m :: 0 <= t < |s.ts| && 0 <= m < |s.ms| ==> TallyAt(trace, s, t, m)
  }

  /** What a take by `u` changes for `t` and `m`. */
  lemma TakeShape(s: State, u: nat, k: nat, timeout: int, r: TakeResult, s': State, t: nat, m: nat)
    requires MayCall(s.ts, u) && k < |s.ms| && TakeEffect(s.ts, s.ms, u, k, timeout, r, s'.ts, s'.ms)
    requires Struct(s.ts, s.ms) && t < |s.ts| && m < |s.ms| && HandedOnce(s, t, m)
    ensures |s'.ts| == |s.ts| && |s'.ms| == |s.ms| && HandedOnce(s', t, m)
    ensures Owns(s', t, m) == Owns(s, t, m) + if u == t && k == m && r == Taken then 1 else 0
    ensures s'.ts[t].call == if u == t && r == Blocked then InTake(k) else s.ts[t].call
    ensures u == t && r == Blocked ==> (s'.ts[t].timer <==> timeout > 0)
    ensures u != t ==> s'.ts[t].timer == s.ts[t].timer && s'.ts[t].suspended == s.ts[t].suspended
  {
    hide ThreadOk, WaitersOk, OneDonation, SameWaiters;
    if s.ms[k].owner.Some? && s.ms[k].owner != Some(u) && timeout != 0 {
      var ts, ms := Suspended(s.ts, u, k, timeout > 0), s.ms[k := s.ms[k].(waiters := s.ms[k].waiters + [u])];
      assert ts[t].call == (if u == t then InTake(k) else s.ts[t].call) && s'.ts[t].timer == ts[t].timer;
      assert s'.ts[t].suspended == ts[t].suspended;
      assert ms[m].owner == s.ms[m].owner && ms[m].hold == s.ms[m].hold;
    }
  }

  /** What a release by `u` changes for `t` and `m`. */
  lemma ReleaseShape(s: State, u: nat, k: nat, ok: bool, s': State, t: nat, m: nat)
    requires MayCall(s.ts, u) && k < |s.ms| && UnlockEffect(s.ts, s.ms, u, k, ok, s'.ts, s'.ms)
    requires Struct(s.ts, s.ms) && t < |s.ts| && m < |s.ms| && HandedOnce(s, t, m)
    ensures |s'.ts| == |s.ts| && |s'.ms| == |s.ms| && HandedOnce(s', t, m) && s'.ts[t].call == s.ts[t].call
    ensures Owns(s', t, m) == Owns(s, t, m) - if u == t && k == m && ok then 1 else 0
    ensures s'.ts[t].suspended ==> s.ts[t].suspended && s'.ts[t].timer == s.ts[t].timer
  {
    hide ThreadOk, RightPriority, Remove;
    assert k < |s.ms|;
    var w := s.ms[k].waiters;
    assert w != [] ==> w[0] in w && s.ts[w[0]].call == InTake(k);
  }

  lemma TimeoutShape(s: State, u: nat, s': State, t: nat, m: nat)
    requires u < |s.ts| && TimeoutEffect(s.ts, s.ms, u, s'.ts, s'.ms)
    requires t < |s.ts| && m < |s.ms| && HandedOnce(s, t, m)
    ensures |s'.ts| == |s.ts| && |s'.ms| == |s.ms| && HandedOnce(s', t, m) && s'.ts[t].call == s.ts[t].call
    ensures Owns(s', t, m) == Owns(s, t, m)
    ensures s'.ts[t].suspended ==> s.ts[t].suspended && s'.ts[t].timer == s.ts[t].timer
  {
  }

  /** What the rest of a take by `u` changes for `t` and `m`. */
  lemma ReturnShape(s: State, u: nat, ok: bool, s': State, t: nat, m: nat)
    requires u < |s.ts| && !s.ts[u].suspended && ResumeEffect(s.ts, s.ms, u, ok, s'.ts, s'.ms)
    requires t < |s.ts| && m < |s.ms| && HandedOnce(s, t, m)
    ensures |s'.ts| == |s.ts| && |s'.ms| == |s.ms| && HandedOnce(s', t, m)
    ensures Owns(s', t, m) == Owns(s, t, m) + if u == t && s.ts[t].call == InTake(m) && ok then 1 else 0
    ensures s'.ts[t].call == if u == t then Idle else s.ts[t].call
    ensures u != t ==> s'.ts[t].timer == s.ts[t].timer && s'.ts[t].suspended == s.ts[t].suspended
  {
    hide ReturnEffect, SameWaiters;
  }

  lemma OneMoreGain(trace: seq<Record>, e: Record, t: nat, m: nat)
    ensures Net(trace + [e], t, m) == Net(trace, t, m) + Gain(e, Wanted(trace, t), t, m)
    ensures Wanted(trace + [e], t) ==
      if e.op.TakeOp? && e.op.t == t && e.result == Take(Blocked) then Some(e.op.m) else Wanted(trace, t)
    ensures Limited(trace + [e], t) ==
      if e.op.TakeOp? && e.op.t == t && e.result == Take(Blocked) then e.op.timeout > 0 else Limited(trace, t)
  {
    assert (trace + [e])[..|trace|] == trace;
  }

  /** Every step counts as its answer says. */
  lemma StepTallies(trace: seq<Record>, e: Record, t: nat, m: nat)
    requires SoundStep(e) && t < |e.before.ts| && m < |e.before.ms| && TallyAt(trace, e.before, t, m)
    ensures |e.after.ts| == |e.before.ts| && |e.after.ms| == |e.before.ms| && TallyAt(trace + [e], e.after, t, m)
  {
    hide Net, Wanted, Limited, Struct, QueuesOk, AllCovered, TakeEffect, UnlockEffect, TimeoutEffect, ResumeEffect;
    OneMoreGain(trace, e, t, m);
    var s, s' := e.before, e.after;
    if Enabled(e.op, s) {
      match e.op {
        case TakeOp(u, k, timeout) => TakeShape(s, u, k, timeout, e.result.r, s', t, m);
        case ReleaseOp(u, k) => ReleaseShape(s, u, k, e.result.ok, s', t, m);
        case TimeoutOp(u) => TimeoutShape(s, u, s', t, m);
        case ReturnOp(u) => ReturnShape(s, u, e.result.ok, s', t, m);
        case SleepOrWakeOp(u) =>
      }
    }
  }

  lemma OneStepLess(trace: seq<Record>, ops: seq<Op>, results: seq<Result>, start: State, end: State)
    requires IsRun(trace, ops, results, start, end) && trace != []
    ensures var n := |trace| - 1;
      && |ops| == |results| == n + 1 && trace[n].op == ops[n] && trace[n].after == end && SoundStep(trace[n])
      && IsRun(trace[..n], ops[..n], results[..n], start, trace[n].before)
  {
    hide SoundStep, Recorded;
    OneEntryLess(trace, ops, start, end);
  }

  lemma EmptyRun(ops: seq<Op>, results: seq<Result>, start: State, end: State)
    requires IsRun([], ops, results, start, end)
    ensures end == start
  {
  }

  /** In any run from a state in which nobody holds anything, the hold counts are the counts of takes
      and releases. */
  lemma {:induction false} RunTallies(trace: seq<Record>, ops: seq<Op>, results: seq<Result>, start: State, end: State)
    requires IsRun(trace, ops, results, start, end) && Tally([], start)
    ensures |end.ts| == |start.ts| && |end.ms| == |start.ms| && Tally(trace, end)
  {
    hide IsRun, SoundStep, TallyAt;
    if trace == [] {
      EmptyRun(ops, results, start, end);
    } else {
      var n := |trace| - 1;
      OneStepLess(trace, ops, results, start, end);
      RunTallies(trace[..n], ops[..n], results[..n], start, trace[n].before);
      assert trace[..n] + [trace[n]] == trace;
      SameSizes(trace[n]);
      forall t, m | 0 <= t < |end.ts| && 0 <= m < |end.ms| ensures TallyAt(trace, end, t, m) {
        StepTallies(trace[..n], trace[n], t, m);
      }
    }
  }

  lemma SameSizes(e: Record)
    requires SoundStep(e)
    ensures |e.after.ts| == |e.before.ts| && |e.after.ms| == |e.before.ms|
  {
    hide WaitersOk, ThreadOk, QueuesOk, AllCovered, OneDonation, RightPriority, ReturnEffect, Remove, InsertAt;
  }

  /** The same before every step of the run. */
  lemma {:induction false} TalliesBefore(trace: seq<Record>, ops: seq<Op>, results: seq<Result>,
                                         start: State, end: State, i: nat)
    requires IsRun(trace, ops, results, start, end) && Tally([], start) && i < |trace|
    ensures Tally(trace[..i], trace[i].before) && SoundStep(trace[i])
    ensures |trace[i].before.ts| == |start.ts| && |trace[i].before.ms| == |start.ms|
  {
    hide IsRun, SoundStep, Tally;
    var n := |trace| - 1;
    OneStepLess(trace, ops, results, start, end);
    if i == n {
      RunTallies(trace[..n], ops[..n], results[..n], start, trace[n].before);
    } else {
      TalliesBefore(trace[..n], ops[..n], results[..n], start, trace[n].before, i);
      assert trace[..n][..i] == trace[..i] && trace[..n][i] == trace[i];
    }
  }

  /** A release succeeds exactly if the thread has taken the mutex more often than released it. */
  lemma ReleaseAnswers(trace: seq<Record>, ops: seq<Op>, results: seq<Result>, start: State, end: State,
                       i: nat, t: nat, m: nat)
    requires IsRun(trace, ops, results, start, end) && Tally([], start)
    requires i < |trace| && trace[i].op == ReleaseOp(t, m) && trace[i].result != Skipped
    ensures trace[i].result == Answer(Net(trace[..i], t, m) > 0)
  {
    hide IsRun, Net, ReleaseEffect, WaitersOk, ThreadOk;
    TalliesBefore(trace, ops, results, start, end, i);
    assert TallyAt(trace[..i], trace[i].before, t, m);
  }

  /** A thread that has the mutex gets it again, up to the limit; one that another thread has is not
      given. */
  lemma TakeAnswers(trace: seq<Record>, ops: seq<Op>, results: seq<Result>, start: State, end: State,
                    i: nat, t: nat, m: nat, timeout: int, u: nat)
    requires IsRun(trace, ops, results, start, end) && Tally([], start)
    requires i < |trace| && trace[i].op == TakeOp(t, m, timeout) && trace[i].result != Skipped && u < |start.ts|
    ensures Net(trace[..i], t, m) > 0 ==>
      trace[i].result == Take(if Net(trace[..i], t, m) < HOLD_MAX then Taken else Full)
    ensures u != t && Net(trace[..i], u, m) > 0 ==> trace[i].result == Take(if timeout == 0 then TimedOut else Blocked)
  {
    hide IsRun, Net, BlockEffect, WaitersOk, ThreadOk;
    TalliesBefore(trace, ops, results, start, end, i);
    assert TallyAt(trace[..i], trace[i].before, t, m) && TallyAt(trace[..i], trace[i].before, u, m);
  }

  /** A timeout takes place exactly if the thread waits in a take with a limited time. */
  lemma TimesOut(trace: seq<Record>, ops: seq<Op>, results: seq<Result>, start: State, end: State, i: nat, t: nat)
    requires IsRun(trace, ops, results, start, end) && Tally([], start) && start.ms != []
    requires i < |trace| && trace[i].op == TimeoutOp(t) && t < |start.ts|
    ensures t < |trace[i].before.ts|
    ensures trace[i].result != Skipped <==>
      trace[i].before.ts[t].suspended && trace[i].before.ts[t].call.InTake? && Limited(trace[..i], t)
  {
    hide IsRun, Tally, Limited, Inv, TimeoutEffect, TakeEffect, UnlockEffect, ResumeEffect;
    TalliesBefore(trace, ops, results, start, end, i);
    TimerMeans(trace[..i], trace[i].before, t);
  }

  lemma TimerMeans(trace: seq<Record>, s: State, t: nat)
    requires Tally(trace, s) && Inv(s.ts, s.ms) && t < |s.ts| && s.ms != []
    ensures s.ts[t].timer <==> s.ts[t].suspended && s.ts[t].call.InTake? && Limited(trace, t)
  {
    hide Net, Limited, Wanted, WaitersOk, OwnersOk, QueuesOk, AllCovered;
    assert TallyAt(trace, s, t, 0) && ThreadOk(s.ts, s.ms, t);
  }

  /** No two threads have the same mutex, and no thread releases more than it took. */
  lemma Exclusive(trace: seq<Record>, s: State, t: nat, u: nat, m: nat)
    requires Tally(trace, s) && t < |s.ts| && u < |s.ts| && m < |s.ms|
    ensures Net(trace, t, m) >= 0 && (t != u && Net(trace, t, m) > 0 ==> Net(trace, u, m) == 0)
  {
    assert TallyAt(trace, s, t, m) && TallyAt(trace, s, u, m);
  }

  /** Between two steps `t` neither takes `m` nor releases it. */
  ghost predicate Leaves(trace: seq<Record>, i: nat, j: nat, t: nat, m: nat) {
    forall k :: i < k < j && k < |trace| ==>
      && (trace[k].op.TakeOp? && trace[k].op.t == t && trace[k].op.m == m ==> trace[k].result != Take(Taken))
      && (trace[k].op == ReleaseOp(t, m) ==> trace[k].result != Answer(true))
  }

  /** A thread that was given a mutex after waiting has it once, until it takes or releases it. */
  lemma {:induction false} HasItOnce(trace: seq<Record>, ops: seq<Op>, results: seq<Result>, start: State, end: State,
                                     i: nat, j: nat, t: nat, m: nat)
    requires IsRun(trace, ops, results, start, end) && Tally([], start) && i < j <= |trace| && m < |start.ms|
    requires trace[i].op == ReturnOp(t) && trace[i].result == Answer(true) && Wanted(trace[..i], t) == Some(m)
    requires Leaves(trace, i, j, t, m)
    ensures t < |start.ts| && Net(trace[..j], t, m) == 1
    decreases j
  {
    hide IsRun, Net, Wanted, ResumeEffect, TakeEffect, UnlockEffect, Inv;
    var e := trace[j - 1];
    TalliesBefore(trace, ops, results, start, end, j - 1);
    assert trace[..j] == trace[..j - 1] + [e];
    OneMoreGain(trace[..j - 1], e, t, m);
    if j == i + 1 {
      assert TallyAt(trace[..i], e.before, t, m);
    } else {
      HasItOnce(trace, ops, results, start, end, i, j - 1, t, m);
      assert TallyAt(trace[..j - 1], e.before, t, m);
    }
  }

  /** So one release gives it up. */
  lemma ReleasedOnce(trace: seq<Record>, ops: seq<Op>, results: seq<Result>, start: State, end: State,
                     i: nat, j: nat, t: nat, m: nat)
    requires IsRun(trace, ops, results, start, end) && Tally([], start) && i < j < |trace| && m < |start.ms|
    requires trace[i].op == ReturnOp(t) && trace[i].result == Answer(true) && Wanted(trace[..i], t) == Some(m)
    requires Leaves(trace, i, j, t, m) && trace[j].op == ReleaseOp(t, m) && trace[j].result != Skipped
    ensures trace[j].result == Answer(true)
    ensures m < |trace[j].after.ms| && trace[j].after.ms[m].owner != Some(t)
  {
    hide IsRun, Net, Wanted, ReleaseEffect, QueuesOk, AllCovered, WaitersOk;
    HasItOnce(trace, ops, results, start, end, i, j, t, m);
    ReleaseAnswers(trace, ops, results, start, end, j, t, m);
    TalliesBefore(trace, ops, results, start, end, j);
    var e := trace[j];
    assert TallyAt(trace[..j], e.before, t, m);
    ReleaseShape(e.before, t, m, true, e.after, t, m);
  }

  /** A last release hands the mutex to the thread that stood first in the list: none that goes on
      waiting is more urgent, and the others keep their order. */
  lemma NextOwner(e: Record, t: nat, m: nat)
    requires SoundStep(e) && e.op == ReleaseOp(t, m) && Enabled(e.op, e.before)
    requires e.before.ms[m].owner == Some(t) && e.before.ms[m].hold == 1
    ensures m < |e.after.ms| && (e.before.ms[m].waiters == [] <==> e.after.ms[m].owner == None)
    ensures e.after.ms[m].owner.Some? ==>
      var w := e.after.ms[m].owner.value;
      && e.before.ms[m].waiters == [w] + e.after.ms[m].waiters && w < |e.before.ts| == |e.after.ts|
      && e.before.ts[w].call == InTake(m) && !e.after.ts[w].suspended && e.after.ms[m].hold == 1
      && forall u :: u in e.after.ms[m].waiters ==> u < |e.before.ts| && e.before.ts[w].cur <= e.before.ts[u].cur
  {
    hide Inv, ReleaseEffect;
    GivenTo(e.before, t, m, e.after);
    if e.before.ms[m].waiters != [] {
      FirstIsBest(e.before, m);
    }
  }

  lemma FirstIsBest(s: State, m: nat)
    requires Inv(s.ts, s.ms) && m < |s.ms| && s.ms[m].waiters != []
    ensures var w := s.ms[m].waiters;
      && w[0] < |s.ts| && s.ts[w[0]].call == InTake(m) && w == [w[0]] + w[1..]
      && forall u :: u in w[1..] ==> u < |s.ts| && s.ts[w[0]].cur <= s.ts[u].cur
  {
    hide ThreadOk, OwnersOk, AllCovered;
    var w := s.ms[m].waiters;
    assert w[0] in w && QueueOk(s.ts, s.ms[m]);
    forall u | u in w[1..] ensures u < |s.ts| && s.ts[w[0]].cur <= s.ts[u].cur {
      var i :| 0 < i < |w| && w[i] == u;
      assert w[i] in w;
    }
  }

  lemma GivenTo(s: State, t: nat, m: nat, s': State)
    requires t < |s.ts| && m < |s.ms| && ReleaseEffect(s.ts, s.ms, t, m, s'.ts, s'.ms)
    ensures |s'.ts| == |s.ts| && m < |s'.ms|
    ensures var w, mu := s.ms[m].waiters, s'.ms[m];
      if w == [] then mu.owner == None
      else mu.owner == Some(w[0]) && mu.waiters == w[1..] && mu.hold == 1 && w[0] < |s.ts| && !s'.ts[w[0]].suspended
  {
    hide RightPriority, Remove;
  }

  // ---- every run ------------------------------------------------------------------------------

  lemma NobodyHolds(priorities: seq<nat>, mutexCount: nat)
    ensures Tally([], Initial(priorities, mutexCount))
  {
  }

  /**
  Any sequence of operations on any initial system is a run of `Steps`, and every hold count is
  the number of successful takes less the number of releases. No waiter is more urgent than a
  thread it waits for; and if every timed-out thread cleans up at once, or no timeout fires, then
  wherever the waits are acyclic every thread runs at the best initial priority among itself and
  the threads that wait for it.
  */
  method Run(priorities: seq<nat>, mutexCount: nat, ops: seq<Op>)
    returns (s: MutexSystem, results: seq<Result>, ghost trace: seq<Record>)
    requires forall i :: 0 <= i < |priorities| ==> priorities[i] <= NO_PRIORITY
    ensures IsRun(trace, ops, results, Initial(priorities, mutexCount), s.View())
    ensures Tally(trace, s.View())
    ensures Inv(s.threads, s.mutexes) && NoInversion(s.threads, s.mutexes)
    ensures Prompt(ops) ==>
      Exact(s.threads, s.mutexes) && (Acyclic(s.threads, s.mutexes) ==> Inherits(s.threads, s.mutexes))
  {
    hide Inv, Exact, Acyclic, Inherits, NoInversion, Recorded, Steps, IsRun, TimeoutEffect, ResumeEffect,
      Tally;
    s := new MutexSystem(priorities, mutexCount);
    results, trace := [], [];
    ghost var start, prompt := s.View(), true;
    assert start == Initial(priorities, mutexCount);
    NoStepYet(ops, start);
    var i := 0;
    while i < |ops|
      invariant fresh(s) && s.Valid() && 0 <= i <= |ops| && IsRun(trace, ops[..i], results, start, s.View())
      invariant !prompt ==> !Prompt(ops)
      invariant prompt ==> Exact(s.threads, s.mutexes)
    {
      ghost var v := s.View();
      if Fires(s.threads, ops[i]) {
        if PromptAt(ops, i) {
          var ok, mid := s.TimeoutAndReturn(ops[i].t);
          TwoSteps(trace, ops, results, start, v, i, mid, ok, s.View());
          trace := trace + [Entry(ops[i], v, Done, mid)] + [Entry(ops[i + 1], mid, Answer(ok), s.View())];
          results := results + [Done] + [Answer(ok)];
          i := i + 2;
          continue;
        }
        prompt := false;
      }
      var result := Step(s, ops[i]);
      OneMoreStep(trace, ops, results, start, v, i, Entry(ops[i], v, result, s.View()));
      trace, results := trace + [Entry(ops[i], v, result, s.View())], results + [result];
      i := i + 1;
    }
    assert ops[..|ops|] == ops;
    NobodyHolds(priorities, mutexCount);
    RunTallies(trace, ops, results, start, s.View());
    UrgencyAlongChains(s.threads, s.mutexes);
    if prompt && Acyclic(s.threads, s.mutexes) {
      ExactIsInherited(s.threads, s.mutexes);
    }
  }
}
