// Whole runs of the kernel: any task may do anything, in any order.
module KernelRun {
  import opened Options
  import opened KernelState
  import opened KernelSched
  import opened KernelMutex
  import opened KernelLocks
  import opened KernelTasks

  // ---- policies and periods ----

  lemma PolicyKeeps(s: State, policy: Policy)
    requires Active(s)
    ensures var r := s.(policy := policy, needResched := true); Active(r) && PrioritiesKept(s, r)
  {
    SameViewKeeps(s, s.(policy := policy, needResched := true));
    hide OwnershipOk, Inherits, Exact;
  }

  /** `sched_set_policy`. */
  method SetPolicy(k: Kernel, policy: Policy)
    requires Active(k.S())
    modifies k`policy, k`needResched
    ensures Active(k.S()) && KeepsPriorities(k)
    ensures k.S() == old(k.S()).(policy := policy, needResched := true)
  {
    PolicyKeeps(k.S(), policy);
    k.policy := policy;
    k.needResched := true;
  }

  function WithDeadline(s: State, period: Uint32, deadline: Uint32): State
    requires s.running < |s.tasks|
  {
    SetTask(s, s.running, s.tasks[s.running].(period := period, deadline := deadline))
  }

  lemma DeadlineKeeps(s: State, period: Uint32, deadline: Uint32, asks: bool)
    requires Active(s)
    ensures var r := WithDeadline(s, period, deadline).(needResched := s.needResched || asks);
            Active(r) && PrioritiesKept(s, r)
  {
    SameViewKeeps(s, WithDeadline(s, period, deadline).(needResched := s.needResched || asks));
    hide OwnershipOk, Inherits, Exact;
  }

  /** `task_set_period`. */
  method SetPeriod(k: Kernel, period: Uint32, now: Uint32) returns (res: int)
    requires Active(k.S())
    modifies k`needResched, k.tasks
    ensures Active(k.S()) && KeepsPriorities(k)
    ensures if k.tasks[k.running].isKernel then res == INVALID_ARG_ERROR && k.S() == old(k.S())
            else res == OK
                 && k.S() == WithDeadline(old(k.S()), period, (now + period) % 0x1_0000_0000).(needResched := true)
  {
    if k.tasks[k.running].isKernel {
      return INVALID_ARG_ERROR;
    }
    ghost var s := k.S();
    DeadlineKeeps(s, period, (now + period) % 0x1_0000_0000, true);
    k.tasks[k.running] := k.tasks[k.running].(period := period, deadline := (now + period) % 0x1_0000_0000);
    k.needResched := true;
    assert k.S() == WithDeadline(s, period, (now + period) % 0x1_0000_0000).(needResched := true);
    res := OK;
  }

  /** A sleep up to `tick`: over at once, or another task runs. */
  ghost predicate SleepDone(s: State, r: State, tick: Uint32, now: Uint32, waits: bool, base: Uint32)
    requires Shape(s)
  {
    && (waits <==> tick != now && !Earlier(tick, now) && !s.tasks[s.running].killed)
    && if waits then Switched(SetTask(s, s.running, s.tasks[s.running].(wakeTick := tick, state := Sleeping)), r, base)
       else r == s
  }

  /** The next deadline is a period later; the task sleeps until the old one, which it missed or not. */
  ghost predicate WaitPeriodDone(s: State, r: State, now: Uint32, waits: bool, res: int, base: Uint32)
    requires Shape(s)
  {
    var t := s.tasks[s.running];
    if t.period == 0 then !waits && res == INVALID_ARG_ERROR && r == s
    else
      && res == (if Earlier(now, t.deadline) then 0 else 1)
      && SleepDone(WithDeadline(s, t.period, (t.deadline + t.period) % 0x1_0000_0000), r, t.deadline, now, waits, base)
  }

  /** `task_wait_period`: the job is over, the next one is due a period later. */
  method WaitPeriod(k: Kernel, now: Uint32, ghost base: Uint32) returns (waits: bool, res: int)
    requires Active(k.S())
    modifies k, k.tasks
    ensures Inv(k.S()) && KeepsPriorities(k)
    ensures WaitPeriodDone(old(k.S()), k.S(), now, waits, res, base)
  {
    hide OwnershipOk, Inherits, Exact, SchedOk, Preempts, Earlier;
    var t := k.tasks[k.running];
    if t.period == 0 {
      return false, INVALID_ARG_ERROR;
    }
    ghost var s := k.S();
    var deadline := (t.deadline + t.period) % 0x1_0000_0000;
    DeadlineKeeps(s, t.period, deadline, false);
    res := if Earlier(now, t.deadline) then 0 else 1;
    k.tasks[k.running] := t.(deadline := deadline);
    assert k.S() == WithDeadline(s, t.period, deadline).(needResched := s.needResched || false);
    waits := Sleep(k, t.deadline, now, base);
  }

  // ---- back to user mode ----

  /** `task_return_to_user`: a killed task exits, and another task runs if a switch was asked for.
      Otherwise the running task goes on in user mode; under the real time policy no task that could
      run and was not killed has a higher priority then. */
  method ReturnToUser(k: Kernel, closed: seq<nat>, ghost base: Uint32) returns (user: bool, ghost last: State)
    requires Active(k.S()) && !k.tasks[k.running].isKernel
    modifies k, k.tasks, k.mutexes
    ensures Inv(k.S()) && KeepsPriorities(k)
    ensures user <==> !old(k.tasks[k.running]).killed && !old(k.needResched)
    ensures user ==> k.S() == old(k.S()) && (k.policy.RealTime? ==> Dominates(k.S()))
    ensures !user ==> Shape(last) && Switched(last, k.S(), base)
    ensures !user ==>
              if old(k.tasks[k.running]).killed then Exited(old(k.S()), last, TASK_KILLED, closed)
              else last == old(k.S())
  {
    hide OwnershipOk, Inherits, Exact, SchedOk, Switched, Exited;
    user, last := false, k.S();
    if k.tasks[k.running].killed {
      last := Exit(k, TASK_KILLED, closed, base);
    } else if k.needResched {
      Schedule(k, base);
    } else {
      user := true;
    }
  }

  // ---- runs ----

  datatype Step =
    | OpenMutex(name: string, inherit: bool)
    | LockMutex(id: int)
    | UnlockMutex(id: int)
    | CloseMutex(id: int)
    | SetPrio(pid: int, priority: int)
    | KillTask(pid: int)
    | ExitTask(exitCode: int, closed: seq<nat>)
    | SpawnTask(level: nat, background: bool, loads: bool)
    | WaitTask(pid: int)
    | SleepUntil(tick: Uint32, now: Uint32)
    | BlockTask(channel: nat)
    | Wakeup(channel: nat)
    | ChangePolicy(policy: Policy)
    | ChangePeriod(period: Uint32, now: Uint32)
    | EndJob(now: Uint32)
    | TimerTick(now: Uint32)
    | Return(closed: seq<nat>)

  ghost predicate SomeLock(s: State, r: State, id: nat, base: Uint32)
    requires Shape(s) && Shape(r) && id < MAX_MUTEXES
  {
    exists waits, res :: LockDone(s, r, id, waits, res, base)
  }

  ghost predicate SomeHandOver(s: State, r: State, id: nat)
    requires Shape(s) && Shape(r) && id < MAX_MUTEXES
  {
    exists next :: Handed(s, r, id, next)
  }

  ghost predicate SomeOpen(s: State, r: State, name: string, inherit: bool)
    requires Shape(s)
  {
    exists id :: Opened(s, r, name, inherit, id)
  }

  /** What a mutex system call does. */
  ghost predicate MutexStep(s: State, r: State, step: Step, base: Uint32)
    requires Shape(s) && Shape(r)
  {
    match step
    case OpenMutex(name, inherit) => if |name| >= MUTEX_NAME_LEN then r == s else SomeOpen(s, r, name, inherit)
    case LockMutex(id) =>
      if HasOpen(s, id) && s.mutexes[id].owner != Some(s.running) then SomeLock(s, r, id, base) else r == s
    case UnlockMutex(id) =>
      if HasOpen(s, id) && s.mutexes[id].owner == Some(s.running) then SomeHandOver(s, r, id) else r == s
    case CloseMutex(id) => if HasOpen(s, id) then ClosedNow(s, r, id) else r == s
    case _ => r == s
  }

  ghost predicate SomeExit(s: State, r: State, exitCode: int, closed: seq<nat>, base: Uint32)
    requires Shape(s)
  {
    exists last :: ExitVia(s, last, r, exitCode, closed, base)
  }

  ghost predicate ExitVia(s: State, last: State, r: State, exitCode: int, closed: seq<nat>, base: Uint32)
    requires Shape(s)
  {
    Exited(s, last, exitCode, closed) && Switched(last, r, base)
  }

  ghost predicate SomeSpawn(s: State, r: State, level: nat, background: bool, loads: bool)
    requires Shape(s)
  {
    exists nextPid, pid, slot :: SpawnDone(s, r, nextPid, level, background, loads, pid, slot)
  }

  ghost predicate SomeWait(s: State, r: State, pid: int, base: Uint32)
    requires Shape(s)
  {
    exists child: int, waits, res :: WaitsBy(s, r, pid, child, waits, res, base)
  }

  ghost predicate WaitsBy(s: State, r: State, pid: int, child: int, waits: bool, res: int, base: Uint32)
    requires Shape(s)
  {
    IsTask(s.tasks, pid, true, child) && WaitDone(s, r, pid, child, waits, res, base)
  }

  ghost predicate WokenOn(s: State, r: State, channel: nat)
    requires Shape(s) && Shape(r)
  {
    && r == s.(tasks := r.tasks, needResched := r.needResched)
    && forall t :: 0 <= t < MAX_TASKS ==>
         r.tasks[t] == var u := s.tasks[t]; if u.state.Blocked? && u.channel == OnOther(channel) then u.(state := Ready)
                                            else u
  }

  /** What any other call of the running task does. */
  ghost predicate TaskStep(s: State, r: State, step: Step, base: Uint32)
    requires Shape(s) && Shape(r)
  {
    var t := s.tasks[s.running];
    match step
    case ExitTask(exitCode, closed) => if t.isKernel then r == s else SomeExit(s, r, exitCode, closed, base)
    case SpawnTask(level, background, loads) => if level > PRIORITY_MAX then r == s
                                                else SomeSpawn(s, r, level, background, loads)
    case WaitTask(pid) => SomeWait(s, r, pid, base)
    case SleepUntil(tick, now) => SleepDone(s, r, tick, now, true, base) || SleepDone(s, r, tick, now, false, base)
    case BlockTask(channel) => Switched(SetTask(s, s.running, t.(channel := OnOther(channel), state := Blocked)), r,
                                        base)
    case Wakeup(channel) => WokenOn(s, r, channel)
    case ChangePolicy(policy) => r == s.(policy := policy, needResched := true)
    case ChangePeriod(period, now) =>
      r == if t.isKernel then s else WithDeadline(s, period, (now + period) % 0x1_0000_0000).(needResched := true)
    case EndJob(now) => exists waits, res :: WaitPeriodDone(s, r, now, waits, res, base)
    case Return(closed) =>
      if t.isKernel then r == s
      else if t.killed then SomeExit(s, r, TASK_KILLED, closed, base)
      else if s.needResched then Switched(s, r, base)
      else r == s
    case _ => r == s
  }

  ghost predicate SomeKill(s: State, r: State, pid: int)
    requires Shape(s)
  {
    exists t: int :: KillsBy(s, r, pid, t)
  }

  ghost predicate KillsBy(s: State, r: State, pid: int, t: int)
    requires Shape(s)
  {
    && IsTask(s.tasks, pid, false, t) && t < MAX_TASKS
    && r == if t >= 0 && !s.tasks[t].isKernel then Killed(s, t) else s
  }

  ghost predicate SomePriority(s: State, r: State, pid: int, priority: int)
    requires Shape(s) && Shape(r)
  {
    exists t: int :: PriorityBy(s, r, pid, priority, t)
  }

  ghost predicate PriorityBy(s: State, r: State, pid: int, priority: int, t: int)
    requires Shape(s) && Shape(r)
  {
    && SetsPriorityOf(s, pid, t)
    && if SetsPriority(s, priority, t) then
         && IsDue(WithBase(s, t, priority), t, r.tasks[t].priority)
         && r == Rebased(s, t, priority, r.tasks[t].priority).(needResched := true)
       else r == s
  }

  predicate SetsPriority(s: State, priority: int, t: int)
    requires Shape(s)
  {
    1 <= priority <= PRIORITY_USER_MAX && 0 <= t < MAX_TASKS && !s.tasks[t].isKernel && !s.tasks[t].killed
  }

  /** From `s` to `r`, the kernel made the step. */
  ghost predicate Stepped(s: State, r: State, step: Step, base: Uint32)
    requires Shape(s) && Shape(r)
  {
    if step.TimerTick? then Ticked(s, r, step.now)
    else if step.KillTask? then SomeKill(s, r, step.pid)
    else if s.running == s.idle then Switched(s, r, base)
    else
      match s.tasks[s.running].channel
      case OnMutex(id) => id < MAX_MUTEXES && SomeLock(Resumed(s), r, id, base)
      case OnOther(_) => r == SetTask(s, s.running, s.tasks[s.running].(channel := NoChannel))
      case NoChannel =>
        if step.SetPrio? then SomePriority(s, r, step.pid, step.priority)
        else if IsMutexCall(step) then MutexStep(s, r, step, base)
        else TaskStep(s, r, step, base)
  }

  predicate IsMutexCall(step: Step) { step.OpenMutex? || step.LockMutex? || step.UnlockMutex? || step.CloseMutex? }

  /** A mutex system call. */
  method MutexCall(k: Kernel, step: Step, ghost base: Uint32)
    requires Active(k.S())
    modifies k, k.tasks, k.mutexes
    ensures Inv(k.S()) && KeepsPriorities(k)
    ensures MutexStep(old(k.S()), k.S(), step, base)
  {
    hide Exact, OwnershipOk, Inherits, SchedOk, Preempts, Opened, LockDone, Handed, ClosedNow;
    ghost var s := k.S();
    match step {
      case OpenMutex(name, inherit) => var id := Open(k, name, inherit);
      case LockMutex(id) => var waits, res := Lock(k, id, base);
      case UnlockMutex(id) =>
        ghost var next;
        var res;
        res, next := Unlock(k, id);
      case CloseMutex(id) => var _ := Close(k, id);
      case _ =>
    }
  }

  method TaskCall(k: Kernel, step: Step, ghost base: Uint32)
    requires Active(k.S()) && !IsMutexCall(step)
    modifies k, k.tasks, k.mutexes
    ensures Inv(k.S()) && KeepsPriorities(k)
    ensures TaskStep(old(k.S()), k.S(), step, base)
  {
    hide Exact, OwnershipOk, Inherits, SchedOk, Preempts, Switched, Exited, SpawnDone, WaitDone, IsTask, Earlier;
    hide Dominates;
    ghost var s := k.S();
    match step {
      case ExitTask(exitCode, closed) =>
        if !k.tasks[k.running].isKernel {
          ghost var last := Exit(k, exitCode, closed, base);
          assert ExitVia(s, last, k.S(), exitCode, closed, base);
        }
      case SpawnTask(level, background, loads) =>
        if level <= PRIORITY_MAX {
          ghost var slot;
          var pid;
          pid, slot := Spawn(k, level, background, loads);
        }
      case WaitTask(pid) =>
        ghost var child;
        var waits, res;
        waits, res, child := Wait(k, pid, base);
        assert WaitsBy(s, k.S(), pid, child, waits, res, base);
      case SleepUntil(tick, now) =>
        var waits := Sleep(k, tick, now, base);
        assert SleepDone(s, k.S(), tick, now, waits, base);
      case BlockTask(channel) => BlockOn(k, channel, base);
      case Wakeup(channel) => WakeChannel(k, channel);
      case ChangePolicy(policy) => SetPolicy(k, policy);
      case ChangePeriod(period, now) => var _ := SetPeriod(k, period, now);
      case EndJob(now) => var waits, res := WaitPeriod(k, now, base);
      case Return(closed) =>
        if !k.tasks[k.running].isKernel {
          ghost var last;
          var user;
          user, last := ReturnToUser(k, closed, base);
          if s.tasks[s.running].killed { assert ExitVia(s, last, k.S(), TASK_KILLED, closed, base); }
        }
      case _ =>
    }
  }

  /** The running task may ask for something. */
  ghost predicate MayCall(s: State)
    requires Shape(s)
  {
    s.running != s.idle && s.tasks[s.running].channel == NoChannel
  }

  /** `setprio` on a task that waits for the owner of a mutex, with a higher priority than that has. */
  ghost predicate LeavesOwnerBehind(s: State, step: Step)
    requires Shape(s)
  {
    step.SetPrio? && MayCall(s) && exists t: int :: SetsBehind(s, step.pid, step.priority, t)
  }

  ghost predicate SetsBehind(s: State, pid: int, priority: int, t: int)
    requires Shape(s)
  {
    SetsPriorityOf(s, pid, t) && SetsPriority(s, priority, t) && !OwnersReach(s, t, priority)
  }

  /** A kill of a task whose owner has its priority from it alone, or `setprio` on a waiting task. */
  ghost predicate MayOvershoot(s: State, step: Step)
    requires Shape(s)
  {
    || (step.KillTask? && exists t: int :: KillsNeeded(s, step.pid, t))
    || (step.SetPrio? && MayCall(s) && exists t: int :: SetsWaiter(s, step.pid, step.priority, t))
  }

  ghost predicate KillsNeeded(s: State, pid: int, t: int)
    requires Shape(s)
  {
    IsTask(s.tasks, pid, false, t) && 0 <= t < MAX_TASKS && !s.tasks[t].isKernel && !LoanNotNeeded(s, t)
  }

  ghost predicate SetsWaiter(s: State, pid: int, priority: int, t: int)
    requires Shape(s)
  {
    SetsPriorityOf(s, pid, t) && SetsPriority(s, priority, t) && !LendsNone(s, t)
  }

  /** Priorities after a step: inheritance ends exactly where `setprio` leaves an owner behind, and
      exactness, as far as kills go, exactly where a loan was needed. */
  ghost predicate Priorities(s: State, r: State, step: Step)
    requires Shape(s) && Shape(r)
  {
    && (Inherits(s) ==> (Inherits(r) <==> !LeavesOwnerBehind(s, step)))
    && (Inherits(s) && Exact(s) && !MayOvershoot(s, step) ==> Exact(r))
    && (Inherits(s) && Exact(s) && step.KillTask? && MayOvershoot(s, step) ==> !Exact(r))
  }

  /** One step: what the running task asks for, once it is done with the call it was blocked in. The
      idle thread only ever calls the scheduler; ticks and kills come from interrupts too. */
  method Execute(k: Kernel, step: Step, ghost base: Uint32)
    requires Inv(k.S())
    modifies k, k.tasks, k.mutexes
    ensures Inv(k.S()) && Stepped(old(k.S()), k.S(), step, base) && Priorities(old(k.S()), k.S(), step)
  {
    hide Exact, OwnershipOk, Inherits, SchedOk, Preempts, LendsNone, OwnersReach, Switched, LockDone, Ticked, MutexStep;
    hide TaskStep;
    hide IsTask, IsDue, LoanNotNeeded;
    ghost var s := k.S();
    if step.TimerTick? {
      Tick(k, step.now);
    } else if step.KillTask? {
      ghost var t;
      var res;
      res, t := Kill(k, step.pid);
      assert KillsBy(s, k.S(), step.pid, t);
      OneTask(s, step.pid, t);
      KillPriorities(s, k.S(), step, t);
    } else if k.running == k.idle {
      Schedule(k, base);
    } else if k.tasks[k.running].channel.OnMutex? {
      var res := ResumeLock(k, base);
      assert LockDone(Resumed(s), k.S(), s.tasks[s.running].channel.id, false, res, base);
    } else if k.tasks[k.running].channel.OnOther? {
      ResumeOther(k);
    } else if step.SetPrio? {
      ghost var t;
      var res;
      res, t := SetPriority(k, step.pid, step.priority);
      assert PriorityBy(s, k.S(), step.pid, step.priority, t);
      OneTarget(s, step.pid, step.priority, t);
      assert SetsPriority(s, step.priority, t) <==> res == OK;
      assert LeavesOwnerBehind(s, step) <==> SetsBehind(s, step.pid, step.priority, t);
      assert MayOvershoot(s, step) <==> SetsWaiter(s, step.pid, step.priority, t);
    } else if IsMutexCall(step) {
      MutexCall(k, step, base);
    } else {
      TaskCall(k, step, base);
    }
  }

  lemma KillPriorities(s: State, r: State, step: Step, t: int)
    requires Shape(s) && Shape(r) && step.KillTask? && IsTask(s.tasks, step.pid, false, t) && t < MAX_TASKS
    requires Inherits(s) ==> Inherits(r)
    requires t >= 0 && !s.tasks[t].isKernel && Exact(s) ==> (Exact(r) <==> LoanNotNeeded(s, t))
    requires t < 0 || s.tasks[t].isKernel ==> r == s
    ensures Priorities(s, r, step)
  {
    hide Exact, Inherits, LoanNotNeeded, IsTask;
    assert !LeavesOwnerBehind(s, step);
    OneTask(s, step.pid, t);
    assert MayOvershoot(s, step) <==> KillsNeeded(s, step.pid, t);
  }

  lemma OneTask(s: State, pid: int, t: int)
    requires Shape(s) && IsTask(s.tasks, pid, false, t)
    ensures forall u: int :: IsTask(s.tasks, pid, false, u) ==> u == t
    ensures forall u: int :: KillsNeeded(s, pid, u) ==> u == t
  {
    hide LoanNotNeeded;
  }

  lemma OneTarget(s: State, pid: int, priority: int, t: int)
    requires Shape(s) && SetsPriorityOf(s, pid, t)
    ensures forall u: int :: SetsBehind(s, pid, priority, u) ==> u == t
    ensures forall u: int :: SetsWaiter(s, pid, priority, u) ==> u == t
    ensures SetsBehind(s, pid, priority, t) ==> SetsWaiter(s, pid, priority, t)
  {
    hide Lends;
  }

  ghost predicate Follows(s: State, r: State, step: Step, base: Uint32) {
    Inv(s) && Inv(r) && Stepped(s, r, step, base) && Priorities(s, r, step)
  }

  /** The states of a run. */
  ghost predicate IsRun(seen: seq<State>, steps: seq<Step>, base: Uint32) {
    |seen| == |steps| + 1 && forall i :: 0 <= i < |steps| ==> Follows(seen[i], seen[i + 1], steps[i], base)
  }

  ghost predicate NoneBehind(before: seq<State>, steps: seq<Step>)
    requires |before| <= |steps|
  {
    forall i :: 0 <= i < |before| ==> Shape(before[i]) && !LeavesOwnerBehind(before[i], steps[i])
  }

  ghost predicate NoneOvershoots(before: seq<State>, steps: seq<Step>)
    requires |before| <= |steps|
  {
    forall i :: 0 <= i < |before| ==> Shape(before[i]) && !MayOvershoot(before[i], steps[i])
  }

  /** Owners inherit priorities in a run as long as `setprio` leaves no owner behind. */
  lemma {:induction false} RunInherits(seen: seq<State>, steps: seq<Step>, base: Uint32, n: nat)
    requires IsRun(seen, steps, base) && n <= |steps| && Shape(seen[0]) && Inherits(seen[0])
    requires forall i :: 0 <= i < n ==> Shape(seen[i]) && !LeavesOwnerBehind(seen[i], steps[i])
    ensures Shape(seen[n]) && Inherits(seen[n])
    decreases n
  {
    hide Inherits, Inv, Stepped, LeavesOwnerBehind, Exact, MayOvershoot;
    if n > 0 {
      RunInherits(seen, steps, base, n - 1);
      assert Follows(seen[n - 1], seen[n - 1 + 1], steps[n - 1], base);
      InvShape(seen[n]);
    }
  }

  /** Priorities are the largest of the own one and those of the waiters as long as no waiter is killed
      from whom alone an owner has its priority, and none has its priority set. */
  lemma {:induction false} RunExact(seen: seq<State>, steps: seq<Step>, base: Uint32, n: nat)
    requires IsRun(seen, steps, base) && n <= |steps| && Inv(seen[0]) && Inherits(seen[0]) && Exact(seen[0])
    requires forall i :: 0 <= i < n ==> Shape(seen[i]) && !MayOvershoot(seen[i], steps[i])
    ensures Inv(seen[n]) && Inherits(seen[n]) && Exact(seen[n])
    ensures forall t :: 0 <= t < MAX_TASKS && !seen[n].tasks[t].killed ==> IsDue(seen[n], t, seen[n].tasks[t].priority)
    decreases n
  {
    hide Inherits, Inv, Stepped, LeavesOwnerBehind, Exact, MayOvershoot, IsDue;
    if n > 0 {
      RunExact(seen, steps, base, n - 1);
      assert Follows(seen[n - 1], seen[n - 1 + 1], steps[n - 1], base);
      InvShape(seen[n - 1]);
      BehindOvershoots(seen[n - 1], steps[n - 1]);
    }
    InvShape(seen[n]);
    AllDue(seen[n]);
  }

  lemma InvShape(s: State)
    requires Inv(s)
    ensures Shape(s) && OwnershipOk(s)
  {}

  lemma AllDue(s: State)
    requires Shape(s) && Inherits(s) && Exact(s)
    ensures OwnershipOk(s) ==> forall t :: 0 <= t < MAX_TASKS && !s.tasks[t].killed ==> IsDue(s, t, s.tasks[t].priority)
  {
    hide OwnershipOk, Inherits, Exact, IsDue;
    if OwnershipOk(s) {
      forall t | 0 <= t < MAX_TASKS && !s.tasks[t].killed ensures IsDue(s, t, s.tasks[t].priority) { ExactIsDue(s, t); }
    }
  }

  lemma BehindOvershoots(s: State, step: Step)
    requires Shape(s)
    ensures LeavesOwnerBehind(s, step) ==> MayOvershoot(s, step)
  {
    hide Lends;
    if LeavesOwnerBehind(s, step) {
      var t: int :| SetsBehind(s, step.pid, step.priority, t);
      OneTarget(s, step.pid, step.priority, t);
    }
  }

  /** Over the whole of every run mutexes have proper owners and waiters, one task runs, and under the
      real time policy it is not below any that should preempt it, unless a switch is asked for. Owners
      inherit priorities up to where `setprio` leaves one behind, and priorities are exact up to where a
      waiter that was needed is killed or a waiter's own priority set. */
  method Run(k: Kernel, steps: seq<Step>, ghost base: Uint32) returns (ghost seen: seq<State>)
    requires Inv(k.S())
    modifies k, k.tasks, k.mutexes
    ensures Inv(k.S()) && IsRun(seen, steps, base) && seen[0] == old(k.S()) && seen[|steps|] == k.S()
    ensures forall i :: 0 <= i <= |steps| ==> Shape(seen[i])
    ensures Inherits(seen[0]) ==> forall n :: 0 <= n <= |steps| && NoneBehind(seen[..n], steps) ==> Inherits(seen[n])
    ensures Inherits(seen[0]) && Exact(seen[0]) ==>
              forall n :: 0 <= n <= |steps| && NoneOvershoots(seen[..n], steps) ==> Exact(seen[n])
  {
    hide Exact, MayOvershoot, LeavesOwnerBehind, OwnershipOk, Inherits, SchedOk, Preempts, Stepped, Priorities;
    seen := [k.S()];
    for i := 0 to |steps|
      invariant Inv(k.S()) && |seen| == i + 1 && seen[0] == old(k.S()) && seen[i] == k.S()
      invariant forall j :: 0 <= j < i ==> Follows(seen[j], seen[j + 1], steps[j], base)
      invariant forall j :: 0 <= j <= i ==> Shape(seen[j])
    {
      Execute(k, steps[i], base);
      seen := seen + [k.S()];
    }
    if Inherits(seen[0]) {
      forall n | 0 <= n <= |steps| && NoneBehind(seen[..n], steps) ensures Inherits(seen[n]) {
        assert forall i :: 0 <= i < n ==> seen[..n][i] == seen[i];
        RunInherits(seen, steps, base, n);
      }
    }
    if Inherits(seen[0]) && Exact(seen[0]) {
      forall n | 0 <= n <= |steps| && NoneOvershoots(seen[..n], steps) ensures Exact(seen[n]) {
        assert forall i :: 0 <= i < n ==> seen[..n][i] == seen[i];
        RunExact(seen, steps, base, n);
      }
    }
  }
}
