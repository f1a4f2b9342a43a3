// Tasks: priorities, killing, exiting, starting, waiting, sleeping and the way back to user mode.
module KernelTasks {
  import opened Options
  import opened KernelState
  import opened KernelSched
  import opened KernelMutex
  import opened KernelLocks

  const PRIORITY_USER_MAX := 29
  const INIT := 1

  predicate Exists(t: Task, pid: int, zombies: bool) {
    t.pid == pid && !t.state.Unused? && !t.state.Loading? && (zombies || !t.state.Zombie?)
  }

  /** `t` is the first task with this pid, or -1 if there is none. */
  ghost predicate IsTask(tasks: seq<Task>, pid: int, zombies: bool, t: int) {
    && -1 <= t < |tasks|
    && if t >= 0 then Exists(tasks[t], pid, zombies) && forall i :: 0 <= i < t ==> !Exists(tasks[i], pid, zombies)
       else forall i :: 0 <= i < |tasks| ==> !Exists(tasks[i], pid, zombies)
  }

  /** `task_find`. */
  method Find(k: Kernel, pid: int, zombies: bool) returns (t: int)
    requires k.Sized()
    ensures -1 <= t < MAX_TASKS && IsTask(k.tasks[..], pid, zombies, t)
    ensures if t >= 0 then Exists(k.tasks[t], pid, zombies) && forall i :: 0 <= i < t ==>
        !Exists(k.tasks[i], pid, zombies)
            else forall i :: 0 <= i < MAX_TASKS ==> !Exists(k.tasks[i], pid, zombies)
  {
    for i := 0 to MAX_TASKS
      invariant forall j :: 0 <= j < i ==> !Exists(k.tasks[j], pid, zombies)
    {
      if Exists(k.tasks[i], pid, zombies) {
        return i;
      }
    }
    t := -1;
  }

  // ---- priorities ----

  function Rebased(s: State, t: nat, base: nat, p: nat): State
    requires t < |s.tasks|
  {
    SetTask(s, t, s.tasks[t].(base := base, priority := p))
  }

  function WithBase(s: State, t: nat, base: nat): State
    requires t < |s.tasks|
  {
    SetTask(s, t, s.tasks[t].(base := base))
  }

  /** No task that `t` waits for is below priority `p`. */
  predicate OwnersReach(s: State, t: nat, p: nat)
    requires Shape(s)
  {
    forall o :: 0 <= o < MAX_TASKS && Lends(s, t, o) ==> p <= s.tasks[o].priority
  }

  /** `task_set_priority` does not pass a new priority on to the owner the task waits for: it keeps
      inheritance exactly if that owner is not below it. */
  lemma SetPriorityExactly(s: State, t: nat, base: nat, p: nat)
    requires Core(s) && Inherits(s) && t < MAX_TASKS && IsDue(WithBase(s, t, base), t, p)
    ensures Inherits(Rebased(s, t, base, p)) <==> OwnersReach(s, t, base)
  {
    var r := Rebased(s, t, base, p);
    NotToItself(s, t);
    assert forall w, o :: 0 <= w < MAX_TASKS && 0 <= o < MAX_TASKS ==>
             (Lends(r, w, o) <==> Lends(s, w, o)) && (Lends(WithBase(s, t, base), w, o) <==> Lends(s, w, o));
    hide OwnershipOk, Lends, SchedOk;
    if Inherits(r) {
      forall o | 0 <= o < MAX_TASKS && Lends(s, t, o) ensures base <= s.tasks[o].priority {
        assert Lends(r, t, o);
      }
    }
  }

  lemma RebasedKeeps(s: State, t: nat, base: nat, p: nat)
    requires Core(s) && t < MAX_TASKS && !s.tasks[t].killed && base <= PRIORITY_MAX
    requires IsDue(WithBase(s, t, base), t, p)
    ensures Core(Rebased(s, t, base, p))
    ensures Exact(s) && LendsNone(s, t) ==> Exact(Rebased(s, t, base, p))
  {
    RebasedOwnership(s, t, base, p);
    var r := Rebased(s, t, base, p);
    assert forall w, o :: 0 <= w < MAX_TASKS && 0 <= o < MAX_TASKS ==>
             (Lends(r, w, o) <==> Lends(s, w, o)) && (Lends(WithBase(s, t, base), w, o) <==> Lends(s, w, o));
    hide OwnershipOk, Lends;
    if Exact(s) && LendsNone(s, t) {
      forall u | 0 <= u < MAX_TASKS && !r.tasks[u].killed ensures Justified(r, u) {
        if u != t { assert Justified(s, u); }
      }
    }
  }

  lemma RebasedOwnership(s: State, t: nat, base: nat, p: nat)
    requires Shape(s) && OwnershipOk(s) && t < MAX_TASKS && !s.tasks[t].killed && base <= PRIORITY_MAX
    requires IsDue(WithBase(s, t, base), t, p)
    ensures OwnershipOk(Rebased(s, t, base, p))
  {
    var r := Rebased(s, t, base, p);
    forall u | 0 <= u < MAX_TASKS ensures s.tasks[u].priority <= PRIORITY_MAX { assert TaskOk(s, u); }
    forall u | 0 <= u < MAX_TASKS ensures TaskOk(r, u) { assert TaskOk(s, u); }
    hide TaskOk;
    forall m | 0 <= m < MAX_MUTEXES ensures MutexOk(r, m) {
      assert MutexOk(s, m);
      assert Holders(r.tasks, m) == Holders(s.tasks, m);
    }
  }

  /** Which task `setprio` is about, if any whose priority may be set. */
  predicate SetsPriorityOf(s: State, pid: int, t: int)
    requires Shape(s)
  {
    if pid == 0 then t == s.running
    else if t >= 0 then t < MAX_TASKS && Exists(s.tasks[t], pid, false) && forall i :: 0 <= i < t ==>
        !Exists(s.tasks[i], pid, false)
    else forall i :: 0 <= i < MAX_TASKS ==> !Exists(s.tasks[i], pid, false)
  }

  /** `sys_setprio`. What it does to a task that waits for a mutex is `SetPriorityExactly`. */
  method SetPriority(k: Kernel, pid: int, priority: int) returns (res: int, ghost t: int)
    requires Active(k.S())
    modifies k`needResched, k.tasks
    ensures SetsPriorityOf(old(k.S()), pid, t)
    ensures if 1 <= priority <= 29 && t >= 0 && !old(k.tasks[t]).isKernel && !old(k.tasks[t]).killed then
              && res == OK && IsDue(WithBase(old(k.S()), t, priority), t, k.tasks[t].priority)
              && k.S() == Rebased(old(k.S()), t, priority, k.tasks[t].priority).(needResched := true)
            else res == INVALID_ARG_ERROR && k.S() == old(k.S())
    ensures Active(k.S())
    ensures res == OK && old(Inherits(k.S())) ==> (Inherits(k.S()) <==> old(OwnersReach(k.S(), t, priority)))
    ensures res == OK && old(LendsNone(k.S(), t)) ==> KeepsPriorities(k)
  {
    hide OwnershipOk, Inherits, Exact, SchedOk, Preempts, IsDue, Lends;
    ghost var s := k.S();
    var found := k.running;
    if pid != 0 {
      found := Find(k, pid, false);
    }
    t := found;
    if priority < 1 || priority > PRIORITY_USER_MAX || found < 0 || k.tasks[found].isKernel || k.tasks[found].killed {
      return INVALID_ARG_ERROR, t;
    }
    ActiveLinked(s);
    k.tasks[found] := k.tasks[found].(base := priority);
    assert k.S() == WithBase(s, found, priority);
    LinkedSame(s, found, priority);
    UpdatePriority(k, found);
    ghost var p := k.tasks[found].priority;
    assert k.S() == Rebased(s, found, priority, p).(needResched := true);
    if Inherits(s) { SetPriorityExactly(s, found, priority, p); }
    SameInherits(Rebased(s, found, priority, p));
    RebasedKeeps(s, found, priority, p);
    AskedKeeps(Rebased(s, found, priority, p));
    if LendsNone(s, found) { NoLoanReaches(s, found, priority); }
    res := OK;
  }

  lemma NoLoanReaches(s: State, t: nat, p: nat)
    requires Shape(s) && LendsNone(s, t)
    ensures OwnersReach(s, t, p)
  {}

  lemma ActiveLinked(s: State)
    requires Active(s)
    ensures Linked(s)
  {
    OwnershipLinked(s);
  }

  lemma LinkedSame(s: State, t: nat, base: nat)
    requires Shape(s) && Linked(s) && t < MAX_TASKS
    ensures Linked(WithBase(s, t, base))
  {}

  lemma SameInherits(s: State)
    requires Shape(s)
    ensures Inherits(s.(needResched := true)) == Inherits(s)
  {
    var r := s.(needResched := true);
    assert forall w, o :: 0 <= w < MAX_TASKS && 0 <= o < MAX_TASKS ==> (Lends(r, w, o) <==> Lends(s, w, o));
    hide Lends;
  }

  // ---- killing ----

  /** `task_kill` on task `t`. */
  function Killed(s: State, t: nat): State
    requires s.running < |s.tasks| && t < |s.tasks|
  {
    var r := SetTask(s, t, s.tasks[t].(killed := true, priority := PRIORITY_MAX));
    if s.tasks[t].state in {Sleeping, WaitingKey, Blocked} then Woken(r, t) else r
  }

  lemma KilledOwnership(s: State, t: nat)
    requires Shape(s) && OwnershipOk(s) && t < MAX_TASKS && !Gone(s.tasks[t])
    ensures Shape(Killed(s, t)) && OwnershipOk(Killed(s, t))
  {
    hide Preempting;
    var r := Killed(s, t);
    forall u | 0 <= u < MAX_TASKS ensures TaskOk(r, u) { assert TaskOk(s, u); }
    hide TaskOk;
    forall m | 0 <= m < MAX_MUTEXES ensures MutexOk(r, m) {
      assert MutexOk(s, m);
      assert Holders(r.tasks, m) == Holders(s.tasks, m);
    }
  }

  /** A killed task waits for nothing any more, and runs before all others. */
  lemma KilledKeeps(s: State, t: nat)
    requires Inv(s) && t < MAX_TASKS && !Gone(s.tasks[t]) && t != s.idle
    ensures Inv(Killed(s, t)) && (Inherits(s) ==> Inherits(Killed(s, t))) && Killed(s, t).running == s.running
    ensures Killed(s, t).tasks[s.running].channel == s.tasks[s.running].channel
  {
    forall u | 0 <= u < MAX_TASKS ensures s.tasks[u].priority <= PRIORITY_MAX { assert TaskOk(s, u); }
    KilledOwnership(s, t);
    if Inherits(s) { KilledInherits(s, t); }
    KilledSched(s, t);
    hide OwnershipOk, Inherits, SchedOk, Preempts, Preempting;
  }

  lemma KilledInherits(s: State, t: nat)
    requires Inv(s) && Inherits(s) && t < MAX_TASKS && !Gone(s.tasks[t])
    ensures Shape(Killed(s, t)) && Inherits(Killed(s, t))
  {
    hide Preempting, MutexOk;
    var r := Killed(s, t);
    forall w, o | 0 <= w < MAX_TASKS && 0 <= o < MAX_TASKS && Lends(r, w, o)
      ensures r.tasks[w].priority <= r.tasks[o].priority
    {
      assert TaskOk(s, w) && w != t && Lends(s, w, o);
    }
  }

  lemma KilledSched(s: State, t: nat)
    requires Shape(s) && SchedOk(s) && Preempts(s) && s.tasks[s.running].state.Running? && t < MAX_TASKS && t != s.idle
    requires !Gone(s.tasks[t]) && s.tasks[t].priority <= PRIORITY_MAX
    requires forall u :: 0 <= u < MAX_TASKS ==> s.tasks[u].priority <= PRIORITY_MAX
    ensures Shape(Killed(s, t)) && SchedOk(Killed(s, t)) && Preempts(Killed(s, t))
    ensures Killed(s, t).tasks[s.running].state.Running?
  {}

  /** No owner has its priority from task `t` alone. */
  predicate LoanNotNeeded(s: State, t: nat)
    requires Shape(s)
  {
    forall o :: 0 <= o < MAX_TASKS && !s.tasks[o].killed && Lends(s, t, o) ==>
      || s.tasks[o].priority == s.tasks[o].base
      || exists w :: 0 <= w < MAX_TASKS && w != t && Lends(s, w, o) && s.tasks[w].priority == s.tasks[o].priority
  }

  /** Killing a task takes its loan back from the owner it waits for, whose priority is not recomputed:
      priorities stay exact if and only if that owner does not have its own from this task alone. */
  lemma KilledExactly(s: State, t: nat)
    requires Inv(s) && Exact(s) && t < MAX_TASKS && !Gone(s.tasks[t])
    ensures Shape(Killed(s, t)) && (Exact(Killed(s, t)) <==> LoanNotNeeded(s, t))
  {
    hide Preempting, OwnershipOk, SchedOk, Preempts;
    var r := Killed(s, t);
    KilledLends(s, t);
    hide Lends;
    if LoanNotNeeded(s, t) {
      forall o | 0 <= o < MAX_TASKS && !r.tasks[o].killed ensures Justified(r, o) {
        assert Justified(s, o);
        if s.tasks[o].priority != s.tasks[o].base {
          var w :| 0 <= w < MAX_TASKS && w != t && Lends(s, w, o) && s.tasks[w].priority == s.tasks[o].priority;
          assert Lends(r, w, o) && r.tasks[w].priority == r.tasks[o].priority;
        }
      }
    }
    if Exact(r) {
      forall o | 0 <= o < MAX_TASKS && !s.tasks[o].killed && Lends(s, t, o)
        ensures s.tasks[o].priority == s.tasks[o].base
                || exists w ::
                     && 0 <= w < MAX_TASKS && w != t && Lends(s, w, o)
                     && s.tasks[w].priority == s.tasks[o].priority
      {
        assert Justified(r, o);
      }
    }
  }

  /** While a killed task can run, a task with its priority, the highest, is picked, but for round robin. */
  lemma KilledGoFirst(s: State, r: nat, base: Uint32, t: nat)
    requires Inv(s) && !s.policy.RoundRobin? && Window(s, base) && r < MAX_TASKS && IsPick(s, r, base)
    requires Candidate(s, t) && s.tasks[t].killed
    ensures Candidate(s, r) && s.tasks[r].priority == 31
  {
    hide IsPick, RunsBefore, Distance;
    assert TaskOk(s, t);
    PickThere(s, r, base, t);
    PickIsFirst(s, r, base);
    assert TaskOk(s, r);
  }

  lemma PickThere(s: State, r: nat, base: Uint32, t: nat)
    requires Shape(s) && r < MAX_TASKS && IsPick(s, r, base) && Candidate(s, t)
    ensures Candidate(s, r)
  {}

  lemma KilledLends(s: State, t: nat)
    requires Inv(s) && t < MAX_TASKS
    ensures forall w, o :: 0 <= w < MAX_TASKS && 0 <= o < MAX_TASKS ==>
              (Lends(Killed(s, t), w, o) <==> w != t && Lends(s, w, o))
    ensures forall u :: 0 <= u < MAX_TASKS && u != t ==> Killed(s, t).tasks[u] == s.tasks[u]
    ensures Killed(s, t).tasks[t].killed && !Lends(s, t, t)
  {
    hide Preempting, SchedOk, Preempts;
    NotToItself(s, t);
  }

  /** `task_kill`: the task runs with the highest priority until it exits; it is woken unless it waits
      for a child. */
  method Kill(k: Kernel, pid: int) returns (res: int, ghost t: int)
    requires Inv(k.S())
    modifies k`needResched, k.tasks
    ensures Inv(k.S()) && k.tasks[k.running].channel == old(k.tasks[k.running].channel)
    ensures old(Inherits(k.S())) ==> Inherits(k.S())
    ensures res == OK && t >= 0 && old(Exact(k.S())) ==> (Exact(k.S()) <==> old(LoanNotNeeded(k.S(), t)))
    ensures IsTask(old(k.S()).tasks, pid, false, t) && t < MAX_TASKS
    ensures if t >= 0 && !old(k.tasks[t]).isKernel then res == OK && k.S() == Killed(old(k.S()), t)
            else res == INVALID_ARG_ERROR && k.S() == old(k.S())
  {
    hide OwnershipOk, Inherits, Exact, SchedOk, Preempts, Preempting;
    ghost var s := k.S();
    var found := Find(k, pid, false);
    t := found;
    if found < 0 || k.tasks[found].isKernel {
      return INVALID_ARG_ERROR, t;
    }
    NotIdle(s, found);
    KilledKeeps(s, found);
    k.tasks[found] := k.tasks[found].(killed := true, priority := PRIORITY_MAX);
    if k.tasks[found].state in {Sleeping, WaitingKey, Blocked} {
      Wake(k, found);
    }
    assert k.S() == Killed(s, found);
    if Exact(s) { KilledExactly(s, found); }
    res := OK;
  }

  lemma NotIdle(s: State, t: nat)
    requires Inv(s) && t < MAX_TASKS && !s.tasks[t].isKernel
    ensures t != s.idle
  {}

  // ---- stopping and waking ----

  /** The running task stops for something other than a mutex. */
  lemma StopKeeps(s: State, after: Task)
    requires Inv(s) && s.running != s.idle && SameView(s.tasks[s.running], after) && !after.state.Running?
    ensures Core(SetTask(s, s.running, after)) && PrioritiesKept(s, SetTask(s, s.running, after))
  {
    SameViewKeeps(s, SetTask(s, s.running, after));
    hide OwnershipOk, Inherits, Exact;
  }

  /** `task_sleep_until_tick`, up to where it sleeps or is done. */
  method Sleep(k: Kernel, tick: Uint32, now: Uint32, ghost base: Uint32) returns (waits: bool)
    requires Active(k.S())
    modifies k, k.tasks
    ensures Inv(k.S()) && KeepsPriorities(k)
    ensures waits <==> tick != now && !Earlier(tick, now) && !old(k.tasks[k.running].killed)
    ensures !waits ==> k.S() == old(k.S())
    ensures waits ==>
              Switched(SetTask(old(k.S()), old(k.running),
                               old(k.tasks[k.running]).(wakeTick := tick, state := Sleeping)), k.S(), base)
  {
    hide OwnershipOk, Inherits, Exact, SchedOk, Preempts, Earlier, Switched;
    waits := tick != now && !Earlier(tick, now) && !k.tasks[k.running].killed;
    if waits {
      ghost var s := k.S();
      StopKeeps(s, s.tasks[s.running].(wakeTick := tick, state := Sleeping));
      k.tasks[k.running] := k.tasks[k.running].(wakeTick := tick, state := Sleeping);
      assert k.S() == SetTask(s, s.running, s.tasks[s.running].(wakeTick := tick, state := Sleeping));
      Schedule(k, base);
    }
  }

  /** `task_block_on` a channel other than a mutex. */
  method BlockOn(k: Kernel, channel: nat, ghost base: Uint32)
    requires Active(k.S())
    modifies k, k.tasks
    ensures Inv(k.S()) && KeepsPriorities(k)
    ensures Switched(SetTask(old(k.S()), old(k.running),
                             old(k.tasks[k.running]).(channel := OnOther(channel), state := Blocked)),
                     k.S(), base)
  {
    hide OwnershipOk, Inherits, Exact, SchedOk, Preempts, Switched;
    ghost var s := k.S();
    StopKeeps(s, s.tasks[s.running].(channel := OnOther(channel), state := Blocked));
    k.tasks[k.running] := k.tasks[k.running].(channel := OnOther(channel), state := Blocked);
    assert k.S() == SetTask(s, s.running, s.tasks[s.running].(channel := OnOther(channel), state := Blocked));
    Schedule(k, base);
  }

  /** The rest of `task_block_on`, once the task runs again. */
  method ResumeOther(k: Kernel)
    requires Inv(k.S()) && k.running != k.idle && k.tasks[k.running].channel.OnOther?
    modifies k.tasks
    ensures Active(k.S()) && KeepsPriorities(k)
    ensures k.S() == SetTask(old(k.S()), k.running, old(k.tasks[k.running]).(channel := NoChannel))
  {
    ghost var s := k.S();
    var after := k.tasks[k.running].(channel := NoChannel);
    SameViewKeeps(s, SetTask(s, s.running, after));
    hide OwnershipOk, Inherits, Exact;
    k.tasks[k.running] := after;
    assert k.S() == SetTask(s, s.running, after);
  }

  /** `task_wake_channel`. */
  method WakeChannel(k: Kernel, channel: nat)
    requires Working(k.S()) && !k.tasks[k.running].state.Blocked?
    modifies k`needResched, k.tasks
    ensures Working(k.S()) && KeepsPriorities(k)
    ensures forall t :: 0 <= t < MAX_TASKS ==>
              k.tasks[t] == var u := old(k.tasks[t]);
                            if u.state.Blocked? && u.channel == OnOther(channel) then u.(state := Ready) else u
  {
    hide Working, Exact, Preempting;
    ghost var s := k.S();
    WorkingRunning(s);
    for t := 0 to MAX_TASKS
      invariant Working(k.S()) && PrioritiesKept(s, k.S())
      invariant forall i :: 0 <= i < MAX_TASKS ==>
                  k.tasks[i] == if i < t && s.tasks[i].state.Blocked? && s.tasks[i].channel == OnOther(channel)
                                then s.tasks[i].(state := Ready) else s.tasks[i]
    {
      if k.tasks[t].state.Blocked? && k.tasks[t].channel == OnOther(channel) {
        WorkingRunning(k.S());
        WakeKeeps(k.S(), t);
        Wake(k, t);
      }
    }
  }

  // ---- starting and ending ----

  lemma UnusedSlot(s: State, t: nat, task: Task)
    requires Inv(s) && t < MAX_TASKS && s.tasks[t].state.Unused?
    requires task.state in {Loading, Unused} && task.mutexes == {} && task.channel == NoChannel && task.waitMutex.None?
    requires task.base == task.priority <= PRIORITY_MAX && !task.killed && !task.isKernel
    ensures Inv(SetTask(s, t, task)) && PrioritiesKept(s, SetTask(s, t, task))
  {
    var r := SetTask(s, t, task);
    assert TaskOk(s, t);
    forall u | 0 <= u < MAX_TASKS ensures TaskOk(r, u) { assert TaskOk(s, u); }
    hide TaskOk;
    forall m | 0 <= m < MAX_MUTEXES ensures MutexOk(r, m) {
      assert MutexOk(s, m);
      assert Holders(r.tasks, m) == Holders(s.tasks, m);
    }
    forall m | 0 <= m < MAX_MUTEXES ensures s.mutexes[m].owner != Some(t) { assert MutexOk(s, m); }
    hide MutexOk;
    forall w, o | 0 <= w < MAX_TASKS && 0 <= o < MAX_TASKS
      ensures (Lends(r, w, o) <==> Lends(s, w, o)) && (Lends(s, w, o) ==> o != t)
    {}
    hide Lends;
    if Exact(s) {
      forall u | 0 <= u < MAX_TASKS && !r.tasks[u].killed
        ensures Justified(r, u) { if u != t
      {
        assert Justified(s, u); }
      }
    }
  }

  /** The outcome of starting a task in `slot`, the first free one, or MAX_TASKS if there is none. */
  ghost predicate SpawnDone(s: State, r: State, nextPid: nat, priority: nat, background: bool, loads: bool, pid: int,
                            slot: nat)
    requires Shape(s)
  {
    && slot <= MAX_TASKS && (forall t :: 0 <= t < slot ==> !s.tasks[t].state.Unused?)
    && (slot < MAX_TASKS ==> s.tasks[slot].state.Unused?)
    && if slot == MAX_TASKS then pid == NO_MEMORY_ERROR && r == s
       else
         var task := NewTask(nextPid, priority, false);
         if !loads then pid == NO_MEMORY_ERROR && r == SetTask(s, slot, task.(state := Unused))
         else pid == nextPid && r == Woken(SetTask(s, slot, task.(parent := s.running, detached := background)), slot)
  }

  /** `task_spawn`: a new task in the first free slot, ready once its program is loaded. */
  method Spawn(k: Kernel, priority: nat, background: bool, loads: bool) returns (pid: int, ghost slot: nat)
    requires Active(k.S()) && priority <= PRIORITY_MAX
    modifies k`needResched, k`nextPid, k.tasks
    ensures Active(k.S()) && KeepsPriorities(k)
    ensures SpawnDone(old(k.S()), k.S(), old(k.nextPid), priority, background, loads, pid, slot)
    ensures k.nextPid == if slot < MAX_TASKS then old(k.nextPid) + 1 else old(k.nextPid)
  {
    hide OwnershipOk, Inherits, Exact, SchedOk, Preempts, Preempting;
    slot := MAX_TASKS;
    for t := 0 to MAX_TASKS
      invariant k.S() == old(k.S()) && k.nextPid == old(k.nextPid)
      invariant forall i :: 0 <= i < t ==> !k.tasks[i].state.Unused?
    {
      if k.tasks[t].state.Unused? {
        ghost var s := k.S();
        slot := t;
        pid := k.nextPid;
        k.nextPid := k.nextPid + 1;
        var task := NewTask(pid, priority, false);
        if !loads {
          UnusedSlot(s, t, task.(state := Unused));
          k.tasks[t] := task.(state := Unused);
          assert k.S() == SetTask(s, t, task.(state := Unused));
          return NO_MEMORY_ERROR, slot;
        }
        task := task.(parent := k.running, detached := background);
        UnusedSlot(s, t, task);
        k.tasks[t] := task;
        assert k.S() == SetTask(s, t, task);
        InvWorking(k.S());
        WakeKeeps(k.S(), t);
        Wake(k, t);
        return;
      }
    }
    pid := NO_MEMORY_ERROR;
  }

  lemma FreedKeeps(s: State, t: nat)
    requires Inv(s) && t < MAX_TASKS && s.tasks[t].state.Zombie?
    ensures Inv(SetTask(s, t, s.tasks[t].(state := Unused)))
    ensures PrioritiesKept(s, SetTask(s, t, s.tasks[t].(state := Unused)))
  {
    SameViewKeeps(s, SetTask(s, t, s.tasks[t].(state := Unused)));
    hide OwnershipOk, Inherits, Exact;
  }

  lemma WaitPidKeeps(s: State)
    requires Active(s)
    ensures var r := SetTask(s, s.running, s.tasks[s.running].(waitPid := -1));
            Active(r) && PrioritiesKept(s, r)
  {
    var r := SetTask(s, s.running, s.tasks[s.running].(waitPid := -1));
    SameViewKeeps(s, r);
    hide OwnershipOk, Inherits, Exact;
  }

  /** What `task_wait` for `child` does: it waits for it to end, or takes its exit code and frees it. */
  ghost predicate WaitDone(s: State, r: State, pid: int, child: int, waits: bool, res: int, base: Uint32)
    requires Shape(s) && child < MAX_TASKS
  {
    var task := s.tasks[s.running];
    if child < 0 || s.tasks[child].parent != s.running || s.tasks[child].detached then
      !waits && res == INVALID_ARG_ERROR && r == s
    else if !s.tasks[child].state.Zombie? then
      waits && Switched(SetTask(s, s.running, task.(waitPid := pid, state := WaitingChild)), r, base)
    else
      && !waits && res == s.tasks[child].exitCode && child != s.running
      && r == SetTask(SetTask(s, s.running, task.(waitPid := -1)), child, s.tasks[child].(state := Unused))
  }

  /** `task_wait`, up to where it waits for the child or takes its exit code. */
  method Wait(k: Kernel, pid: int, ghost base: Uint32) returns (waits: bool, res: int, ghost child: int)
    requires Active(k.S())
    modifies k, k.tasks
    ensures Inv(k.S()) && KeepsPriorities(k)
    ensures IsTask(old(k.S()).tasks, pid, true, child) && child < MAX_TASKS
    ensures WaitDone(old(k.S()), k.S(), pid, child, waits, res, base)
  {
    hide OwnershipOk, Inherits, Exact, SchedOk, Preempts, Switched;
    ghost var s := k.S();
    var found := Find(k, pid, true);
    child := found;
    if found < 0 || k.tasks[found].parent != k.running || k.tasks[found].detached {
      return false, INVALID_ARG_ERROR, child;
    }
    if !k.tasks[found].state.Zombie? {
      StopKeeps(s, s.tasks[s.running].(waitPid := pid, state := WaitingChild));
      k.tasks[k.running] := k.tasks[k.running].(waitPid := pid, state := WaitingChild);
      assert k.S() == SetTask(s, s.running, s.tasks[s.running].(waitPid := pid, state := WaitingChild));
      Schedule(k, base);
      return true, 0, child;
    }
    WaitPidKeeps(s);
    k.tasks[k.running] := k.tasks[k.running].(waitPid := -1);
    ghost var mid := k.S();
    assert mid == SetTask(s, s.running, s.tasks[s.running].(waitPid := -1));
    res := k.tasks[found].exitCode;
    FreedKeeps(mid, found);
    k.tasks[found] := k.tasks[found].(state := Unused);
    assert k.S() == SetTask(mid, found, mid.tasks[found].(state := Unused));
    waits := false;
  }

  /** The children of the running task belong to the init thread, and nobody waits for them. */
  ghost function Orphaned(s: State): State
    requires Shape(s)
  {
    s.(tasks := seq(MAX_TASKS, t requires 0 <= t < MAX_TASKS =>
      if !s.tasks[t].state.Unused? && s.tasks[t].parent == s.running then s.tasks[t].(parent := INIT, detached := true)
      else s.tasks[t]))
  }

  lemma ZombieKeeps(s: State, exitCode: int)
    requires Active(s) && s.tasks[s.running].mutexes == {}
    ensures var r := SetTask(s, s.running, s.tasks[s.running].(state := Zombie, exitCode := exitCode));
            Working(r) && PrioritiesKept(s, r)
  {
    var r := SetTask(s, s.running, s.tasks[s.running].(state := Zombie, exitCode := exitCode));
    forall u | 0 <= u < MAX_TASKS ensures TaskOk(r, u) { assert TaskOk(s, u); }
    hide TaskOk;
    forall m | 0 <= m < MAX_MUTEXES ensures MutexOk(r, m) {
      assert MutexOk(s, m);
      assert Holders(r.tasks, m) == Holders(s.tasks, m);
    }
    hide MutexOk;
    assert forall w, o :: 0 <= w < MAX_TASKS && 0 <= o < MAX_TASKS ==> (Lends(r, w, o) <==> Lends(s, w, o));
    hide Lends;
    if Exact(s) {
      forall u | 0 <= u < MAX_TASKS && !r.tasks[u].killed ensures Justified(r, u) { assert Justified(s, u); }
    }
  }

  lemma OrphanedKeeps(s: State)
    requires Working(s)
    ensures Working(Orphaned(s)) && PrioritiesKept(s, Orphaned(s))
  {
    SameViewKeeps(s, Orphaned(s));
    hide OwnershipOk, Inherits, Exact;
  }

  method Orphan(k: Kernel)
    requires Shape(k.S())
    modifies k.tasks
    ensures k.S() == Orphaned(old(k.S()))
  {
    for t := 0 to MAX_TASKS
      invariant forall i :: t <= i < MAX_TASKS ==> k.tasks[i] == old(k.tasks[i])
      invariant forall i :: 0 <= i < t ==> k.tasks[i] == Orphaned(old(k.S())).tasks[i]
    {
      if !k.tasks[t].state.Unused? && k.tasks[t].parent == k.running {
        k.tasks[t] := k.tasks[t].(parent := INIT, detached := true);
      }
    }
    assert k.tasks[..] == Orphaned(old(k.S())).tasks;
  }

  /** A task that waited, or slept, or not, and may have been woken. */
  predicate WokenAt(u: Task, now: Task) {
    now == u || (u.state in {Blocked, WaitingChild} && now == u.(state := Ready))
  }

  predicate WaitsOn(u: Task, channels: seq<nat>) {
    u.state.Blocked? && u.channel.OnOther? && u.channel.channel in channels
  }

  /** Closing files wakes whoever waits for the other ends of the pipes among them. */
  method CloseChannels(k: Kernel, closed: seq<nat>)
    requires Active(k.S())
    modifies k`needResched, k.tasks
    ensures Active(k.S()) && KeepsPriorities(k) && k.tasks[k.running] == old(k.tasks[k.running])
    ensures forall t :: 0 <= t < MAX_TASKS ==> WokenAt(old(k.tasks[t]), k.tasks[t])
    ensures forall t :: 0 <= t < MAX_TASKS && WaitsOn(old(k.tasks[t]), closed) ==> k.tasks[t].state.Ready?
  {
    hide OwnershipOk, Inherits, Exact, SchedOk, Preempts;
    ghost var s := k.S();
    for i := 0 to |closed|
      invariant Active(k.S()) && PrioritiesKept(s, k.S()) && k.tasks[k.running] == s.tasks[k.running]
      invariant forall t :: 0 <= t < MAX_TASKS ==> WokenAt(s.tasks[t], k.tasks[t])
      invariant forall t :: 0 <= t < MAX_TASKS && WaitsOn(s.tasks[t], closed[..i]) ==> k.tasks[t].state.Ready?
    {
      WakeChannel(k, closed[i]);
      assert closed[..i + 1] == closed[..i] + [closed[i]];
    }
  }

  lemma WaitingChildWakes(s: State, t: nat)
    requires Working(s) && t < MAX_TASKS && s.tasks[t].state.WaitingChild?
    ensures Wakeable(s.tasks[t])
  {
    assert TaskOk(s, t);
  }

  method WakeParent(k: Kernel)
    requires Working(k.S()) && k.tasks[k.running].state.Zombie?
    modifies k`needResched, k.tasks
    ensures Working(k.S()) && KeepsPriorities(k) && k.tasks[k.running] == old(k.tasks[k.running])
    ensures forall t :: 0 <= t < MAX_TASKS ==>
              k.tasks[t] == var u := old(k.tasks[t]);
                            if t == k.tasks[k.running].parent && u.state.WaitingChild?
                               && u.waitPid == k.tasks[k.running].pid
                            then u.(state := Ready) else u
  {
    hide OwnershipOk, Inherits, Exact, SchedOk, Preempts, Preempting;
    var parent := k.tasks[k.running].parent;
    if 0 <= parent < MAX_TASKS && k.tasks[parent].state.WaitingChild?
       && k.tasks[parent].waitPid == k.tasks[k.running].pid {
      WaitingChildWakes(k.S(), parent);
      WakeKeeps(k.S(), parent);
      Wake(k, parent);
    }
  }

  /** The kernel when a task has exited and another is about to run: it is a zombie with its exit code
      and no mutex, its children belong to the init thread, and who waited for its mutexes, pipes or its
      end may go on. */
  ghost predicate Exited(s: State, r: State, exitCode: int, closed: seq<nat>)
    requires Shape(s)
  {
    && Shape(r) && r.running == s.running
    && r.tasks[s.running] == s.tasks[s.running].(state := Zombie, exitCode := exitCode, mutexes := {},
                                                 priority := r.tasks[s.running].priority,
                                                 parent := r.tasks[s.running].parent,
                                                 detached := r.tasks[s.running].detached)
    && (s.tasks[s.running].parent != s.running ==>
          && r.tasks[s.running].parent == s.tasks[s.running].parent
          && r.tasks[s.running].detached == s.tasks[s.running].detached)
    && AllPassedOn(s, r.mutexes) && (forall m :: 0 <= m < MAX_MUTEXES ==> r.mutexes[m].owner != Some(s.running))
    && (forall t :: 0 <= t < MAX_TASKS && t != s.running ==> LeftBehind(s, s.tasks[t], r.tasks[t]))
    && (forall t :: 0 <= t < MAX_TASKS && t != s.running ==> GoesOn(s, t, r.tasks[t], closed))
  }

  ghost predicate LeftBehind(s: State, u: Task, now: Task) {
    WokenAt(if !u.state.Unused? && u.parent == s.running then u.(parent := INIT, detached := true) else u, now)
  }

  ghost predicate GoesOn(s: State, t: nat, now: Task, closed: seq<nat>)
    requires Shape(s) && t < MAX_TASKS
  {
    var u := s.tasks[t];
    && (WaitsOn(u, closed) ==> now.state.Ready?)
    && (t == s.tasks[s.running].parent && u.state.WaitingChild? && u.waitPid == s.tasks[s.running].pid ==>
            now.state.Ready?)
  }

  /** `task_exit`: mutexes, then files (`closed` are the channels of the pipes among them), then the
      task becomes a zombie and another one runs. */
  method Exit(k: Kernel, exitCode: int, closed: seq<nat>, ghost base: Uint32) returns (ghost last: State)
    requires Active(k.S()) && !k.tasks[k.running].isKernel
    modifies k, k.tasks, k.mutexes
    ensures Inv(k.S()) && KeepsPriorities(k)
    ensures Shape(last) && Exited(old(k.S()), last, exitCode, closed) && Switched(last, k.S(), base)
    ensures old(k.running) < MAX_TASKS && Gone(k.tasks[old(k.running)]) && k.running != old(k.running)
    ensures forall m :: 0 <= m < MAX_MUTEXES ==> k.mutexes[m].owner != Some(old(k.running))
  {
    hide OwnershipOk, Inherits, Exact, SchedOk, Preempts, Switched, Preempting, Exited, AllPassedOn;
    ghost var start := k.S();
    ReleaseAll(k);
    ghost var released := k.S();
    CloseChannels(k, closed);
    ghost var mid := k.S();
    ZombieKeeps(mid, exitCode);
    k.tasks[k.running] := k.tasks[k.running].(state := Zombie, exitCode := exitCode);
    assert k.S() == SetTask(mid, mid.running, mid.tasks[mid.running].(state := Zombie, exitCode := exitCode));
    ghost var zombie := k.S();
    OrphanedKeeps(zombie);
    Orphan(k);
    ghost var orphaned := k.S();
    WakeParent(k);
    last := k.S();
    ExitedBy(start, released, mid, orphaned, last, exitCode, closed);
    Schedule(k, base);
    GoneStays(last, k.S(), base);
  }

  lemma ExitedBy(s: State, released: State, mid: State, orphaned: State, last: State, exitCode: int, closed: seq<nat>)
    requires Shape(s) && Shape(released) && Shape(mid) && Shape(orphaned) && Shape(last)
    requires released.running == mid.running == orphaned.running == last.running == s.running
    requires s.tasks[s.running].state.Running?
    requires released.tasks[s.running] == s.tasks[s.running].(priority := released.tasks[s.running].priority,
                                                              mutexes := {})
    requires forall t :: 0 <= t < MAX_TASKS && t != s.running ==>
               || released.tasks[t] == s.tasks[t]
               || (s.tasks[t].state.Blocked? && released.tasks[t] == s.tasks[t].(state := Ready))
    requires mid.tasks[s.running] == released.tasks[s.running]
    requires forall t :: 0 <= t < MAX_TASKS ==> WokenAt(released.tasks[t], mid.tasks[t])
    requires forall t :: 0 <= t < MAX_TASKS && WaitsOn(released.tasks[t], closed) ==> mid.tasks[t].state.Ready?
    requires orphaned == Orphaned(SetTask(mid, s.running, mid.tasks[s.running].(state := Zombie, exitCode := exitCode)))
    requires forall t :: 0 <= t < MAX_TASKS ==>
               last.tasks[t] == var u := orphaned.tasks[t];
                                if t == orphaned.tasks[s.running].parent && u.state.WaitingChild?
                                   && u.waitPid == orphaned.tasks[s.running].pid
                                then u.(state := Ready) else u
    requires AllPassedOn(s, last.mutexes)
    requires forall m :: 0 <= m < MAX_MUTEXES ==> last.mutexes[m].owner != Some(s.running)
    ensures Exited(s, last, exitCode, closed)
  {
    hide WokenAt, WaitsOn, AllPassedOn;
    var pid, parent := s.tasks[s.running].pid, orphaned.tasks[s.running].parent;
    forall t | 0 <= t < MAX_TASKS && t != s.running
      ensures LeftBehind(s, s.tasks[t], last.tasks[t]) && GoesOn(s, t, last.tasks[t], closed)
    {
      LeftBy(s.tasks[t], released.tasks[t], mid.tasks[t], last.tasks[t], s.running, pid, t == parent, closed);
    }
  }

  /** One task while another one exits. */
  lemma LeftBy(u: Task, released: Task, mid: Task, last: Task, running: nat, pid: int, isParent: bool, closed: seq<nat>)
    requires released == u || (u.state.Blocked? && released == u.(state := Ready))
    requires WokenAt(released, mid) && (WaitsOn(released, closed) ==> mid.state.Ready?)
    requires var orphan := if !mid.state.Unused? && mid.parent == running then mid.(parent := INIT, detached := true)
                           else mid;
             last == if isParent && orphan.state.WaitingChild? && orphan.waitPid == pid then orphan.(state := Ready)
                     else orphan
    ensures WokenAt(if !u.state.Unused? && u.parent == running then u.(parent := INIT, detached := true) else u, last)
    ensures (WaitsOn(u, closed) ==> last.state.Ready?)
    ensures (isParent && u.state.WaitingChild? && u.waitPid == pid ==> last.state.Ready?)
  {}

  lemma GoneStays(s: State, x: State, base: Uint32)
    requires Core(s) && s.tasks[s.running].state.Zombie? && Switched(s, x, base)
    ensures x.running != s.running && Gone(x.tasks[s.running]) && x.mutexes == s.mutexes
  {
    hide OwnershipOk, Inherits, Window, BestAgainst;
    assert x.running == s.idle || Candidate(s, x.running);
  }
}
