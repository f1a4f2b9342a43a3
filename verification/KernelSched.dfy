// The scheduler: waking tasks, picking the next one, switching, and the timer tick.
module KernelSched {
  import opened Options
  import opened KernelState

  // ---- the order of tasks ----

  /** `sched_edf_class`. */
  function EdfClass(t: Task): nat { if t.priority >= PRIORITY_SHELL then 0 else if t.period > 0 then 1 else 2 }

  /** A difference of two tick counts read as a signed number is negative. */
  predicate Earlier(a: Uint32, b: Uint32) { (a - b) % 0x1_0000_0000 >= 0x8000_0000 }

  /** `sched_runs_before`. */
  predicate RunsBefore(policy: Policy, a: Task, b: Task) {
    if policy.Edf? && EdfClass(a) != EdfClass(b) then EdfClass(a) < EdfClass(b)
    else if policy.Edf? && EdfClass(a) == 1 then Earlier(a.deadline, b.deadline)
    else a.priority > b.priority
  }

  /** Ticks from `base` on to `x`. */
  ghost function After(x: Uint32, base: Uint32): nat { (x - base) % 0x1_0000_0000 }

  ghost predicate Candidate(s: State, t: nat)
    requires Shape(s)
  {
    t < MAX_TASKS && t != s.idle && Runnable(s, t)
  }

  /** All deadlines are within half the range of the tick counter from `base` on. */
  ghost predicate Window(s: State, base: Uint32)
    requires Shape(s)
  {
    s.policy.Edf? ==> forall t: nat :: Candidate(s, t) && s.tasks[t].priority < 30 && s.tasks[t].period > 0 ==>
        After(s.tasks[t].deadline, base) < 0x8000_0000
  }

  ghost function RankClass(policy: Policy, t: Task): int { if policy.Edf? then EdfClass(t) else 0 }

  ghost function RankKey(policy: Policy, t: Task, base: Uint32): int {
    if policy.Edf? && EdfClass(t) == 1 then After(t.deadline, base) else -(t.priority as int)
  }

  /** The order of the policy as an order of numbers. */
  ghost predicate Ahead(policy: Policy, a: Task, b: Task, base: Uint32) {
    || RankClass(policy, a) < RankClass(policy, b)
    || (RankClass(policy, a) == RankClass(policy, b) && RankKey(policy, a, base) < RankKey(policy, b, base))
  }

  lemma EarlierIsLess(a: Uint32, b: Uint32, base: Uint32)
    requires After(a, base) < 0x8000_0000 && After(b, base) < 0x8000_0000
    ensures Earlier(a, b) <==> After(a, base) < After(b, base)
  {
    WrapDifference(a, b);
    WrapDifference(a, base);
    WrapDifference(b, base);
  }

  lemma WrapDifference(a: Uint32, b: Uint32)
    ensures (a - b) % 0x1_0000_0000 == if a >= b then a - b else a - b + 0x1_0000_0000
  {}

  /** In such a window the wrapping comparison of deadlines is a strict weak order. */
  lemma RunsBeforeIsAhead(s: State, a: nat, b: nat, base: Uint32)
    requires Shape(s) && Window(s, base) && Candidate(s, a) && Candidate(s, b)
    ensures RunsBefore(s.policy, s.tasks[a], s.tasks[b]) <==> Ahead(s.policy, s.tasks[a], s.tasks[b], base)
  {
    if s.policy.Edf? && EdfClass(s.tasks[a]) == 1 && EdfClass(s.tasks[b]) == 1 {
      EarlierIsLess(s.tasks[a].deadline, s.tasks[b].deadline, base);
    }
  }

  // ---- the order in words ----

  /** Under real time the higher priority goes first. Under earliest deadline first the shell and killed tasks
      do, by their priority; then tasks with a period, by their deadline; then the others, by their priority. */
  ghost predicate Sooner(policy: Policy, a: Task, b: Task, base: Uint32) {
    if policy.Edf? && a.priority < 30 && b.priority < 30 && (a.period > 0 || b.period > 0) then
      a.period > 0 && (b.period > 0 ==> After(a.deadline, base) < After(b.deadline, base))
    else a.priority > b.priority
  }

  ghost predicate InWindow(t: Task, base: Uint32) {
    t.priority < 30 && t.period > 0 ==> After(t.deadline, base) < 0x8000_0000
  }

  lemma RunsBeforeIsSooner(policy: Policy, a: Task, b: Task, base: Uint32)
    requires policy.Edf? ==> InWindow(a, base) && InWindow(b, base)
    ensures RunsBefore(policy, a, b) <==> Sooner(policy, a, b, base)
  {
    hide Earlier, After;
    if policy.Edf? && EdfClass(a) == 1 && EdfClass(b) == 1 { EarlierIsLess(a.deadline, b.deadline, base); }
  }

  // ---- the pick ----

  /** Steps from slot `from` to slot `t` around the table, 1 to MAX_TASKS. */
  function Distance(from: nat, t: nat): int { if t > from then t - from else t - from + MAX_TASKS }

  /** The first of the best runnable tasks behind the running one; the idle thread if there is none. */
  ghost predicate IsPick(s: State, r: nat, base: Uint32)
    requires Shape(s)
  {
    if forall t :: 0 <= t < MAX_TASKS ==> !Candidate(s, t) then r == s.idle
    else
      && Candidate(s, r)
      && (s.policy.RoundRobin? ==> forall t: nat :: Candidate(s, t) ==>
              Distance(s.running, r) <= Distance(s.running, t))
      && (!s.policy.RoundRobin? && Window(s, base) ==> forall t: nat :: Candidate(s, t) ==> BestAgainst(s, r, t))
  }

  ghost predicate BestAgainst(s: State, r: nat, t: nat)
    requires Shape(s) && r < MAX_TASKS && t < MAX_TASKS
  {
    && !RunsBefore(s.policy, s.tasks[t], s.tasks[r])
    && (Distance(s.running, t) < Distance(s.running, r) ==> RunsBefore(s.policy, s.tasks[r], s.tasks[t]))
  }

  /** The scan so far: `best` is the pick among the candidates up to distance `n`. */
  ghost predicate Scanned(s: State, best: Option<nat>, n: nat, base: Uint32)
    requires Shape(s)
  {
    match best
    case None => forall t: nat :: Candidate(s, t) ==> Distance(s.running, t) > n
    case Some(r) =>
      && Candidate(s, r) && Distance(s.running, r) <= n
      && (Window(s, base) ==> forall t: nat :: Candidate(s, t) && Distance(s.running, t) <= n ==> BestAgainst(s, r, t))
  }

  lemma ScanNext(s: State, best: Option<nat>, n: nat, t: nat, base: Uint32)
    requires Shape(s) && Scanned(s, best, n, base) && t < MAX_TASKS && Distance(s.running, t) == n + 1
    ensures !Candidate(s, t) ==> Scanned(s, best, n + 1, base)
    ensures Candidate(s, t) && (best.None? || RunsBefore(s.policy, s.tasks[t], s.tasks[best.value])) ==>
              Scanned(s, Some(t), n + 1, base)
    ensures Candidate(s, t) && best.Some? && !RunsBefore(s.policy, s.tasks[t], s.tasks[best.value]) ==>
              Scanned(s, best, n + 1, base)
  {
    if Window(s, base) && Candidate(s, t) {
      forall x: nat | Candidate(s, x)
        ensures RunsBefore(s.policy, s.tasks[x], s.tasks[t]) <==> Ahead(s.policy, s.tasks[x], s.tasks[t], base)
        ensures RunsBefore(s.policy, s.tasks[t], s.tasks[x]) <==> Ahead(s.policy, s.tasks[t], s.tasks[x], base)
        ensures best.Some? ==> (RunsBefore(s.policy, s.tasks[x], s.tasks[best.value])
                                <==> Ahead(s.policy, s.tasks[x], s.tasks[best.value], base))
      {
        RunsBeforeIsAhead(s, x, t, base);
        RunsBeforeIsAhead(s, t, x, base);
        if best.Some? { RunsBeforeIsAhead(s, x, best.value, base); }
      }
      hide RunsBefore, RankClass, RankKey;
    }
  }

  /** Nobody should run sooner than `r`, and of those that need not either, `r` is the first behind the running
      task. */
  ghost predicate FirstInLine(s: State, r: nat, base: Uint32)
    requires Shape(s) && r < MAX_TASKS
  {
    forall t: nat :: Candidate(s, t) ==>
      && !Sooner(s.policy, s.tasks[t], s.tasks[r], base)
      && (Distance(s.running, t) < Distance(s.running, r) ==> Sooner(s.policy, s.tasks[r], s.tasks[t], base))
  }

  lemma PickIsFirst(s: State, r: nat, base: Uint32)
    requires Shape(s) && !s.policy.RoundRobin? && Window(s, base) && IsPick(s, r, base) && Candidate(s, r)
    ensures FirstInLine(s, r, base)
  {
    forall t: nat | Candidate(s, t)
      ensures !Sooner(s.policy, s.tasks[t], s.tasks[r], base)
      ensures Distance(s.running, t) < Distance(s.running, r) ==> Sooner(s.policy, s.tasks[r], s.tasks[t], base)
    {
      hide RunsBefore, Sooner, After, Distance;
      assert BestAgainst(s, r, t);
      RunsBeforeIsSooner(s.policy, s.tasks[t], s.tasks[r], base);
      RunsBeforeIsSooner(s.policy, s.tasks[r], s.tasks[t], base);
    }
  }

  /** Who runs next under earliest deadline first. */
  lemma EdfPick(s: State, r: nat, base: Uint32)
    requires Shape(s) && s.policy.Edf? && Window(s, base) && IsPick(s, r, base) && Candidate(s, r)
    ensures (exists t: nat :: Candidate(s, t) && s.tasks[t].priority >= 30) ==>
              && s.tasks[r].priority >= 30
              && forall t: nat :: Candidate(s, t) ==> s.tasks[t].priority <= s.tasks[r].priority
    ensures (forall t: nat :: Candidate(s, t) ==> s.tasks[t].priority < 30)
            && (exists t: nat :: Candidate(s, t) && s.tasks[t].period > 0) ==>
              && s.tasks[r].period > 0
              && forall t: nat :: Candidate(s, t) && s.tasks[t].period > 0 ==>
                   After(s.tasks[r].deadline, base) <= After(s.tasks[t].deadline, base)
    ensures (forall t: nat :: Candidate(s, t) ==> s.tasks[t].priority < 30 && s.tasks[t].period == 0) ==>
              forall t: nat :: Candidate(s, t) ==> s.tasks[t].priority <= s.tasks[r].priority
  {
    PickIsFirst(s, r, base);
    hide After, Distance, IsPick, Window;
  }

  /** `sched_pick_next`. */
  method PickNext(k: Kernel, ghost base: Uint32) returns (r: nat)
    requires Shape(k.S())
    ensures r < MAX_TASKS && IsPick(k.S(), r, base)
    ensures !k.policy.RoundRobin? && Window(k.S(), base) && Candidate(k.S(), r) ==> FirstInLine(k.S(), r, base)
  {
    hide RunsBefore, Window, BestAgainst, FirstInLine;
    ghost var s := k.S();
    var best: Option<nat> := None;
    for n := 1 to MAX_TASKS + 1
      invariant k.S() == s
      invariant s.policy.RoundRobin? ==> best.None?
      invariant Scanned(s, best, n - 1, base)
    {
      var t := (k.running + n) % MAX_TASKS;
      CircularSlot(k.running, n);
      ScanNext(s, best, n - 1, t, base);
      var runnable := k.tasks[t].state.Ready? || (t == k.running && k.tasks[t].state.Running?);
      if t == k.idle || !runnable {
        continue;
      }
      if k.policy.RoundRobin? {
        return t;
      }
      if best.None? || RunsBefore(k.policy, k.tasks[t], k.tasks[best.value]) {
        best := Some(t);
      }
    }
    r := if best.Some? then best.value else k.idle;
    if !s.policy.RoundRobin? && Window(s, base) && Candidate(s, r) { PickIsFirst(s, r, base); }
  }

  lemma CircularSlot(from: nat, n: nat)
    requires from < MAX_TASKS && 1 <= n <= MAX_TASKS
    ensures (from + n) % MAX_TASKS < MAX_TASKS && Distance(from, (from + n) % MAX_TASKS) == n
    ensures forall t :: 0 <= t < MAX_TASKS && Distance(from, t) == n ==> t == (from + n) % MAX_TASKS
  {}

  /** Under round robin, a switch to another task brings every waiting task closer to its turn. */
  lemma RoundRobinProgress(s: State, r: nat, base: Uint32, t: nat)
    requires Shape(s) && s.policy.RoundRobin? && IsPick(s, r, base)
    requires Candidate(s, t) && t != s.running && t != r
    ensures r != s.running && 1 <= Distance(r, t) < Distance(s.running, t)
  {
    assert Distance(s.running, r) <= Distance(s.running, t);
  }

  /** Task `t` stays ready at each of these calls of `schedule`, and is not picked: each call leaves
      the picked task running at the next one. */
  ghost predicate PassedOver(calls: seq<State>, picks: seq<nat>, t: nat) {
    && |picks| == |calls|
    && (forall i :: 0 <= i < |calls| ==>
          && Shape(calls[i]) && calls[i].policy.RoundRobin? && IsPick(calls[i], picks[i], 0) && picks[i] != t
          && Candidate(calls[i], t) && calls[i].running != t)
    && (forall i :: 0 <= i < |calls| - 1 ==> calls[i + 1].running == picks[i])
  }

  lemma {:induction false} PassedOverCloser(calls: seq<State>, picks: seq<nat>, t: nat, i: nat)
    requires PassedOver(calls, picks, t) && i < |calls|
    ensures 1 <= Distance(calls[i].running, t) <= MAX_TASKS - 1 - i
    decreases i
  {
    if i > 0 {
      PassedOverCloser(calls, picks, t, i - 1);
      RoundRobinProgress(calls[i - 1], picks[i - 1], 0, t);
    }
  }

  /** A task that stays ready is one of 16, and picked within 15 calls. */
  lemma BoundedWaiting(calls: seq<State>, picks: seq<nat>, t: nat)
    requires PassedOver(calls, picks, t)
    ensures |calls| < 15
  {
    if |calls| > 0 {
      PassedOverCloser(calls, picks, t, |calls| - 1);
      RoundRobinProgress(calls[|calls| - 1], picks[|calls| - 1], 0, t);
    }
  }

  // ---- switching ----

  function SetTask(s: State, t: nat, task: Task): (r: State)
    requires t < |s.tasks|
  {
    s.(tasks := s.tasks[t := task])
  }

  function SwitchTask(task: Task, isPrev: bool, isNext: bool): Task {
    if isNext then task.(state := Running, slice := QUANTUM_TICKS)
    else if isPrev && task.state.Running? then task.(state := Ready)
    else task
  }

  /** `schedule` once it has picked `next`, up to the switch. */
  ghost function Scheduled(s: State, next: nat): (r: State)
    requires Shape(s) && next < MAX_TASKS
    ensures Shape(r)
  {
    s.(tasks := seq(MAX_TASKS, t requires 0 <= t < MAX_TASKS => SwitchTask(s.tasks[t], t == s.running, t == next)),
       running := next, needResched := false)
  }

  /** `task_reap_zombies`. */
  ghost function Reaped(s: State): State {
    s.(tasks := seq(|s.tasks|, t requires 0 <= t < |s.tasks| =>
      if s.tasks[t].state.Zombie? && s.tasks[t].detached && t != s.running then s.tasks[t].(state := Unused)
      else s.tasks[t]))
  }

  /** Two tasks that differ only in ways that no mutex depends on. */
  ghost predicate SameView(a: Task, b: Task) {
    && a.priority == b.priority && a.base == b.base && a.killed == b.killed
    && a.waitMutex == b.waitMutex && a.mutexes == b.mutexes
    && (a.channel.OnMutex? <==> b.channel.OnMutex?)
    && (a.channel.OnMutex? ==>
          && a.channel == b.channel && (a.state.Blocked? <==> b.state.Blocked?)
          && (a.state in {Blocked, Ready, Running} ==> b.state in {Blocked, Ready, Running}))
    && (Gone(b) ==> Gone(a) && (a.channel == NoChannel ==> b.channel == NoChannel))
  }

  ghost predicate SameMutexView(s: State, r: State)
    requires Shape(s) && Shape(r)
  {
    r.mutexes == s.mutexes && forall t :: 0 <= t < MAX_TASKS ==> SameView(s.tasks[t], r.tasks[t])
  }

  lemma SameViewKeeps(s: State, r: State)
    requires Shape(s) && Shape(r) && SameMutexView(s, r) && OwnershipOk(s)
    ensures OwnershipOk(r) && PrioritiesKept(s, r)
  {
    forall m | 0 <= m < MAX_MUTEXES ensures MutexOk(r, m) {
      assert MutexOk(s, m);
      assert Holders(r.tasks, m) == Holders(s.tasks, m);
    }
    forall t | 0 <= t < MAX_TASKS ensures TaskOk(r, t) { assert TaskOk(s, t) && SameView(s.tasks[t], r.tasks[t]); }
    hide TaskOk, MutexOk;
    assert forall w, o :: 0 <= w < MAX_TASKS && 0 <= o < MAX_TASKS ==> Lends(s, w, o) == Lends(r, w, o);
    if Exact(s) {
      forall t | 0 <= t < MAX_TASKS && !r.tasks[t].killed ensures Justified(r, t) { assert Justified(s, t); }
    }
  }

  lemma ScheduledSched(s: State, next: nat, base: Uint32)
    requires Shape(s) && SchedOk(s) && next < MAX_TASKS && IsPick(s, next, base)
    ensures SchedOk(Scheduled(s, next)) && SameMutexView(s, Scheduled(s, next))
    ensures Scheduled(s, next).tasks[next].state.Running?
  {
    hide RunsBefore, Window, BestAgainst, Distance;
    assert Candidate(s, next) || next == s.idle;
    var r := Scheduled(s, next);
    forall t | 0 <= t < MAX_TASKS
      ensures SameView(s.tasks[t], r.tasks[t]) && (r.tasks[t].state.Running? ==> t == next)
      ensures r.tasks[t].isKernel == s.tasks[t].isKernel
    {
      SwitchSame(s.tasks[t], t == s.running, t == next);
    }
  }

  lemma SwitchSame(task: Task, isPrev: bool, isNext: bool)
    requires isNext ==> task.state.Ready? || task.state.Running?
    ensures SameView(task, SwitchTask(task, isPrev, isNext))
  {}

  lemma ScheduledDominates(s: State, next: nat, base: Uint32)
    requires Shape(s) && SchedOk(s) && next < MAX_TASKS && IsPick(s, next, base) && s.policy.RealTime?
    ensures Dominates(Scheduled(s, next))
  {
    hide Distance;
    var r := Scheduled(s, next);
    forall t | 0 <= t < MAX_TASKS && t != r.idle && r.tasks[t].state.Ready? && !r.tasks[t].killed
      ensures r.running != r.idle && r.tasks[t].priority <= r.tasks[r.running].priority
    {
      assert Candidate(s, t);
      assert BestAgainst(s, next, t);
    }
  }

  /** After a switch the best task runs: exactly one does, and under the real time policy none that
      is ready should preempt it. */
  lemma ScheduledKeeps(s: State, next: nat, base: Uint32)
    requires Core(s) && next < MAX_TASKS && IsPick(s, next, base)
    ensures Inv(Scheduled(s, next)) && PrioritiesKept(s, Scheduled(s, next))
    ensures s.policy.RealTime? ==> Dominates(Scheduled(s, next))
  {
    hide OwnershipOk, Inherits, Exact, IsPick, Dominates, SchedOk;
    var r := Scheduled(s, next);
    ScheduledSched(s, next, base);
    SameViewKeeps(s, r);
    if s.policy.RealTime? { ScheduledDominates(s, next, base); }
  }

  lemma ReapedKeeps(s: State)
    requires Inv(s)
    ensures Inv(Reaped(s)) && PrioritiesKept(s, Reaped(s)) && (Dominates(s) ==> Dominates(Reaped(s)))
  {
    SameViewKeeps(s, Reaped(s));
    hide OwnershipOk, Inherits, Exact;
  }

  method Reap(k: Kernel)
    requires k.Sized()
    modifies k.tasks
    ensures k.S() == Reaped(old(k.S()))
  {
    for t := 0 to MAX_TASKS
      invariant forall i :: t <= i < MAX_TASKS ==> k.tasks[i] == old(k.tasks[i])
      invariant forall i :: 0 <= i < t ==> k.tasks[i] == Reaped(old(k.S())).tasks[i]
    {
      if k.tasks[t].state.Zombie? && k.tasks[t].detached && t != k.running {
        k.tasks[t] := k.tasks[t].(state := Unused);
      }
    }
    assert k.tasks[..] == Reaped(old(k.S())).tasks;
  }

  /** From `s` on, the scheduler switched to the task it picked. */
  ghost predicate Switched(s: State, x: State, base: Uint32)
    requires Shape(s)
  {
    && x.running < MAX_TASKS && IsPick(s, x.running, base)
    && x == if x.running == s.running then Scheduled(s, x.running) else Reaped(Scheduled(s, x.running))
  }

  /** `schedule`; the running task is in its new state already. */
  method Schedule(k: Kernel, ghost base: Uint32)
    requires Core(k.S())
    modifies k, k.tasks
    ensures k.nextPid == old(k.nextPid) && k.idle == old(k.idle) && k.policy == old(k.policy)
    ensures Switched(old(k.S()), k.S(), base)
    ensures Inv(k.S()) && PrioritiesKept(old(k.S()), k.S())
    ensures !k.needResched && (k.policy.RealTime? ==> Dominates(k.S()))
  {
    hide OwnershipOk, Inherits, IsPick, Inv, Exact, Dominates, SchedOk;
    ghost var s := k.S();
    var next := PickNext(k, base);
    ScheduledKeeps(s, next, base);
    var prev := k.running;
    k.needResched := false;
    k.tasks[next] := k.tasks[next].(slice := QUANTUM_TICKS);
    if next == prev {
      k.tasks[prev] := k.tasks[prev].(state := Running);
      assert k.tasks[..] == Scheduled(s, next).tasks;
      return;
    }
    if k.tasks[prev].state.Running? {
      k.tasks[prev] := k.tasks[prev].(state := Ready);
    }
    k.tasks[next] := k.tasks[next].(state := Running);
    k.running := next;
    assert k.tasks[..] == Scheduled(s, next).tasks;
    ReapedKeeps(Scheduled(s, next));
    Reap(k);
  }

  // ---- waking ----

  predicate Preempting(s: State, t: nat)
    requires s.running < |s.tasks| && t < |s.tasks|
  {
    s.running == s.idle || (!s.policy.RoundRobin? && RunsBefore(s.policy, s.tasks[t], s.tasks[s.running]))
  }

  /** When a task that is awake asks for a switch: if nothing runs, or if it should run sooner. */
  lemma PreemptingIsSooner(s: State, t: nat, base: Uint32)
    requires Shape(s) && t < MAX_TASKS
    requires s.policy.Edf? ==> InWindow(s.tasks[t], base) && InWindow(s.tasks[s.running], base)
    ensures Preempting(s, t) <==>
            || s.running == s.idle
            || (!s.policy.RoundRobin? && Sooner(s.policy, s.tasks[t], s.tasks[s.running], base))
  {
    RunsBeforeIsSooner(s.policy, s.tasks[t], s.tasks[s.running], base);
  }

  /** `sched_wake`. */
  function Woken(s: State, t: nat): (r: State)
    requires s.running < |s.tasks| && t < |s.tasks|
  {
    SetTask(s, t, s.tasks[t].(state := Ready)).(needResched := s.needResched || Preempting(s, t))
  }

  /** What keeps holding while the running task works. */
  ghost predicate Working(s: State) { Core(s) && Preempts(s) }

  /** A task waiting for anything but a mutex. */
  predicate Wakeable(t: Task) {
    t.state in {Loading, Sleeping, WaitingKey, WaitingChild, Blocked} && !t.channel.OnMutex?
  }

  lemma WakeKeeps(s: State, t: nat)
    requires Working(s) && t < MAX_TASKS && t != s.running && Wakeable(s.tasks[t])
    ensures Working(Woken(s, t)) && PrioritiesKept(s, Woken(s, t))
  {
    WakeOwnership(s, t);
    WakeInherits(s, t);
    WakePreempts(s, t);
    hide OwnershipOk, Inherits, Preempts, SchedOk, Exact, Woken;
  }

  lemma WakeInherits(s: State, t: nat)
    requires Shape(s) && OwnershipOk(s) && t < MAX_TASKS && Wakeable(s.tasks[t])
    ensures Shape(Woken(s, t)) && PrioritiesKept(s, Woken(s, t))
  {
    hide Preempting;
    var r := Woken(s, t);
    assert forall w, o :: 0 <= w < MAX_TASKS && 0 <= o < MAX_TASKS ==> (Lends(r, w, o) <==> Lends(s, w, o));
    if Exact(s) {
      forall u | 0 <= u < MAX_TASKS && !r.tasks[u].killed ensures Justified(r, u) { assert Justified(s, u); }
    }
  }

  lemma WakePreempts(s: State, t: nat)
    requires Shape(s) && SchedOk(s) && Preempts(s) && t < MAX_TASKS && t != s.running && Wakeable(s.tasks[t])
    ensures Shape(Woken(s, t)) && SchedOk(Woken(s, t)) && Preempts(Woken(s, t))
  {}

  lemma WakeOwnership(s: State, t: nat)
    requires Shape(s) && OwnershipOk(s) && t < MAX_TASKS && Wakeable(s.tasks[t])
    ensures OwnershipOk(Woken(s, t))
  {
    var r := Woken(s, t);
    forall m | 0 <= m < MAX_MUTEXES ensures MutexOk(r, m) {
      assert MutexOk(s, m);
      assert Holders(r.tasks, m) == Holders(s.tasks, m);
    }
    forall u | 0 <= u < MAX_TASKS ensures TaskOk(r, u) { assert TaskOk(s, u); }
  }

  method Wake(k: Kernel, t: nat)
    requires Shape(k.S()) && t < MAX_TASKS
    modifies k`needResched, k.tasks
    ensures k.S() == Woken(old(k.S()), t)
  {
    hide RunsBefore;
    k.tasks[t] := k.tasks[t].(state := Ready);
    if k.running == k.idle || (!k.policy.RoundRobin? && RunsBefore(k.policy, k.tasks[t], k.tasks[k.running])) {
      k.needResched := true;
    }
    SameOrder(k.policy, old(k.tasks[t]), k.tasks[t], old(k.tasks[k.running]), k.tasks[k.running]);
  }

  /** The order of two tasks does not depend on their states. */
  lemma SameOrder(policy: Policy, a: Task, x: Task, b: Task, y: Task)
    requires x == a.(state := x.state) && y == b.(state := y.state)
    ensures RunsBefore(policy, a, b) == RunsBefore(policy, x, y)
  {}

  /** Whether the sleep of a task is over at tick `now`. */
  predicate Due(t: Task, now: Uint32) { t.state.Sleeping? && !Earlier(now, t.wakeTick) }

  /** What a timer tick does. */
  ghost predicate Ticked(s: State, r: State, now: Uint32)
    requires Shape(s) && Shape(r)
  {
    && r == s.(tasks := r.tasks, needResched := r.needResched)
    && (forall t :: 0 <= t < MAX_TASKS ==> r.tasks[t] == TickedTask(s, t, now))
    && (r.needResched <==> s.needResched || (s.running != s.idle && s.tasks[s.running].slice <= 1)
                           || exists t :: 0 <= t < MAX_TASKS && Due(s.tasks[t], now) && Preempting(s, t))
  }

  ghost function TickedTask(s: State, t: nat, now: Uint32): Task
    requires Shape(s) && t < MAX_TASKS
  {
    var u := s.tasks[t];
    if Due(u, now) then u.(state := Ready) else if t == s.running && t != s.idle then u.(slice := u.slice - 1) else u
  }

  /** A tick asks for a switch at the end of the time slice, and for a sleeper whose time has come and who should
      run sooner than the running task. */
  lemma TickAsks(s: State, r: State, now: Uint32, base: Uint32)
    requires Shape(s) && Shape(r) && Ticked(s, r, now) && s.running != s.idle && !s.policy.RoundRobin?
    requires s.policy.Edf? ==> forall t :: 0 <= t < MAX_TASKS ==> InWindow(s.tasks[t], base)
    requires forall t :: 0 <= t < MAX_TASKS && s.tasks[t].state.Sleeping? ==>
               After(s.tasks[t].wakeTick, base) < 0x8000_0000
    requires After(now, base) < 0x8000_0000
    ensures r.needResched <==>
            || s.needResched || s.tasks[s.running].slice <= 1
            || exists t :: 0 <= t < MAX_TASKS && s.tasks[t].state.Sleeping?
                           && After(s.tasks[t].wakeTick, base) <= After(now, base)
                           && Sooner(s.policy, s.tasks[t], s.tasks[s.running], base)
  {
    hide Preempting, Sooner, After, Earlier;
    forall t | 0 <= t < MAX_TASKS
      ensures Preempting(s, t) <==> Sooner(s.policy, s.tasks[t], s.tasks[s.running], base)
      ensures Due(s.tasks[t], now) <==>
              s.tasks[t].state.Sleeping? && After(s.tasks[t].wakeTick, base) <= After(now, base)
    {
      PreemptingIsSooner(s, t, base);
      if s.tasks[t].state.Sleeping? { EarlierIsLess(now, s.tasks[t].wakeTick, base); }
    }
  }

  /** `sched_tick`: wakes the sleepers whose time has come, and takes a tick off the time slice. */
  method Tick(k: Kernel, now: Uint32)
    requires Inv(k.S())
    modifies k`needResched, k.tasks
    ensures Inv(k.S()) && PrioritiesKept(old(k.S()), k.S())
    ensures Ticked(old(k.S()), k.S(), now)
  {
    hide Preempting, Working, Inv, Exact, Earlier, Ticked;
    ghost var s := k.S();
    ghost var woke := false;
    InvWorking(s);
    for t := 0 to MAX_TASKS
      invariant Working(k.S()) && PrioritiesKept(s, k.S())
      invariant k.tasks[k.running] == s.tasks[k.running] && k.tasks[k.running].state.Running?
      invariant forall i :: 0 <= i < MAX_TASKS ==>
                  k.tasks[i] == if i < t && Due(s.tasks[i], now) then s.tasks[i].(state := Ready) else s.tasks[i]
      invariant woke <==> exists i :: 0 <= i < t && Due(s.tasks[i], now) && Preempting(s, i)
      invariant k.needResched <==> s.needResched || woke
    {
      if k.tasks[t].state.Sleeping? && !Earlier(now, k.tasks[t].wakeTick) {
        assert TaskOk(k.S(), t) by { WorkingRunning(k.S()); }
        WakeKeeps(k.S(), t);
        SamePreempting(s, k.S(), t);
        Wake(k, t);
      }
      woke := woke || (Due(s.tasks[t], now) && Preempting(s, t));
    }
    ghost var mid := k.S();
    SlicedKeeps(mid);
    if k.running != k.idle {
      k.tasks[k.running] := k.tasks[k.running].(slice := k.tasks[k.running].slice - 1);
      if k.tasks[k.running].slice <= 0 {
        k.needResched := true;
      }
    }
    assert k.S() == Sliced(mid);
    TickDone(s, mid, now, woke);
  }

  /** One tick after the other, the task that was switched to being the running one. */
  ghost predicate Ticking(s: State, states: seq<State>, ticks: seq<Uint32>) {
    && Shape(s) && s.running != s.idle && |states| == |ticks| + 1 && states[0] == s
    && forall i :: 0 <= i < |ticks| ==> TickAt(states, ticks, i)
  }

  ghost predicate TickAt(states: seq<State>, ticks: seq<Uint32>, i: nat)
    requires i < |ticks| < |states|
  {
    Shape(states[i]) && Shape(states[i + 1]) && Ticked(states[i], states[i + 1], ticks[i])
  }

  /** Whether tick `i` wakes a task that should run at once. */
  ghost predicate WakesSooner(states: seq<State>, ticks: seq<Uint32>, i: nat)
    requires i < |ticks| < |states|
  {
    Shape(states[i])
    && exists t :: 0 <= t < MAX_TASKS && Due(states[i].tasks[t], ticks[i]) && Preempting(states[i], t)
  }

  /** A task that was switched to is asked to make way at its fifth tick, and not before but for a task that is
      woken and should run sooner. */
  lemma {:induction false} FiveTicks(s: State, next: nat, states: seq<State>, ticks: seq<Uint32>, n: nat)
    requires Shape(s) && next < MAX_TASKS && Ticking(Scheduled(s, next), states, ticks) && n <= |ticks|
    ensures Shape(states[n]) && states[n].running == next && states[n].idle == s.idle
    ensures states[n].tasks[next].state.Running? && states[n].tasks[next].slice == 5 - n
    ensures n >= 5 ==> states[n].needResched
    ensures n < 5 && (forall i :: 0 <= i < n ==> !WakesSooner(states, ticks, i)) ==> !states[n].needResched
  {
    hide Preempting, Due;
    if n > 0 {
      FiveTicks(s, next, states, ticks, n - 1);
      assert TickAt(states, ticks, n - 1);
      NotDue(states[n - 1].tasks[next], ticks[n - 1]);
      if n < 5 && forall i :: 0 <= i < n ==> !WakesSooner(states, ticks, i) {
        assert !WakesSooner(states, ticks, n - 1) && !states[n - 1].needResched;
      }
    }
  }

  lemma NotDue(t: Task, now: Uint32)
    requires t.state.Running?
    ensures !Due(t, now)
  {}

  lemma TickDone(s: State, mid: State, now: Uint32, woke: bool)
    requires Shape(s) && Shape(mid) && mid == s.(tasks := mid.tasks, needResched := mid.needResched)
    requires mid.tasks[s.running] == s.tasks[s.running] && s.tasks[s.running].state.Running?
    requires forall i :: 0 <= i < MAX_TASKS ==>
               mid.tasks[i] == if Due(s.tasks[i], now) then s.tasks[i].(state := Ready) else s.tasks[i]
    requires woke <==> exists i :: 0 <= i < MAX_TASKS && Due(s.tasks[i], now) && Preempting(s, i)
    requires mid.needResched <==> s.needResched || woke
    ensures Shape(Sliced(mid)) && Ticked(s, Sliced(mid), now)
  {
    hide Preempting, Earlier;
  }

  lemma InvWorking(s: State)
    requires Inv(s)
    ensures Working(s) && Shape(s) && s.tasks[s.running].state.Running?
  {}

  lemma WorkingRunning(s: State)
    requires Working(s)
    ensures Shape(s) && forall t :: 0 <= t < MAX_TASKS ==> TaskOk(s, t)
  {}

  lemma SamePreempting(s: State, r: State, t: nat)
    requires Shape(s) && Shape(r) && t < MAX_TASKS && r.running == s.running && r.idle == s.idle && r.policy == s.policy
    requires r.tasks[t] == s.tasks[t] && r.tasks[r.running] == s.tasks[s.running]
    ensures Preempting(r, t) == Preempting(s, t)
  {}

  /** A tick less of the running task's time slice. */
  function Sliced(s: State): State
    requires s.running < |s.tasks|
  {
    if s.running == s.idle then s
    else
      var slice := s.tasks[s.running].slice - 1;
      SetTask(s, s.running, s.tasks[s.running].(slice := slice)).(needResched := s.needResched || slice <= 0)
  }

  lemma SlicedKeeps(s: State)
    requires Working(s) && s.tasks[s.running].state.Running?
    ensures Inv(Sliced(s)) && PrioritiesKept(s, Sliced(s))
  {
    SameViewKeeps(s, Sliced(s));
    hide OwnershipOk, Inherits, Exact;
  }
}
