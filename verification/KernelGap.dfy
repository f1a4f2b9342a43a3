// Runs of the kernel in which priorities go wrong: a task that waits for an owner has its priority set, or is
// killed.
module KernelGap {
  import opened Options
  import opened KernelState
  import opened KernelSched
  import opened KernelMutex
  import opened KernelLocks
  import opened KernelTasks
  import opened KernelRun

  /** Tasks 1 to 3 and mutex 0; nothing else is there but the idle thread. */
  function Desk(t1: Task, t2: Task, t3: Task, mutex: Mutex, running: nat, resched: bool): State {
    State(seq(MAX_TASKS, i requires 0 <= i < MAX_TASKS => DeskTask(i, t1, t2, t3)),
          seq(MAX_MUTEXES, i requires 0 <= i < MAX_MUTEXES => if i == 0 then mutex else NoMutex()),
          running, 0, RoundRobin, resched)
  }

  function DeskTask(i: nat, t1: Task, t2: Task, t3: Task): Task {
    if i == 1 then t1 else if i == 2 then t2 else if i == 3 then t3 else BootTask(i)
  }

  lemma DeskSet(t1: Task, t2: Task, t3: Task, mutex: Mutex, running: nat, resched: bool, t: nat, task: Task)
    requires 1 <= t <= 3
    ensures SetTask(Desk(t1, t2, t3, mutex, running, resched), t, task)
            == Desk(if t == 1 then task else t1, if t == 2 then task else t2, if t == 3 then task else t3, mutex,
                    running, resched)
  {}

  lemma DeskMutex(t1: Task, t2: Task, t3: Task, mutex: Mutex, running: nat, resched: bool, now: Mutex)
    ensures var s := Desk(t1, t2, t3, mutex, running, resched);
            s.(mutexes := s.mutexes[0 := now]) == Desk(t1, t2, t3, now, running, resched)
  {}

  lemma DeskHeld(t1: Task, t2: Task, t3: Task, mutex: Mutex, running: nat, resched: bool)
    requires 2 <= running <= 3 && (running == 2 ==> t2.mutexes == {}) && (running == 3 ==> t3.mutexes == {})
    ensures Held(Desk(t1, t2, t3, mutex, running, resched), 0)
            == Desk(t1, if running == 2 then t2.(mutexes := {0}) else t2,
                    if running == 3 then t3.(mutexes := {0}) else t3, mutex.(refs := mutex.refs + 1), running, resched)
  {
    var s := Desk(t1, t2, t3, mutex, running, resched);
    assert s.tasks[running].mutexes + {0} == {0};
    DeskSet(t1, t2, t3, mutex, running, resched, running, s.tasks[running].(mutexes := {0}));
    assert Held(s, 0).mutexes == s.mutexes[0 := mutex.(refs := mutex.refs + 1)];
  }

  predicate Quiet(t: Task) { !t.state.Zombie? }

  /** Switching on the desk: the first of the tasks 1 to 3 behind the running one that can run. */
  lemma DeskSwitched(t1: Task, t2: Task, t3: Task, mutex: Mutex, running: nat, resched: bool, next: nat, base: Uint32)
    requires 1 <= running <= 3 && 1 <= next <= 3 && running != next && Quiet(t1) && Quiet(t2) && Quiet(t3)
    requires var s := Desk(t1, t2, t3, mutex, running, resched);
             Candidate(s, next) && forall t: nat :: 1 <= t <= 3 && Candidate(s, t) ==>
               Distance(running, next) <= Distance(running, t)
    ensures Switched(Desk(t1, t2, t3, mutex, running, resched),
                     Desk(SwitchTask(t1, running == 1, next == 1), SwitchTask(t2, running == 2, next == 2),
                          SwitchTask(t3, running == 3, next == 3), mutex, next, false), base)
  {
    var s := Desk(t1, t2, t3, mutex, running, resched);
    var x := Desk(SwitchTask(t1, running == 1, next == 1), SwitchTask(t2, running == 2, next == 2),
                  SwitchTask(t3, running == 3, next == 3), mutex, next, false);
    forall t: nat | Candidate(s, t) ensures 1 <= t <= 3 {}
    assert IsPick(s, next, base);
    assert Scheduled(s, next).tasks == x.tasks;
    assert Reaped(Scheduled(s, next)).tasks == x.tasks;
  }

  // ---- the run ----

  function Init(): Task { BootTask(1) }

  function InitBlocked(): Task { Init().(channel := OnOther(7), state := Blocked) }

  /** The task that comes to own the mutex, from when it is spawned on. */
  function Owner0(): Task { NewTask(2, 5, false).(parent := 1, state := Ready) }

  function Owner1(): Task { Owner0().(state := Running, slice := QUANTUM_TICKS) }

  function Owner2(): Task { Owner1().(mutexes := {0}) }

  function Owner3(): Task { Owner2().(state := Ready) }

  function Owner4(p: nat): Task { Owner2().(priority := p) }

  /** The task that comes to wait for it, with priority `p`. */
  function Waiter0(p: nat): Task { NewTask(3, p, false).(parent := 1, state := Ready) }

  function Waiter1(p: nat): Task { Waiter0(p).(state := Running, slice := QUANTUM_TICKS) }

  function Waiter2(p: nat): Task { Waiter1(p).(mutexes := {0}) }

  function Waiter3(p: nat): Task { Waiter2(p).(state := Blocked, channel := OnMutex(0), waitMutex := Some(0)) }

  function OneMutex(refs: nat, owner: Option<nat>): Mutex { Mutex("m", refs, true, owner) }

  /** Task 3 waits with priority `p` for task 2, which has it from there, and runs. */
  function GapState(p: nat): State { Desk(InitBlocked(), Owner4(p), Waiter3(p), OneMutex(2, Some(2)), 2, false) }

  /** How that comes about. */
  function Story(p: nat): seq<State> {
    [ BootState(),
      Desk(Init(), Owner0(), BootTask(3), NoMutex(), 1, false),
      Desk(Init(), Owner0(), Waiter0(p), NoMutex(), 1, false),
      Desk(InitBlocked(), Owner1(), Waiter0(p), NoMutex(), 2, false),
      Desk(InitBlocked(), Owner2(), Waiter0(p), OneMutex(1, None), 2, false),
      Desk(InitBlocked(), Owner2(), Waiter0(p), OneMutex(1, Some(2)), 2, false),
      Desk(InitBlocked(), Owner2(), Waiter0(p), OneMutex(1, Some(2)), 2, true),
      Desk(InitBlocked(), Owner3(), Waiter1(p), OneMutex(1, Some(2)), 3, false),
      Desk(InitBlocked(), Owner3(), Waiter2(p), OneMutex(2, Some(2)), 3, false),
      GapState(p) ]
  }

  function Plot(p: nat): seq<Step> {
    [ SpawnTask(5, false, true), SpawnTask(p, false, true), BlockTask(7), OpenMutex("m", true), LockMutex(0),
      ChangePolicy(RoundRobin), Return([]), OpenMutex("m", true), LockMutex(0) ]
  }

  lemma BootIsDesk()
    ensures BootState() == Desk(Init(), BootTask(2), BootTask(3), NoMutex(), 1, false)
  {}

  lemma Spawned(s: State, r: State, nextPid: nat, level: nat, slot: nat, base: Uint32)
    requires Shape(s) && Shape(r) && SpawnDone(s, r, nextPid, level, false, true, nextPid, slot)
    requires level <= PRIORITY_MAX
    requires MayCall(s)
    ensures Stepped(s, r, SpawnTask(level, false, true), base)
  {
    hide SpawnDone;
    assert SomeSpawn(s, r, level, false, true);
  }

  lemma Begin(p: nat, base: Uint32)
    requires 5 <= p <= PRIORITY_USER_MAX
    ensures Stepped(Story(p)[0], Story(p)[1], SpawnTask(5, false, true), base)
    ensures Stepped(Story(p)[1], Story(p)[2], SpawnTask(p, false, true), base)
  {
    BootIsDesk();
    var s0, s1, s2 := Story(p)[0], Story(p)[1], Story(p)[2];
    DeskSet(Init(), BootTask(2), BootTask(3), NoMutex(), 1, false, 2, Owner0().(state := Loading));
    DeskSet(Init(), Owner0().(state := Loading), BootTask(3), NoMutex(), 1, false, 2, Owner0());
    Spawned(s0, s1, 2, 5, 2, base);
    DeskSet(Init(), Owner0(), BootTask(3), NoMutex(), 1, false, 3, Waiter0(p).(state := Loading));
    DeskSet(Init(), Owner0(), Waiter0(p).(state := Loading), NoMutex(), 1, false, 3, Waiter0(p));
    Spawned(s1, s2, 3, p, 3, base);
  }

  /** The first task blocks, and the next one opens the mutex and locks it. */
  lemma Locks(p: nat, base: Uint32)
    requires 5 <= p <= PRIORITY_USER_MAX
    ensures Stepped(Story(p)[2], Story(p)[3], BlockTask(7), base)
    ensures Stepped(Story(p)[3], Story(p)[4], OpenMutex("m", true), base)
    ensures Stepped(Story(p)[4], Story(p)[5], LockMutex(0), base)
  {
    var w := Waiter0(p);
    DeskSet(Init(), Owner0(), w, NoMutex(), 1, false, 1, InitBlocked());
    DeskSwitched(InitBlocked(), Owner0(), w, NoMutex(), 1, false, 2, base);
    DeskMutex(InitBlocked(), Owner1(), w, NoMutex(), 2, false, OneMutex(0, None));
    DeskHeld(InitBlocked(), Owner1(), w, OneMutex(0, None), 2, false);
    assert Opened(Story(p)[3], Story(p)[4], "m", true, 0) by {
      assert Story(p)[3].mutexes[0].refs == 0;
    }
    DeskMutex(InitBlocked(), Owner2(), w, OneMutex(1, None), 2, false, OneMutex(1, Some(2)));
    assert LockDone(Story(p)[4], Story(p)[5], 0, false, OK, base);
  }

  /** It is preempted, and the other one opens the mutex too. */
  lemma Opens(p: nat, base: Uint32)
    requires 5 <= p <= PRIORITY_USER_MAX
    ensures Stepped(Story(p)[5], Story(p)[6], ChangePolicy(RoundRobin), base)
    ensures Stepped(Story(p)[6], Story(p)[7], Return([]), base)
    ensures Stepped(Story(p)[7], Story(p)[8], OpenMutex("m", true), base)
  {
    var w := Waiter0(p);
    DeskSwitched(InitBlocked(), Owner2(), w, OneMutex(1, Some(2)), 2, true, 3, base);
    DeskHeld(InitBlocked(), Owner3(), Waiter1(p), OneMutex(1, Some(2)), 3, false);
    assert Opened(Story(p)[7], Story(p)[8], "m", true, 0) by {
      assert Named(Story(p)[7], 0, "m");
    }
  }

  /** It waits, and the owner has its priority. */
  lemma Waits(p: nat, base: Uint32)
    requires 5 <= p <= PRIORITY_USER_MAX
    ensures Stepped(Story(p)[8], GapState(p), LockMutex(0), base)
  {
    var s, m := Story(p)[8], OneMutex(2, Some(2));
    var raised := Desk(InitBlocked(), Owner3().(priority := p), Waiter2(p), m, 3, false);
    DeskSet(InitBlocked(), Owner3(), Waiter2(p), m, 3, false, 2, Owner3().(priority := p));
    assert BoostedBy(s, Some(2), p, MAX_TASKS) == raised;
    DeskSet(InitBlocked(), Owner3().(priority := p), Waiter2(p), m, 3, false, 3, Waiter3(p));
    DeskSwitched(InitBlocked(), Owner3().(priority := p), Waiter3(p), m, 3, false, 2, base);
    assert BlocksVia(s, raised, GapState(p), 0, base);
    assert LockDone(s, GapState(p), 0, true, OK, base);
  }

  /** The states are those of a run from the start of the kernel. */
  ghost predicate Reached(s: State, base: Uint32) {
    exists seen, steps :: ReachedBy(seen, steps, s, base)
  }

  ghost predicate ReachedBy(seen: seq<State>, steps: seq<Step>, s: State, base: Uint32) {
    && |seen| == |steps| + 1 && seen[0] == BootState() && seen[|steps|] == s
    && (forall i :: 0 <= i < |seen| ==> Shape(seen[i]))
    && forall i :: 0 <= i < |steps| ==> Stepped(seen[i], seen[i + 1], steps[i], base)
  }

  lemma GapReached(p: nat, base: Uint32)
    requires 5 <= p <= PRIORITY_USER_MAX
    ensures Reached(GapState(p), base)
  {
    hide Stepped, Desk, GapState;
    var seen, steps := Story(p), Plot(p);
    StoryShape(p);
    Begin(p, base);
    Locks(p, base);
    Opens(p, base);
    Waits(p, base);
    forall i | 0 <= i < |steps| ensures Stepped(seen[i], seen[i + 1], steps[i], base) {
      if i < 2 { assert i == 0 || i == 1; } else if i < 5 { assert i == 2 || i == 3 || i == 4; }
    }
    assert ReachedBy(seen, steps, GapState(p), base);
  }

  lemma StoryShape(p: nat)
    ensures forall i :: 0 <= i < |Story(p)| ==> Shape(Story(p)[i])
  {}

  // ---- where it leads ----

  lemma GapTasks(p: nat)
    requires 5 <= p <= PRIORITY_USER_MAX
    ensures Shape(GapState(p)) && forall t :: 0 <= t < MAX_TASKS ==> TaskOk(GapState(p), t)
    ensures GapState(p).tasks[2] == Owner4(p) && GapState(p).tasks[3] == Waiter3(p)
  {
    forall t | 0 <= t < MAX_TASKS ensures TaskOk(GapState(p), t) {}
  }

  lemma GapMutexes(p: nat)
    requires 5 <= p <= PRIORITY_USER_MAX
    ensures Shape(GapState(p)) && forall m :: 0 <= m < MAX_MUTEXES ==> MutexOk(GapState(p), m)
  {
    var s := GapState(p);
    GapTasks(p);
    forall m | 0 <= m < MAX_MUTEXES ensures MutexOk(s, m) {
      if m == 0 {
        assert Holders(s.tasks, 0) == {2, 3} && s.mutexes[0] == OneMutex(2, Some(2));
      } else {
        assert Holders(s.tasks, m) == {} && s.mutexes[m] == NoMutex();
      }
    }
  }

  /** Only task 3 waits for a mutex. */
  lemma GapLends(p: nat)
    requires 5 <= p <= PRIORITY_USER_MAX
    ensures forall w, o :: 0 <= w < MAX_TASKS && 0 <= o < MAX_TASKS ==> (Lends(GapState(p), w, o) <==> w == 3 && o == 2)
  {
    GapTasks(p);
  }

  lemma GapIsActive(p: nat)
    requires 5 <= p <= PRIORITY_USER_MAX
    ensures Active(GapState(p)) && Inherits(GapState(p)) && Exact(GapState(p))
  {
    GapTasks(p);
    GapMutexes(p);
    GapLends(p);
    var s := GapState(p);
    assert forall m :: 0 < m < MAX_MUTEXES ==> s.mutexes[m] == NoMutex();
    assert Core(s);
    forall t | 0 <= t < MAX_TASKS && !s.tasks[t].killed ensures Justified(s, t) {
      if t == 2 { assert Lends(s, 3, 2) && s.tasks[3].priority == s.tasks[2].priority; }
    }
  }

  /** In a run from the start of the kernel, the owner of a mutex sets the priority of the task that waits for
      it, and is left below it. */
  lemma SetPriorityGap(base: Uint32)
    ensures exists s, r ::
              && Reached(s, base) && Active(s) && Inherits(s) && Exact(s)
              && Shape(r) && Stepped(s, r, SetPrio(3, 20), base) && !Inherits(r)
  {
    var s := GapState(5);
    GapReached(5, base);
    GapIsActive(5);
    GapTasks(5);
    GapLends(5);
    var r := Rebased(s, 3, 20, 20).(needResched := true);
    PriorityStep(s, r, base);
    assert r.tasks[3].priority == 20 && r.tasks[2].priority == 5;
    assert Lends(r, 3, 2) by { assert Lends(s, 3, 2); }
  }

  lemma PriorityStep(s: State, r: State, base: Uint32)
    requires s == GapState(5) && r == Rebased(s, 3, 20, 20).(needResched := true)
    ensures Shape(r) && Stepped(s, r, SetPrio(3, 20), base)
  {
    GapTasks(5);
    GapLends(5);
    assert IsDue(WithBase(s, 3, 20), 3, 20) by {
      assert forall w :: 0 <= w < MAX_TASKS ==> (Lends(WithBase(s, 3, 20), w, 3) <==> Lends(s, w, 3));
    }
    assert SetsPriorityOf(s, 3, 3);
    assert PriorityBy(s, r, 3, 20, 3);
  }

  /** In a run from the start of the kernel, the owner kills the task that waits for it, and keeps a priority
      that nobody asks for any more. */
  lemma KillGap(base: Uint32)
    ensures exists s, r ::
              && Reached(s, base) && Active(s) && Inherits(s) && Exact(s)
              && Shape(r) && Stepped(s, r, KillTask(3), base) && !Exact(r)
  {
    hide GapState, OwnershipOk, SchedOk, Preempts, Exact, Inherits, Reached, Killed, Stepped, Lends;
    var s := GapState(20);
    GapReached(20, base);
    GapIsActive(20);
    KillStep(s, base);
    KilledExactly(s, 3);
  }

  lemma KillStep(s: State, base: Uint32)
    requires s == GapState(20)
    ensures Shape(s) && Shape(Killed(s, 3)) && Stepped(s, Killed(s, 3), KillTask(3), base)
    ensures !Gone(s.tasks[3]) && !LoanNotNeeded(s, 3)
  {
    GapTasks(20);
    GapLends(20);
    assert IsTask(s.tasks, 3, false, 3);
    assert KillsBy(s, Killed(s, 3), 3, 3);
    assert Lends(s, 3, 2);
  }
}
