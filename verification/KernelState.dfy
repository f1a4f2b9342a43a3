// The state of the task kernel: the task table, the mutexes and the scheduler's variables.
module KernelState {
  import opened Options

  const MAX_TASKS := 16
  const MAX_MUTEXES := 32
  const PRIORITY_MAX := 31
  const PRIORITY_SHELL := 30
  const QUANTUM_TICKS := 5

  const OK := 0
  const NO_MEMORY_ERROR := -2
  const INVALID_ARG_ERROR := -3
  const TASK_KILLED := -1

  datatype TaskState = Unused | Loading | Ready | Running | Sleeping | WaitingKey | WaitingChild | Blocked | Zombie

  datatype Policy = RoundRobin | RealTime | Edf

  /** What a blocked task waits for: a mutex, or something else such as a pipe. */
  datatype Channel = NoChannel | OnMutex(id: nat) | OnOther(channel: nat)

  type Uint32 = x: int | 0 <= x < 0x1_0000_0000

  datatype Task = Task(pid: int, state: TaskState, priority: nat, base: nat, isKernel: bool, killed: bool,
                       detached: bool,
                       parent: int, waitPid: int, exitCode: int, channel: Channel, waitMutex: Option<nat>,
                       mutexes: set<nat>, wakeTick: Uint32, period: Uint32, deadline: Uint32, slice: int)

  datatype Mutex = Mutex(name: string, refs: nat, inherit: bool, owner: Option<nat>)

  datatype State = State(tasks: seq<Task>, mutexes: seq<Mutex>, running: nat, idle: nat, policy: Policy,
                         needResched: bool)

  ghost predicate Shape(s: State) {
    |s.tasks| == MAX_TASKS && |s.mutexes| == MAX_MUTEXES && s.running < MAX_TASKS && s.idle < MAX_TASKS
  }

  /** A slot without a task, or one with a task that is not there yet or not any more. */
  predicate Gone(t: Task) { t.state.Unused? || t.state.Loading? || t.state.Zombie? }

  ghost predicate IsWaiter(s: State, w: nat, m: nat) {
    w < |s.tasks| && s.tasks[w].state.Blocked? && s.tasks[w].channel == OnMutex(m)
  }

  ghost function Holders(tasks: seq<Task>, m: nat): set<nat> {
    set t | 0 <= t < |tasks| && m in tasks[t].mutexes
  }

  // ---- mutex ownership ----

  /** An owner has the mutex open, waiters of a mutex wait for an owner, and `refs` counts the tasks
      that have it open. */
  ghost predicate MutexOk(s: State, m: nat)
    requires Shape(s) && m < MAX_MUTEXES
  {
    && s.mutexes[m].refs == |Holders(s.tasks, m)|
    && (s.mutexes[m].owner.Some? ==>
            s.mutexes[m].owner.value < MAX_TASKS && m in s.tasks[s.mutexes[m].owner.value].mutexes)
  }

  /** A task waits with its mutex open, for another owner, and is only woken as the new owner or
      because it was killed; a task that is gone has no mutex open. */
  ghost predicate TaskOk(s: State, t: nat)
    requires Shape(s) && t < MAX_TASKS
  {
    var task := s.tasks[t];
    && task.base <= task.priority <= PRIORITY_MAX && (task.killed ==> task.priority == PRIORITY_MAX)
    && (forall m :: m in task.mutexes ==> m < MAX_MUTEXES)
    && (Gone(task) ==> task.mutexes == {} && task.channel == NoChannel)
    && (task.channel.OnMutex? <==> task.waitMutex.Some?)
    && (task.channel.OnMutex? ==> task.state in {Blocked, Ready, Running})
    && (task.channel.OnMutex? ==> task.waitMutex.value == task.channel.id && task.channel.id in task.mutexes)
    && (task.channel.OnMutex? && task.state.Blocked? ==>
          s.mutexes[task.channel.id].owner.Some? && s.mutexes[task.channel.id].owner.value != t)
    && (task.channel.OnMutex? && !task.state.Blocked? ==> task.killed || s.mutexes[task.channel.id].owner == Some(t))
  }

  ghost predicate NamesDistinct(mutexes: seq<Mutex>) {
    forall i, j :: 0 <= i < |mutexes| && 0 <= j < |mutexes| && i != j && mutexes[i].refs > 0 && mutexes[j].refs > 0 ==>
      mutexes[i].name != mutexes[j].name
  }

  ghost predicate OwnershipOk(s: State)
    requires Shape(s)
  {
    && (forall m :: 0 <= m < MAX_MUTEXES ==> MutexOk(s, m))
    && (forall t :: 0 <= t < MAX_TASKS ==> TaskOk(s, t))
    && NamesDistinct(s.mutexes)
  }

  // ---- priority inheritance ----

  /** Task `w` waits for `o` by a mutex with priority inheritance. */
  predicate Lends(s: State, w: nat, o: nat)
    requires Shape(s)
  {
    && w < MAX_TASKS && s.tasks[w].state.Blocked? && s.tasks[w].channel.OnMutex?
    && s.tasks[w].channel.id < MAX_MUTEXES
    && s.mutexes[s.tasks[w].channel.id].inherit && s.mutexes[s.tasks[w].channel.id].owner == Some(o)
  }

  /** No owner runs at a lower priority than a task that waits for it. */
  ghost predicate Inherits(s: State)
    requires Shape(s)
  {
    forall w, o :: 0 <= w < MAX_TASKS && 0 <= o < MAX_TASKS && Lends(s, w, o) ==>
        s.tasks[w].priority <= s.tasks[o].priority
  }

  /** The priority of `t` is its own or that of a task waiting for it. */
  ghost predicate Justified(s: State, t: nat)
    requires Shape(s) && t < MAX_TASKS
  {
    || s.tasks[t].priority == s.tasks[t].base
    || exists w :: 0 <= w < MAX_TASKS && Lends(s, w, t) && s.tasks[w].priority == s.tasks[t].priority
  }

  /** No priority is higher than it has to be, but for those of killed tasks, which are the highest. */
  ghost predicate Exact(s: State)
    requires Shape(s)
  {
    forall t :: 0 <= t < MAX_TASKS && !s.tasks[t].killed ==> Justified(s, t)
  }

  /** From `s` to `r`, owners keep inheriting priorities, and these stay exact. */
  ghost predicate PrioritiesKept(s: State, r: State)
    requires Shape(s) && Shape(r)
  {
    (Inherits(s) ==> Inherits(r)) && (Inherits(s) && Exact(s) ==> Exact(r))
  }

  // ---- scheduling ----

  predicate Runnable(s: State, t: nat)
    requires t < |s.tasks|
  {
    s.tasks[t].state.Ready? || (t == s.running && s.tasks[t].state.Running?)
  }

  /** The running task is the only one that may be RUNNING; the idle thread never waits. */
  ghost predicate SchedOk(s: State)
    requires Shape(s)
  {
    && (forall t :: 0 <= t < MAX_TASKS && s.tasks[t].state.Running? ==> t == s.running)
    && s.tasks[s.idle].isKernel && Runnable(s, s.idle)
  }

  /** The running task is not below any task that could run instead, killed ones aside. */
  ghost predicate Dominates(s: State)
    requires Shape(s)
  {
    forall t :: 0 <= t < MAX_TASKS && t != s.idle && s.tasks[t].state.Ready? && !s.tasks[t].killed ==>
      s.running != s.idle && s.tasks[t].priority <= s.tasks[s.running].priority
  }

  /** Under the real time policy a switch is asked for, or none is needed. */
  ghost predicate Preempts(s: State)
    requires Shape(s)
  {
    s.policy.RealTime? ==> s.needResched || Dominates(s)
  }

  /** What also holds inside a step, when the running task may just have stopped. */
  ghost predicate Core(s: State) { Shape(s) && OwnershipOk(s) && SchedOk(s) }

  /** What holds between any two steps of the kernel. */
  ghost predicate Inv(s: State) { Core(s) && Preempts(s) && s.tasks[s.running].state.Running? }

  /** What ownership means: an owner is there and has the mutex open, a mutex without one has no waiter,
      and one that nobody has open has no owner. */
  lemma OwnersServe(s: State, m: nat)
    requires Inv(s) && m < MAX_MUTEXES
    ensures s.mutexes[m].owner.Some? ==>
              && s.mutexes[m].owner.value < MAX_TASKS && m in s.tasks[s.mutexes[m].owner.value].mutexes
              && !Gone(s.tasks[s.mutexes[m].owner.value])
    ensures s.mutexes[m].owner.None? ==> forall w: nat :: !IsWaiter(s, w, m)
    ensures s.mutexes[m].refs == 0 ==> s.mutexes[m].owner.None? && Holders(s.tasks, m) == {}
  {
    assert MutexOk(s, m);
    if s.mutexes[m].owner.Some? {
      var o := s.mutexes[m].owner.value;
      assert TaskOk(s, o);
      assert o in Holders(s.tasks, m);
    }
    forall w: nat | IsWaiter(s, w, m) ensures s.mutexes[m].owner.Some? { assert TaskOk(s, w); }
  }

  /** Each task of the chain waits for the next one. */
  ghost predicate WaitChain(s: State, chain: seq<nat>)
    requires Shape(s)
  {
    && |chain| > 0 && (forall i :: 0 <= i < |chain| ==> chain[i] < MAX_TASKS)
    && forall i :: 0 <= i < |chain| - 1 ==> Lends(s, chain[i], chain[i + 1])
  }

  /** Along a chain of owners no one runs below the task the chain begins with. */
  lemma {:induction false} ChainInherits(s: State, chain: seq<nat>)
    requires Inv(s) && Inherits(s) && WaitChain(s, chain)
    ensures s.tasks[chain[0]].priority <= s.tasks[chain[|chain| - 1]].priority
    decreases |chain|
  {
    hide OwnershipOk, SchedOk, Preempts, Lends;
    if |chain| > 1 {
      var front := chain[..|chain| - 1];
      forall i | 0 <= i < |front| - 1
        ensures Lends(s, front[i], front[i + 1])
      {
        assert Lends(s, chain[i], chain[i + 1]);
      }
      ChainInherits(s, front);
      assert Lends(s, chain[|chain| - 2], chain[|chain| - 2 + 1]);
    }
  }

  class Kernel {
    const tasks: array<Task>
    const mutexes: array<Mutex>
    var running: nat
    var idle: nat
    var policy: Policy
    var needResched: bool
    var nextPid: nat

    ghost predicate Sized() reads this, tasks, mutexes { tasks.Length == MAX_TASKS && mutexes.Length == MAX_MUTEXES }

    function S(): State
      reads this, tasks, mutexes
    {
      State(tasks[..], mutexes[..], running, idle, policy, needResched)
    }

    ghost function Parts(): set<object> { {this, tasks, mutexes} }

    /** `task_init`: the idle thread, and the init thread, which runs. */
    constructor ()
      ensures Inv(S()) && Exact(S()) && fresh(Parts()) && S() == BootState()
      ensures |S().tasks| == 16 && |S().mutexes| == 32
    {
      tasks := new Task[MAX_TASKS](BootTask);
      mutexes := new Mutex[MAX_MUTEXES](_ => NoMutex());
      idle := 0;
      running := 1;
      nextPid := 2;
      policy := RoundRobin;
      needResched := false;
      new;
      assert forall t :: 0 <= t < MAX_TASKS ==> tasks[..][t] == BootTask(t);
      assert forall m :: 0 <= m < MAX_MUTEXES ==> mutexes[..][m] == NoMutex();
      forall m | 0 <= m < MAX_MUTEXES ensures MutexOk(S(), m) {
        assert Holders(tasks[..], m) == {};
      }
    }
  }

  function BootTask(i: nat): Task {
    if i == 0 then NewTask(0, 0, true).(state := Ready)
    else if i == 1 then NewTask(1, PRIORITY_SHELL, true).(state := Running)
    else NewTask(0, 0, false).(state := Unused)
  }

  function NoMutex(): Mutex { Mutex("", 0, false, None) }

  /** The state the kernel starts in. */
  function BootState(): State {
    State(seq(MAX_TASKS, i requires 0 <= i < MAX_TASKS => BootTask(i)), seq(MAX_MUTEXES, _ => NoMutex()), 1, 0,
          RoundRobin, false)
  }

  /** A slot as `task_alloc` fills it. */
  function NewTask(pid: int, priority: nat, isKernel: bool): Task {
    Task(pid, Loading, priority, priority, isKernel, false, false, -1, -1, 0, NoChannel, None, {}, 0, 0, 0, 0)
  }

  /** A task that is nobody's child, waits for nothing, has nothing open and no period. */
  predicate IsFresh(t: Task) {
    && !t.killed && !t.detached && t.parent == -1 && t.waitPid == -1 && t.exitCode == 0
    && t.channel.NoChannel? && t.waitMutex.None? && t.mutexes == {} && t.period == 0 && t.deadline == 0
  }

  lemma NewTaskIsFresh(pid: int, priority: nat, isKernel: bool)
    ensures var t := NewTask(pid, priority, isKernel);
            t.pid == pid && t.priority == t.base == priority && t.isKernel == isKernel && t.state.Loading? && IsFresh(t)
  {}

  /** At the start the idle thread, in slot 0, is ready, and the init thread, in slot 1, runs with the priority of
      the shell; no other slot is in use. */
  lemma AtBoot(t: nat)
    requires t < 16
    ensures BootState().running == 1 && BootState().idle == 0 && BootState().policy.RoundRobin?
    ensures var task := BootState().tasks[t];
            && task.state == (if t == 0 then Ready else if t == 1 then Running else Unused)
            && task.priority == task.base == (if t == 1 then 30 else 0)
            && (t < 2 ==> task.isKernel && task.pid == t) && IsFresh(task)
  {}
}
