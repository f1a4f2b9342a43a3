// The mutex system calls, as steps of the running task.
module KernelLocks {
  import opened Options
  import opened KernelState
  import opened KernelSched
  import opened KernelMutex

  /** The running task may make a system call: it is a user task that is not in one already. */
  ghost predicate Active(s: State) {
    Inv(s) && s.running != s.idle && s.tasks[s.running].channel == NoChannel
  }

  /** `mutex_get`. */
  predicate HasOpen(s: State, id: int)
    requires s.running < |s.tasks|
  {
    0 <= id < |s.mutexes| && s.mutexes[id].refs > 0 && id in s.tasks[s.running].mutexes
  }

  /** Inheritance and the exactness of priorities are kept along with everything else. */
  twostate predicate KeepsPriorities(k: Kernel)
    reads k, k.tasks, k.mutexes
  {
    old(Shape(k.S())) && Shape(k.S()) && PrioritiesKept(old(k.S()), k.S())
  }

  // ---- opening ----

  ghost predicate Named(s: State, id: nat, name: string)
    requires Shape(s) && id < MAX_MUTEXES
  {
    s.mutexes[id].refs > 0 && s.mutexes[id].name == name
  }

  /** The running task has mutex `id` open now. */
  function Held(s: State, id: nat): State
    requires s.running < |s.tasks| && id < |s.mutexes|
  {
    var t := s.tasks[s.running];
    if id in t.mutexes then s
    else
      SetTask(s, s.running, t.(mutexes := t.mutexes + {id})).(
        mutexes := s.mutexes[id := s.mutexes[id].(refs := s.mutexes[id].refs + 1)])
  }

  function WithMutex(s: State, id: nat, name: string, inherit: bool): State
    requires id < |s.mutexes|
  {
    s.(mutexes := s.mutexes[id := Mutex(name, 0, inherit, None)])
  }

  lemma HeldKeeps(s: State, id: nat)
    requires Inv(s) && id < MAX_MUTEXES
    requires forall j :: 0 <= j < MAX_MUTEXES && j != id && s.mutexes[j].refs > 0 ==>
               s.mutexes[j].name != s.mutexes[id].name
    ensures Inv(Held(s, id)) && PrioritiesKept(s, Held(s, id))
  {
    var r := Held(s, id);
    HeldOwnership(s, id);
    assert forall w, o :: 0 <= w < MAX_TASKS && 0 <= o < MAX_TASKS ==> (Lends(r, w, o) <==> Lends(s, w, o));
    hide OwnershipOk, Lends;
    if Exact(s) {
      forall t | 0 <= t < MAX_TASKS && !r.tasks[t].killed ensures Justified(r, t) { assert Justified(s, t); }
    }
  }

  /** Opening a mutex makes the task one more holder of it, and of no other. */
  lemma HoldersAfter(tasks: seq<Task>, t: nat, after: Task, id: nat)
    requires t < |tasks| && after.mutexes == tasks[t].mutexes + {id} && id !in tasks[t].mutexes
    ensures |Holders(tasks[t := after], id)| == |Holders(tasks, id)| + 1
    ensures forall m :: m != id ==> Holders(tasks[t := after], m) == Holders(tasks, m)
  {
    assert Holders(tasks[t := after], id) == Holders(tasks, id) + {t} && t !in Holders(tasks, id);
  }

  lemma HeldOwnership(s: State, id: nat)
    requires Shape(s) && OwnershipOk(s) && id < MAX_MUTEXES && s.tasks[s.running].state.Running?
    requires forall j :: 0 <= j < MAX_MUTEXES && j != id && s.mutexes[j].refs > 0 ==>
               s.mutexes[j].name != s.mutexes[id].name
    ensures Shape(Held(s, id)) && OwnershipOk(Held(s, id))
  {
    if id !in s.tasks[s.running].mutexes {
      HeldTasks(s, id);
      HeldMutexes(s, id);
      hide TaskOk, MutexOk;
    }
  }

  lemma HeldTasks(s: State, id: nat)
    requires Shape(s) && OwnershipOk(s) && id < MAX_MUTEXES && s.tasks[s.running].state.Running?
    requires id !in s.tasks[s.running].mutexes
    ensures forall t :: 0 <= t < MAX_TASKS ==> TaskOk(Held(s, id), t)
  {
    hide MutexOk;
    forall t | 0 <= t < MAX_TASKS ensures TaskOk(Held(s, id), t) { assert TaskOk(s, t); }
  }

  lemma HeldMutexes(s: State, id: nat)
    requires Shape(s) && OwnershipOk(s) && id < MAX_MUTEXES && id !in s.tasks[s.running].mutexes
    ensures forall m :: 0 <= m < MAX_MUTEXES ==> MutexOk(Held(s, id), m)
  {
    hide TaskOk, Holders;
    var r := Held(s, id);
    HoldersAfter(s.tasks, s.running, r.tasks[s.running], id);
    forall m | 0 <= m < MAX_MUTEXES ensures MutexOk(r, m) { assert MutexOk(s, m); }
  }

  lemma NoHolders(tasks: seq<Task>, id: nat)
    requires |Holders(tasks, id)| == 0
    ensures forall t :: 0 <= t < |tasks| ==> id !in tasks[t].mutexes
  {
    forall t | 0 <= t < |tasks| ensures id in tasks[t].mutexes ==> t in Holders(tasks, id) {}
  }

  lemma NewMutexKeeps(s: State, id: nat, name: string, inherit: bool)
    requires Inv(s) && id < MAX_MUTEXES && s.mutexes[id].refs == 0
    ensures Inv(WithMutex(s, id, name, inherit)) && PrioritiesKept(s, WithMutex(s, id, name, inherit))
  {
    var r := WithMutex(s, id, name, inherit);
    assert MutexOk(s, id);
    NoHolders(s.tasks, id);
    forall t | 0 <= t < MAX_TASKS ensures TaskOk(r, t) { assert TaskOk(s, t); }
    forall m | 0 <= m < MAX_MUTEXES ensures MutexOk(r, m) { assert MutexOk(s, m); }
    hide MutexOk;
    assert forall w, o :: 0 <= w < MAX_TASKS && 0 <= o < MAX_TASKS ==> (Lends(r, w, o) <==> Lends(s, w, o));
    hide TaskOk, Lends;
    if Exact(s) {
      forall t | 0 <= t < MAX_TASKS && !r.tasks[t].killed ensures Justified(r, t) { assert Justified(s, t); }
    }
  }

  /** What `mutex_open` returns and does: the open mutex of that name, or a new one in the first free
      slot, held by the running task. */
  ghost predicate Opened(s: State, r: State, name: string, inherit: bool, id: int)
    requires Shape(s)
  {
    if exists j :: 0 <= j < MAX_MUTEXES && Named(s, j, name) then
      0 <= id < MAX_MUTEXES && Named(s, id, name) && r == Held(s, id)
    else if exists j :: 0 <= j < MAX_MUTEXES && s.mutexes[j].refs == 0 then
      && 0 <= id < MAX_MUTEXES && s.mutexes[id].refs == 0
      && (forall j :: 0 <= j < id ==> s.mutexes[j].refs > 0)
      && r == Held(WithMutex(s, id, name, inherit), id)
    else id == NO_MEMORY_ERROR && r == s
  }

  method FindMutex(k: Kernel, name: string) returns (id: int, free: int)
    requires Shape(k.S())
    ensures -1 <= id < MAX_MUTEXES && -1 <= free < MAX_MUTEXES
    ensures if id >= 0 then Named(k.S(), id, name) else forall j :: 0 <= j < MAX_MUTEXES ==> !Named(k.S(), j, name)
    ensures id < 0 ==> if free < 0 then forall j :: 0 <= j < MAX_MUTEXES ==> k.mutexes[j].refs > 0
                       else k.mutexes[free].refs == 0 && forall j :: 0 <= j < free ==> k.mutexes[j].refs > 0
  {
    id, free := -1, -1;
    for i := 0 to MAX_MUTEXES
      invariant -1 <= free < i && forall j :: 0 <= j < i ==> !Named(k.S(), j, name)
      invariant if free < 0 then forall j :: 0 <= j < i ==> k.mutexes[j].refs > 0
                else k.mutexes[free].refs == 0 && forall j :: 0 <= j < free ==> k.mutexes[j].refs > 0
    {
      if k.mutexes[i].refs > 0 && k.mutexes[i].name == name {
        return i, free;
      }
      if k.mutexes[i].refs == 0 && free < 0 {
        free := i;
      }
    }
  }

  /** `mutex_open`. */
  method Open(k: Kernel, name: string, inherit: bool) returns (id: int)
    requires Active(k.S())
    modifies k.tasks, k.mutexes
    ensures Active(k.S()) && KeepsPriorities(k)
    ensures if |name| >= 16 then id == INVALID_ARG_ERROR && k.S() == old(k.S())
            else Opened(old(k.S()), k.S(), name, inherit, id)
  {
    hide OwnershipOk, Inherits, Exact, SchedOk, Preempts, Named;
    if |name| >= MUTEX_NAME_LEN {
      return INVALID_ARG_ERROR;
    }
    ghost var s := k.S();
    var free;
    id, free := FindMutex(k, name);
    assert k.S() == s;
    if id < 0 && free >= 0 {
      id := free;
      NewMutexKeeps(s, id, name, inherit);
      NewName(s, id, name, inherit);
      k.mutexes[id] := Mutex(name, 0, inherit, None);
      assert k.S() == WithMutex(s, id, name, inherit);
    } else if id >= 0 {
      OnlyName(s, id, name);
    }
    if id >= 0 {
      ghost var mid := k.S();
      HeldKeeps(mid, id);
      if id !in k.tasks[k.running].mutexes {
        k.mutexes[id] := k.mutexes[id].(refs := k.mutexes[id].refs + 1);
        k.tasks[k.running] := k.tasks[k.running].(mutexes := k.tasks[k.running].mutexes + {id});
      }
      assert k.S() == Held(mid, id);
    } else {
      id := NO_MEMORY_ERROR;
    }
  }

  lemma NewName(s: State, id: nat, name: string, inherit: bool)
    requires Shape(s) && id < MAX_MUTEXES && forall j :: 0 <= j < MAX_MUTEXES ==> !Named(s, j, name)
    ensures var r := WithMutex(s, id, name, inherit);
            forall j :: 0 <= j < MAX_MUTEXES && j != id && r.mutexes[j].refs > 0 ==>
                r.mutexes[j].name != r.mutexes[id].name
  {
    forall j | 0 <= j < MAX_MUTEXES && j != id && s.mutexes[j].refs > 0 ensures s.mutexes[j].name != name {
      assert !Named(s, j, name);
    }
  }

  lemma OnlyName(s: State, id: nat, name: string)
    requires Inv(s) && id < MAX_MUTEXES && Named(s, id, name)
    ensures forall j :: 0 <= j < MAX_MUTEXES && j != id && s.mutexes[j].refs > 0 ==>
              s.mutexes[j].name != s.mutexes[id].name
  {
    hide MutexOk, TaskOk;
  }

  // ---- locking ----

  lemma OwnerKeeps(s: State, id: nat)
    requires Active(s) && HasOpen(s, id) && s.mutexes[id].owner.None?
    ensures Active(WithOwner(s, id, Some(s.running))) && PrioritiesKept(s, WithOwner(s, id, Some(s.running)))
  {
    var r := WithOwner(s, id, Some(s.running));
    forall t | 0 <= t < MAX_TASKS ensures TaskOk(r, t) { assert TaskOk(s, t); }
    forall m | 0 <= m < MAX_MUTEXES ensures MutexOk(r, m) { assert MutexOk(s, m); }
    hide MutexOk;
    forall w, o | 0 <= w < MAX_TASKS && 0 <= o < MAX_TASKS ensures Lends(r, w, o) <==> Lends(s, w, o) {
      assert TaskOk(s, w);
    }
    hide TaskOk, Lends;
    if Exact(s) {
      forall t | 0 <= t < MAX_TASKS && !r.tasks[t].killed ensures Justified(r, t) { assert Justified(s, t); }
    }
  }

  /** The loop of `mutex_lock` up to where the task waits or is done: it waits while another task owns
      the mutex, unless it was killed. */
  method LockRound(k: Kernel, id: nat, ghost base: Uint32) returns (waits: bool, res: int)
    requires Active(k.S()) && HasOpen(k.S(), id)
    modifies k, k.tasks, k.mutexes
    ensures Inv(k.S()) && KeepsPriorities(k) && k.idle == old(k.idle) && k.policy == old(k.policy)
    ensures waits <==>
              old(k.mutexes[id].owner.Some? && k.mutexes[id].owner != Some(k.running) && !k.tasks[k.running].killed)
    ensures waits ==> WaitsFor(old(k.S()), k.S(), id)
    ensures !waits ==> k.running == old(k.running) && k.tasks[k.running] == old(k.tasks[k.running])
                       && (res == OK || res == TASK_KILLED)
    ensures !waits && res == OK ==>
              && old(k.mutexes[id].owner) in {None, Some(k.running)}
              && k.S() == WithOwner(old(k.S()), id, Some(k.running))
    ensures !waits && res == TASK_KILLED ==>
              && old(k.tasks[k.running].killed) && k.mutexes[..] == old(k.mutexes[..])
              && k.mutexes[id].owner != Some(k.running)
    ensures LockDone(old(k.S()), k.S(), id, waits, res, base)
  {
    hide OwnershipOk, Inherits, Exact, SchedOk, Preempts, Switched, WaitsFor, Boosted, IsDue;
    ghost var s := k.S();
    var mutex := k.mutexes[id];
    if mutex.owner.Some? && mutex.owner != Some(k.running) && !k.tasks[k.running].killed {
      OwnerInRange(s, id);
      if mutex.inherit {
        Boost(k, mutex.owner.value);
      }
      ghost var r := k.S();
      WaitingKeeps(s, r, id, mutex.owner.value);
      k.tasks[k.running] := k.tasks[k.running].(waitMutex := Some(id), channel := OnMutex(id), state := Blocked);
      assert k.S() == Waiting(r, id);
      Schedule(k, base);
      WaitsForBy(s, r, k.S(), id, mutex.owner.value, base);
      assert BlocksVia(s, r, k.S(), id, base);
      return true, 0;
    }
    waits := false;
    if mutex.owner.None? {
      OwnerKeeps(s, id);
      k.mutexes[id] := mutex.(owner := Some(k.running));
      assert k.S() == WithOwner(s, id, Some(k.running));
      return false, OK;
    }
    if mutex.owner != Some(k.running) {
      OwnerInRange(s, id);
      OwnershipLinked(s);
      UpdatePriority(k, mutex.owner.value);
      KilledWaiter(s, k.S(), mutex.owner.value);
      return false, TASK_KILLED;
    }
    SameOwner(s, id);
    res := OK;
  }

  lemma SameOwner(s: State, id: nat)
    requires Shape(s) && id < MAX_MUTEXES && s.mutexes[id].owner == Some(s.running)
    ensures WithOwner(s, id, Some(s.running)) == s
  {
    assert s.mutexes[id := s.mutexes[id]] == s.mutexes;
  }

  lemma OwnerInRange(s: State, id: nat)
    requires Inv(s) && id < MAX_MUTEXES && s.mutexes[id].owner.Some?
    ensures s.mutexes[id].owner.value < MAX_TASKS
  {
    assert MutexOk(s, id);
  }

  /** A waiter that was killed is done with the lock: the priority of the owner is recomputed. */
  ghost predicate GaveUp(s: State, r: State, o: nat)
    requires Shape(s) && Shape(r) && o < MAX_TASKS
  {
    if s.tasks[o].killed then r == s
    else IsDue(s, o, r.tasks[o].priority) && r == SetPriorityOf(s, o, r.tasks[o].priority).(needResched := true)
  }

  /** In `mid` the owner and those it waits for have the priority of the running task at least, if the
      mutex asks for it; then the task blocks and another one runs. */
  ghost predicate BlocksVia(s: State, mid: State, x: State, id: nat, base: Uint32)
    requires Shape(s) && id < MAX_MUTEXES && s.mutexes[id].owner.Some? && s.mutexes[id].owner.value < MAX_TASKS
  {
    && Shape(mid) && Shape(x)
    && mid == (if s.mutexes[id].inherit then BoostedBy(s, s.mutexes[id].owner, s.tasks[s.running].priority, MAX_TASKS)
               else s)
    && Switched(Waiting(mid, id), x, base)
  }

  /** One round of `mutex_lock` on a mutex the task has open. */
  ghost predicate LockDone(s: State, r: State, id: nat, waits: bool, res: int, base: Uint32)
    requires Shape(s) && Shape(r) && id < MAX_MUTEXES
  {
    match s.mutexes[id].owner
    case None => !waits && res == OK && r == WithOwner(s, id, Some(s.running))
    case Some(o) =>
      if o == s.running then !waits && res == OK && r == s
      else if o >= MAX_TASKS then false
      else if s.tasks[s.running].killed then !waits && res == TASK_KILLED && GaveUp(s, r, o)
      else waits && WaitsFor(s, r, id) && exists mid :: BlocksVia(s, mid, r, id, base)
  }

  /** The running task waits for the mutex, and its priority was passed on to the owner. */
  ghost predicate WaitsFor(s: State, r: State, id: nat)
    requires Shape(s) && Shape(r) && id < MAX_MUTEXES
  {
    && IsWaiter(r, s.running, id) && r.tasks[s.running].priority == s.tasks[s.running].priority
    && r.mutexes == s.mutexes
    && s.mutexes[id].owner.Some? && s.mutexes[id].owner.value < MAX_TASKS
    && (s.mutexes[id].inherit ==> r.tasks[s.mutexes[id].owner.value].priority >= s.tasks[s.running].priority)
  }

  lemma WaitsForBy(s: State, r: State, x: State, id: nat, o: nat, base: Uint32)
    requires Active(s) && Shape(r) && Shape(x) && id < MAX_MUTEXES && o < MAX_TASKS
    requires s.mutexes[id].owner == Some(o) && o != s.running && Core(Waiting(r, id))
    requires if s.mutexes[id].inherit then
               Raised(s, r, s.tasks[s.running].priority) && r.tasks[o].priority >= s.tasks[s.running].priority
             else r == s
    requires Switched(Waiting(r, id), x, base)
    ensures WaitsFor(s, x, id)
  {
    RaisedSame(s, r, s.tasks[s.running].priority);
    hide OwnershipOk, Inherits, Raised, Window, RunsBefore, BestAgainst;
    assert Candidate(Waiting(r, id), x.running) || x.running == s.idle;
  }

  /** A waiter that was killed no longer lends its priority: where owners inherit, the owner's is not
      raised, and where priorities are exact, it is what it was. */
  lemma KilledWaiter(s: State, r: State, o: nat)
    requires Active(s) && Shape(r) && o < MAX_TASKS && GaveUp(s, r, o)
    ensures Inv(r) && PrioritiesKept(s, r)
  {
    hide OwnershipOk, IsDue, SchedOk, Inherits, Exact;
    if !s.tasks[o].killed {
      var p := r.tasks[o].priority;
      DueKeeps(s, o, p);
      AskedKeeps(SetPriorityOf(s, o, p));
      if Inherits(s) { DueNotAbove(s, o, p); }
      if Inherits(s) && Exact(s) {
        ExactIsDue(s, o);
        DueUnique(s, o, p, s.tasks[o].priority);
        assert SetPriorityOf(s, o, p) == s;
      }
    }
  }

  /** Recomputing a priority cannot raise it: inheritance made it high enough already. */
  lemma DueNotAbove(s: State, o: nat, p: nat)
    requires Core(s) && Inherits(s) && o < MAX_TASKS && IsDue(s, o, p)
    ensures p <= s.tasks[o].priority && LowerThanOwners(s, o, p) && InheritsBut(s, o)
  {
    assert TaskOk(s, o);
    hide Lends, MutexOk;
  }

  /** `mutex_lock`. */
  method Lock(k: Kernel, id: int, ghost base: Uint32) returns (waits: bool, res: int)
    requires Active(k.S())
    modifies k, k.tasks, k.mutexes
    ensures Inv(k.S()) && KeepsPriorities(k)
    ensures !old(HasOpen(k.S(), id)) || old(k.mutexes[id].owner) == Some(old(k.running)) ==>
              !waits && res == INVALID_ARG_ERROR && k.S() == old(k.S())
    ensures old(HasOpen(k.S(), id)) && old(k.mutexes[id].owner) != Some(old(k.running)) ==>
              LockDone(old(k.S()), k.S(), id, waits, res, base)
  {
    hide OwnershipOk, Inherits, Exact, SchedOk, Preempts, WaitsFor, LockDone;
    if id < 0 || id >= MAX_MUTEXES || k.mutexes[id].refs == 0 || id !in k.tasks[k.running].mutexes
       || k.mutexes[id].owner == Some(k.running) {
      return false, INVALID_ARG_ERROR;
    }
    waits, res := LockRound(k, id, base);
  }

  /** The running task is back from waiting. */
  function Resumed(s: State): State
    requires s.running < |s.tasks|
  {
    SetTask(s, s.running, s.tasks[s.running].(channel := NoChannel, waitMutex := None))
  }

  lemma WokenWaiter(s: State)
    requires Inv(s) && s.running != s.idle && s.tasks[s.running].channel.OnMutex?
    ensures var r := SetTask(s, s.running, s.tasks[s.running].(channel := NoChannel, waitMutex := None));
            && Active(r) && PrioritiesKept(s, r) && HasOpen(r, s.tasks[s.running].channel.id)
            && (r.tasks[r.running].killed || r.mutexes[s.tasks[s.running].channel.id].owner == Some(r.running))
  {
    var t := s.tasks[s.running];
    var r := SetTask(s, s.running, t.(channel := NoChannel, waitMutex := None));
    assert TaskOk(s, s.running);
    assert t.channel.id in t.mutexes && s.running in Holders(s.tasks, t.channel.id);
    assert MutexOk(s, t.channel.id) && |Holders(s.tasks, t.channel.id)| > 0;
    forall u | 0 <= u < MAX_TASKS ensures TaskOk(r, u) { assert TaskOk(s, u); }
    forall m | 0 <= m < MAX_MUTEXES ensures MutexOk(r, m) {
      assert MutexOk(s, m);
      assert Holders(r.tasks, m) == Holders(s.tasks, m);
    }
    hide TaskOk, MutexOk;
    assert forall w, o :: 0 <= w < MAX_TASKS && 0 <= o < MAX_TASKS ==> (Lends(r, w, o) <==> Lends(s, w, o));
    hide Lends;
    if Exact(s) {
      forall u | 0 <= u < MAX_TASKS && !r.tasks[u].killed ensures Justified(r, u) { assert Justified(s, u); }
    }
  }

  /** `mutex_lock` after its task was woken: it owns the mutex, or was killed. It never waits again. */
  method ResumeLock(k: Kernel, ghost base: Uint32) returns (res: int)
    requires Inv(k.S()) && k.running != k.idle && k.tasks[k.running].channel.OnMutex?
    modifies k, k.tasks, k.mutexes
    ensures Active(k.S()) && KeepsPriorities(k) && k.running == old(k.running)
    ensures old(k.tasks[k.running].channel.id) < MAX_MUTEXES
    ensures res == OK ==> k.mutexes[old(k.tasks[k.running].channel.id)].owner == Some(k.running)
    ensures res != OK ==> res == TASK_KILLED && k.tasks[k.running].killed
    ensures LockDone(Resumed(old(k.S())), k.S(), old(k.tasks[k.running].channel.id), false, res, base)
  {
    hide OwnershipOk, Inherits, Exact, SchedOk, Preempts, WaitsFor, LockDone;
    ghost var s := k.S();
    WokenWaiter(s);
    var id := k.tasks[k.running].channel.id;
    k.tasks[k.running] := k.tasks[k.running].(channel := NoChannel, waitMutex := None);
    assert k.S() == Resumed(s);
    var waits;
    waits, res := LockRound(k, id, base);
  }

  // ---- unlocking and closing ----

  /** `mutex_unlock`. */
  method Unlock(k: Kernel, id: int) returns (res: int, ghost next: Option<nat>)
    requires Active(k.S())
    modifies k`needResched, k.tasks, k.mutexes
    ensures Active(k.S()) && KeepsPriorities(k)
    ensures if old(HasOpen(k.S(), id)) && old(k.mutexes[id].owner) == Some(k.running) then
              res == OK && Handed(old(k.S()), k.S(), id, next)
            else res == INVALID_ARG_ERROR && k.S() == old(k.S())
  {
    hide OwnershipOk, Inherits, Exact, SchedOk, Preempts, IsNext, Handed;
    next := None;
    if id < 0 || id >= MAX_MUTEXES || k.mutexes[id].refs == 0 || id !in k.tasks[k.running].mutexes
       || k.mutexes[id].owner != Some(k.running) {
      return INVALID_ARG_ERROR, next;
    }
    next := HandOver(k, id);
    res := OK;
  }

  /** The running task has mutex `id` no longer open. */
  function Dropped(s: State, id: nat): State
    requires s.running < |s.tasks| && id < |s.mutexes| && s.mutexes[id].refs > 0
  {
    var t := s.tasks[s.running];
    SetTask(s, s.running, t.(mutexes := t.mutexes - {id})).(
      mutexes := s.mutexes[id := s.mutexes[id].(refs := s.mutexes[id].refs - 1)])
  }

  lemma HoldersBefore(tasks: seq<Task>, t: nat, after: Task, id: nat)
    requires t < |tasks| && after.mutexes == tasks[t].mutexes - {id} && id in tasks[t].mutexes
    ensures |Holders(tasks[t := after], id)| == |Holders(tasks, id)| - 1
    ensures forall m :: m != id ==> Holders(tasks[t := after], m) == Holders(tasks, m)
  {
    assert Holders(tasks[t := after], id) == Holders(tasks, id) - {t} && t in Holders(tasks, id);
  }

  lemma DroppedOwnership(s: State, id: nat)
    requires Shape(s) && OwnershipOk(s) && id < MAX_MUTEXES && id in s.tasks[s.running].mutexes
    requires s.mutexes[id].owner != Some(s.running) && s.tasks[s.running].channel == NoChannel
    ensures s.mutexes[id].refs > 0 && Shape(Dropped(s, id)) && OwnershipOk(Dropped(s, id))
  {
    hide Holders;
    assert MutexOk(s, id);
    var after := s.tasks[s.running].(mutexes := s.tasks[s.running].mutexes - {id});
    HoldersBefore(s.tasks, s.running, after, id);
    var r := Dropped(s, id);
    DroppedTasks(s, id);
    hide TaskOk;
    forall m | 0 <= m < MAX_MUTEXES ensures MutexOk(r, m) { assert MutexOk(s, m); }
  }

  lemma DroppedTasks(s: State, id: nat)
    requires Shape(s) && OwnershipOk(s) && id < MAX_MUTEXES && s.mutexes[id].refs > 0
    requires s.tasks[s.running].channel == NoChannel
    ensures forall t :: 0 <= t < MAX_TASKS ==> TaskOk(Dropped(s, id), t)
  {
    hide MutexOk;
    forall t | 0 <= t < MAX_TASKS ensures TaskOk(Dropped(s, id), t) { assert TaskOk(s, t); }
  }

  lemma DroppedKeeps(s: State, id: nat)
    requires Working(s) && id < MAX_MUTEXES && id in s.tasks[s.running].mutexes
    requires s.mutexes[id].owner != Some(s.running) && s.tasks[s.running].channel == NoChannel
    ensures s.mutexes[id].refs > 0 && Working(Dropped(s, id)) && PrioritiesKept(s, Dropped(s, id))
  {
    DroppedOwnership(s, id);
    var r := Dropped(s, id);
    assert forall w, o :: 0 <= w < MAX_TASKS && 0 <= o < MAX_TASKS ==> (Lends(r, w, o) <==> Lends(s, w, o));
    hide OwnershipOk, Lends;
    if Exact(s) {
      forall t | 0 <= t < MAX_TASKS && !r.tasks[t].killed ensures Justified(r, t) { assert Justified(s, t); }
    }
  }

  /** What closing does: an owner hands the mutex over first, then the task is one less to have it open. */
  ghost predicate ClosedNow(s: State, r: State, id: nat)
    requires Shape(s) && id < MAX_MUTEXES
  {
    exists mid, next :: ClosedVia(s, mid, r, id, next)
  }

  ghost predicate ClosedVia(s: State, mid: State, r: State, id: nat, next: Option<nat>)
    requires Shape(s) && id < MAX_MUTEXES
  {
    && Shape(mid) && mid.mutexes[id].refs > 0 && r == Dropped(mid, id)
    && if s.mutexes[id].owner == Some(s.running) then Handed(s, mid, id, next) else mid == s
  }

  /** A mutex the running task has closed: the first waiter of the highest priority owns it, if the task
      did, and it has a reference less. */
  ghost predicate PassedOn(s: State, id: nat, was: Mutex, now: Mutex)
    requires Shape(s)
  {
    && now == was.(owner := now.owner, refs := now.refs) && now.refs + 1 == was.refs
    && if was.owner == Some(s.running) then IsNext(s, id, now.owner) else now.owner == was.owner
  }

  /** `mutex_close_task`, of the running task. */
  method CloseOne(k: Kernel, id: nat)
    requires Working(k.S()) && id < MAX_MUTEXES && id in k.tasks[k.running].mutexes
    requires k.tasks[k.running].channel == NoChannel && !k.tasks[k.running].state.Blocked?
    modifies k`needResched, k.tasks, k.mutexes
    ensures Working(k.S()) && KeepsPriorities(k) && ClosedNow(old(k.S()), k.S(), id)
    ensures PassedOn(old(k.S()), id, old(k.mutexes[id]), k.mutexes[id]) && k.mutexes[id].owner != Some(k.running)
    ensures k.tasks[k.running] == old(k.tasks[k.running]).(priority := k.tasks[k.running].priority,
                                                          mutexes := old(k.tasks[k.running].mutexes) - {id})
    ensures forall t :: 0 <= t < MAX_TASKS && t != k.running ==>
              || k.tasks[t] == old(k.tasks[t])
              || (old(IsWaiter(k.S(), t, id)) && k.tasks[t] == old(k.tasks[t]).(state := Ready))
    ensures forall m :: 0 <= m < MAX_MUTEXES && m != id ==> k.mutexes[m] == old(k.mutexes[m])
  {
    hide OwnershipOk, Inherits, Exact, SchedOk, Preempts, Handed;
    ghost var start, next: Option<nat> := k.S(), None;
    if k.mutexes[id].owner == Some(k.running) {
      ghost var s := k.S();
      next := HandOver(k, id);
      NextIsWaiter(s, id, next);
    }
    ghost var mid := k.S();
    DroppedKeeps(mid, id);
    k.tasks[k.running] := k.tasks[k.running].(mutexes := k.tasks[k.running].mutexes - {id});
    k.mutexes[id] := k.mutexes[id].(refs := k.mutexes[id].refs - 1);
    assert k.S() == Dropped(mid, id);
    assert ClosedVia(start, mid, k.S(), id, next);
  }

  lemma NextIsWaiter(s: State, m: nat, next: Option<nat>)
    requires Shape(s) && IsNext(s, m, next)
    ensures next.Some? ==> IsWaiter(s, next.value, m)
    ensures !s.tasks[s.running].state.Blocked? ==> next != Some(s.running)
  {}

  /** `mutex_close`. */
  method Close(k: Kernel, id: int) returns (res: int)
    requires Active(k.S())
    modifies k`needResched, k.tasks, k.mutexes
    ensures Active(k.S()) && KeepsPriorities(k)
    ensures if old(HasOpen(k.S(), id)) then
              res == OK && ClosedNow(old(k.S()), k.S(), id)
            else res == INVALID_ARG_ERROR && k.S() == old(k.S())
  {
    hide OwnershipOk, Inherits, Exact, SchedOk, Preempts, ClosedNow;
    if id < 0 || id >= MAX_MUTEXES || k.mutexes[id].refs == 0 || id !in k.tasks[k.running].mutexes {
      return INVALID_ARG_ERROR;
    }
    CloseOne(k, id);
    res := OK;
  }

  /** The waiters of a mutex do not change while others are closed. */
  ghost predicate SameWaiters(s: State, r: State, m: nat)
    requires Shape(s) && Shape(r)
  {
    forall w :: 0 <= w < MAX_TASKS ==>
      (IsWaiter(r, w, m) <==> IsWaiter(s, w, m)) && (IsWaiter(s, w, m) ==> r.tasks[w].priority == s.tasks[w].priority)
  }

  lemma NextSame(s: State, r: State, m: nat, was: Mutex, now: Mutex)
    requires Shape(s) && Shape(r) && r.running == s.running && SameWaiters(s, r, m) && PassedOn(r, m, was, now)
    ensures PassedOn(s, m, was, now)
  {
    hide IsWaiter;
    if now.owner.Some? && was.owner == Some(s.running) { WaiterIsTask(r, now.owner.value, m); }
  }

  lemma WaiterIsTask(s: State, w: nat, m: nat)
    requires Shape(s) && IsWaiter(s, w, m)
    ensures w < MAX_TASKS
  {}

  /** A waiter of one of the first `id` mutexes may have been woken. */
  ghost predicate WokenBelow(u: Task, now: Task, id: nat) {
    || now == u
    || (u.state.Blocked? && u.channel.OnMutex? && u.channel.id < id && now == u.(state := Ready))
  }

  lemma WaitersAbove(s: State, r: State, id: nat, m: nat)
    requires Shape(s) && Shape(r) && r.running == s.running && m >= id
    requires !s.tasks[s.running].state.Blocked? && !r.tasks[s.running].state.Blocked?
    requires forall t :: 0 <= t < MAX_TASKS && t != s.running ==> WokenBelow(s.tasks[t], r.tasks[t], id)
    ensures SameWaiters(s, r, m)
  {
    forall w | 0 <= w < MAX_TASKS
      ensures IsWaiter(r, w, m) <==> IsWaiter(s, w, m)
      ensures IsWaiter(s, w, m) ==> r.tasks[w].priority == s.tasks[w].priority
    {
      assert w != s.running ==> WokenBelow(s.tasks[w], r.tasks[w], id);
    }
  }

  /** `mutex_release_all`, of the running task: each of its mutexes goes to its first waiter of the
      highest priority, and none is left with an owner that is gone. */
  method ReleaseAll(k: Kernel)
    requires Active(k.S())
    modifies k`needResched, k.tasks, k.mutexes
    ensures Active(k.S()) && KeepsPriorities(k) && k.tasks[k.running].mutexes == {}
    ensures k.tasks[k.running] == old(k.tasks[k.running]).(priority := k.tasks[k.running].priority, mutexes := {})
    ensures AllPassedOn(old(k.S()), k.mutexes[..])
    ensures forall m :: 0 <= m < MAX_MUTEXES ==> k.mutexes[m].owner != Some(k.running)
    ensures forall t :: 0 <= t < MAX_TASKS && t != k.running ==>
              || k.tasks[t] == old(k.tasks[t])
              || (old(k.tasks[t]).state.Blocked? && k.tasks[t] == old(k.tasks[t]).(state := Ready))
  {
    hide OwnershipOk, Inherits, Exact, SchedOk, Preempts, ClosedNow, PassedOn, WokenBelow, SameWaiters, IsWaiter;
    ghost var s := k.S();
    MutexIds(s, s.running);
    NotWokenYet(s);
    for id := 0 to MAX_MUTEXES
      invariant Active(k.S()) && PrioritiesKept(s, k.S())
      invariant forall m :: m in k.tasks[k.running].mutexes ==> id <= m < MAX_MUTEXES
      invariant k.tasks[k.running] == s.tasks[k.running].(priority := k.tasks[k.running].priority,
                                                         mutexes := k.tasks[k.running].mutexes)
      invariant forall m :: 0 <= m ==> (m in k.tasks[k.running].mutexes <==> id <= m && m in s.tasks[k.running].mutexes)
      invariant forall t :: 0 <= t < MAX_TASKS && t != k.running ==> WokenBelow(s.tasks[t], k.tasks[t], id)
      invariant forall m :: 0 <= m < MAX_MUTEXES ==>
                  if m < id && m in s.tasks[k.running].mutexes then PassedOn(s, m, s.mutexes[m], k.mutexes[m])
                  else k.mutexes[m] == s.mutexes[m]
    {
      ghost var r := k.S();
      if id in k.tasks[k.running].mutexes {
        ActiveRuns(s);
        ActiveRuns(r);
        WaitersAbove(s, r, id, id);
        CloseOne(k, id);
        NextSame(s, r, id, s.mutexes[id], k.mutexes[id]);
      }
      forall t | 0 <= t < MAX_TASKS && t != k.running ensures WokenBelow(s.tasks[t], k.tasks[t], id + 1) {
        WokenMore(r, t, s.tasks[t], k.tasks[t], id);
      }
    }
    OwnsNothing(k.S());
    WokenAny(s, k.S(), MAX_MUTEXES);
  }

  /** Each mutex the running task had open is passed on, and the others stay. */
  ghost predicate AllPassedOn(s: State, now: seq<Mutex>)
    requires Shape(s)
  {
    && |now| == MAX_MUTEXES
    && forall m :: 0 <= m < MAX_MUTEXES ==>
         if m in s.tasks[s.running].mutexes then PassedOn(s, m, s.mutexes[m], now[m]) else now[m] == s.mutexes[m]
  }

  lemma NotWokenYet(s: State)
    requires Shape(s)
    ensures forall t :: 0 <= t < MAX_TASKS ==> WokenBelow(s.tasks[t], s.tasks[t], 0)
  {}

  lemma ActiveRuns(s: State)
    requires Active(s)
    ensures !s.tasks[s.running].state.Blocked? && s.tasks[s.running].channel == NoChannel && Working(s)
  {}

  lemma WokenMore(r: State, t: nat, u: Task, now: Task, id: nat)
    requires t < |r.tasks| && WokenBelow(u, r.tasks[t], id)
    requires now == r.tasks[t] || (IsWaiter(r, t, id) && now == r.tasks[t].(state := Ready))
    ensures WokenBelow(u, now, id + 1)
  {}

  lemma WokenAny(s: State, r: State, id: nat)
    requires Shape(s) && Shape(r)
    requires forall t :: 0 <= t < MAX_TASKS && t != s.running ==> WokenBelow(s.tasks[t], r.tasks[t], id)
    ensures forall t :: 0 <= t < MAX_TASKS && t != s.running ==>
              r.tasks[t] == s.tasks[t] || (s.tasks[t].state.Blocked? && r.tasks[t] == s.tasks[t].(state := Ready))
  {}

  lemma MutexIds(s: State, t: nat)
    requires Inv(s) && t < MAX_TASKS
    ensures forall m :: m in s.tasks[t].mutexes ==> m < MAX_MUTEXES
  {
    assert TaskOk(s, t);
  }

  lemma OwnsNothing(s: State)
    requires Inv(s) && s.tasks[s.running].mutexes == {}
    ensures forall m :: 0 <= m < MAX_MUTEXES ==> s.mutexes[m].owner != Some(s.running)
  {
    forall m | 0 <= m < MAX_MUTEXES ensures s.mutexes[m].owner != Some(s.running) { assert MutexOk(s, m); }
  }
}
