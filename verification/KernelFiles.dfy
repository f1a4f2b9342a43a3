// File descriptors, reference counted handles and pipes: who holds what, and who waits for what.
module KernelFiles {
  import opened Options
  import opened Bytes

  const TASKS := 16
  const MAX_FDS := 16
  const PIPE_SIZE := 4096
  const TERMINAL := 0

  const INVALID_ARG_ERROR := -3
  const FILE_HANDLER_OVERFLOW := -5
  const BROKEN_PIPE_ERROR := -14

  /** What a handle refers to. */
  datatype Kind = File | ReadEnd(pipe: nat) | WriteEnd(pipe: nat)

  datatype Handle = Handle(kind: Kind, refs: nat)

  datatype Pipe = Pipe(buffer: seq<byte>, readers: nat, writers: nat)

  /** A pipe call a task is in, kept on its kernel stack while it waits. */
  datatype Call = NoCall | Reading(handle: nat, len: nat) | Writing(handle: nat, data: seq<byte>, written: nat)

  datatype Task = Task(live: bool, fds: seq<Option<nat>>, killed: bool, call: Call, blocked: bool)

  datatype State = State(tasks: seq<Task>, handles: map<nat, Handle>, pipes: map<nat, Pipe>)

  // ---- references ----

  /** The fd slots that hold handle `h`. */
  ghost function Slots(tasks: seq<Task>, h: nat): set<(nat, nat)> {
    set t: nat, i: nat | t < |tasks| && i < |tasks[t].fds| && tasks[t].fds[i] == Some(h) :: (t, i)
  }

  /** The handles of one end of a pipe. */
  ghost function Ends(handles: map<nat, Handle>, end: Kind): set<nat> {
    set h | h in handles && handles[h].kind == end
  }

  ghost predicate TablesOk(s: State) {
    && |s.tasks| == TASKS && TERMINAL !in s.handles
    && forall t :: 0 <= t < TASKS ==>
         && |s.tasks[t].fds| == MAX_FDS
         && (forall i :: 0 <= i < MAX_FDS && s.tasks[t].fds[i].Some? ==>
               s.tasks[t].live && (s.tasks[t].fds[i].value == TERMINAL || s.tasks[t].fds[i].value in s.handles))
  }

  /** A handle counts the slots that hold it, and one more while a system call is at work with it. */
  ghost predicate RefsOk(s: State, loose: set<nat>) {
    && (forall h :: h in s.handles ==>
          s.handles[h].refs == |Slots(s.tasks, h)| + (if h in loose then 1 else 0) && s.handles[h].refs > 0)
    && forall h :: h in loose ==> h in s.handles
  }

  /** A pipe counts its open ends, and goes away with the last one. */
  ghost predicate PipesOk(s: State) {
    && (forall h :: h in s.handles && !s.handles[h].kind.File? ==> s.handles[h].kind.pipe in s.pipes)
    && forall p :: p in s.pipes ==>
         && s.pipes[p].readers == |Ends(s.handles, ReadEnd(p))| && s.pipes[p].writers == |Ends(s.handles, WriteEnd(p))|
         && s.pipes[p].readers + s.pipes[p].writers > 0 && |s.pipes[p].buffer| <= PIPE_SIZE
  }

  /** The pipe a task's call is about. */
  function PipeOf(s: State, c: Call): Option<nat> {
    if c.NoCall? || c.handle !in s.handles || s.handles[c.handle].kind.File? then None
    else Some(s.handles[c.handle].kind.pipe)
  }

  /** A task in a call holds the end it uses; it waits to read only while the pipe is empty and has a
      writer, and to write only while the pipe is full and has a reader. */
  ghost predicate CallOk(s: State, task: Task) {
    match task.call
    case NoCall => !task.blocked
    case Reading(h, _) =>
      && Some(h) in task.fds && h in s.handles && s.handles[h].kind.ReadEnd? && s.handles[h].kind.pipe in s.pipes
      && (task.blocked ==> !task.killed && s.pipes[s.handles[h].kind.pipe].buffer == []
                           && s.pipes[s.handles[h].kind.pipe].writers > 0)
    case Writing(h, data, written) =>
      && Some(h) in task.fds && h in s.handles && s.handles[h].kind.WriteEnd? && s.handles[h].kind.pipe in s.pipes
      && written <= |data|
      && (task.blocked ==> !task.killed && |s.pipes[s.handles[h].kind.pipe].buffer| == PIPE_SIZE
                           && s.pipes[s.handles[h].kind.pipe].readers > 0 && written < |data|)
  }

  ghost predicate CallsOk(s: State) { forall t :: 0 <= t < |s.tasks| ==> CallOk(s, s.tasks[t]) }

  ghost predicate Inv(s: State, loose: set<nat>) { TablesOk(s) && RefsOk(s, loose) && PipesOk(s) && CallsOk(s) }

  // ---- what that means ----

  /** No task waits to read a pipe while another waits to write to it: one of them could go on. */
  lemma NoStandstill(s: State, t: nat, u: nat)
    requires Inv(s, {}) && t < TASKS && u < TASKS && s.tasks[t].blocked && s.tasks[u].blocked
    requires s.tasks[t].call.Reading? && s.tasks[u].call.Writing?
    ensures PipeOf(s, s.tasks[t].call) != PipeOf(s, s.tasks[u].call)
  {
    assert CallOk(s, s.tasks[t]) && CallOk(s, s.tasks[u]);
  }

  /** A task waits to write only at a pipe with 4096 bytes that somebody can read, and to read only at an empty one
      that somebody can write to. */
  lemma WaitsWhenItMust(s: State, t: nat)
    requires Inv(s, {}) && t < TASKS && s.tasks[t].blocked
    ensures PipeOf(s, s.tasks[t].call).Some? && PipeOf(s, s.tasks[t].call).value in s.pipes
    ensures var pipe := s.pipes[PipeOf(s, s.tasks[t].call).value];
            && (s.tasks[t].call.Writing? ==> |pipe.buffer| == 4096 && pipe.readers > 0)
            && (s.tasks[t].call.Reading? ==> |pipe.buffer| == 0 && pipe.writers > 0)
  {
    assert CallOk(s, s.tasks[t]);
  }

  /** A pipe has writers (readers) just as long as some task holds that end. */
  lemma WritersAreHolders(s: State, p: nat)
    requires Inv(s, {}) && p in s.pipes
    ensures s.pipes[p].writers > 0 <==>
              exists h :: h in s.handles && s.handles[h].kind == WriteEnd(p) && Slots(s.tasks, h) != {}
    ensures s.pipes[p].readers > 0 <==>
              exists h :: h in s.handles && s.handles[h].kind == ReadEnd(p) && Slots(s.tasks, h) != {}
  {
    EndExists(s, WriteEnd(p));
    EndExists(s, ReadEnd(p));
  }

  lemma EndExists(s: State, end: Kind)
    requires Inv(s, {})
    ensures |Ends(s.handles, end)| > 0 <==>
              exists h :: h in s.handles && s.handles[h].kind == end && Slots(s.tasks, h) != {}
  {
    if |Ends(s.handles, end)| > 0 {
      var h :| h in Ends(s.handles, end);
      assert |Slots(s.tasks, h)| > 0;
    }
  }

  // ---- slots ----

  function SetFd(s: State, t: nat, i: nat, fd: Option<nat>): State
    requires t < |s.tasks| && i < |s.tasks[t].fds|
  {
    s.(tasks := s.tasks[t := s.tasks[t].(fds := s.tasks[t].fds[i := fd])])
  }

  lemma SlotsAfter(s: State, t: nat, i: nat, fd: Option<nat>, h: nat)
    requires t < |s.tasks| && i < |s.tasks[t].fds|
    ensures Slots(SetFd(s, t, i, fd).tasks, h)
            == Slots(s.tasks, h) - {(t, i)} + if fd == Some(h) then {(t, i)} else {}
  {}

  lemma SlotCount(s: State, t: nat, i: nat, fd: Option<nat>, h: nat)
    requires t < |s.tasks| && i < |s.tasks[t].fds|
    ensures |Slots(SetFd(s, t, i, fd).tasks, h)| + (if s.tasks[t].fds[i] == Some(h) then 1 else 0)
            == |Slots(s.tasks, h)| + if fd == Some(h) then 1 else 0
  {
    SlotsAfter(s, t, i, fd, h);
    assert (t, i) in Slots(s.tasks, h) <==> s.tasks[t].fds[i] == Some(h);
    hide Slots;
  }

  ghost function Plus(loose: set<nat>, h: nat): set<nat> { if h == TERMINAL then loose else loose + {h} }

  lemma FdTables(s: State, t: nat, i: nat, fd: Option<nat>)
    requires TablesOk(s) && t < TASKS && i < MAX_FDS
    requires fd.Some? ==> s.tasks[t].live && (fd.value == TERMINAL || fd.value in s.handles)
    ensures TablesOk(SetFd(s, t, i, fd))
  {}

  lemma FdRefs(s: State, loose: set<nat>, t: nat, i: nat, fd: Option<nat>, after: set<nat>)
    requires RefsOk(s, loose) && t < |s.tasks| && i < |s.tasks[t].fds| && forall h :: h in after ==> h in s.handles
    requires forall h :: h in s.handles ==>
               (if h in after then 1 else 0) + (if fd == Some(h) then 1 else 0)
               == (if h in loose then 1 else 0) + (if s.tasks[t].fds[i] == Some(h) then 1 else 0)
    ensures RefsOk(SetFd(s, t, i, fd), after)
  {
    forall h | h in s.handles
      ensures |Slots(SetFd(s, t, i, fd).tasks, h)| + (if s.tasks[t].fds[i] == Some(h) then 1 else 0)
              == |Slots(s.tasks, h)| + if fd == Some(h) then 1 else 0
    {
      SlotCount(s, t, i, fd, h);
    }
    hide Slots;
  }

  lemma FdPipes(s: State, t: nat, i: nat, fd: Option<nat>)
    requires PipesOk(s) && t < |s.tasks| && i < |s.tasks[t].fds|
    ensures PipesOk(SetFd(s, t, i, fd))
  {
    hide Ends;
  }

  /** A slot is emptied: the reference it held is at work now. */
  lemma TakeKeeps(s: State, loose: set<nat>, t: nat, i: nat)
    requires Inv(s, loose) && t < TASKS && i < MAX_FDS && s.tasks[t].fds[i].Some? && s.tasks[t].call.NoCall?
    requires s.tasks[t].fds[i].value !in loose
    ensures Inv(SetFd(s, t, i, None), Plus(loose, s.tasks[t].fds[i].value))
  {
    FdTables(s, t, i, None);
    FdPipes(s, t, i, None);
    FdRefs(s, loose, t, i, None, Plus(loose, s.tasks[t].fds[i].value));
    SameCalls(s, SetFd(s, t, i, None), t);
    hide RefsOk, CallsOk, PipesOk, TablesOk;
  }

  /** Only task `t`, which is in no call, may have other fds. */
  lemma SameCalls(s: State, r: State, t: nat)
    requires CallsOk(s) && |r.tasks| == |s.tasks| && t < |s.tasks| && r.handles == s.handles && r.pipes == s.pipes
    requires s.tasks[t].call.NoCall? && r.tasks[t].call.NoCall? && r.tasks[t].blocked == s.tasks[t].blocked
    requires forall u :: 0 <= u < |s.tasks| && u != t ==> r.tasks[u] == s.tasks[u]
    ensures CallsOk(r)
  {
    forall u | 0 <= u < |r.tasks| ensures CallOk(r, r.tasks[u]) {
      assert CallOk(s, s.tasks[u]);
    }
  }

  /** A reference at work is put in a free slot. */
  lemma PutKeeps(s: State, loose: set<nat>, t: nat, i: nat, h: nat)
    requires Inv(s, loose) && t < TASKS && i < MAX_FDS && s.tasks[t].fds[i].None? && s.tasks[t].call.NoCall?
    requires s.tasks[t].live
    requires h in loose
    ensures Inv(SetFd(s, t, i, Some(h)), loose - {h})
  {
    FdTables(s, t, i, Some(h));
    FdPipes(s, t, i, Some(h));
    FdRefs(s, loose, t, i, Some(h), loose - {h});
    SameCalls(s, SetFd(s, t, i, Some(h)), t);
    hide RefsOk, CallsOk, PipesOk, TablesOk;
  }

  // ---- handles ----

  function WithRefs(s: State, h: nat, refs: nat): State
    requires h in s.handles
  {
    s.(handles := s.handles[h := s.handles[h].(refs := refs)])
  }

  lemma SameKinds(s: State, r: State)
    requires r.pipes == s.pipes && r.tasks == s.tasks && r.handles.Keys == s.handles.Keys
    requires forall h :: h in s.handles ==> r.handles[h].kind == s.handles[h].kind
    ensures PipesOk(s) ==> PipesOk(r)
    ensures CallsOk(s) ==> CallsOk(r)
  {
    forall end ensures Ends(r.handles, end) == Ends(s.handles, end) {}
    if CallsOk(s) {
      forall t | 0 <= t < |r.tasks| ensures CallOk(r, r.tasks[t]) { assert CallOk(s, s.tasks[t]); }
    }
  }

  /** Dropping a reference that is not the last one. */
  lemma DropKeeps(s: State, loose: set<nat>, h: nat)
    requires Inv(s, loose) && h in loose && s.handles[h].refs > 1
    ensures Inv(WithRefs(s, h, s.handles[h].refs - 1), loose - {h})
  {
    var r := WithRefs(s, h, s.handles[h].refs - 1);
    SameKinds(s, r);
    hide PipesOk, CallsOk, Slots;
  }

  /** One reference more, in the slot of a new task. */
  lemma ShareKeeps(s: State, loose: set<nat>, t: nat, i: nat, h: nat)
    requires Inv(s, loose) && t < TASKS && i < MAX_FDS && s.tasks[t].fds[i].None? && s.tasks[t].call.NoCall?
    requires s.tasks[t].live
    requires h in s.handles
    ensures Inv(WithRefs(SetFd(s, t, i, Some(h)), h, s.handles[h].refs + 1), loose)
  {
    hide Slots, CallOk;
    var mid := SetFd(s, t, i, Some(h));
    var r := WithRefs(mid, h, s.handles[h].refs + 1);
    ShareRefs(s, loose, t, i, h);
    SameCalls(s, mid, t);
    SameKinds(mid, r);
    hide PipesOk, CallsOk, RefsOk;
  }

  lemma ShareRefs(s: State, loose: set<nat>, t: nat, i: nat, h: nat)
    requires RefsOk(s, loose) && t < |s.tasks| && i < |s.tasks[t].fds| && s.tasks[t].fds[i].None? && h in s.handles
    ensures RefsOk(WithRefs(SetFd(s, t, i, Some(h)), h, s.handles[h].refs + 1), loose)
  {
    hide Slots;
    forall x | x in s.handles
      ensures |Slots(SetFd(s, t, i, Some(h)).tasks, x)| == |Slots(s.tasks, x)| + if x == h then 1 else 0
    {
      SlotCount(s, t, i, Some(h), x);
    }
  }

  lemma ShareTerminalKeeps(s: State, loose: set<nat>, t: nat, i: nat)
    requires Inv(s, loose) && t < TASKS && i < MAX_FDS && s.tasks[t].fds[i].None? && s.tasks[t].call.NoCall?
    requires s.tasks[t].live
    ensures Inv(SetFd(s, t, i, Some(TERMINAL)), loose)
  {
    FdTables(s, t, i, Some(TERMINAL));
    FdPipes(s, t, i, Some(TERMINAL));
    FdRefs(s, loose, t, i, Some(TERMINAL), loose);
    SameCalls(s, SetFd(s, t, i, Some(TERMINAL)), t);
    hide RefsOk, CallsOk, PipesOk, TablesOk;
  }

  // ---- waking ----

  /** The tasks in a call on pipe `p` go on. */
  function Awake(s: State, task: Task, p: nat): Task {
    if PipeOf(s, task.call) == Some(p) then task.(blocked := false) else task
  }

  /** `task_wake_channel` on a pipe, whose state is `pipe` now. */
  ghost function Changed(s: State, p: nat, pipe: Pipe): State {
    s.(pipes := s.pipes[p := pipe],
       tasks := seq(|s.tasks|, t requires 0 <= t < |s.tasks| => Awake(s, s.tasks[t], p)))
  }

  lemma ChangedSlots(s: State, p: nat, pipe: Pipe, h: nat)
    ensures Slots(Changed(s, p, pipe).tasks, h) == Slots(s.tasks, h)
  {}

  /** Changing what a pipe holds, and waking all that wait for it. */
  lemma ChangedKeeps(s: State, loose: set<nat>, p: nat, pipe: Pipe)
    requires Inv(s, loose) && p in s.pipes && |pipe.buffer| <= PIPE_SIZE
    requires pipe.readers == s.pipes[p].readers && pipe.writers == s.pipes[p].writers
    ensures Inv(Changed(s, p, pipe), loose)
  {
    ChangedRefs(s, loose, p, pipe);
    ChangedCalls(s, p, pipe);
    ChangedTables(s, p, pipe);
    ChangedPipes(s, p, pipe);
    hide Slots, CallsOk, RefsOk, TablesOk, PipesOk, Changed;
  }

  lemma ChangedPipes(s: State, p: nat, pipe: Pipe)
    requires PipesOk(s) && p in s.pipes && |pipe.buffer| <= PIPE_SIZE
    requires pipe.readers == s.pipes[p].readers && pipe.writers == s.pipes[p].writers
    ensures PipesOk(Changed(s, p, pipe))
  {
    hide Ends;
  }

  lemma ChangedRefs(s: State, loose: set<nat>, p: nat, pipe: Pipe)
    requires RefsOk(s, loose)
    ensures RefsOk(Changed(s, p, pipe), loose)
  {
    forall h ensures Slots(Changed(s, p, pipe).tasks, h) == Slots(s.tasks, h) { ChangedSlots(s, p, pipe, h); }
    hide Slots;
  }

  lemma ChangedTables(s: State, p: nat, pipe: Pipe)
    requires TablesOk(s)
    ensures TablesOk(Changed(s, p, pipe))
  {}

  lemma ChangedCalls(s: State, p: nat, pipe: Pipe)
    requires CallsOk(s) && p in s.pipes
    ensures CallsOk(Changed(s, p, pipe))
  {
    forall t | 0 <= t < |s.tasks| ensures CallOk(Changed(s, p, pipe), Changed(s, p, pipe).tasks[t]) {
      assert CallOk(s, s.tasks[t]);
    }
  }

  // ---- the last reference ----

  function Shrunk(pipe: Pipe, end: Kind): Pipe {
    if end.ReadEnd? then pipe.(readers := if pipe.readers > 0 then pipe.readers - 1 else 0)
    else pipe.(writers := if pipe.writers > 0 then pipe.writers - 1 else 0)
  }

  predicate Unused(pipe: Pipe) { pipe.readers == 0 && pipe.writers == 0 }

  /** `h`, the last reference to a file or to an end of a pipe, is gone; a pipe has an end less, which
      all that wait for it notice, and goes away with its last one. */
  ghost function Released(s: State, h: nat): State
    requires h in s.handles && (s.handles[h].kind.File? || s.handles[h].kind.pipe in s.pipes)
  {
    var kind := s.handles[h].kind;
    if kind.File? then s.(handles := s.handles - {h})
    else
      var pipe := Shrunk(s.pipes[kind.pipe], kind);
      var r := Changed(s, kind.pipe, pipe);
      State(r.tasks, s.handles - {h}, if Unused(pipe) then s.pipes - {kind.pipe} else r.pipes)
  }

  lemma HeldBySlot(tasks: seq<Task>, t: nat, h: nat)
    requires t < |tasks| && Some(h) in tasks[t].fds
    ensures Slots(tasks, h) != {}
  {
    var i: nat :| i < |tasks[t].fds| && tasks[t].fds[i] == Some(h);
    assert (t, i) in Slots(tasks, h);
  }

  /** Nothing is held by a slot, or used by a call, that has no reference but the one at work. */
  lemma NotUsed(s: State, loose: set<nat>, h: nat)
    requires Inv(s, loose) && h in loose && s.handles[h].refs == 1
    ensures forall t :: 0 <= t < TASKS ==> Some(h) !in s.tasks[t].fds
    ensures forall t :: 0 <= t < TASKS && !s.tasks[t].call.NoCall? ==> s.tasks[t].call.handle != h
  {
    assert Slots(s.tasks, h) == {};
    forall t | 0 <= t < TASKS ensures Some(h) !in s.tasks[t].fds {
      if Some(h) in s.tasks[t].fds { HeldBySlot(s.tasks, t, h); }
    }
    forall t | 0 <= t < TASKS ensures s.tasks[t].call.NoCall? || s.tasks[t].call.handle != h {
      assert CallOk(s, s.tasks[t]);
    }
  }

  lemma EndsWithout(handles: map<nat, Handle>, h: nat, end: Kind)
    requires h in handles
    ensures |Ends(handles - {h}, end)| == |Ends(handles, end)| - if handles[h].kind == end then 1 else 0
  {
    assert Ends(handles - {h}, end) == Ends(handles, end) - {h};
    assert h in Ends(handles, end) <==> handles[h].kind == end;
  }

  lemma ReleasedPipes(s: State, h: nat)
    requires PipesOk(s) && h in s.handles
    ensures s.handles[h].kind.File? || s.handles[h].kind.pipe in s.pipes
    ensures PipesOk(Released(s, h))
  {
    hide Ends, Awake;
    var r := Released(s, h);
    forall end ensures |Ends(r.handles, end)| == |Ends(s.handles, end)| - if s.handles[h].kind == end then 1 else 0 {
      EndsWithout(s.handles, h, end);
    }
    forall x | x in r.handles && !r.handles[x].kind.File? ensures r.handles[x].kind.pipe in r.pipes {
      EndsNonEmpty(r.handles, x);
    }
  }

  lemma EndsNonEmpty(handles: map<nat, Handle>, h: nat)
    requires h in handles
    ensures |Ends(handles, handles[h].kind)| > 0
  {
    assert h in Ends(handles, handles[h].kind);
  }

  lemma ReleasedCalls(s: State, h: nat)
    requires CallsOk(s) && PipesOk(s) && h in s.handles
    requires forall t :: 0 <= t < |s.tasks| && !s.tasks[t].call.NoCall? ==> s.tasks[t].call.handle != h
    ensures CallsOk(Released(s, h))
  {
    ReleasedPipes(s, h);
    hide CallOk, PipesOk;
    forall t | 0 <= t < |s.tasks| ensures CallOk(Released(s, h), Released(s, h).tasks[t]) {
      ReleasedCall(s, h, s.tasks[t]);
    }
  }

  lemma ReleasedCall(s: State, h: nat, task: Task)
    requires CallOk(s, task) && h in s.handles && (task.call.NoCall? || task.call.handle != h)
    requires s.handles[h].kind.File? || s.handles[h].kind.pipe in s.pipes
    requires PipesOk(Released(s, h))
    ensures CallOk(Released(s, h), if s.handles[h].kind.File? then task else Awake(s, task, s.handles[h].kind.pipe))
  {
    hide Ends;
  }

  lemma ReleasedRefs(s: State, loose: set<nat>, h: nat)
    requires RefsOk(s, loose) && PipesOk(s) && h in s.handles && h in loose
    ensures s.handles[h].kind.File? || s.handles[h].kind.pipe in s.pipes
    ensures RefsOk(Released(s, h), loose - {h})
  {
    forall x ensures Slots(Released(s, h).tasks, x) == Slots(s.tasks, x) {
      if !s.handles[h].kind.File? {
        ChangedSlots(s, s.handles[h].kind.pipe, Shrunk(s.pipes[s.handles[h].kind.pipe], s.handles[h].kind), x);
      }
    }
    hide Slots, Ends;
  }

  lemma ReleasedTables(s: State, h: nat)
    requires TablesOk(s) && h in s.handles && (s.handles[h].kind.File? || s.handles[h].kind.pipe in s.pipes)
    requires forall t :: 0 <= t < TASKS ==> Some(h) !in s.tasks[t].fds
    ensures TablesOk(Released(s, h))
  {}

  lemma ReleasedKeeps(s: State, loose: set<nat>, h: nat)
    requires Inv(s, loose) && h in loose && s.handles[h].refs == 1
    ensures s.handles[h].kind.File? || s.handles[h].kind.pipe in s.pipes
    ensures Inv(Released(s, h), loose - {h})
  {
    NotUsed(s, loose, h);
    ReleasedPipes(s, h);
    ReleasedCalls(s, h);
    ReleasedRefs(s, loose, h);
    ReleasedTables(s, h);
    hide RefsOk, TablesOk, CallsOk, PipesOk, Released;
  }

  // ---- new handles ----

  function WithFile(s: State, h: nat): State { s.(handles := s.handles[h := Handle(File, 1)]) }

  lemma NewFileKeeps(s: State, loose: set<nat>, h: nat)
    requires Inv(s, loose) && h != TERMINAL && h !in s.handles
    ensures Inv(WithFile(s, h), loose + {h})
  {
    NoSlots(s, h);
    NewFilePipes(s, h);
    NewFileCalls(s, h);
    hide Slots, CallsOk, PipesOk;
  }

  lemma NewFilePipes(s: State, h: nat)
    requires PipesOk(s) && h !in s.handles
    ensures PipesOk(WithFile(s, h))
  {
    forall end: Kind | !end.File? ensures Ends(WithFile(s, h).handles, end) == Ends(s.handles, end) {}
    hide Ends;
  }

  lemma NewFileCalls(s: State, h: nat)
    requires CallsOk(s) && h !in s.handles
    ensures CallsOk(WithFile(s, h))
  {
    forall t | 0 <= t < |s.tasks| ensures CallOk(WithFile(s, h), s.tasks[t]) { assert CallOk(s, s.tasks[t]); }
  }

  lemma NoSlots(s: State, h: nat)
    requires TablesOk(s) && h != TERMINAL && h !in s.handles
    ensures Slots(s.tasks, h) == {}
  {}

  ghost function WithPipe(s: State, p: nat, r: nat, w: nat): State {
    s.(pipes := s.pipes[p := Pipe([], 1, 1)],
       handles := s.handles[r := Handle(ReadEnd(p), 1)][w := Handle(WriteEnd(p), 1)])
  }

  lemma NewPipeKeeps(s: State, loose: set<nat>, p: nat, r: nat, w: nat)
    requires Inv(s, loose) && p !in s.pipes && r != TERMINAL && w != TERMINAL && r != w && r !in s.handles
    requires w !in s.handles
    ensures Inv(WithPipe(s, p, r, w), loose + {r, w})
  {
    NoSlots(s, r);
    NoSlots(s, w);
    NewPipeEnds(s, p, r, w);
    NewPipeCalls(s, p, r, w);
    hide Slots, Ends, CallsOk, PipesOk;
  }

  lemma EndsNew(s: State, p: nat, r: nat, w: nat, end: Kind)
    requires r != w && r !in s.handles && w !in s.handles && !end.File?
    ensures Ends(WithPipe(s, p, r, w).handles, end)
            == Ends(s.handles, end) + if end == ReadEnd(p) then {r} else if end == WriteEnd(p) then {w} else {}
  {}

  lemma NoEnds(s: State, p: nat)
    requires PipesOk(s) && p !in s.pipes
    ensures Ends(s.handles, ReadEnd(p)) == {} && Ends(s.handles, WriteEnd(p)) == {}
  {}

  lemma NewPipeEnds(s: State, p: nat, r: nat, w: nat)
    requires PipesOk(s) && p !in s.pipes && r != w && r !in s.handles && w !in s.handles
    ensures PipesOk(WithPipe(s, p, r, w))
  {
    hide Ends;
    NoEnds(s, p);
    forall q
      ensures q != p ==> Ends(WithPipe(s, p, r, w).handles, ReadEnd(q)) == Ends(s.handles, ReadEnd(q))
      ensures q != p ==> Ends(WithPipe(s, p, r, w).handles, WriteEnd(q)) == Ends(s.handles, WriteEnd(q))
    {
      EndsNew(s, p, r, w, ReadEnd(q));
      EndsNew(s, p, r, w, WriteEnd(q));
    }
    EndsNew(s, p, r, w, ReadEnd(p));
    EndsNew(s, p, r, w, WriteEnd(p));
  }

  lemma NewPipeCalls(s: State, p: nat, r: nat, w: nat)
    requires CallsOk(s) && p !in s.pipes && r !in s.handles && w !in s.handles
    ensures CallsOk(WithPipe(s, p, r, w))
  {
    forall t | 0 <= t < |s.tasks| ensures CallOk(WithPipe(s, p, r, w), s.tasks[t]) { assert CallOk(s, s.tasks[t]); }
  }
}
