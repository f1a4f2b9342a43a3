// Pipes and file descriptors as system calls of the tasks that share them.
module KernelPipes {
  import opened Options
  import opened Bytes
  import opened KernelFiles

  const OK := 0
  const TASK_KILLED := -1
  const NO_MEMORY_ERROR := -2

  // ---- the ring buffer ----

  /** Where byte `i` of the buffer's contents is. */
  function RingAt(head: nat, i: nat): (r: nat)
    ensures r < PIPE_SIZE
  {
    (head + i) % PIPE_SIZE
  }

  /** The `count` bytes from `head` on, around the end of the buffer. */
  ghost function Around(buffer: seq<byte>, head: nat, count: nat): (r: seq<byte>)
    requires |buffer| == PIPE_SIZE && head < PIPE_SIZE && count <= PIPE_SIZE
    ensures |r| == count
  {
    seq(count, i requires 0 <= i < count => buffer[RingAt(head, i)])
  }

  lemma AroundNext(buffer: seq<byte>, head: nat, count: nat)
    requires |buffer| == PIPE_SIZE && head < PIPE_SIZE && 0 < count <= PIPE_SIZE
    ensures Around(buffer, head, count) == [buffer[head]] + Around(buffer, (head + 1) % PIPE_SIZE, count - 1)
  {
    var all, rest := Around(buffer, head, count), Around(buffer, (head + 1) % PIPE_SIZE, count - 1);
    forall i | 0 <= i < count - 1 ensures rest[i] == all[i + 1] {}
    assert RingAt(head, 0) == head;
  }

  lemma AroundMore(buffer: seq<byte>, head: nat, count: nat, c: byte)
    requires |buffer| == PIPE_SIZE && head < PIPE_SIZE && count < PIPE_SIZE
    ensures Around(buffer[(head + count) % PIPE_SIZE := c], head, count + 1) == Around(buffer, head, count) + [c]
  {
    forall i | 0 <= i < count ensures RingAt(head, i) != RingAt(head, count) {}
  }

  /** The buffer of a pipe, used in place. */
  class Ring {
    const buffer: array<byte>
    var head: nat
    var count: nat

    ghost predicate Valid() reads this { buffer.Length == PIPE_SIZE && head < PIPE_SIZE && count <= PIPE_SIZE }

    /** The bytes in the buffer, the oldest first. */
    ghost function Contents(): (c: seq<byte>)
      requires Valid()
      reads this, buffer
    {
      Around(buffer[..], head, count)
    }

    constructor ()
      ensures Valid() && Contents() == []
    {
      buffer := new byte[PIPE_SIZE](_ => 0);
      head := 0;
      count := 0;
    }

    /** The copy loop of `pipe_read`. */
    method Take(len: nat) returns (out: seq<byte>)
      requires Valid()
      modifies this
      ensures Valid() && |out| == (if len < old(count) then len else old(count))
      ensures old(Contents()) == out + Contents()
    {
      hide Around;
      var total := if len < count then len else count;
      ghost var was := Contents();
      out := [];
      for i := 0 to total
        invariant head < PIPE_SIZE && buffer.Length == PIPE_SIZE && count == old(count) && |out| == i
        invariant was == out + Around(buffer[..], head, count - i)
      {
        AroundNext(buffer[..], head, count - i);
        out := out + [buffer[head]];
        head := (head + 1) % PIPE_SIZE;
      }
      count := count - total;
    }

    /** The copy loop of `pipe_write`, for as much as there is space. */
    method Put(input: seq<byte>) returns (total: nat)
      requires Valid()
      modifies this, buffer
      ensures Valid() && total == (if |input| < 4096 - old(count) then |input| else 4096 - old(count))
      ensures Contents() == old(Contents()) + input[..total]
    {
      hide Around;
      var space := PIPE_SIZE - count;
      total := if |input| < space then |input| else space;
      ghost var was := Contents();
      assert input[..0] == [];
      for i := 0 to total
        invariant Valid() && head == old(head) && count == old(count) + i
        invariant Contents() == was + input[..i]
      {
        AroundMore(buffer[..], head, count, input[i]);
        ghost var before := buffer[..];
        buffer[(head + count) % PIPE_SIZE] := input[i];
        assert buffer[..] == before[(head + count) % PIPE_SIZE := input[i]];
        count := count + 1;
        assert input[..i + 1] == input[..i] + [input[i]];
      }
    }
  }

  // ---- the system ----

  /** Bytes delivered and bytes buffered are the bytes accepted, in order; what was delivered stays so
      when the pipe is gone. */
  ghost predicate FlowsOk(pipes: map<nat, Pipe>, accepted: map<nat, seq<byte>>, delivered: map<nat, seq<byte>>) {
    && (forall p :: p in pipes ==> p in accepted && p in delivered && delivered[p] + pipes[p].buffer == accepted[p])
    && (forall p :: p in accepted ==> p in delivered && delivered[p] <= accepted[p])
    && forall p :: p in delivered ==> p in accepted
  }

  ghost predicate IdsOk(s: State, next: nat) {
    && next > TERMINAL && (forall h :: h in s.handles ==> h < next) && forall p :: p in s.pipes ==> p < next
  }

  ghost predicate Ok(s: State, loose: set<nat>, accepted: map<nat, seq<byte>>, delivered: map<nat, seq<byte>>,
                     next: nat) {
    && Inv(s, loose) && FlowsOk(s.pipes, accepted, delivered) && IdsOk(s, next)
    && forall p :: p in accepted ==> p < next
  }

  lemma ReleasedOk(s: State, h: nat, loose: set<nat>, accepted: map<nat, seq<byte>>, delivered: map<nat, seq<byte>>,
                   next: nat)
    requires Ok(s, loose, accepted, delivered, next) && h in loose && h in s.handles && s.handles[h].refs == 1
    ensures s.handles[h].kind.File? || s.handles[h].kind.pipe in s.pipes
    ensures Ok(Released(s, h), loose - {h}, accepted, delivered, next)
    ensures |s.tasks| == TASKS && |Released(s, h).tasks| == TASKS
    ensures forall t :: 0 <= t < TASKS ==>
              Released(s, h).tasks[t] == s.tasks[t].(blocked := Released(s, h).tasks[t].blocked)
  {
    ReleasedKeeps(s, loose, h);
    ReleasedFlows(s, h, accepted, delivered, next);
    ReleasedTasks(s, h);
    hide RefsOk, PipesOk, CallsOk, Released, FlowsOk, IdsOk;
  }

  lemma ReleasedFlows(s: State, h: nat, accepted: map<nat, seq<byte>>, delivered: map<nat, seq<byte>>, next: nat)
    requires h in s.handles && (s.handles[h].kind.File? || s.handles[h].kind.pipe in s.pipes)
    requires FlowsOk(s.pipes, accepted, delivered) && IdsOk(s, next)
    ensures FlowsOk(Released(s, h).pipes, accepted, delivered) && IdsOk(Released(s, h), next)
  {}

  lemma ReleasedTasks(s: State, h: nat)
    requires h in s.handles && (s.handles[h].kind.File? || s.handles[h].kind.pipe in s.pipes)
    ensures var r := Released(s, h);
            |r.tasks| == |s.tasks| && forall t :: 0 <= t < |s.tasks| ==>
                r.tasks[t] == s.tasks[t].(blocked := r.tasks[t].blocked)
  {}

  /** All tasks' descriptors and pipe calls, with what went through each pipe. Ids of handles and pipes
      stand for their addresses. */
  class Files {
    const tasks: array<Task>
    var handles: map<nat, Handle>
    var pipes: map<nat, Pipe>
    var nextId: nat
    ghost var accepted: map<nat, seq<byte>>
    ghost var delivered: map<nat, seq<byte>>

    ghost function S(): State
      reads this, tasks
    {
      State(tasks[..], handles, pipes)
    }

    ghost predicate Valid(loose: set<nat>)
      reads this, tasks
    {
      Ok(S(), loose, accepted, delivered, nextId)
    }

    constructor ()
      ensures Valid({}) && fresh(tasks)
    {
      tasks := new Task[TASKS](_ => Task(false, seq(MAX_FDS, _ => None), false, NoCall, false));
      handles, pipes, nextId := map[], map[], 1;
      accepted, delivered := map[], map[];
      new;
      assert forall t :: 0 <= t < TASKS ==> S().tasks[t] == Task(false, seq(MAX_FDS, _ => None), false, NoCall, false);
    }

    /** `task_wake_channel` for everyone in a call on pipe `p`. */
    method WakePipe(p: nat)
      requires tasks.Length == TASKS
      modifies tasks
      ensures forall t :: 0 <= t < TASKS ==> tasks[t] == Awake(old(S()), old(tasks[t]), p)
    {
      ghost var s := S();
      for t := 0 to TASKS
        invariant forall i :: 0 <= i < t ==> tasks[i] == Awake(s, s.tasks[i], p)
        invariant forall i :: t <= i < TASKS ==> tasks[i] == s.tasks[i]
      {
        var call := tasks[t].call;
        if !call.NoCall? && call.handle in handles && !handles[call.handle].kind.File?
           && handles[call.handle].kind.pipe == p {
          tasks[t] := tasks[t].(blocked := false);
        }
      }
    }

    /** `handle_close`: the last reference releases the file or the end of the pipe. */
    method CloseHandle(h: nat, ghost loose: set<nat>)
      requires Valid(loose) && (h == TERMINAL || h in loose)
      modifies this`handles, this`pipes, tasks
      ensures Valid(loose - {h})
      ensures h == TERMINAL ==> S() == old(S())
      ensures h != TERMINAL && old(handles[h].refs) > 1 ==> S() == WithRefs(old(S()), h, old(handles[h].refs) - 1)
      ensures h != TERMINAL && old(handles[h].refs) == 1 ==>
                (old(handles[h].kind.File?) || old(handles[h].kind.pipe in pipes)) && S() == Released(old(S()), h)
      ensures forall t :: 0 <= t < TASKS ==> tasks[t] == old(tasks[t]).(blocked := tasks[t].blocked)
    {
      if h == TERMINAL {
        LooseNoTerminal(S(), loose);
        return;
      }
      LooseExists(S(), loose, h);
      if handles[h].refs > 1 {
        DropKeeps(S(), loose, h);
        handles := handles[h := handles[h].(refs := handles[h].refs - 1)];
      } else {
        Release(h, loose);
      }
    }

    /** The end of a handle: its file is closed, or the pipe has an end less, and all that wait for
        the pipe notice. */
    method Release(h: nat, ghost loose: set<nat>)
      requires Valid(loose) && h in loose && h in handles && handles[h].refs == 1
      modifies this`handles, this`pipes, tasks
      ensures Valid(loose - {h})
      ensures (old(handles[h].kind.File?) || old(handles[h].kind.pipe in pipes)) && S() == Released(old(S()), h)
      ensures forall t :: 0 <= t < TASKS ==> tasks[t] == old(tasks[t]).(blocked := tasks[t].blocked)
    {
      ghost var s := S();
      ReleasedOk(s, h, loose, accepted, delivered, nextId);
      hide Ok, Awake, Released;
      if !handles[h].kind.File? {
        ClosePipeEnd(handles[h].kind);
      }
      handles := handles - {h};
      ReleasedIs(s, S(), h);
    }

    /** `pipe_close_reader` and `pipe_close_writer`. */
    method ClosePipeEnd(end: Kind)
      requires tasks.Length == TASKS && !end.File? && end.pipe in pipes
      modifies this`pipes, tasks
      ensures forall t :: 0 <= t < TASKS ==> tasks[t] == Awake(old(S()), old(tasks[t]), end.pipe)
      ensures pipes == Without(old(pipes), end)
    {
      hide Awake;
      ghost var s := S();
      var pipe := Shrunk(pipes[end.pipe], end);
      pipes := pipes[end.pipe := pipe];
      SameAwake(s, S(), end.pipe);
      WakePipe(end.pipe);
      if Unused(pipe) {
        pipes := pipes - {end.pipe};
      }
    }

    // ---- descriptors ----

    /** `task_fd_install`: the lowest free descriptor. */
    method InstallFd(t: nat, h: nat, ghost loose: set<nat>) returns (fd: int)
      requires Valid(loose) && t < TASKS && h in loose && tasks[t].live && tasks[t].call.NoCall?
      modifies tasks
      ensures if fd >= 0 then
                && Valid(loose - {h}) && fd < MAX_FDS && LowestFree(old(tasks[t].fds), fd)
                && S() == SetFd(old(S()), t, fd, Some(h))
              else
                fd == FILE_HANDLER_OVERFLOW && Valid(loose) && S() == old(S())
                && forall i :: 0 <= i < MAX_FDS ==> tasks[t].fds[i].Some?
    {
      ghost var s := S();
      TableSizes(s, loose);
      for i := 0 to MAX_FDS
        invariant S() == s && forall j :: 0 <= j < i ==> s.tasks[t].fds[j].Some?
      {
        if tasks[t].fds[i].None? {
          PutKeeps(s, loose, t, i, h);
          SameOk(s, SetFd(s, t, i, Some(h)), loose, loose - {h}, accepted, delivered, nextId);
          tasks[t] := tasks[t].(fds := tasks[t].fds[i := Some(h)]);
          assert S() == SetFd(s, t, i, Some(h));
          return i;
        }
      }
      fd := FILE_HANDLER_OVERFLOW;
    }

    /** `task_fd_close`. */
    method CloseFd(t: nat, fd: int, ghost loose: set<nat>) returns (res: int)
      requires Valid(loose) && t < TASKS && tasks[t].live && tasks[t].call.NoCall?
      requires 0 <= fd < MAX_FDS && tasks[t].fds[fd].Some? ==> tasks[t].fds[fd].value !in loose
      modifies this`handles, this`pipes, tasks
      ensures Valid(loose)
      ensures if 0 <= fd < MAX_FDS && old(tasks[t].fds[fd]).Some? then
                && res == OK && Closed(old(S()), S(), t, fd) && tasks[t].fds == old(tasks[t].fds)[fd := None]
              else res == INVALID_ARG_ERROR && S() == old(S())
      ensures forall u :: 0 <= u < TASKS ==>
                && (u != t ==> tasks[u].fds == old(tasks[u].fds))
                && tasks[u] == old(tasks[u]).(fds := tasks[u].fds, blocked := tasks[u].blocked)
    {
      ghost var s := S();
      TableSizes(s, loose);
      if fd < 0 || fd >= MAX_FDS || tasks[t].fds[fd].None? {
        return INVALID_ARG_ERROR;
      }
      var h := tasks[t].fds[fd].value;
      TakeKeeps(s, loose, t, fd);
      SameOk(s, SetFd(s, t, fd, None), loose, Plus(loose, h), accepted, delivered, nextId);
      PlusMinus(s, loose, h);
      hide Ok, Released;
      tasks[t] := tasks[t].(fds := tasks[t].fds[fd := None]);
      assert S() == SetFd(s, t, fd, None);
      CloseHandle(h, Plus(loose, h));
      res := OK;
    }

    /** `sys_open` of a file that was opened, if there is memory for a handle. */
    method OpenFile(t: nat, room: bool) returns (fd: int)
      requires Valid({}) && t < TASKS && tasks[t].live && tasks[t].call.NoCall?
      modifies this`handles, this`pipes, this`nextId, tasks
      ensures Valid({})
      ensures fd >= 0 <==> room && HasFree(old(tasks[t].fds))
      ensures fd >= 0 ==>
                && fd < MAX_FDS && LowestFree(old(tasks[t].fds), fd)
                && S() == SetFd(WithFile(old(S()), old(nextId)), t, fd, Some(old(nextId)))
      ensures fd < 0 ==> S() == old(S()) && fd == if room then FILE_HANDLER_OVERFLOW else NO_MEMORY_ERROR
    {
      hide Ok, Released, LowestFree;
      if !room {
        return NO_MEMORY_ERROR;
      }
      ghost var s := S();
      OkSizes(s, {}, accepted, delivered, nextId);
      NextFree(s, {}, accepted, delivered, nextId);
      FileOk(s, accepted, delivered, nextId);
      var h := nextId;
      nextId := nextId + 1;
      handles := handles[h := Handle(File, 1)];
      assert S() == WithFile(s, h) && {h} - {h} == {};
      fd := InstallFd(t, h, {h});
      if fd < 0 {
        MinusPlus(s.handles, h, Handle(File, 1));
        ReleasedMaps(WithFile(s, h), h);
        assert handles[h] == Handle(File, 1);
        CloseHandle(h, {h});
        FileUndone(s, h);
      }
    }

    /** `sys_pipe`, if there is memory: a new pipe with its ends in the lowest free descriptors, or
        nothing at all. */
    method OpenPipe(t: nat, room: bool) returns (res: int, readFd: int, writeFd: int)
      requires Valid({}) && t < TASKS && tasks[t].live && tasks[t].call.NoCall?
      modifies this, tasks
      ensures Valid({})
      ensures res >= 0 <==> room && TwoFree(old(tasks[t].fds))
      ensures res >= 0 ==>
                && InTwoSlots(old(tasks[..]), tasks[..], t, old(nextId), old(nextId) + 1, readFd, writeFd)
                && handles == WithPipe(old(S()), old(nextId) + 2, old(nextId), old(nextId) + 1).handles
                && pipes == WithPipe(old(S()), old(nextId) + 2, old(nextId), old(nextId) + 1).pipes
                && accepted == old(accepted)[old(nextId) + 2 := []]
                && delivered == old(delivered)[old(nextId) + 2 := []]
      ensures res < 0 ==>
                && res == (if room then FILE_HANDLER_OVERFLOW else NO_MEMORY_ERROR)
                && S() == old(S()) && accepted == old(accepted) && delivered == old(delivered)
    {
      hide Ok, Released, Without, InTwoSlots, WithPipe, CanRelease, TwoFree;
      readFd, writeFd := -1, -1;
      if !room {
        res := NO_MEMORY_ERROR;
        return;
      }
      ghost var s := S();
      OkSizes(s, {}, accepted, delivered, nextId);
      NextFree(s, {}, accepted, delivered, nextId);
      var r, w, p := nextId, nextId + 1, nextId + 2;
      ghost var before, given := accepted, delivered;
      UndonePipe(s, p, r, w);
      MakePipe(r, w, p);
      ghost var made := S();
      assert made == WithPipe(s, p, r, w) && made.tasks == s.tasks;
      res, readFd, writeFd := InstallPipe(t, r, w, p);
      if res < 0 {
        PipeUndone(s, S(), r, before, given);
        accepted, delivered := before, given;
      }
    }

    /** Both ends of a new pipe get a descriptor, or are closed again. */
    method InstallPipe(t: nat, r: nat, w: nat, p: nat) returns (res: int, readFd: int, writeFd: int)
      requires Valid({r, w}) && t < TASKS && tasks[t].live && tasks[t].call.NoCall? && r != w
      requires r in handles && handles[r] == Handle(ReadEnd(p), 1) && w in handles
      requires handles[w] == Handle(WriteEnd(p), 1)
      requires p in pipes && p in Without(pipes, ReadEnd(p))
      modifies this`handles, this`pipes, tasks
      ensures Valid({})
      ensures res >= 0 <==> TwoFree(old(tasks[t].fds))
      ensures res >= 0 ==>
                && InTwoSlots(old(tasks[..]), tasks[..], t, r, w, readFd, writeFd) && handles == old(handles)
                && pipes == old(pipes)
      ensures res < 0 ==> res == FILE_HANDLER_OVERFLOW && BothReleased(old(S()), S(), r, w)
    {
      hide Ok, Released, Without, LowestFree, Inv, TwoFree;
      ghost var made := S();
      OkSizes(made, {r, w}, accepted, delivered, nextId);
      PairMinus(r, w);
      writeFd := -1;
      readFd := InstallFd(t, r, {r, w});
      if readFd < 0 {
        ReleasedMaps(made, r);
        CloseHandle(r, {r, w});
        ReleasedMaps(S(), w);
        CloseHandle(w, {w});
        NoneFree(made.tasks[t].fds);
        res := readFd;
        return;
      }
      ghost var one := S();
      writeFd := InstallFd(t, w, {w});
      if writeFd < 0 {
        BackAgain(made, t, readFd, Some(r));
        ReleasedMaps(made, r);
        var _ := CloseFd(t, readFd, {w});
        ReleasedMaps(S(), w);
        CloseHandle(w, {w});
        OneFree(made.tasks[t].fds, readFd, Some(r));
        res := writeFd;
        return;
      }
      TwoWereFree(made.tasks[t].fds, readFd, writeFd, Some(r));
      res := OK;
    }

    // ---- tasks ----

    /** `task_exit` closes all descriptors. */
    method Exit(t: nat)
      requires Valid({}) && t < TASKS && tasks[t].live && tasks[t].call.NoCall?
      modifies this`handles, this`pipes, tasks
      ensures Valid({}) && Left(old(S()), S(), t)
    {
      hide Ok, Closed, Inv, FewerEnds, WentOn;
      ghost var start := S();
      OkSizes(start, {}, accepted, delivered, nextId);
      SameEnds(start);
      for i := 0 to MAX_FDS
        invariant Valid({}) && tasks[t].live && tasks[t].call.NoCall? && |tasks[t].fds| == MAX_FDS
        invariant forall j :: 0 <= j < i ==> tasks[t].fds[j].None?
        invariant FewerEnds(start, S()) && forall u :: 0 <= u < TASKS && u != t ==> WentOn(start.tasks[u], tasks[u])
      {
        if tasks[t].fds[i].Some? {
          ghost var mid := S();
          var _ := CloseFd(t, i, {});
          ClosedFewer(start, mid, S(), t, i);
        }
      }
      EndOk(S(), t, accepted, delivered, nextId);
      ghost var s := S();
      tasks[t] := tasks[t].(live := false);
      assert S() == s.(tasks := s.tasks[t := s.tasks[t].(live := false)]);
      FewerSame(start, s, S());
    }

    /** `task_kill`: a task that waits for a pipe goes on, and notices. */
    method Kill(t: nat)
      requires Valid({}) && t < TASKS && tasks[t].live
      modifies tasks
      ensures Valid({})
      ensures S() == old(S()).(tasks := old(S()).tasks[t := old(tasks[t]).(killed := true, blocked := false)])
    {
      hide Ok, Inv;
      ghost var s := S();
      OkSizes(s, {}, accepted, delivered, nextId);
      KillOk(s, t, accepted, delivered, nextId);
      tasks[t] := tasks[t].(killed := true);
      tasks[t] := tasks[t].(blocked := false);
      assert S() == s.(tasks := s.tasks[t := s.tasks[t].(killed := true, blocked := false)]);
    }

    /** `task_spawn`: the child gets a reference to each of the handles that become its fds 0, 1 and 2
        (`None` for the caller's own, which is the terminal if that is closed). */
    method Spawn(parent: nat, child: nat, io: seq<Option<nat>>)
      requires Valid({}) && parent < TASKS && child < TASKS && tasks[parent].live && !tasks[child].live && |io| == 3
      requires forall i :: 0 <= i < 3 && io[i].Some? ==> io[i].value == TERMINAL || io[i].value in handles
      modifies this`handles, tasks
      ensures Valid({}) && tasks[child].live
      ensures forall i :: 0 <= i < 3 ==> Gets(old(tasks[parent].fds), io, i, tasks[child].fds[i])
      ensures forall i :: 3 <= i < MAX_FDS ==> tasks[child].fds[i].None?
      ensures forall u :: 0 <= u < TASKS && u != child ==> tasks[u] == old(tasks[u])
      ensures tasks[child] == Task(true, tasks[child].fds, false, NoCall, false) && |tasks[child].fds| == MAX_FDS
      ensures SameHandles(old(handles), handles) && pipes == old(pipes)
    {
      hide Ok, Inv, Shared;
      ghost var s := S();
      OkSizes(s, {}, accepted, delivered, nextId);
      SameHandlesRefl(handles);
      GoneIsEmpty(s, child, accepted, delivered, nextId);
      StartOk(s, child, accepted, delivered, nextId);
      tasks[child] := Task(true, seq(MAX_FDS, _ => None), false, NoCall, false);
      assert S() == s.(tasks := s.tasks[child := Task(true, seq(MAX_FDS, _ => None), false, NoCall, false)]);
      for i := 0 to 3
        invariant Valid({}) && tasks[child].live && tasks[child].call.NoCall? && |tasks[child].fds| == MAX_FDS
        invariant forall j :: 0 <= j < i ==> tasks[child].fds[j] == Some(Inherited(s.tasks[parent].fds, io, j))
        invariant forall j :: i <= j < MAX_FDS ==> tasks[child].fds[j].None?
        invariant forall u :: 0 <= u < TASKS && u != child ==> tasks[u] == s.tasks[u]
        invariant tasks[child] == Task(true, tasks[child].fds, false, NoCall, false)
        invariant SameHandles(s.handles, handles) && pipes == s.pipes
      {
        FdHandle(S(), parent, i, accepted, delivered, nextId);
        ghost var before := handles;
        Share(child, i, Inherited(tasks[parent].fds, io, i));
        SameHandlesTwice(s.handles, before, handles);
      }
    }

    /** `handle_ref` for a descriptor of a new task. */
    method Share(t: nat, i: nat, h: nat)
      requires Valid({}) && t < TASKS && i < MAX_FDS && tasks.Length == TASKS && |tasks[t].fds| == MAX_FDS
      requires tasks[t].fds[i].None? && tasks[t].call.NoCall? && tasks[t].live && (h == TERMINAL || h in handles)
      modifies this`handles, tasks
      ensures Valid({}) && S() == Shared(old(S()), t, i, h)
      ensures tasks[t] == old(tasks[t]).(fds := old(tasks[t].fds)[i := Some(h)])
      ensures forall u :: 0 <= u < TASKS && u != t ==> tasks[u] == old(tasks[u])
      ensures SameHandles(old(handles), handles) && pipes == old(pipes)
    {
      hide Ok, Inv;
      ghost var s := S();
      ShareOk(s, t, i, h, accepted, delivered, nextId);
      if h != TERMINAL {
        handles := handles[h := handles[h].(refs := handles[h].refs + 1)];
      }
      tasks[t] := tasks[t].(fds := tasks[t].fds[i := Some(h)]);
      assert S() == Shared(s, t, i, h);
    }

    // ---- reading and writing ----

    /** `handle_read` on a pipe: enters `pipe_read`. */
    method Read(t: nat, fd: int, len: nat) returns (waits: bool, res: int, out: seq<byte>)
      requires Valid({}) && t < TASKS && tasks[t].live && tasks[t].call.NoCall?
      requires 0 <= fd < MAX_FDS && tasks[t].fds[fd].Some? ==>
                 tasks[t].fds[fd].value in handles && !handles[tasks[t].fds[fd].value].kind.File?
      modifies this`pipes, this`delivered, tasks
      ensures Valid({})
      ensures !old(HasEnd(S(), t, fd, true)) ==>
                !waits && res == INVALID_ARG_ERROR && S() == old(S()) && delivered == old(delivered)
      ensures old(HasEnd(S(), t, fd, true)) ==>
                var h := old(tasks[t].fds[fd].value);
                && ReadsFrom(old(S()), S(), t, h, len, waits, res, out)
                && delivered == More(old(delivered), old(handles[h].kind.pipe), out)
    {
      hide Ok, Inv, ReadsFrom, More;
      ghost var s := S();
      OkSizes(s, {}, accepted, delivered, nextId);
      out := [];
      if fd < 0 || fd >= MAX_FDS || tasks[t].fds[fd].None? || !handles[tasks[t].fds[fd].value].kind.ReadEnd? {
        return false, INVALID_ARG_ERROR, out;
      }
      EnterOk(s, t, fd, Reading(tasks[t].fds[fd].value, len), accepted, delivered, nextId);
      tasks[t] := tasks[t].(call := Reading(tasks[t].fds[fd].value, len));
      assert S() == s.(tasks := s.tasks[t := s.tasks[t].(call := Reading(s.tasks[t].fds[fd].value, len))]);
      ghost var mid := S();
      waits, res, out := ReadOn(t);
      EnteredReads(s, mid, S(), t, s.tasks[t].fds[fd].value, len, waits, res, out);
    }

    /** `pipe_read` from where its task waits, or waited: it waits while there is nothing to read from
        a pipe that has writers, unless the task was killed. */
    method ReadOn(t: nat) returns (waits: bool, res: int, out: seq<byte>)
      requires Valid({}) && t < TASKS && tasks[t].call.Reading? && !tasks[t].blocked
      modifies this`pipes, this`delivered, tasks
      ensures Valid({}) && old(PipeOf(S(), tasks[t].call)).Some?
      ensures ReadsFrom(old(S()), S(), t, old(tasks[t].call.handle), old(tasks[t].call.len), waits, res, out)
      ensures delivered == More(old(delivered), old(PipeOf(S(), tasks[t].call).value), out)
    {
      hide Ok, Inv, Changed, Awake;
      ghost var s := S();
      OkSizes(s, {}, accepted, delivered, nextId);
      CallPipe(s, t, accepted, delivered, nextId);
      var p, len := handles[tasks[t].call.handle].kind.pipe, tasks[t].call.len;
      var pipe := pipes[p];
      out := [];
      NothingMore(delivered, p);
      if pipe.buffer == [] && pipe.writers > 0 && !tasks[t].killed {
        Block(t);
        return true, 0, out;
      }
      waits := false;
      DoneOk(s, t, accepted, delivered, nextId);
      tasks[t] := tasks[t].(call := NoCall);
      ghost var done := S();
      assert done == Done(s, t);
      if tasks[t].killed {
        res := TASK_KILLED;
        return;
      }
      var total := if len < |pipe.buffer| then len else |pipe.buffer|;
      out := pipe.buffer[..total];
      TakenOk(done, p, total, accepted, delivered, nextId);
      pipes := pipes[p := pipe.(buffer := pipe.buffer[total..])];
      delivered := delivered[p := delivered[p] + out];
      SameAwake(done, S(), p);
      WakePipe(p);
      assert S().tasks == Changed(done, p, pipe.(buffer := pipe.buffer[total..])).tasks by {
        ChangedTasks(done, p, pipe.(buffer := pipe.buffer[total..]));
      }
      ChangedParts(done, p, pipe.(buffer := pipe.buffer[total..]));
      assert S() == Changed(done, p, pipe.(buffer := pipe.buffer[total..]));
      res := total;
    }

    /** `handle_write` on a pipe: enters `pipe_write`. */
    method Write(t: nat, fd: int, data: seq<byte>) returns (waits: bool, res: int, ghost put: seq<byte>)
      requires Valid({}) && t < TASKS && tasks[t].live && tasks[t].call.NoCall?
      requires 0 <= fd < MAX_FDS && tasks[t].fds[fd].Some? ==>
                 tasks[t].fds[fd].value in handles && !handles[tasks[t].fds[fd].value].kind.File?
      modifies this`pipes, this`accepted, tasks
      ensures Valid({})
      ensures !old(HasEnd(S(), t, fd, false)) ==>
                !waits && res == INVALID_ARG_ERROR && S() == old(S()) && accepted == old(accepted)
      ensures old(HasEnd(S(), t, fd, false)) ==>
                var h := old(tasks[t].fds[fd].value);
                && WritesTo(old(S()), S(), t, h, data, 0, waits, res, put)
                && accepted == More(old(accepted), old(handles[h].kind.pipe), put)
    {
      hide Ok, Inv, WritesTo, More;
      ghost var s := S();
      OkSizes(s, {}, accepted, delivered, nextId);
      put := [];
      if fd < 0 || fd >= MAX_FDS || tasks[t].fds[fd].None? || !handles[tasks[t].fds[fd].value].kind.WriteEnd? {
        return false, INVALID_ARG_ERROR, put;
      }
      EnterOk(s, t, fd, Writing(tasks[t].fds[fd].value, data, 0), accepted, delivered, nextId);
      tasks[t] := tasks[t].(call := Writing(tasks[t].fds[fd].value, data, 0));
      assert S() == s.(tasks := s.tasks[t := s.tasks[t].(call := Writing(s.tasks[t].fds[fd].value, data, 0))]);
      ghost var mid := S();
      waits, res, put := WriteOn(t);
      EnteredWrites(s, mid, S(), t, s.tasks[t].fds[fd].value, data, waits, res, put);
    }

    /** The task stops in the call it is in. */
    method Block(t: nat)
      requires Valid({}) && t < TASKS && tasks.Length == TASKS
      requires CallOk(S(), tasks[t].(blocked := true)) || !CallOk(S(), tasks[t])
      modifies tasks
      ensures Valid({}) && S() == WithCall(old(S()), t, old(tasks[t].call), true)
    {
      hide Ok, CallOk;
      ghost var s := S();
      BlockOk(s, t, accepted, delivered, nextId);
      tasks[t] := tasks[t].(blocked := true);
      assert S() == s.(tasks := s.tasks[t := s.tasks[t].(blocked := true)]) == WithCall(s, t, s.tasks[t].call, true);
    }

    /** The copy loop of `pipe_write` and what follows it: the next `total` bytes are in the pipe. */
    method PutNext(t: nat, p: nat, total: nat)
      requires Valid({}) && t < TASKS && tasks.Length == TASKS && tasks[t].call.Writing? && !tasks[t].blocked
      requires p in pipes && p in accepted && |pipes[p].buffer| + total <= PIPE_SIZE
      requires tasks[t].call.written + total <= |tasks[t].call.data|
      modifies this`pipes, this`accepted, tasks
      ensures Valid({}) && S() == PutMore(old(S()), t, p, total)
      ensures var call := old(tasks[t].call);
              accepted == More(old(accepted), p, call.data[call.written..call.written + total])
    {
      hide Ok, Inv, Changed, Awake;
      ghost var s := S();
      var pipe, data, written := pipes[p], tasks[t].call.data, tasks[t].call.written;
      PutOk(s, t, p, total, accepted, delivered, nextId);
      tasks[t] := tasks[t].(call := tasks[t].call.(written := written + total));
      pipes := pipes[p := pipe.(buffer := pipe.buffer + data[written..written + total])];
      accepted := accepted[p := accepted[p] + data[written..written + total]];
      ghost var mid := S();
      WakePipe(p);
      SameAwake(PutStart(s, t, total), mid, p);
      PutMoreIs(s, S(), t, p, total);
    }

    /** `pipe_write` from where its task waits, or waited: it writes what there is space for, and waits
        while the pipe is full and has readers, unless the task was killed. */
    method WriteOn(t: nat) returns (waits: bool, res: int, ghost put: seq<byte>)
      requires Valid({}) && t < TASKS && tasks[t].call.Writing? && !tasks[t].blocked
      modifies this`pipes, this`accepted, tasks
      ensures Valid({}) && old(PipeOf(S(), tasks[t].call)).Some?
      ensures WritesTo(old(S()), S(), t, old(tasks[t].call.handle), old(tasks[t].call.data), old(tasks[t].call.written),
                       waits, res, put)
      ensures accepted == More(old(accepted), old(PipeOf(S(), tasks[t].call).value), put)
    {
      hide Ok, Inv, Changed, Awake, PutMore, WritesTo, More;
      ghost var s, before := S(), accepted;
      OkSizes(s, {}, accepted, delivered, nextId);
      CallPipe(s, t, accepted, delivered, nextId);
      var p, data := handles[tasks[t].call.handle].kind.pipe, tasks[t].call.data;
      ghost var start := tasks[t].call.written;
      ghost var n := Fits(s, t, p, |data| - start);
      NothingMore(before, p);
      res, put := 0, data[start..start + n];
      while tasks[t].call.written < |data|
        invariant Valid({}) && handles == s.handles && tasks.Length == TASKS && res == 0
        invariant tasks[t].call.Writing? && start <= tasks[t].call.written <= |data|
        invariant tasks[t].call.written == start ==> S() == s && accepted == before
        invariant tasks[t].call.written != start ==>
                    n > 0 && tasks[t].call.written == start + n && S() == PutMore(s, t, p, n)
                    && accepted == More(before, p, put)
        decreases |data| - tasks[t].call.written
      {
        if tasks[t].call.written != start { PutMoreParts(s, t, p, n); }
        var pipe, written := pipes[p], tasks[t].call.written;
        if |pipe.buffer| == PIPE_SIZE && pipe.readers > 0 && !tasks[t].killed {
          WrittenIs(s, S(), t, p, start, written, true, 0);
          Block(t);
          return true, 0, put;
        }
        if tasks[t].killed {
          break;
        }
        if pipe.readers == 0 {
          res := BROKEN_PIPE_ERROR;
          break;
        }
        var space := PIPE_SIZE - |pipe.buffer|;
        var total := if |data| - written < space then |data| - written else space;
        PutNext(t, p, total);
        PutMoreParts(s, t, p, n);
      }
      ghost var now := S();
      if tasks[t].call.written != start { PutMoreParts(s, t, p, n); }
      DoneOk(now, t, accepted, delivered, nextId);
      var written := tasks[t].call.written;
      WrittenIs(s, now, t, p, start, written, false, if written > 0 then written else res);
      tasks[t] := tasks[t].(call := NoCall);
      assert S() == Done(now, t);
      waits := false;
      if written > 0 {
        res := written;
      }
    }

    /** `handle_new_pipe`. */
    method MakePipe(r: nat, w: nat, p: nat)
      requires Valid({}) && r == nextId && w == nextId + 1 && p == nextId + 2
      modifies this
      ensures Valid({r, w}) && S() == WithPipe(old(S()), p, r, w) && nextId == old(nextId) + 3
      ensures accepted == old(accepted)[p := []] && delivered == old(delivered)[p := []]
      ensures handles[r] == Handle(ReadEnd(p), 1) && handles[w] == Handle(WriteEnd(p), 1)
    {
      hide Ok;
      PipeOk(S(), accepted, delivered, nextId);
      ghost var s := S();
      pipes := pipes[p := Pipe([], 1, 1)];
      handles := handles[r := Handle(ReadEnd(p), 1)][w := Handle(WriteEnd(p), 1)];
      nextId := nextId + 3;
      accepted, delivered := accepted[p := []], delivered[p := []];
      assert S() == WithPipe(s, p, r, w);
    }
  }

  /** The same handles, but for their counts. */
  ghost predicate SameHandles(before: map<nat, Handle>, after: map<nat, Handle>) {
    after.Keys == before.Keys && forall h :: h in before ==> after[h].kind == before[h].kind
  }

  lemma SameHandlesRefl(handles: map<nat, Handle>)
    ensures SameHandles(handles, handles)
  {}

  lemma SameHandlesTwice(a: map<nat, Handle>, b: map<nat, Handle>, c: map<nat, Handle>)
    requires SameHandles(a, b) && SameHandles(b, c)
    ensures SameHandles(a, c)
  {
    assert forall h :: h in a ==> h in b.Keys;
  }

  /** Some handles and pipes are gone; the others are what they were, but for their counts. */
  ghost predicate FewerEnds(s: State, r: State) {
    && (forall h :: h in r.handles ==> h in s.handles && r.handles[h].kind == s.handles[h].kind)
    && forall p :: p in r.pipes ==> p in s.pipes && r.pipes[p].buffer == s.pipes[p].buffer
  }

  /** The task does what it did; it may have been woken. */
  predicate WentOn(was: Task, now: Task) { now == was.(blocked := now.blocked) && (now.blocked ==> was.blocked) }

  lemma SameEnds(s: State)
    ensures FewerEnds(s, s) && forall u :: 0 <= u < |s.tasks| ==> WentOn(s.tasks[u], s.tasks[u])
  {}

  lemma FewerSame(s: State, r: State, after: State)
    requires FewerEnds(s, r) && after.handles == r.handles && after.pipes == r.pipes
    ensures FewerEnds(s, after)
  {}

  lemma ClosedFewer(start: State, s: State, r: State, t: nat, fd: int)
    requires t < |s.tasks| == |start.tasks| && 0 <= fd < |s.tasks[t].fds| && s.tasks[t].fds[fd].Some?
    requires Closed(s, r, t, fd)
    requires FewerEnds(start, s) && forall u :: 0 <= u < |s.tasks| && u != t ==> WentOn(start.tasks[u], s.tasks[u])
    ensures FewerEnds(start, r)
    ensures |r.tasks| == |s.tasks| && forall u :: 0 <= u < |s.tasks| && u != t ==> WentOn(start.tasks[u], r.tasks[u])
  {}

  /** Descriptor `i` of a child is the handle it is given there, else the one its parent has there, else the
      terminal. */
  ghost predicate Gets(fds: seq<Option<nat>>, io: seq<Option<nat>>, i: nat, got: Option<nat>)
    requires i < |fds| && i < |io|
  {
    && (io[i].Some? ==> got == io[i])
    && (io[i].None? && fds[i].Some? ==> got == fds[i])
    && (io[i].None? && fds[i].None? ==> got == Some(0))
  }

  function Inherited(fds: seq<Option<nat>>, io: seq<Option<nat>>, i: nat): nat
    requires i < |fds| && i < |io|
  {
    if io[i].Some? then io[i].value else if fds[i].Some? then fds[i].value else TERMINAL
  }

  ghost function Shared(s: State, t: nat, i: nat, h: nat): State
    requires t < |s.tasks| && i < |s.tasks[t].fds| && (h == TERMINAL || h in s.handles)
  {
    if h == TERMINAL then SetFd(s, t, i, Some(h)) else WithRefs(SetFd(s, t, i, Some(h)), h, s.handles[h].refs + 1)
  }

  lemma ShareOk(s: State, t: nat, i: nat, h: nat, accepted: map<nat, seq<byte>>, delivered: map<nat, seq<byte>>,
                next: nat)
    requires Ok(s, {}, accepted, delivered, next) && t < TASKS && i < MAX_FDS && |s.tasks| == TASKS
    requires |s.tasks[t].fds| == MAX_FDS
    requires s.tasks[t].fds[i].None? && s.tasks[t].call.NoCall? && s.tasks[t].live && (h == TERMINAL || h in s.handles)
    ensures Ok(Shared(s, t, i, h), {}, accepted, delivered, next)
  {
    hide Inv, FlowsOk, IdsOk;
    if h == TERMINAL { ShareTerminalKeeps(s, {}, t, i); } else { ShareKeeps(s, {}, t, i, h); }
    SameOk(s, Shared(s, t, i, h), {}, {}, accepted, delivered, next);
  }

  lemma FdHandle(s: State, t: nat, i: nat, accepted: map<nat, seq<byte>>, delivered: map<nat, seq<byte>>, next: nat)
    requires Ok(s, {}, accepted, delivered, next) && t < TASKS && i < MAX_FDS && |s.tasks| == TASKS
    requires |s.tasks[t].fds| == MAX_FDS
    ensures s.tasks[t].fds[i].Some? ==> s.tasks[t].fds[i].value == TERMINAL || s.tasks[t].fds[i].value in s.handles
  {
    TableSizes(s, {});
    hide Inv, FlowsOk, IdsOk;
  }

  /** References do not depend on what tasks do, only on their descriptors. */
  lemma SameFds(s: State, r: State)
    requires TablesOk(s) && RefsOk(s, {}) && PipesOk(s)
    requires r.handles == s.handles && r.pipes == s.pipes && |r.tasks| == |s.tasks|
    requires forall u :: 0 <= u < |s.tasks| ==>
               && r.tasks[u].fds == s.tasks[u].fds
               && (r.tasks[u].live || forall i :: 0 <= i < |s.tasks[u].fds| ==> s.tasks[u].fds[i].None?)
    ensures TablesOk(r) && RefsOk(r, {}) && PipesOk(r)
  {
    SameFdRefs(s, r);
    hide RefsOk, Ends;
  }

  lemma SameFdRefs(s: State, r: State)
    requires RefsOk(s, {}) && r.handles == s.handles && |r.tasks| == |s.tasks|
    requires forall u :: 0 <= u < |s.tasks| ==> r.tasks[u].fds == s.tasks[u].fds
    ensures RefsOk(r, {})
  {
    forall h ensures Slots(r.tasks, h) == Slots(s.tasks, h) {}
    hide Slots;
  }

  /** A slot that is free, or taken by a task that does nothing yet, changes no references or calls. */
  lemma IdleTask(s: State, t: nat, task: Task)
    requires Inv(s, {}) && t < TASKS && s.tasks[t].call.NoCall? && task.call.NoCall? && !task.blocked
    requires |task.fds| == MAX_FDS && task.fds == s.tasks[t].fds && forall i :: 0 <= i < MAX_FDS ==> task.fds[i].None?
    ensures Inv(s.(tasks := s.tasks[t := task]), {})
  {
    var r := s.(tasks := s.tasks[t := task]);
    LiveFds(s);
    SameFds(s, r);
    CallsWith(s, t, task);
    hide TablesOk, RefsOk, PipesOk, CallsOk;
  }

  lemma LiveFds(s: State)
    requires TablesOk(s)
    ensures forall u :: 0 <= u < TASKS ==>
              s.tasks[u].live || forall i :: 0 <= i < |s.tasks[u].fds| ==> s.tasks[u].fds[i].None?
  {}

  lemma CallsWith(s: State, t: nat, task: Task)
    requires CallsOk(s) && t < |s.tasks| && CallOk(s, task)
    ensures CallsOk(s.(tasks := s.tasks[t := task]))
  {
    var r := s.(tasks := s.tasks[t := task]);
    forall u | 0 <= u < |r.tasks|
      ensures CallOk(r, r.tasks[u])
    {
      assert CallOk(s, if u == t then task else s.tasks[u]);
    }
  }

  lemma EndOk(s: State, t: nat, accepted: map<nat, seq<byte>>, delivered: map<nat, seq<byte>>, next: nat)
    requires Ok(s, {}, accepted, delivered, next) && t < TASKS && |s.tasks| == TASKS && s.tasks[t].call.NoCall?
    requires |s.tasks[t].fds| == MAX_FDS && forall i :: 0 <= i < MAX_FDS ==> s.tasks[t].fds[i].None?
    ensures Ok(s.(tasks := s.tasks[t := s.tasks[t].(live := false)]), {}, accepted, delivered, next)
  {
    NotBlocked(s, t);
    IdleTask(s, t, s.tasks[t].(live := false));
    SameOk(s, s.(tasks := s.tasks[t := s.tasks[t].(live := false)]), {}, {}, accepted, delivered, next);
  }

  lemma NotBlocked(s: State, t: nat)
    requires Inv(s, {}) && t < TASKS && s.tasks[t].call.NoCall?
    ensures !s.tasks[t].blocked
  {
    assert CallOk(s, s.tasks[t]);
  }

  lemma GoneIsEmpty(s: State, t: nat, accepted: map<nat, seq<byte>>, delivered: map<nat, seq<byte>>, next: nat)
    requires Ok(s, {}, accepted, delivered, next) && t < TASKS && |s.tasks| == TASKS && !s.tasks[t].live
    ensures s.tasks[t].call.NoCall? && |s.tasks[t].fds| == MAX_FDS
    ensures forall i :: 0 <= i < MAX_FDS ==> s.tasks[t].fds[i].None?
  {
    assert CallOk(s, s.tasks[t]);
    assert forall i :: 0 <= i < MAX_FDS ==> s.tasks[t].fds[i].None?;
  }

  lemma StartOk(s: State, t: nat, accepted: map<nat, seq<byte>>, delivered: map<nat, seq<byte>>, next: nat)
    requires Ok(s, {}, accepted, delivered, next) && t < TASKS && |s.tasks| == TASKS && s.tasks[t].call.NoCall?
    requires |s.tasks[t].fds| == MAX_FDS && forall i :: 0 <= i < MAX_FDS ==> s.tasks[t].fds[i].None?
    ensures Ok(s.(tasks := s.tasks[t := Task(true, seq(MAX_FDS, _ => None), false, NoCall, false)]), {}, accepted,
               delivered, next)
  {
    var task := Task(true, seq(MAX_FDS, _ => None), false, NoCall, false);
    assert task.fds == s.tasks[t].fds;
    IdleTask(s, t, task);
    SameOk(s, s.(tasks := s.tasks[t := task]), {}, {}, accepted, delivered, next);
  }

  lemma KillOk(s: State, t: nat, accepted: map<nat, seq<byte>>, delivered: map<nat, seq<byte>>, next: nat)
    requires Ok(s, {}, accepted, delivered, next) && t < TASKS && |s.tasks| == TASKS
    ensures Ok(s.(tasks := s.tasks[t := s.tasks[t].(killed := true, blocked := false)]), {}, accepted, delivered, next)
  {
    var r := s.(tasks := s.tasks[t := s.tasks[t].(killed := true, blocked := false)]);
    CallChange(s, t, s.tasks[t].(killed := true, blocked := false));
    SameOk(s, r, {}, {}, accepted, delivered, next);
  }

  /** Only the state of one task's call changes. */
  lemma CallChange(s: State, t: nat, task: Task)
    requires Inv(s, {}) && t < TASKS && task.fds == s.tasks[t].fds && task.live == s.tasks[t].live
    requires CallOk(s, s.tasks[t]) ==> CallOk(s, task)
    ensures Inv(s.(tasks := s.tasks[t := task]), {})
  {
    LiveFds(s);
    assert CallOk(s, s.tasks[t]);
    SameFds(s, s.(tasks := s.tasks[t := task]));
    CallsWith(s, t, task);
    hide TablesOk, RefsOk, PipesOk, CallsOk;
  }

  /** Descriptor `fd` of task `t` is an end of a pipe: the one to read from, or the one to write to. */
  ghost predicate HasEnd(s: State, t: nat, fd: int, forReading: bool)
    requires t < |s.tasks|
  {
    && 0 <= fd < |s.tasks[t].fds| && s.tasks[t].fds[fd].Some? && s.tasks[t].fds[fd].value in s.handles
    && if forReading then s.handles[s.tasks[t].fds[fd].value].kind.ReadEnd?
       else s.handles[s.tasks[t].fds[fd].value].kind.WriteEnd?
  }

  /** Task `t` is in that call now. */
  function WithCall(s: State, t: nat, call: Call, blocked: bool): State
    requires t < |s.tasks|
  {
    s.(tasks := s.tasks[t := s.tasks[t].(call := call, blocked := blocked)])
  }

  function Done(s: State, t: nat): State
    requires t < |s.tasks|
  {
    WithCall(s, t, NoCall, false)
  }

  /** The history of pipe `p` goes on. */
  ghost function More(history: map<nat, seq<byte>>, p: nat, bytes: seq<byte>): map<nat, seq<byte>> {
    if p in history then history[p := history[p] + bytes] else history
  }

  lemma NothingMore(history: map<nat, seq<byte>>, p: nat)
    ensures More(history, p, []) == history
  {
    if p in history { assert history[p] + [] == history[p]; }
  }

  /** The outcome of `pipe_read` of up to `len` bytes: the task waits, was killed, or has the oldest
      bytes of the pipe and wakes those that wait for it. Nothing else changes. */
  ghost predicate ReadsFrom(s: State, r: State, t: nat, h: nat, len: nat, waits: bool, res: int, out: seq<byte>) {
    && t < |s.tasks| && h in s.handles && s.handles[h].kind.ReadEnd? && s.handles[h].kind.pipe in s.pipes
    && var p, killed := s.handles[h].kind.pipe, s.tasks[t].killed;
    && var pipe := s.pipes[p];
    && waits == (pipe.buffer == [] && pipe.writers > 0 && !killed)
    && if waits then out == [] && res == 0 && r == WithCall(s, t, Reading(h, len), true)
       else if killed then out == [] && res == TASK_KILLED && r == Done(s, t)
       else
         && out <= pipe.buffer && res == |out| == (if len < |pipe.buffer| then len else |pipe.buffer|)
         && r == Changed(Done(s, t), p, pipe.(buffer := pipe.buffer[|out|..]))
  }

  lemma EnteredReads(s: State, mid: State, r: State, t: nat, h: nat, len: nat, waits: bool, res: int, out: seq<byte>)
    requires t < |s.tasks| && s.tasks[t].call.NoCall? && t < |mid.tasks|
    requires mid == s.(tasks := s.tasks[t := s.tasks[t].(call := mid.tasks[t].call)])
    requires ReadsFrom(mid, r, t, h, len, waits, res, out)
    ensures ReadsFrom(s, r, t, h, len, waits, res, out)
  {
    assert Done(mid, t) == Done(s, t);
    assert WithCall(mid, t, Reading(h, len), true) == WithCall(s, t, Reading(h, len), true);
    hide Changed;
  }

  lemma EnterOk(s: State, t: nat, fd: nat, call: Call, accepted: map<nat, seq<byte>>, delivered: map<nat, seq<byte>>,
                next: nat)
    requires Ok(s, {}, accepted, delivered, next) && t < TASKS && |s.tasks| == TASKS && s.tasks[t].call.NoCall?
    requires !call.NoCall? && HasEnd(s, t, fd, call.Reading?) && s.tasks[t].fds[fd] == Some(call.handle)
    requires call.Writing? ==> call.written == 0
    ensures var r := s.(tasks := s.tasks[t := s.tasks[t].(call := call)]);
            && Ok(r, {}, accepted, delivered, next) && !r.tasks[t].blocked
            && PipeOf(r, call) == Some(s.handles[call.handle].kind.pipe)
  {
    NotBlocked(s, t);
    EnterCall(s, t, fd, call);
    CallChange(s, t, s.tasks[t].(call := call));
    SameOk(s, s.(tasks := s.tasks[t := s.tasks[t].(call := call)]), {}, {}, accepted, delivered, next);
    hide Inv, FlowsOk, IdsOk;
  }

  lemma EnterCall(s: State, t: nat, fd: nat, call: Call)
    requires Inv(s, {}) && t < TASKS && !s.tasks[t].blocked && !call.NoCall? && HasEnd(s, t, fd, call.Reading?)
    requires s.tasks[t].fds[fd] == Some(call.handle) && (call.Writing? ==> call.written == 0)
    ensures CallOk(s, s.tasks[t].(call := call))
  {
    hide RefsOk, CallsOk, Ends;
  }

  /** What a task in a call relies on: its handle and pipe are there. */
  lemma CallPipe(s: State, t: nat, accepted: map<nat, seq<byte>>, delivered: map<nat, seq<byte>>, next: nat)
    requires Ok(s, {}, accepted, delivered, next) && t < |s.tasks| && !s.tasks[t].call.NoCall?
    ensures |s.tasks| == TASKS && s.tasks[t].call.handle in s.handles && !s.handles[s.tasks[t].call.handle].kind.File?
    ensures s.handles[s.tasks[t].call.handle].kind.pipe in s.pipes
    ensures var p := s.handles[s.tasks[t].call.handle].kind.pipe;
            p in accepted && p in delivered && |s.pipes[p].buffer| <= PIPE_SIZE
    ensures s.tasks[t].call.Writing? ==>
              s.tasks[t].call.written <= |s.tasks[t].call.data| && s.handles[s.tasks[t].call.handle].kind.WriteEnd?
    ensures s.tasks[t].call.Reading? ==> s.handles[s.tasks[t].call.handle].kind.ReadEnd?
  {
    assert CallOk(s, s.tasks[t]);
    hide RefsOk, CallsOk, Ends;
  }

  lemma BlockOk(s: State, t: nat, accepted: map<nat, seq<byte>>, delivered: map<nat, seq<byte>>, next: nat)
    requires Ok(s, {}, accepted, delivered, next) && t < TASKS && |s.tasks| == TASKS
    requires CallOk(s, s.tasks[t].(blocked := true)) || !CallOk(s, s.tasks[t])
    ensures Ok(s.(tasks := s.tasks[t := s.tasks[t].(blocked := true)]), {}, accepted, delivered, next)
  {
    hide FlowsOk, IdsOk, CallOk;
    CallChange(s, t, s.tasks[t].(blocked := true));
    SameOk(s, s.(tasks := s.tasks[t := s.tasks[t].(blocked := true)]), {}, {}, accepted, delivered, next);
  }

  lemma DoneOk(s: State, t: nat, accepted: map<nat, seq<byte>>, delivered: map<nat, seq<byte>>, next: nat)
    requires Ok(s, {}, accepted, delivered, next) && t < TASKS && |s.tasks| == TASKS
    ensures Ok(Done(s, t), {}, accepted, delivered, next)
  {
    CallChange(s, t, s.tasks[t].(call := NoCall, blocked := false));
    SameOk(s, Done(s, t), {}, {}, accepted, delivered, next);
    hide Inv, FlowsOk, IdsOk;
  }

  lemma ChangedTasks(s: State, p: nat, pipe: Pipe)
    ensures |Changed(s, p, pipe).tasks| == |s.tasks|
    ensures forall t :: 0 <= t < |s.tasks| ==> Changed(s, p, pipe).tasks[t] == Awake(s, s.tasks[t], p)
  {}

  lemma ChangedParts(s: State, p: nat, pipe: Pipe)
    ensures Changed(s, p, pipe).handles == s.handles && Changed(s, p, pipe).pipes == s.pipes[p := pipe]
  {}

  /** The oldest bytes of a pipe go to a reader. */
  lemma TakenOk(s: State, p: nat, total: nat, accepted: map<nat, seq<byte>>, delivered: map<nat, seq<byte>>, next: nat)
    requires Ok(s, {}, accepted, delivered, next) && p in s.pipes && total <= |s.pipes[p].buffer| && p in delivered
    ensures var pipe := s.pipes[p];
            Ok(Changed(s, p, pipe.(buffer := pipe.buffer[total..])), {}, accepted,
               delivered[p := delivered[p] + pipe.buffer[..total]], next)
  {
    hide Inv, Changed, FlowsOk, IdsOk;
    var pipe := s.pipes[p];
    BufferSmall(s, p);
    ChangedKeeps(s, {}, p, pipe.(buffer := pipe.buffer[total..]));
    ChangedParts(s, p, pipe.(buffer := pipe.buffer[total..]));
    TakenFlows(s.pipes, p, total, accepted, delivered);
    SameIds(s, Changed(s, p, pipe.(buffer := pipe.buffer[total..])), next);
  }

  lemma TakenFlows(pipes: map<nat, Pipe>, p: nat, total: nat, accepted: map<nat, seq<byte>>, delivered: map<nat,
                   seq<byte>>)
    requires FlowsOk(pipes, accepted, delivered) && p in pipes && total <= |pipes[p].buffer| && p in delivered
    ensures var pipe := pipes[p];
            FlowsOk(pipes[p := pipe.(buffer := pipe.buffer[total..])], accepted,
                    delivered[p := delivered[p] + pipe.buffer[..total]])
  {
    var buffer := pipes[p].buffer;
    assert buffer[..total] + buffer[total..] == buffer;
    assert delivered[p] + buffer == (delivered[p] + buffer[..total]) + buffer[total..];
  }

  lemma SameIds(s: State, r: State, next: nat)
    requires IdsOk(s, next) && r.handles == s.handles && r.pipes.Keys == s.pipes.Keys
    ensures IdsOk(r, next)
  {
    assert forall p :: p in r.pipes ==> p in s.pipes.Keys;
  }

  lemma BufferSmall(s: State, p: nat)
    requires Inv(s, {}) && p in s.pipes
    ensures |s.pipes[p].buffer| <= PIPE_SIZE
  {
    hide RefsOk, CallsOk, Ends;
  }

  /** How many of `len` bytes task `t` can put into pipe `p` at once. */
  function Fits(s: State, t: nat, p: nat, len: nat): (n: nat)
    requires t < |s.tasks| && p in s.pipes
    ensures n <= len
  {
    var pipe := s.pipes[p];
    if s.tasks[t].killed || pipe.readers == 0 || |pipe.buffer| >= PIPE_SIZE then 0
    else if len < PIPE_SIZE - |pipe.buffer| then len
    else PIPE_SIZE - |pipe.buffer|
  }

  /** The bytes are in pipe `p`, and all that wait for it go on. */
  ghost function Put(s: State, p: nat, bytes: seq<byte>): State
    requires p in s.pipes
  {
    if bytes == [] then s else Changed(s, p, s.pipes[p].(buffer := s.pipes[p].buffer + bytes))
  }

  /** The outcome of `pipe_write`, `start` bytes into its data: the next ones are in the pipe as far as
      they fit. The task waits with the rest, or is done: with all of it, because it was killed or because
      nobody reads any more. Nothing else changes. */
  ghost predicate WritesTo(s: State, r: State, t: nat, h: nat, data: seq<byte>, start: nat, waits: bool, res: int,
                           put: seq<byte>) {
    && t < |s.tasks| && h in s.handles && s.handles[h].kind.WriteEnd? && s.handles[h].kind.pipe in s.pipes
    && start <= |data|
    && var p, killed := s.handles[h].kind.pipe, s.tasks[t].killed;
    && var end := start + Fits(s, t, p, |data| - start);
    && put == data[start..end]
    && waits == (end < |data| && !killed && s.pipes[p].readers > 0)
    && r == WithCall(Put(s, p, put), t, if waits then Writing(h, data, end) else NoCall, waits)
    && res == if waits then 0
              else if end > 0 then end
              else if |data| > 0 && !killed then BROKEN_PIPE_ERROR else 0
  }

  lemma EnteredWrites(s: State, mid: State, r: State, t: nat, h: nat, data: seq<byte>, waits: bool, res: int,
                      put: seq<byte>)
    requires t < |s.tasks| && t < |mid.tasks|
    requires mid == s.(tasks := s.tasks[t := s.tasks[t].(call := mid.tasks[t].call)])
    requires WritesTo(mid, r, t, h, data, 0, waits, res, put)
    ensures WritesTo(s, r, t, h, data, 0, waits, res, put)
  {
    var p := s.handles[h].kind.pipe;
    var call := if waits then Writing(h, data, |put|) else NoCall;
    PutOthers(s, mid, t, p, put, call, waits);
    hide Changed;
  }

  /** What the task itself was in before does not matter. */
  lemma PutOthers(s: State, mid: State, t: nat, p: nat, put: seq<byte>, call: Call, blocked: bool)
    requires t < |s.tasks| && p in s.pipes
    requires t < |mid.tasks| && mid == s.(tasks := s.tasks[t := s.tasks[t].(call := mid.tasks[t].call)])
    ensures WithCall(Put(mid, p, put), t, call, blocked) == WithCall(Put(s, p, put), t, call, blocked)
  {
    var a, b := Put(mid, p, put), Put(s, p, put);
    SameAwake(s, mid, p);
    assert |a.tasks| == |b.tasks| && forall u :: 0 <= u < |a.tasks| && u != t ==> a.tasks[u] == b.tasks[u];
    assert WithCall(a, t, call, blocked).tasks == WithCall(b, t, call, blocked).tasks;
  }

  /** The loop of `pipe_write` goes round at most once before the task waits or is done. */
  lemma WrittenIs(s: State, now: State, t: nat, p: nat, start: nat, end: nat, waits: bool, res: int)
    requires t < |s.tasks| && s.tasks[t].call.Writing? && s.tasks[t].call.written == start && !s.tasks[t].blocked
    requires s.tasks[t].call.handle in s.handles && s.handles[s.tasks[t].call.handle].kind == WriteEnd(p)
    requires p in s.pipes
    requires start <= |s.tasks[t].call.data| && end == start + Fits(s, t, p, |s.tasks[t].call.data| - start)
    requires now == if end == start then s else PutMore(s, t, p, end - start)
    requires waits == (end < |s.tasks[t].call.data| && !s.tasks[t].killed && s.pipes[p].readers > 0)
    requires res == if waits then 0 else if end > 0 then end
                    else if |s.tasks[t].call.data| > 0 && !s.tasks[t].killed then BROKEN_PIPE_ERROR else 0
    ensures t < |now.tasks| && now.tasks[t].call.Writing?
    ensures var call := s.tasks[t].call;
            WritesTo(s, WithCall(now, t, if waits then now.tasks[t].call else NoCall, waits), t, call.handle, call.data,
                     start, waits, res,
                     call.data[start..end])
  {
    hide Changed, Awake;
    if end == start {
      assert s.tasks[t].call.data[start..end] == [];
    } else {
      PutMoreParts(s, t, p, end - start);
      PutIsMore(s, t, p, end - start, if waits then now.tasks[t].call else NoCall, waits);
    }
  }

  lemma PutIsMore(s: State, t: nat, p: nat, n: nat, call: Call, blocked: bool)
    requires t < |s.tasks| && s.tasks[t].call.Writing? && p in s.pipes && 0 < n
    requires s.tasks[t].call.written + n <= |s.tasks[t].call.data|
    ensures |PutMore(s, t, p, n).tasks| == |s.tasks|
    ensures var was := s.tasks[t].call;
            WithCall(PutMore(s, t, p, n), t, call, blocked)
            == WithCall(Put(s, p, was.data[was.written..was.written + n]), t, call, blocked)
  {
    var start := PutStart(s, t, n);
    PutOthers(s, start, t, p, s.tasks[t].call.data[s.tasks[t].call.written..s.tasks[t].call.written + n], call,
              blocked);
  }

  function PutStart(s: State, t: nat, total: nat): State
    requires t < |s.tasks| && s.tasks[t].call.Writing?
  {
    s.(tasks := s.tasks[t := s.tasks[t].(call := s.tasks[t].call.(written := s.tasks[t].call.written + total))])
  }

  /** The next `total` bytes of a writer are in the pipe, and all that wait for it go on. */
  ghost function PutMore(s: State, t: nat, p: nat, total: nat): State
    requires t < |s.tasks| && s.tasks[t].call.Writing? && p in s.pipes
    requires s.tasks[t].call.written + total <= |s.tasks[t].call.data|
  {
    Changed(PutStart(s, t, total), p, MorePipe(s.pipes[p], s.tasks[t].call, total))
  }

  function MorePipe(pipe: Pipe, call: Call, total: nat): Pipe
    requires call.Writing? && call.written + total <= |call.data|
  {
    pipe.(buffer := pipe.buffer + call.data[call.written..call.written + total])
  }

  lemma PutMoreIs(s: State, r: State, t: nat, p: nat, total: nat)
    requires t < |s.tasks| && s.tasks[t].call.Writing? && p in s.pipes
    requires s.tasks[t].call.written + total <= |s.tasks[t].call.data|
    requires r.handles == s.handles && r.pipes == s.pipes[p := MorePipe(s.pipes[p], s.tasks[t].call, total)]
    requires |r.tasks| == |s.tasks|
    requires forall u :: 0 <= u < |s.tasks| ==>
               r.tasks[u] == Awake(PutStart(s, t, total), PutStart(s, t, total).tasks[u], p)
    ensures r == PutMore(s, t, p, total)
  {
    hide Changed, Awake;
    var pipe := MorePipe(s.pipes[p], s.tasks[t].call, total);
    ChangedTasks(PutStart(s, t, total), p, pipe);
    ChangedParts(PutStart(s, t, total), p, pipe);
    assert r.tasks == PutMore(s, t, p, total).tasks;
  }

  lemma PutOk(s: State, t: nat, p: nat, total: nat, accepted: map<nat, seq<byte>>, delivered: map<nat, seq<byte>>,
              next: nat)
    requires Ok(s, {}, accepted, delivered, next) && t < TASKS && |s.tasks| == TASKS && s.tasks[t].call.Writing?
    requires !s.tasks[t].blocked
    requires p in s.pipes && p in accepted && |s.pipes[p].buffer| + total <= PIPE_SIZE
    requires s.tasks[t].call.written + total <= |s.tasks[t].call.data|
    ensures var call := s.tasks[t].call;
            Ok(PutMore(s, t, p, total), {},
               accepted[p := accepted[p] + call.data[call.written..call.written + total]], delivered, next)
  {
    hide Inv, Changed, FlowsOk, IdsOk;
    var call := s.tasks[t].call;
    var more := call.(written := call.written + total);
    PutCall(s, t, more);
    SameOk(s, PutStart(s, t, total), {}, {}, accepted, delivered, next);
    var pipe := MorePipe(s.pipes[p], call, total);
    ChangedKeeps(PutStart(s, t, total), {}, p, pipe);
    ChangedParts(PutStart(s, t, total), p, pipe);
    PutFlows(s.pipes, p, call.data[call.written..call.written + total], accepted, delivered);
    SameIds(s, PutMore(s, t, p, total), next);
  }

  lemma PutCall(s: State, t: nat, more: Call)
    requires Inv(s, {}) && t < TASKS && s.tasks[t].call.Writing? && !s.tasks[t].blocked && more.Writing?
    requires more == s.tasks[t].call.(written := more.written) && more.written <= |more.data|
    ensures Inv(s.(tasks := s.tasks[t := s.tasks[t].(call := more)]), {})
  {
    CallChange(s, t, s.tasks[t].(call := more));
    hide TablesOk, RefsOk, PipesOk, CallsOk;
  }

  lemma PutFlows(pipes: map<nat, Pipe>, p: nat, bytes: seq<byte>, accepted: map<nat, seq<byte>>, delivered: map<nat,
                 seq<byte>>)
    requires FlowsOk(pipes, accepted, delivered) && p in pipes && p in accepted
    ensures FlowsOk(pipes[p := pipes[p].(buffer := pipes[p].buffer + bytes)], accepted[p := accepted[p] + bytes],
                    delivered)
  {
    var buffer := pipes[p].buffer;
    assert delivered[p] + (buffer + bytes) == (delivered[p] + buffer) + bytes;
  }

  lemma PutMoreParts(s: State, t: nat, p: nat, n: nat)
    requires t < |s.tasks| && s.tasks[t].call.Writing? && p in s.pipes && !s.tasks[t].blocked
    requires s.tasks[t].call.written + n <= |s.tasks[t].call.data|
    ensures var r, call := PutMore(s, t, p, n), s.tasks[t].call;
            && |r.tasks| == |s.tasks| && r.tasks[t] == s.tasks[t].(call := call.(written := call.written + n))
            && r.handles == s.handles && r.pipes == s.pipes[p := MorePipe(s.pipes[p], call, n)]
  {}

  lemma FileOk(s: State, accepted: map<nat, seq<byte>>, delivered: map<nat, seq<byte>>, next: nat)
    requires Ok(s, {}, accepted, delivered, next)
    ensures Ok(WithFile(s, next), {next}, accepted, delivered, next + 1) && next !in s.handles
  {
    NewFileKeeps(s, {}, next);
    assert {} + {next} == {next};
    hide Inv;
  }

  /** The two ends are in the lowest free descriptors of task `t`; no other task has changed. */
  ghost predicate InTwoSlots(s: seq<Task>, r: seq<Task>, t: nat, readEnd: nat, writeEnd: nat, readFd: int, writeFd: int)
    requires t < |s|
  {
    && LowestFree(s[t].fds, readFd) && LowestFree(s[t].fds[readFd := Some(readEnd)], writeFd)
    && r == s[t := s[t].(fds := s[t].fds[readFd := Some(readEnd)][writeFd := Some(writeEnd)])]
  }

  lemma NextFree(s: State, loose: set<nat>, accepted: map<nat, seq<byte>>, delivered: map<nat, seq<byte>>, next: nat)
    requires Ok(s, loose, accepted, delivered, next)
    ensures next !in s.handles && next + 1 !in s.handles && next + 2 !in s.pipes && next > TERMINAL
  {
    hide Inv;
  }

  /** A pipe that could not be given two descriptors leaves nothing behind. */
  lemma PipeUndone(s: State, r: State, next: nat, accepted: map<nat, seq<byte>>, delivered: map<nat, seq<byte>>)
    requires Ok(s, {}, accepted, delivered, next)
    requires BothReleased(WithPipe(s, next + 2, next, next + 1), r, next, next + 1)
    ensures r == s && Ok(s, {}, accepted, delivered, next + 3)
  {
    hide Inv, FlowsOk, WithPipe, Released, Without, Awake;
    NextFree(s, {}, accepted, delivered, next);
    TableSizes(s, {});
    UndonePipe(s, next + 2, next, next + 1);
    var made := WithPipe(s, next + 2, next, next + 1);
    WithPipeParts(s, next + 2, next, next + 1);
    var one := Released(made, next);
    ReleasedMaps(made, next);
    ReleasedMaps(one, next + 1);
    UntouchedTasks(s, made, next + 2, next);
    UntouchedTasks(s, one, next + 2, next + 1);
  }

  lemma WithPipeParts(s: State, p: nat, r: nat, w: nat)
    requires r !in s.handles && w !in s.handles
    ensures WithPipe(s, p, r, w).tasks == s.tasks
    ensures forall x :: x in s.handles ==>
              x in WithPipe(s, p, r, w).handles && WithPipe(s, p, r, w).handles[x] == s.handles[x]
  {}

  /** Closing an end of a pipe that is not there in `s` wakes nobody. */
  lemma UntouchedTasks(s: State, made: State, p: nat, h: nat)
    requires Inv(s, {}) && p !in s.pipes && made.tasks == s.tasks && |s.tasks| == TASKS
    requires forall x :: x in s.handles ==> x in made.handles && made.handles[x] == s.handles[x]
    requires CanRelease(made, h) && !made.handles[h].kind.File? && made.handles[h].kind.pipe == p
    ensures Released(made, h).tasks == s.tasks
  {
    hide Inv, Awake;
    forall t | 0 <= t < TASKS ensures Awake(made, s.tasks[t], p) == s.tasks[t] {
      NobodyThere(s, p, t, made.handles);
      SameAwake(s.(handles := made.handles), made, p);
    }
    ChangedTasks(made, p, Shrunk(made.pipes[p], made.handles[h].kind));
  }

  lemma PipeOk(s: State, accepted: map<nat, seq<byte>>, delivered: map<nat, seq<byte>>, next: nat)
    requires Ok(s, {}, accepted, delivered, next)
    ensures Ok(WithPipe(s, next + 2, next, next + 1), {next, next + 1}, accepted[next + 2 := []],
               delivered[next + 2 := []], next + 3)
  {
    hide Inv, FlowsOk, IdsOk, WithPipe;
    NextFree(s, {}, accepted, delivered, next);
    NewPipeKeeps(s, {}, next + 2, next, next + 1);
    assert {} + {next, next + 1} == {next, next + 1};
    PipeFlows(s, accepted, delivered, next);
  }

  lemma PipeFlows(s: State, accepted: map<nat, seq<byte>>, delivered: map<nat, seq<byte>>, next: nat)
    requires FlowsOk(s.pipes, accepted, delivered) && IdsOk(s, next)
    ensures var r := WithPipe(s, next + 2, next, next + 1);
            FlowsOk(r.pipes, accepted[next + 2 := []], delivered[next + 2 := []]) && IdsOk(r, next + 3)
  {}

  lemma OkSizes(s: State, loose: set<nat>, accepted: map<nat, seq<byte>>, delivered: map<nat, seq<byte>>, next: nat)
    requires Ok(s, loose, accepted, delivered, next)
    ensures |s.tasks| == TASKS && forall t :: 0 <= t < TASKS ==> |s.tasks[t].fds| == MAX_FDS
    ensures TERMINAL !in s.handles
  {
    TableSizes(s, loose);
    hide Inv, FlowsOk, IdsOk;
  }

  lemma PairMinus(r: nat, w: nat)
    requires r != w
    ensures {r, w} - {r} == {w} && {w} - {w} == {}
  {}

  lemma MinusPlus(m: map<nat, Handle>, h: nat, handle: Handle)
    requires h !in m
    ensures m[h := handle] - {h} == m
  {}

  lemma ReleasedMaps(s: State, h: nat)
    requires h in s.handles && (s.handles[h].kind.File? || s.handles[h].kind.pipe in s.pipes)
    ensures Released(s, h).handles == s.handles - {h}
    ensures Released(s, h).pipes == if s.handles[h].kind.File? then s.pipes else Without(s.pipes, s.handles[h].kind)
  {
    if !s.handles[h].kind.File? {
      MapsAgree(s.pipes, s.handles[h].kind.pipe, Shrunk(s.pipes[s.handles[h].kind.pipe], s.handles[h].kind));
    }
  }

  predicate CanRelease(s: State, h: nat) {
    h in s.handles && (s.handles[h].kind.File? || s.handles[h].kind.pipe in s.pipes)
  }

  /** Both ends of a pipe are closed, the one to read from first. */
  ghost predicate BothReleased(s: State, r: State, readEnd: nat, writeEnd: nat) {
    && CanRelease(s, readEnd) && CanRelease(Released(s, readEnd), writeEnd)
    && r == Released(Released(s, readEnd), writeEnd)
  }

  lemma FileUndone(s: State, h: nat)
    requires h !in s.handles
    ensures Released(WithFile(s, h), h) == s
  {
    assert WithFile(s, h).handles - {h} == s.handles;
  }

  /** Nobody is in a call on a pipe that is not there. */
  lemma NobodyThere(s: State, p: nat, t: nat, handles: map<nat, Handle>)
    requires Inv(s, {}) && p !in s.pipes && t < TASKS
    requires forall x :: x in s.handles ==> x in handles && handles[x] == s.handles[x]
    ensures Awake(s.(handles := handles), s.tasks[t], p) == s.tasks[t]
  {
    assert CallOk(s, s.tasks[t]);
  }

  /** A new pipe whose ends are closed again is gone without a trace. */
  lemma UndonePipe(s: State, p: nat, r: nat, w: nat)
    requires p !in s.pipes && r !in s.handles && w !in s.handles && r != w
    ensures var made := WithPipe(s, p, r, w);
            && (made.handles - {r}) - {w} == s.handles
            && r in made.handles && w in made.handles - {r}
            && made.handles[r] == Handle(ReadEnd(p), 1) && made.handles[w] == Handle(WriteEnd(p), 1)
            && p in made.pipes && p in Without(made.pipes, ReadEnd(p))
            && Without(Without(made.pipes, ReadEnd(p)), WriteEnd(p)) == s.pipes
  {
    var made := WithPipe(s, p, r, w);
    assert made.pipes == s.pipes[p := Pipe([], 1, 1)];
    assert Without(made.pipes, ReadEnd(p)) == s.pipes[p := Pipe([], 0, 1)];
    MapsAgree(s.pipes, p, Pipe([], 0, 0));
  }

  ghost predicate LowestFree(fds: seq<Option<nat>>, fd: int) {
    0 <= fd < |fds| && fds[fd].None? && forall j :: 0 <= j < fd ==> fds[j].Some?
  }

  /** There is a free descriptor. */
  ghost predicate HasFree(fds: seq<Option<nat>>) { exists i :: 0 <= i < |fds| && fds[i].None? }

  /** There are two. */
  ghost predicate TwoFree(fds: seq<Option<nat>>) {
    exists i, j :: 0 <= i < j < |fds| && fds[i].None? && fds[j].None?
  }

  lemma NoneFree(fds: seq<Option<nat>>)
    requires forall i :: 0 <= i < |fds| ==> fds[i].Some?
    ensures !TwoFree(fds) && !HasFree(fds)
  {}

  lemma OneFree(fds: seq<Option<nat>>, fd: int, h: Option<nat>)
    requires LowestFree(fds, fd) && var after := fds[fd := h]; forall i :: 0 <= i < |after| ==> after[i].Some?
    ensures !TwoFree(fds)
  {
    assert forall i :: 0 <= i < |fds| && i != fd ==> fds[fd := h][i] == fds[i];
  }

  lemma TwoWereFree(fds: seq<Option<nat>>, readFd: int, writeFd: int, h: Option<nat>)
    requires LowestFree(fds, readFd) && h.Some? && LowestFree(fds[readFd := h], writeFd)
    ensures TwoFree(fds)
  {
    assert readFd < writeFd && fds[readFd].None? && fds[writeFd].None?;
  }

  lemma BackAgain(s: State, t: nat, fd: int, h: Option<nat>)
    requires t < |s.tasks| && LowestFree(s.tasks[t].fds, fd)
    ensures SetFd(SetFd(s, t, fd, h), t, fd, None) == s
  {
    var one := SetFd(s, t, fd, h);
    assert one.tasks[t].fds[fd := None] == s.tasks[t].fds;
    assert one.tasks[t := one.tasks[t].(fds := s.tasks[t].fds)] == s.tasks;
  }

  /** Descriptor `fd` of task `t` is closed: its slot is free, and the handle has a reference less or
      is gone. */
  ghost predicate Closed(s: State, r: State, t: nat, fd: int)
    requires t < |s.tasks| && 0 <= fd < |s.tasks[t].fds| && s.tasks[t].fds[fd].Some?
  {
    var h, mid := s.tasks[t].fds[fd].value, SetFd(s, t, fd, None);
    if h == TERMINAL then r == mid
    else
      && h in s.handles
      && if s.handles[h].refs > 1 then r == WithRefs(mid, h, s.handles[h].refs - 1)
         else (s.handles[h].kind.File? || s.handles[h].kind.pipe in s.pipes) && r == Released(mid, h)
  }

  lemma TableSizes(s: State, loose: set<nat>)
    requires Inv(s, loose)
    ensures |s.tasks| == TASKS && forall t :: 0 <= t < TASKS ==> |s.tasks[t].fds| == MAX_FDS
    ensures TERMINAL !in s.handles && TERMINAL !in loose
    ensures forall h :: h in loose ==> h in s.handles
    ensures forall t, i ::
              0 <= t < TASKS && 0 <= i < MAX_FDS && s.tasks[t].fds[i].Some? && s.tasks[t].fds[i].value != TERMINAL ==>
              s.tasks[t].fds[i].value in s.handles
    ensures forall h :: h in s.handles ==> s.handles[h].refs > 0
  {}

  lemma PlusMinus(s: State, loose: set<nat>, h: nat)
    requires Inv(s, loose) && h !in loose
    ensures Plus(loose, h) - {h} == loose && (h != TERMINAL ==> h in Plus(loose, h))
  {}

  /** Histories and ids do not depend on the slots and counts. */
  lemma SameOk(s: State, r: State, loose: set<nat>, after: set<nat>,
               accepted: map<nat, seq<byte>>, delivered: map<nat, seq<byte>>, next: nat)
    requires Ok(s, loose, accepted, delivered, next) && Inv(r, after) && r.pipes == s.pipes
    requires r.handles.Keys == s.handles.Keys
    ensures Ok(r, after, accepted, delivered, next)
  {
    hide Inv;
    assert forall h :: h in r.handles ==> h in s.handles.Keys;
  }

  /** The pipes when one end less of one of them is open. */
  function Without(pipes: map<nat, Pipe>, end: Kind): map<nat, Pipe>
    requires !end.File? && end.pipe in pipes
  {
    var pipe := Shrunk(pipes[end.pipe], end);
    if Unused(pipe) then pipes[end.pipe := pipe] - {end.pipe} else pipes[end.pipe := pipe]
  }

  lemma ReleasedIs(s: State, r: State, h: nat)
    requires h in s.handles && (s.handles[h].kind.File? || s.handles[h].kind.pipe in s.pipes) && |r.tasks| == |s.tasks|
    requires r.handles == s.handles - {h}
    requires s.handles[h].kind.File? ==> r.tasks == s.tasks && r.pipes == s.pipes
    requires !s.handles[h].kind.File? ==>
               && r.pipes == Without(s.pipes, s.handles[h].kind)
               && forall t :: 0 <= t < |s.tasks| ==> r.tasks[t] == Awake(s, s.tasks[t], s.handles[h].kind.pipe)
    ensures r == Released(s, h)
  {
    hide Awake, Shrunk;
    if !s.handles[h].kind.File? {
      var p := s.handles[h].kind.pipe;
      MapsAgree(s.pipes, p, Shrunk(s.pipes[p], s.handles[h].kind));
      assert r.tasks == Changed(s, p, Shrunk(s.pipes[p], s.handles[h].kind)).tasks;
    }
  }

  lemma MapsAgree(m: map<nat, Pipe>, p: nat, pipe: Pipe)
    ensures m[p := pipe] - {p} == m - {p}
  {}

  /** Who waits for a pipe depends on the handles only. */
  lemma SameAwake(s: State, r: State, p: nat)
    requires r.handles == s.handles
    ensures forall t :: 0 <= t < |s.tasks| ==> Awake(r, s.tasks[t], p) == Awake(s, s.tasks[t], p)
  {}

  lemma LooseNoTerminal(s: State, loose: set<nat>)
    requires Inv(s, loose)
    ensures TERMINAL !in loose && loose - {TERMINAL} == loose
  {}

  lemma LooseExists(s: State, loose: set<nat>, h: nat)
    requires Inv(s, loose) && h in loose
    ensures h in s.handles && s.handles[h].refs > 0 && |s.tasks| == TASKS
  {}

  // ---- every interleaving ----

  datatype Step =
    | ReadStep(fd: int, len: nat)
    | WriteStep(fd: int, data: seq<byte>)
    | PipeStep(room: bool)
    | FileStep(room: bool)
    | CloseStep(fd: int)
    | KillStep(target: nat)
    | SpawnStep(child: nat, io: seq<Option<nat>>)
    | ExitStep

  /** What a step gave to a pipe or took from it: `put` and `out` are the bytes a write has passed on and
      those a read returns, `res` what the call returns once it does not wait any more. */
  datatype Event =
    | Quiet
    | Took(pipe: nat, waits: bool, res: int, out: seq<byte>)
    | Gave(pipe: nat, waits: bool, res: int, put: seq<byte>)
    | Made(pipe: nat)

  function PipeAt(s: State, h: nat): nat {
    if h in s.handles && !s.handles[h].kind.File? then s.handles[h].kind.pipe else 0
  }

  ghost predicate Reads(s: State, r: State, t: nat, h: nat, len: nat, e: Event) {
    e.Took? && e.pipe == PipeAt(s, h) && ReadsFrom(s, r, t, h, len, e.waits, e.res, e.out)
  }

  ghost predicate Writes(s: State, r: State, t: nat, h: nat, data: seq<byte>, start: nat, e: Event) {
    e.Gave? && e.pipe == PipeAt(s, h) && WritesTo(s, r, t, h, data, start, e.waits, e.res, e.put)
  }

  /** A new pipe, empty, in two slots of task `t`. */
  ghost predicate PipeMade(s: State, r: State, t: nat, p: nat)
    requires t < |s.tasks|
  {
    exists read, write, readFd, writeFd :: PipeMadeAs(s, r, t, p, read, write, readFd, writeFd)
  }

  ghost predicate PipeMadeAs(s: State, r: State, t: nat, p: nat, read: nat, write: nat, readFd: int, writeFd: int)
    requires t < |s.tasks|
  {
    && p !in s.pipes && read !in s.handles && write !in s.handles && read != write
    && InTwoSlots(s.tasks, r.tasks, t, read, write, readFd, writeFd)
    && r.handles == WithPipe(s, p, read, write).handles && r.pipes == WithPipe(s, p, read, write).pipes
  }

  ghost predicate FileMade(s: State, r: State, t: nat)
    requires t < |s.tasks|
  {
    exists h: nat, fd: int :: FileMadeAs(s, r, t, h, fd)
  }

  ghost predicate FileMadeAs(s: State, r: State, t: nat, h: nat, fd: int)
    requires t < |s.tasks|
  {
    h !in s.handles && LowestFree(s.tasks[t].fds, fd) && r == SetFd(WithFile(s, h), t, fd, Some(h))
  }

  /** Task `t` is gone with its references; the handles and pipes that are left are as they were, but for
      their counts, and the other tasks do what they did, or go on. */
  ghost predicate Left(s: State, r: State, t: nat) {
    && t < |r.tasks| == |s.tasks| && !r.tasks[t].live
    && (forall i :: 0 <= i < |r.tasks[t].fds| ==> r.tasks[t].fds[i].None?)
    && FewerEnds(s, r)
    && forall u :: 0 <= u < |s.tasks| && u != t ==> WentOn(s.tasks[u], r.tasks[u])
  }

  /** A child may start with these descriptors. */
  ghost predicate MaySpawn(s: State, child: nat, io: seq<Option<nat>>) {
    && child < |s.tasks| && !s.tasks[child].live && |io| == 3
    && forall i :: 0 <= i < 3 && io[i].Some? ==> io[i].value == TERMINAL || io[i].value in s.handles
  }

  ghost predicate Spawned(s: State, r: State, t: nat, child: nat, io: seq<Option<nat>>)
    requires t < |s.tasks|
  {
    && |io| == 3 && child < |s.tasks| == |r.tasks| && r.pipes == s.pipes && SameHandles(s.handles, r.handles)
    && (forall u :: 0 <= u < |s.tasks| && u != child ==> r.tasks[u] == s.tasks[u])
    && |s.tasks[t].fds| >= 3 && |r.tasks[child].fds| == |s.tasks[t].fds|
    && r.tasks[child] == Task(true, r.tasks[child].fds, false, NoCall, false)
    && (forall i :: 0 <= i < 3 ==> Gets(s.tasks[t].fds, io, i, r.tasks[child].fds[i]))
    && forall i :: 3 <= i < |r.tasks[child].fds| ==> r.tasks[child].fds[i].None?
  }

  /** From `s` to `r`, task `t` went on with the call it was in, or did what the step says. */
  ghost predicate Stepped(s: State, r: State, t: nat, step: Step, e: Event)
    requires t < |s.tasks|
  {
    var task := s.tasks[t];
    if !task.live || task.blocked then r == s && e.Quiet?
    else if task.call.Reading? then Reads(s, r, t, task.call.handle, task.call.len, e)
    else if task.call.Writing? then Writes(s, r, t, task.call.handle, task.call.data, task.call.written, e)
    else
      match step
      case ReadStep(fd, len) => if HasEnd(s, t, fd, true) then Reads(s, r, t, task.fds[fd].value, len, e)
                                else r == s && e.Quiet?
      case WriteStep(fd, data) =>
        if HasEnd(s, t, fd, false) then Writes(s, r, t, task.fds[fd].value, data, 0, e) else r == s && e.Quiet?
      case PipeStep(room) => if room && TwoFree(task.fds) then e.Made? && PipeMade(s, r, t, e.pipe)
                             else r == s && e.Quiet?
      case FileStep(room) => e.Quiet? && if room && HasFree(task.fds) then FileMade(s, r, t) else r == s
      case CloseStep(fd) => e.Quiet? && if 0 <= fd < |task.fds| && task.fds[fd].Some? then Closed(s, r, t, fd)
                                        else r == s
      case KillStep(target) =>
        e.Quiet? && r == if target < |s.tasks| && s.tasks[target].live then
                           s.(tasks := s.tasks[target := s.tasks[target].(killed := true, blocked := false)]) else s
      case SpawnStep(child, io) => e.Quiet? && if MaySpawn(s, child, io) then Spawned(s, r, t, child, io) else r == s
      case ExitStep => e.Quiet? && Left(s, r, t)
  }

  /** What went into the pipes so far, after that event. */
  ghost function Accepted(history: map<nat, seq<byte>>, e: Event): map<nat, seq<byte>> {
    if e.Gave? then More(history, e.pipe, e.put) else if e.Made? then history[e.pipe := []] else history
  }

  /** What came out of them. */
  ghost function Delivered(history: map<nat, seq<byte>>, e: Event): map<nat, seq<byte>> {
    if e.Took? then More(history, e.pipe, e.out) else if e.Made? then history[e.pipe := []] else history
  }

  /** Task `t` does something, if it is there and does not wait: it goes on with the call it was woken
      in, or makes another one. Reads and writes of files and the terminal are not part of this. */
  method Execute(f: Files, t: nat, step: Step) returns (ghost e: Event)
    requires f.Valid({}) && t < TASKS
    modifies f, f.tasks
    ensures f.Valid({}) && f.tasks.Length == TASKS
    ensures Stepped(old(f.S()), f.S(), t, step, e) && (e.Made? ==> e.pipe !in old(f.accepted))
    ensures f.accepted == Accepted(old(f.accepted), e) && f.delivered == Delivered(old(f.delivered), e)
  {
    hide Ok, Inv, HasEnd, ReadsFrom, WritesTo, Closed, LowestFree, WithPipe, InTwoSlots, Spawned, PipeMade, FileMade;
    hide Left, SetFd, WithFile, More, HasFree, TwoFree, FewerEnds, WentOn, SameHandles;
    ghost var s := f.S();
    OkSizes(s, {}, f.accepted, f.delivered, f.nextId);
    e := Quiet;
    var task := f.tasks[t];
    if !task.live || task.blocked {
      return;
    }
    if task.call.Reading? {
      var waits, res, out := f.ReadOn(t);
      e := Took(PipeAt(s, task.call.handle), waits, res, out);
      OkSizes(f.S(), {}, f.accepted, f.delivered, f.nextId);
      return;
    }
    if task.call.Writing? {
      ghost var put;
      var waits, res;
      waits, res, put := f.WriteOn(t);
      e := Gave(PipeAt(s, task.call.handle), waits, res, put);
      OkSizes(f.S(), {}, f.accepted, f.delivered, f.nextId);
      return;
    }
    ghost var next := f.nextId;
    OkFresh(s, f.accepted, f.delivered, next);
    match step {
      case ReadStep(fd, len) =>
        NoEnd(s, t, fd, true);
        if IsPipe(f.handles, task.fds, fd) {
          var waits, res, out := f.Read(t, fd, len);
          if HasEnd(s, t, fd, true) { e := Took(PipeAt(s, task.fds[fd].value), waits, res, out); }
        }
      case WriteStep(fd, data) =>
        NoEnd(s, t, fd, false);
        if IsPipe(f.handles, task.fds, fd) {
          ghost var put;
          var waits, res;
          waits, res, put := f.Write(t, fd, data);
          if HasEnd(s, t, fd, false) { e := Gave(PipeAt(s, task.fds[fd].value), waits, res, put); }
        }
      case PipeStep(room) =>
        var res, readFd, writeFd := f.OpenPipe(t, room);
        if res >= 0 {
          e := Made(next + 2);
          SomePipe(s, f.S(), t, next, readFd, writeFd);
        }
      case FileStep(room) =>
        var fd := f.OpenFile(t, room);
        if fd >= 0 { SomeFile(s, f.S(), t, next, fd); }
      case CloseStep(fd) => var _ := f.CloseFd(t, fd, {});
      case KillStep(target) => if target < TASKS && f.tasks[target].live { f.Kill(target); }
      case SpawnStep(child, io) =>
        if child < TASKS && !f.tasks[child].live && |io| == 3
           && forall i :: 0 <= i < 3 && io[i].Some? ==> io[i].value == TERMINAL || io[i].value in f.handles {
          f.Spawn(t, child, io);
          OkSizes(f.S(), {}, f.accepted, f.delivered, f.nextId);
          SpawnedIs(s, f.S(), t, child, io);
        }
      case ExitStep =>
        f.Exit(t);
    }
    OkSizes(f.S(), {}, f.accepted, f.delivered, f.nextId);
  }

  lemma NoEnd(s: State, t: nat, fd: int, forReading: bool)
    requires t < |s.tasks|
    ensures HasEnd(s, t, fd, forReading) ==>
              && IsPipe(s.handles, s.tasks[t].fds, fd) && 0 <= fd < |s.tasks[t].fds| && s.tasks[t].fds[fd].Some?
              && s.tasks[t].fds[fd].value in s.handles && !s.handles[s.tasks[t].fds[fd].value].kind.File?
  {}

  lemma OkFresh(s: State, accepted: map<nat, seq<byte>>, delivered: map<nat, seq<byte>>, next: nat)
    requires Ok(s, {}, accepted, delivered, next)
    ensures next !in s.handles && next + 1 !in s.handles && next + 2 !in s.pipes && next + 2 !in accepted
  {
    hide Inv, FlowsOk;
  }

  lemma SomePipe(s: State, r: State, t: nat, next: nat, readFd: int, writeFd: int)
    requires t < |s.tasks| && next !in s.handles && next + 1 !in s.handles && next + 2 !in s.pipes
    requires InTwoSlots(s.tasks, r.tasks, t, next, next + 1, readFd, writeFd)
    requires r.handles == WithPipe(s, next + 2, next, next + 1).handles
    requires r.pipes == WithPipe(s, next + 2, next, next + 1).pipes
    ensures PipeMade(s, r, t, next + 2)
  {
    hide WithPipe, InTwoSlots;
    assert PipeMadeAs(s, r, t, next + 2, next, next + 1, readFd, writeFd);
  }

  lemma SomeFile(s: State, r: State, t: nat, next: nat, fd: int)
    requires t < |s.tasks| && next !in s.handles
    requires LowestFree(s.tasks[t].fds, fd) && r == SetFd(WithFile(s, next), t, fd, Some(next))
    ensures FileMade(s, r, t)
  {
    hide WithFile, LowestFree;
    assert FileMadeAs(s, r, t, next, fd);
  }

  lemma SpawnedIs(s: State, r: State, t: nat, child: nat, io: seq<Option<nat>>)
    requires |io| == 3 && t < |s.tasks| == |r.tasks| == TASKS && child < TASKS
    requires |s.tasks[t].fds| == |r.tasks[child].fds| == MAX_FDS && r.pipes == s.pipes
    requires SameHandles(s.handles, r.handles)
    requires r.tasks[child] == Task(true, r.tasks[child].fds, false, NoCall, false)
    requires forall u :: 0 <= u < TASKS && u != child ==> r.tasks[u] == s.tasks[u]
    requires forall i :: 0 <= i < 3 ==> Gets(s.tasks[t].fds, io, i, r.tasks[child].fds[i])
    requires forall i :: 3 <= i < MAX_FDS ==> r.tasks[child].fds[i].None?
    ensures Spawned(s, r, t, child, io)
  {
    hide Gets;
  }

  /** Not an open file. */
  predicate IsPipe(handles: map<nat, Handle>, fds: seq<Option<nat>>, fd: int) {
    0 <= fd < |fds| && fds[fd].Some? ==> fds[fd].value in handles && !handles[fds[fd].value].kind.File?
  }

  /** The system between two steps, with what went into each pipe so far and what came out of it. */
  datatype Moment = Moment(s: State, accepted: map<nat, seq<byte>>, delivered: map<nat, seq<byte>>, next: nat)

  /** References, waiting tasks and histories are in order. */
  ghost predicate InOrder(m: Moment) { Ok(m.s, {}, m.accepted, m.delivered, m.next) }

  ghost predicate Follows(a: Moment, b: Moment, t: nat, step: Step, e: Event) {
    && t < |a.s.tasks| && Stepped(a.s, b.s, t, step, e) && (e.Made? ==> e.pipe !in a.accepted)
    && b.accepted == Accepted(a.accepted, e) && b.delivered == Delivered(a.delivered, e)
  }

  /** The moments of a run, and what the steps between them did. */
  ghost predicate IsRun(seen: seq<Moment>, steps: seq<(nat, Step)>, events: seq<Event>) {
    && |seen| == |steps| + 1 && |events| == |steps| && (forall i :: 0 <= i < |seen| ==> InOrder(seen[i]))
    && forall i :: 0 <= i < |steps| ==> Follows(seen[i], seen[i + 1], steps[i].0, steps[i].1, events[i])
  }

  // ---- what goes in comes out ----

  /** The bytes all writers have passed on to pipe `p`, in the order of their steps. */
  ghost function Given(events: seq<Event>, p: nat): seq<byte> {
    if events == [] then []
    else
      var e := events[|events| - 1];
      Given(events[..|events| - 1], p) + if e.Gave? && e.pipe == p then e.put else []
  }

  /** The bytes all readers have got from it. */
  ghost function Taken(events: seq<Event>, p: nat): seq<byte> {
    if events == [] then []
    else
      var e := events[|events| - 1];
      Taken(events[..|events| - 1], p) + if e.Took? && e.pipe == p then e.out else []
  }

  ghost function Buffered(m: Moment, p: nat): seq<byte> { if p in m.s.pipes then m.s.pipes[p].buffer else [] }

  function Known(history: map<nat, seq<byte>>, p: nat): seq<byte> { if p in history then history[p] else [] }

  lemma LastEvent(events: seq<Event>, n: nat, p: nat)
    requires 0 < n <= |events|
    ensures Given(events[..n], p) == Given(events[..n - 1], p)
            + if events[n - 1].Gave? && events[n - 1].pipe == p then events[n - 1].put else []
    ensures Taken(events[..n], p) == Taken(events[..n - 1], p)
            + if events[n - 1].Took? && events[n - 1].pipe == p then events[n - 1].out else []
  {
    assert events[..n][..n - 1] == events[..n - 1];
  }

  /** The histories are those of the events. */
  lemma {:induction false} HistoriesAre(seen: seq<Moment>, steps: seq<(nat, Step)>, events: seq<Event>, n: nat, p: nat)
    requires IsRun(seen, steps, events) && n <= |steps|
    ensures Known(seen[n].accepted, p) == Known(seen[0].accepted, p) + Given(events[..n], p)
    ensures Known(seen[n].delivered, p) == Known(seen[0].delivered, p) + Taken(events[..n], p)
    ensures p !in seen[n].accepted ==> p !in seen[0].accepted
    decreases n
  {
    hide Stepped, InOrder, Given, Taken, Known, Accepted, Delivered;
    if n == 0 {
      NoEvents(p);
      assert events[..0] == [];
    } else {
      HistoriesAre(seen, steps, events, n - 1, p);
      LastEvent(events, n, p);
      var a, b, e := seen[n - 1], seen[n - 1 + 1], events[n - 1];
      assert Follows(a, b, steps[n - 1].0, steps[n - 1].1, e);
      SameKnown(a);
      StepKnown(a, b, steps[n - 1].0, steps[n - 1].1, e, p);
      Appended(Known(seen[0].accepted, p), Given(events[..n - 1], p), if e.Gave? && e.pipe == p then e.put else []);
      Appended(Known(seen[0].delivered, p), Taken(events[..n - 1], p), if e.Took? && e.pipe == p then e.out else []);
    }
  }

  lemma Appended(a: seq<byte>, b: seq<byte>, c: seq<byte>)
    ensures (a + b) + c == a + (b + c) && a + [] == a
  {}

  lemma NoEvents(p: nat)
    ensures Given([], p) == [] && Taken([], p) == []
  {}

  lemma SameKnown(m: Moment)
    requires InOrder(m)
    ensures m.accepted.Keys == m.delivered.Keys && forall p :: p in m.s.pipes ==> p in m.accepted
  {
    hide Inv, IdsOk;
  }

  /** A byte goes only to, or comes only from, a pipe that is there. */
  lemma StepPipe(s: State, r: State, t: nat, step: Step, e: Event)
    requires t < |s.tasks| && Stepped(s, r, t, step, e)
    ensures e.Gave? || e.Took? ==> e.pipe in s.pipes
  {
    hide Changed, Fits, PipeMade, FileMade, Closed, Left, Spawned, HasEnd, Put;
  }

  lemma StepKnown(a: Moment, b: Moment, t: nat, step: Step, e: Event, p: nat)
    requires Follows(a, b, t, step, e) && a.accepted.Keys == a.delivered.Keys
    requires forall q :: q in a.s.pipes ==> q in a.accepted
    ensures Known(b.accepted, p) == Known(a.accepted, p) + if e.Gave? && e.pipe == p then e.put else []
    ensures Known(b.delivered, p) == Known(a.delivered, p) + if e.Took? && e.pipe == p then e.out else []
    ensures p in a.accepted ==> p in b.accepted
  {
    hide Stepped;
    StepPipe(a.s, b.s, t, step, e);
    assert p in a.delivered.Keys <==> p in a.accepted.Keys;
    assert e.Took? ==> e.pipe in a.delivered.Keys;
  }

  /** First in, first out, whoever writes and reads: what was in a pipe and what writers have given to it
      since is what readers have got from it, and then what is still in it. A pipe that is gone has
      delivered nothing but what it was given, from the first byte on. */
  lemma FirstInFirstOut(seen: seq<Moment>, steps: seq<(nat, Step)>, events: seq<Event>, n: nat, p: nat)
    requires IsRun(seen, steps, events) && n <= |steps| && (p in seen[0].s.pipes || p !in seen[0].accepted)
    ensures p in seen[n].s.pipes ==>
              Buffered(seen[0], p) + Given(events[..n], p) == Taken(events[..n], p) + Buffered(seen[n], p)
    ensures Taken(events[..n], p) <= Buffered(seen[0], p) + Given(events[..n], p)
  {
    hide Given, Taken, Stepped, InOrder;
    HistoriesAre(seen, steps, events, n, p);
    HistoryOf(seen[0], p);
    HistoryOf(seen[n], p);
    if p in seen[n].s.pipes {
      SamePrefix(Known(seen[0].delivered, p), Buffered(seen[0], p), Given(events[..n], p), Taken(events[..n], p),
                 Buffered(seen[n], p));
    }
    PrefixOf(Known(seen[0].delivered, p), Buffered(seen[0], p), Given(events[..n], p), Taken(events[..n], p));
  }

  lemma HistoryOf(m: Moment, p: nat)
    requires InOrder(m)
    ensures p in m.s.pipes ==> Known(m.delivered, p) + Buffered(m, p) == Known(m.accepted, p)
    ensures p !in m.accepted ==> Known(m.delivered, p) + Buffered(m, p) == Known(m.accepted, p)
    ensures Known(m.delivered, p) <= Known(m.accepted, p)
  {
    hide Inv, IdsOk;
    SameKnown(m);
    assert p in m.delivered.Keys <==> p in m.accepted.Keys;
  }

  lemma SamePrefix(a: seq<byte>, b: seq<byte>, c: seq<byte>, d: seq<byte>, e: seq<byte>)
    requires (a + d) + e == (a + b) + c
    ensures d + e == b + c
  {
    assert (a + (d + e))[|a|..] == d + e && (a + (b + c))[|a|..] == b + c;
    assert a + (d + e) == (a + d) + e && a + (b + c) == (a + b) + c;
  }

  lemma PrefixOf(a: seq<byte>, b: seq<byte>, c: seq<byte>, d: seq<byte>)
    requires a + d <= (a + b) + c
    ensures d <= b + c
  {
    assert (a + d)[|a|..] == d && ((a + b) + c)[|a|..] == b + c;
  }

  /** Pipe `p` is there at the `n`-th moment, and was at the first one unless it has been made since. */
  ghost predicate HereFor(seen: seq<Moment>, n: nat, p: nat)
    requires n < |seen|
  {
    p in seen[n].s.pipes && (p in seen[0].s.pipes || p !in seen[0].accepted)
  }

  /** In every interleaving each task does what it says, references are counted right, no task waits for
      what is there already, and bytes come out of a pipe as they went in. */
  method Run(f: Files, steps: seq<(nat, Step)>) returns (ghost seen: seq<Moment>, ghost events: seq<Event>)
    requires f.Valid({}) && forall i :: 0 <= i < |steps| ==> steps[i].0 < TASKS
    modifies f, f.tasks
    ensures f.Valid({}) && IsRun(seen, steps, events)
    ensures seen[0] == Moment(old(f.S()), old(f.accepted), old(f.delivered), old(f.nextId))
    ensures seen[|steps|] == Moment(f.S(), f.accepted, f.delivered, f.nextId)
    ensures forall n: nat, p: nat :: n <= |steps| && HereFor(seen, n, p) ==>
              Buffered(seen[0], p) + Given(events[..n], p) == Taken(events[..n], p) + Buffered(seen[n], p)
  {
    hide Ok, Inv, Stepped, Given, Taken, Buffered;
    seen, events := [Moment(f.S(), f.accepted, f.delivered, f.nextId)], [];
    for i := 0 to |steps|
      invariant f.Valid({}) && |seen| == i + 1 && |events| == i
      invariant seen[0] == Moment(old(f.S()), old(f.accepted), old(f.delivered), old(f.nextId))
      invariant seen[i] == Moment(f.S(), f.accepted, f.delivered, f.nextId)
      invariant forall j :: 0 <= j <= i ==> InOrder(seen[j])
      invariant forall j :: 0 <= j < i ==> Follows(seen[j], seen[j + 1], steps[j].0, steps[j].1, events[j])
    {
      OkSizes(f.S(), {}, f.accepted, f.delivered, f.nextId);
      ghost var e := Execute(f, steps[i].0, steps[i].1);
      seen, events := seen + [Moment(f.S(), f.accepted, f.delivered, f.nextId)], events + [e];
    }
    forall n: nat, p: nat | n <= |steps| && HereFor(seen, n, p)
      ensures Buffered(seen[0], p) + Given(events[..n], p) == Taken(events[..n], p) + Buffered(seen[n], p)
    {
      FirstInFirstOut(seen, steps, events, n, p);
    }
  }
}
