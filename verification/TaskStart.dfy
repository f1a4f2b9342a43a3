// Starting a user task, and the growth of its heap.
module TaskStart {
  import opened Bytes
  import opened ByteMemory
  import opened KernelHeap
  import opened PageTables
  import opened AddressSpace
  import opened ElfFile
  import opened ElfLoader
  import opened TaskArgs
  import opened UserLayout

  // ---- the heap of a task ----

  /** All pages from `start` up to `brk` may be read and written; the page below the stack is not there. */
  ghost predicate HeapPages(sp: Space, start: nat, brk: nat) {
    && Tabled(sp) && USER_CODE_ADDR <= start <= brk <= USER_HEAP_LIMIT && start % PAGE_SIZE == 0
    && (forall pn: nat :: pn < USER_PAGES && Touches(pn, start, brk - start) ==> Mapped(sp, pn) && CanWrite(sp, pn))
    && !Mapped(sp, PageNumber(USER_HEAP_LIMIT))
  }

  /** The heap of a program starts empty behind its segments. */
  lemma HeapStarts(mem: Memory, sp: Space, file: seq<byte>, esp: nat, brk: nat)
    requires ProgramLoaded(mem, sp, file, esp)
    requires ImageEnd(file, Count(file)) <= brk < ImageEnd(file, Count(file)) + PAGE_SIZE && brk % PAGE_SIZE == 0
    ensures HeapPages(sp, brk, brk)
  {
    hide Mapped, CanWrite, HeaderOk, Count, SegmentAt, Tabled, ImageEnd, InImage, WritableInImage, UserByte;
    GuardPage(sp, file);
    ImageEndBounds(file, Count(file));
    PageAbove(brk);
  }

  lemma PageAbove(brk: nat)
    requires brk % PAGE_SIZE == 0 && brk < USER_HEAP_LIMIT + PAGE_SIZE
    ensures brk <= USER_HEAP_LIMIT
  {}

  lemma HeapGrown(sp: Space, now: Space, start: nat, brk: nat, n: nat)
    requires HeapPages(sp, start, brk) && MapsMore(sp, now, brk, n, true) && brk + n <= USER_HEAP_LIMIT
    ensures HeapPages(now, start, brk + n) && HeapPages(now, start, brk)
  {
    hide Tabled, Mapped, CanWrite, Touches;
    forall pn: nat
      ensures Touches(pn, start, brk - start + n) <==> Touches(pn, start, brk - start) || Touches(pn, brk, n)
    {
      TouchesBoth(pn, start, brk - start, n);
    }
    GuardAbove(brk, n);
  }

  lemma GuardAbove(brk: nat, n: nat)
    requires brk + n <= USER_HEAP_LIMIT
    ensures !Touches(PageNumber(USER_HEAP_LIMIT), brk, n)
  {}

  lemma HeapShrunk(sp: Space, start: nat, brk: nat, now: nat)
    requires HeapPages(sp, start, brk) && start <= now <= brk
    ensures HeapPages(sp, start, now)
  {
    hide Tabled, Mapped, CanWrite, Touches;
    var n, more := now - start, brk - now;
    forall pn: nat ensures Touches(pn, start, n) ==> Touches(pn, start, n + more) { TouchesBoth(pn, start, n, more); }
  }

  /** `task_sbrk`: `brk` becomes `end`. Pages are mapped as far as it grows, for writing, and none else; the
      program sees the bytes it saw, and zeros on new pages. */
  method Sbrk(m: Machine, t: nat, start: nat, brk: nat, increment: int) returns (r: nat, end: nat)
    requires m.Valid() && t < |m.tasks| && m.tasks[t].space.Space? && HeapPages(m.tasks[t].space, start, brk)
    requires -0x8000_0000 <= increment < 0x8000_0000
    modifies m`mem, m`tasks, m.heap`live, m.heap.entries
    ensures m.Valid() && Extends(old(m.Held()), old(m.tasks), old(m.mem), m.Held(), m.tasks, m.mem, t)
    ensures |m.tasks| == |old(m.tasks)| && m.tasks[t].space.Space? && m.tasks[t].stack == old(m.tasks)[t].stack
    ensures HeapPages(m.tasks[t].space, start, end)
    ensures r == 0 ==> end == brk && (MayMove(start, brk, increment) ==> increment > 0 && m.Full())
    ensures r != 0 ==> r == brk && end == brk + increment && MayMove(start, brk, increment)
    ensures r != 0 ==>
              MapsMore(old(m.tasks)[t].space, m.tasks[t].space, brk, if increment > 0 then increment else 0, true)
    ensures SeesCopy(old(m.mem), old(m.tasks)[t].space, m.mem, m.tasks[t].space, brk, [])
    ensures old(m.Full()) ==> m.Full()
  {
    hide Machine.Valid, NoFreeRun, KHeap.Valid, Extends, MapsMore, SeesCopy, HeldIn, HeapPages, Tabled, Took;
    hide TableOk;
    ghost var h0, a, m0, l0, e0 := m.Held(), m.tasks, m.mem, m.heap.live, m.heap.entries[..];
    Tables(m, t);
    m.HeapTable();
    HeapBounds(a[t].space, start, brk);
    Unmoved(m, t, brk);
    end := brk;
    var next := (brk + increment) % 0x1_0000_0000;
    if (increment > 0 && next < brk) || next < start || next > USER_HEAP_LIMIT {
      return 0, end;
    }
    if next > brk {
      var res := m.CopyToUser(t, brk, [], false, next - brk, true);
      StaysFull(m, t, e0, l0, CopyCost(next - brk));
      if res < 0 {
        PartGrown(m0, a[t].space, m.mem, m.tasks[t].space, start, brk, next - brk);
        return 0, end;
      }
      HeapGrown(a[t].space, m.tasks[t].space, start, brk, next - brk);
    } else {
      HeapShrunk(a[t].space, start, brk, next);
    }
    r, end := brk, next;
  }

  lemma StaysFull(m: Machine, t: nat, e0: seq<bv8>, l0: Runs, k: nat)
    requires m.Valid() && t < |m.tasks| && TableOk(e0, l0) && |e0| == m.heap.entries.Length
    requires Took(l0, m.heap.live, k)
    ensures NoFreeRun(e0, 1) ==> m.Full()
  {
    hide Machine.Valid, KHeap.Valid, TableOk, Took, NoFreeRun;
    Tables(m, t);
    m.HeapTable();
    if NoFreeRun(e0, 1) { FullStays(e0, l0, m.heap.entries[..], m.heap.live, k); }
  }

  lemma HeapBounds(sp: Space, start: nat, brk: nat)
    requires HeapPages(sp, start, brk)
    ensures USER_CODE_ADDR <= start <= brk <= USER_HEAP_LIMIT
  {
    hide Tabled, Mapped, CanWrite;
  }

  lemma Unmoved(m: Machine, t: nat, brk: nat)
    requires m.Valid() && t < |m.tasks|
    ensures Extends(m.Held(), m.tasks, m.mem, m.Held(), m.tasks, m.mem, t)
    ensures MapsMore(m.tasks[t].space, m.tasks[t].space, brk, 0, true)
    ensures SeesCopy(m.mem, m.tasks[t].space, m.mem, m.tasks[t].space, brk, [])
  {
    hide Extends, UserByte, Mapped, CanWrite;
    Tables(m, t);
    ExtendsNot(m.Held(), m.tasks, m.mem, t);
    MapsNone(m.tasks[t].space, brk, true);
  }

  /** Where memory runs out, pages that are mapped already stay, below the limit of the heap. */
  lemma PartGrown(mem: Memory, sp: Space, after: Memory, now: Space, start: nat, brk: nat, n: nat)
    requires HeapPages(sp, start, brk) && CopiedPart(mem, sp, after, now, brk, [], false, n, true)
    requires brk + n <= USER_HEAP_LIMIT
    ensures HeapPages(now, start, brk) && SeesCopy(mem, sp, after, now, brk, [])
  {
    hide HeapPages, MapsMore, SeesCopy, MappedAt;
    var k: nat :| k < n && CopiedUpTo(mem, sp, after, now, brk, [], false, k, true);
    HeapGrown(sp, now, start, brk, k);
  }

  /** What a call may do to the end of the heap: it moves if it may, unless it grows and no block is left. */
  predicate BreakMoves(start: nat, brk: nat, increment: int, end: int, full: bool) {
    if MayMove(start, brk, increment) then end == brk + increment || (end == brk && increment > 0 && full)
    else end == brk
  }

  /** Over every run of calls, with other tasks left alone, the heap is there up to its end and the page
      below the stack is not. A call that could move the end fails only when it runs out of blocks, and then
      none is left at the end of the run either. */
  method SbrkRun(m: Machine, t: nat, start: nat, brk: nat, increments: seq<int>) returns (end: nat, ends: seq<nat>)
    requires m.Valid() && t < |m.tasks| && m.tasks[t].space.Space? && HeapPages(m.tasks[t].space, start, brk)
    requires forall i :: 0 <= i < |increments| ==> -0x8000_0000 <= increments[i] < 0x8000_0000
    modifies m`mem, m`tasks, m.heap`live, m.heap.entries
    ensures m.Valid() && Extends(old(m.Held()), old(m.tasks), old(m.mem), m.Held(), m.tasks, m.mem, t)
    ensures |m.tasks| == |old(m.tasks)| && HeapPages(m.tasks[t].space, start, end)
    ensures |ends| == |increments| + 1 && ends[0] == brk && ends[|increments|] == end
    ensures forall i :: 0 <= i < |increments| ==>
              BreakMoves(start, ends[i], increments[i], ends[i + 1], m.Full())
  {
    hide Machine.Valid, Machine.Full, KHeap.Valid, Extends, MapsMore, SeesCopy, HeldIn, HeapPages, Tabled;
    ghost var h0, a, m0 := m.Held(), m.tasks, m.mem;
    Unmoved(m, t, brk);
    end, ends := brk, [brk];
    for i := 0 to |increments|
      invariant m.Valid() && Extends(h0, a, m0, m.Held(), m.tasks, m.mem, t) && |m.tasks| == |a|
      invariant m.tasks[t].space.Space?
      invariant HeapPages(m.tasks[t].space, start, end) && |ends| == i + 1 && ends[0] == brk && ends[i] == end
      invariant forall j :: 0 <= j < i ==> BreakMoves(start, ends[j], increments[j], ends[j + 1], m.Full())
    {
      ghost var h1, b, m1 := m.Held(), m.tasks, m.mem;
      var r;
      r, end := Sbrk(m, t, start, end, increments[i]);
      Tables(m, t);
      ExtendsTwice(h0, a, m0, h1, b, m1, m.Held(), m.tasks, m.mem, t);
      ends := ends + [end];
    }
  }

  // ---- spawning ----

  /** A task as it starts: its program, the arguments on its stack, and an empty heap. */
  ghost predicate Started(mem: Memory, sp: Space, file: seq<byte>, args: seq<seq<byte>>, esp: nat, brk: nat) {
    ProgramLoaded(mem, sp, file, esp) && ArgsAt(Seen(mem, sp), esp, args) && HeapPages(sp, brk, brk)
  }

  /** `task_load` and `task_push_args`. */
  method LoadWithArgs(m: Machine, t: nat, file: seq<byte>, readable: bool, args: seq<seq<byte>>)
    returns (r: int, entry: nat, brk: nat, esp: nat)
    requires m.Valid() && t < |m.tasks| && m.tasks[t].space == NoSpace && |file| < 0x1_0000_0000
    requires forall i :: 0 <= i < |args| ==> |args[i]| < 0x8000_0000
    modifies m`mem, m`tasks, m.heap`live, m.heap.entries
    ensures m.Valid() && Extends(old(m.Held()), old(m.tasks), old(m.mem), m.Held(), m.tasks, m.mem, t)
    ensures |m.tasks| == |old(m.tasks)| && m.tasks[t].stack == old(m.tasks)[t].stack
    ensures r == 0 ==>
              Started(m.mem, m.tasks[t].space, file, args, esp, brk) && entry == EntryPoint(file) && ArgsFit(args)
    ensures r != 0 ==>
              (r == INVALID_ARG && !(ElfOk(file) && ArgsFit(args))) || (r == IO_ERROR && !readable) || r == NO_MEMORY
    ensures r == NO_MEMORY ==> |file| > 0xFFFFF000 || NoFreeRun(old(m.heap.entries[..]), SpawnRoom(file))
    ensures r == 0 ==> Took(old(m.heap.live), m.heap.live, LoadCost(file) + ARGS_COST)
  {
    hide Machine.Valid, KHeap.Valid, Extends, HeldIn, Tabled, ProgramLoaded, ElfOk, EntryPoint, Count, ImageEnd;
    hide ArgsAt, StackMapped, SamePages, SeesBelow, Started, ArgsFit, Took, LoadCost, SpawnRoom, NoFreeRun;
    ghost var h0, a, m0, l0 := m.Held(), m.tasks, m.mem, m.heap.live;
    r, entry, brk := Load(m, t, file, readable);
    esp := USER_STACK_TOP;
    if r == 0 {
      ghost var h1, b, m1, l1 := m.Held(), m.tasks, m.mem, m.heap.live;
      Tables(m, t);
      LoadedStack(m1, b[t].space, file);
      r, esp := PushArgs(m, t, args);
      TookMore(l0, l1, m.heap.live, LoadCost(file), ARGS_COST);
      Tables(m, t);
      ExtendsTwice(h0, a, m0, h1, b, m1, m.Held(), m.tasks, m.mem, t);
      if r == 0 { ArgsPushed(m1, b[t].space, m.mem, m.tasks[t].space, file, args, esp, brk); }
    }
  }

  /** The memory side of `task_spawn`: a task with its program and arguments, or nothing taken. It fails for lack
      of memory only if the file is too large for any buffer, or the kernel heap has no run of free blocks with
      room for the task. */
  method Spawn(m: Machine, t: nat, file: seq<byte>, readable: bool, args: seq<seq<byte>>)
    returns (r: int, entry: nat, brk: nat, esp: nat)
    requires m.Valid() && t < |m.tasks| && m.tasks[t] == TaskMem(NoSpace, 0) && |file| < 0x1_0000_0000
    requires forall i :: 0 <= i < |args| ==> |args[i]| < 0x8000_0000
    modifies m`mem, m`tasks, m.heap`live, m.heap.entries
    ensures m.Valid()
    ensures r == 0 ==>
              && Extends(old(m.Held()), old(m.tasks), old(m.mem), m.Held(), m.tasks, m.mem, t)
              && |m.tasks| == |old(m.tasks)|
              && Started(m.mem, m.tasks[t].space, file, args, esp, brk) && m.tasks[t].stack != 0
              && entry == EntryPoint(file)
              && ArgsFit(args)
    ensures r != 0 ==>
              && m.tasks == old(m.tasks) && (forall p: nat :: m.Held()(p) == old(m.Held())(p))
              && AllKept(old(m.Held()), old(m.mem), m.mem)
    ensures r != 0 ==>
              (r == INVALID_ARG && !(ElfOk(file) && ArgsFit(args))) || (r == IO_ERROR && !readable) || r == NO_MEMORY
    ensures r == NO_MEMORY ==> |file| > 0xFFFFF000 || NoFreeRun(old(m.heap.entries[..]), SpawnRoom(file))
  {
    hide Machine.Valid, KHeap.Valid, Extends, HeldIn, Tabled, ProgramLoaded, ElfOk, EntryPoint, Count, ImageEnd, OwnsOk;
    hide AllKept, TasksTabled;
    hide Started, ArgsFit, Took, LoadCost, SpawnRoom, NoFreeRun, TableOk;
    ghost var h0, a, m0, l0, e0 := m.Held(), m.tasks, m.mem, m.heap.live, m.heap.entries[..];
    Tables(m, t);
    m.HeapTable();
    r, entry, brk, esp := LoadWithArgs(m, t, file, readable, args);
    if r == 0 {
      ghost var h1, b, m1, l1 := m.Held(), m.tasks, m.mem, m.heap.live;
      Tables(m, t);
      r := m.KernelStack(t);
      Tables(m, t);
      m.HeapTable();
      if r != 0 { NoStack(file, e0, l0, m.heap.entries[..], l1, m.heap.live); }
      ExtendsTwice(h0, a, m0, h1, b, m1, m.Held(), m.tasks, m.mem, t);
      if r == 0 { StackBeside(h1, b, m1, m.Held(), m.tasks, m.mem, t, file, args, esp, brk); }
    }
    if r < 0 {
      ghost var h2, c, m2 := m.Held(), m.tasks, m.mem;
      Tables(m, t);
      m.FreeTask(t);
      AllGivenBack(h0, a, m0, h2, c, m2, m.Held(), t);
    }
  }

  lemma NoStack(file: seq<byte>, e0: seq<bv8>, l0: Runs, e1: seq<bv8>, l1: Runs, l2: Runs)
    requires |file| < 0x1_0000_0000 && TableOk(e0, l0) && TableOk(e1, l2) && |e0| == |e1|
    requires Took(l0, l1, LoadCost(file) + ARGS_COST) && Took(l1, l2, 4) && NoFreeRun(e1, 4)
    ensures NoFreeRun(e0, SpawnRoom(file))
  {
    hide TableOk, Took, LoadCost, NoFreeRun, SpawnRoom;
    TookMore(l0, l1, l2, LoadCost(file) + ARGS_COST, 4);
    RoomWasShort(file, e0, l0, e1, l2, LoadCost(file) + ARGS_COST + 4, 4);
  }

  lemma LoadedStack(mem: Memory, sp: Space, file: seq<byte>)
    requires ProgramLoaded(mem, sp, file, USER_STACK_TOP)
    ensures StackMapped(sp) && sp.Space?
  {
    hide ElfOk, InImage, WritableInImage, Count, UserByte;
    StackPage(STACK);
  }

  lemma ArgsPushed(m0: Memory, a: Space, m1: Memory, b: Space, file: seq<byte>, args: seq<seq<byte>>, esp: nat,
                   brk: nat)
    requires ProgramLoaded(m0, a, file, USER_STACK_TOP) && SamePages(a, b) && SeesBelow(m0, a, m1, b, esp)
    requires STACK <= esp <= USER_STACK_TOP && Tabled(b) && ArgsAt(Seen(m1, b), esp, args)
    requires ImageEnd(file, Count(file)) <= brk < ImageEnd(file, Count(file)) + PAGE_SIZE && brk % PAGE_SIZE == 0
    ensures Started(m1, b, file, args, esp, brk)
  {
    hide ElfOk, InImage, WritableInImage, Count, UserByte, Mapped, CanWrite, Image, ImageEnd, ArgsAt, InStack;
    hide HeapPages, Tabled;
    HeapStarts(m1, b, file, esp, brk);
  }

  /** A kernel stack changes nothing the program sees. */
  lemma StackBeside(h0: nat -> nat, a: seq<TaskMem>, m0: Memory, h1: nat -> nat, now: seq<TaskMem>, after: Memory,
                    t: nat,
                    file: seq<byte>, args: seq<seq<byte>>, esp: nat, brk: nat)
    requires OwnsOk(h0, a) && t < |a| == |now| && AllKept(h0, m0, after) && now[t].space == a[t].space
    requires Started(m0, a[t].space, file, args, esp, brk)
    ensures Started(after, now[t].space, file, args, esp, brk)
  {
    hide OwnsOk, AllKept, Tabled, Image, InImage, WritableInImage, ElfOk, Count, Entry, Present, ArgsAt, Mapped;
    hide CanWrite;
    OwnsTabled(h0, a, t);
    SameViewKept(h0, a, t, m0, after, now[t].space);
    SameArgs(Seen(m0, a[t].space), Seen(after, now[t].space), esp, args);
  }

  lemma SameArgs(view: Memory, after: Memory, esp: nat, args: seq<seq<byte>>)
    requires ArgsAt(view, esp, args) && forall x: nat :: after(x) == view(x)
    ensures ArgsAt(after, esp, args)
  {
    hide Word;
    forall a: nat ensures Word(after, a) == Word(view, a) { WordSame(view, after, a); }
    var argv := Word(view, esp + 4);
    forall i | 0 <= i < |args| ensures StringAt(after, esp, Word(after, argv + 4 * i), args[i]) {
      SameString(view, after, esp, Word(view, argv + 4 * i), args[i]);
    }
    hide StringAt;
  }

  lemma SameString(view: Memory, after: Memory, esp: nat, p: nat, s: seq<byte>)
    requires forall x: nat :: after(x) == view(x)
    ensures StringAt(view, esp, p, s) ==> StringAt(after, esp, p, s)
  {}

  /** A task that owned nothing has all it got taken back. */
  lemma AllGivenBack(h0: nat -> nat, a: seq<TaskMem>, m0: Memory, h1: nat -> nat, b: seq<TaskMem>, m1: Memory,
                     h2: nat -> nat, t: nat)
    requires t < |a| && a[t] == TaskMem(NoSpace, 0) && Extends(h0, a, m0, h1, b, m1, t) && OwnsOk(h0, a)
    requires OwnsOk(h1, b)
    requires forall p: nat :: h2(p) == if OwnedBy(b, t, p) then 0 else h1(p)
    ensures |b| == |a| && b[t := TaskMem(NoSpace, 0)] == a && AllKept(h0, m0, m1)
    ensures forall p: nat :: h2(p) == h0(p)
  {
    hide TasksTabled, At;
    forall s, p: nat ensures !Owns(a, t, s, p) { NothingOwned(a, t, s, p); }
    forall p: nat ensures h2(p) == h0(p) {
      if s :| Owns(b, t, s, p) { assert h0(p) == 0; }
    }
    forall p: nat | h0(p) > 0 ensures !IsPage(b, t, p) {}
  }
}
