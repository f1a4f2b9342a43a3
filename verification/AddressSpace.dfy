// User address spaces in the blocks of the kernel heap: mapping, copying in, and freeing.
module AddressSpace {
  import opened Bytes
  import opened ByteMemory
  import opened KernelHeap
  import opened PageTables
  import opened UserLayout

  const SIZEOF_PAGE_DIR := 72
  const TASK_KERNEL_STACK_SIZE := 0x4000

  lemma HeapApart(addr: nat, total: nat, live: Runs)
    requires 0 < addr && addr % BLOCK_SIZE == 0 && RunsOk(total, live)
    ensures BlocksApart(HeldFn(addr, live))
  {
    forall p: nat, q: nat | HeldIn(addr, live, p) > 0 && HeldIn(addr, live, q) > 0 && p < q
      ensures p + PAGE_SIZE * HeldIn(addr, live, p) <= q
    {
      HeldApart(addr, total, live, p, q);
    }
    forall p: nat | HeldIn(addr, live, p) > 0 ensures p > 0 && p % PAGE_SIZE == 0 {
      HeldAligned(addr, live, p);
    }
  }

  lemma HeldAligned(addr: nat, live: Runs, p: nat)
    requires addr % BLOCK_SIZE == 0 && HeldIn(addr, live, p) > 0
    ensures p >= addr && p % BLOCK_SIZE == 0
  {
    assert p == addr + BLOCK_SIZE * ((p - addr) / BLOCK_SIZE);
    assert addr == BLOCK_SIZE * (addr / BLOCK_SIZE);
    assert p == BLOCK_SIZE * (addr / BLOCK_SIZE + (p - addr) / BLOCK_SIZE);
  }

  class Machine {
    const heap: KHeap
    const kernelWords: seq<nat>
    var mem: Memory
    var tasks: seq<TaskMem>

    ghost function Held(): nat -> nat
      reads heap
    {
      HeldFn(heap.addr, heap.live)
    }

    ghost predicate Valid()
      reads this, heap, heap.entries
    {
      && heap.Valid() && |kernelWords| == TABLE_ENTRIES && BlocksApart(Held()) && OwnsOk(Held(), tasks)
      && ShapesOk(tasks, kernelWords)
    }

    /** No block is left. */
    ghost predicate Full()
      reads this, heap, heap.entries
    {
      NoFreeRun(heap.entries[..], 1)
    }

    constructor (heap: KHeap, kernelWords: seq<nat>, mem: Memory, slots: nat)
      requires heap.Valid() && |kernelWords| == TABLE_ENTRIES
      ensures Valid() && this.heap == heap && |tasks| == slots
      ensures forall t :: 0 <= t < slots ==> tasks[t] == TaskMem(NoSpace, 0)
    {
      hide TableOk;
      this.heap, this.kernelWords, this.mem := heap, kernelWords, mem;
      tasks := seq(slots, (i: nat) => TaskMem(NoSpace, 0));
      new;
      HeapFacts();
    }

    lemma HeapFacts()
      requires heap.Valid()
      ensures BlocksApart(Held())
    {
      hide TableOk;
      TableRuns(heap.entries[..], heap.live);
      HeapApart(heap.addr, heap.entries.Length, heap.live);
    }

    /** `kmalloc`: a run of blocks that was not handed out. */
    method Kmalloc(size: Uint32) returns (p: nat)
      requires Valid()
      modifies heap`live, heap.entries
      ensures Valid() && (p == 0 ==> Held() == old(Held()))
      ensures p == 0 ==> BlocksFor(size) == 0 || NoFreeRun(heap.entries[..], BlocksFor(size))
      ensures p == 0 && 0 < size <= PAGE_SIZE ==> Full()
      ensures Took(old(heap.live), heap.live, BlocksFor(size))
      ensures p != 0 ==>
                && old(Held())(p) == 0 && Held()(p) == BlocksFor(size) > 0
                && (forall q: nat :: q != p ==> Held()(q) == old(Held())(q))
                && p % PAGE_SIZE == 0
      ensures forall q: nat :: old(Held())(q) > 0 ==> Held()(q) == old(Held())(q)
    {
      hide TableOk, OwnsOk, WithRun, FreeRun, NoFreeRun, HeldIn, ShapesOk, BlocksFor, BlocksApart, Took;
      ghost var held := Held();
      p := heap.Malloc(size);
      if p == 0 {
        if 0 < size <= PAGE_SIZE { OneBlock(size); }
        return;
      }
      HeapFacts();
      OwnsMore(held, Held(), tasks);
      HeldAligned(heap.addr, heap.live, p);
    }

    /** `kcalloc`: a run of blocks full of zeros. */
    method Kcalloc(size: Uint32) returns (p: nat)
      requires Valid() && 0 < size <= 0xFFFFF000
      modifies this`mem, heap`live, heap.entries
      ensures Valid() && AllKept(old(Held()), old(mem), mem) && (p == 0 ==> mem == old(mem) && Held() == old(Held()))
      ensures p == 0 && size <= PAGE_SIZE ==> Full()
      ensures p == 0 ==> BlocksFor(size) == 0 || NoFreeRun(heap.entries[..], BlocksFor(size))
      ensures Took(old(heap.live), heap.live, BlocksFor(size))
      ensures p != 0 ==>
                && old(Held())(p) == 0 && Held()(p) == BlocksFor(size) > 0
                && (forall q: nat :: q != p ==> Held()(q) == old(Held())(q))
                && p % PAGE_SIZE == 0 && forall x: nat :: p <= x < p + size ==> mem(x) == 0
      ensures forall q: nat :: old(Held())(q) > 0 ==> Held()(q) == old(Held())(q)
    {
      hide KHeap.Valid, TableOk, OwnsOk, NoFreeRun, HeldIn, ShapesOk, AllKept, BlocksFor, BlocksApart, Only, Took;
      ghost var held, was := Held(), mem;
      p := Kmalloc(size);
      if p == 0 {
        FreshNone(held, was);
        return;
      }
      BlocksHold(size);
      mem := Zeroed(mem, p, size);
      ZeroedInside(was, p, size, PAGE_SIZE * BlocksFor(size));
      FreshKeeps(held, Held(), p, was, mem);
    }

    /** `kfree` of a block that is handed out. */
    method Kfree(p: nat)
      requires heap.Valid() && (p == 0 || Held()(p) > 0)
      modifies heap`live, heap.entries
      ensures heap.Valid() && forall q: nat :: Held()(q) == if q == p && p != 0 then 0 else old(Held())(q)
      ensures p != 0 ==>
                && p >= heap.addr && (p - heap.addr) / BLOCK_SIZE in old(heap.live)
                && heap.live == old(heap.live) - {(p - heap.addr) / BLOCK_SIZE}
    {
      hide TableOk, HeldIn, Cleared;
      if p != 0 {
        var r := heap.Free(p);
      }
    }

    /** `page_dir_user_entry`: where the entry of a page is, with a new table for it if need be. */
    method UserEntry(t: nat, vaddr: nat, create: bool) returns (found: bool, idx: nat, j: nat)
      requires Valid() && t < |tasks| && tasks[t].space.Space?
      modifies this`mem, this`tasks, heap`live, heap.entries
      ensures Valid() && Extends(old(Held()), old(tasks), old(mem), Held(), tasks, mem, t)
      ensures |tasks| == |old(tasks)| && SameView(old(mem), old(tasks)[t].space, mem, tasks[t].space)
      ensures tasks[t].space.Space?
      ensures tasks[t].stack == old(tasks)[t].stack
      ensures found ==>
                InRange(vaddr) && idx == PageNumber(vaddr) / TABLE_ENTRIES && j == PageNumber(vaddr) % TABLE_ENTRIES
      ensures found ==> EntryPlace(tasks[t].space, idx, j)
      ensures !found && InRange(vaddr) ==> (create ==> Full()) && !Mapped(tasks[t].space, PageNumber(vaddr))
      ensures !create ==> tasks == old(tasks) && mem == old(mem) && Held() == old(Held())
      ensures Took(old(heap.live), heap.live, 1)
    {
      hide Took, BlocksFor, TotalBlocks;
      hide OwnsOk, Tabled, Entry, HeldIn, BlocksApart, UserByte, Untouched, AllKept, Full, Grew;
      ghost var held, was, before := Held(), mem, tasks;
      TookNone(heap.live, 1);
      OneBlock(PAGE_SIZE);
      GrewStart(held, before, t, was);
      found, idx, j := false, 0, 0;
      if vaddr < USER_CODE_ADDR || vaddr - USER_CODE_ADDR >= USER_TABLES * (TABLE_ENTRIES * PAGE_SIZE) {
        return;
      }
      WalkIndex(vaddr);
      idx := (vaddr - USER_CODE_ADDR) / (TABLE_ENTRIES * PAGE_SIZE);
      var sp := tasks[t].space;
      ShapeAt(tasks, kernelWords, t);
      if sp.tables[idx].at == 0 {
        NoTable(sp, PageNumber(vaddr));
        if !create {
          return;
        }
        var table := Kcalloc(PAGE_SIZE);
        if table == 0 {
          return;
        }
        TableHooked(sp, kernelWords, idx, table);
        tasks := tasks[t := tasks[t].(space := WithTable(sp, idx, table))];
        HookedTable(held, before, Held(), tasks, kernelWords, t, idx, table);
        ShapeAt(tasks, kernelWords, t);
        OwnsTabled(Held(), tasks, t);
        SameViewKept(held, before, t, was, mem, tasks[t].space);
        KeptIsUntouched(held, tasks, t, was, mem);
      }
      ShapeAt(tasks, kernelWords, t);
      TableThere(tasks[t].space, idx);
      found, j := true, vaddr / PAGE_SIZE % TABLE_ENTRIES;
    }

    /** `task_user_page`: the page that holds `vaddr`, a new one of zeros if there is none. */
    method UserPage(t: nat, vaddr: nat, writable: bool) returns (page: nat)
      requires Valid() && t < |tasks| && tasks[t].space.Space?
      modifies this`mem, this`tasks, heap`live, heap.entries
      ensures Valid() && Extends(old(Held()), old(tasks), old(mem), Held(), tasks, mem, t)
      ensures |tasks| == |old(tasks)| && tasks[t].space.Space? && tasks[t].stack == old(tasks)[t].stack
      ensures page == 0 ==> !InRange(vaddr) || Full()
      ensures Took(old(heap.live), heap.live, 2)
      ensures page == 0 ==> NoPage(old(mem), old(tasks)[t].space, mem, tasks[t].space, vaddr, writable)
      ensures page != 0 ==>
                && MappedAt(tasks[t].space, vaddr) && page == Frame(Entry(tasks[t].space, PageNumber(vaddr)))
                && MapsMore(old(tasks)[t].space, tasks[t].space, vaddr, 1, writable)
                && SeesCopy(old(mem), old(tasks)[t].space, mem, tasks[t].space, vaddr, [])
    {
      hide KHeap.Valid, OwnsOk, Tabled, HeldIn, BlocksApart, Extends, Full, UserByte, SeesCopy, MapsMore, SameView;
      hide MappedAt, NoPage, ShapesOk, AllKept, CanWriteEntry, EntryOk, TableOk, Took, BlocksFor;
      ghost var h0, a, m0, l0 := Held(), tasks, mem, heap.live;
      var found, idx, j := UserEntry(t, vaddr, true);
      ghost var l1 := heap.live;
      TookNone(l1, 1);
      TookMore(l0, l1, l1, 1, 1);
      if !found {
        NoPageIf(m0, a[t].space, mem, tasks[t].space, vaddr, writable);
        return 0;
      }
      ghost var h1, b, m1, pn := Held(), tasks, mem, PageNumber(vaddr);
      SameIsNone(m0, a[t].space, m1, b[t].space, vaddr);
      var e := tasks[t].space.tables[idx].entries[j];
      EntryHere(h1, b, t, pn, idx, j);
      if !Present(e) {
        var frame := Kcalloc(PAGE_SIZE);
        OneBlock(PAGE_SIZE);
        TookMore(l0, l1, heap.live, 1, 1);
        if frame == 0 {
          NoPageIf(m0, a[t].space, mem, tasks[t].space, vaddr, writable);
          return 0;
        }
        e := frame + PRESENT_ALL;
        tasks := tasks[t := tasks[t].(space := WithEntry(tasks[t].space, idx, j, e))];
        PageHooked(h1, b, m1, Held(), tasks, mem, kernelWords, t, vaddr, frame);
        ExtendsTwice(h0, a, m0, h1, b, m1, Held(), tasks, mem, t);
        SeesNothing(m0, a[t].space, m1, b[t].space, mem, tasks[t].space, vaddr);
      } else {
        AlreadyMapped(h1, b, t, vaddr);
      }
      ghost var c, m2 := tasks, mem;
      EntryHere(Held(), c, t, pn, idx, j);
      if writable {
        e := OrWritable(e);
        tasks := tasks[t := tasks[t].(space := WithEntry(tasks[t].space, idx, j, e))];
        PageMadeWritable(Held(), c, tasks, mem, kernelWords, t, vaddr);
        ExtendsTwice(h0, a, m0, Held(), c, m2, Held(), tasks, mem, t);
        SeesNothing(m0, a[t].space, m2, c[t].space, mem, tasks[t].space, vaddr);
        EntryHere(Held(), tasks, t, pn, idx, j);
      }
      OnePage(a[t].space, b[t].space, c[t].space, tasks[t].space, vaddr, writable);
      page := Frame(e);
      FrameThere(Held(), tasks, t, vaddr);
    }

    /** The first `k` bytes are copied, and nothing else has happened since. */
    ghost predicate Copying(h0: nat -> nat, a: seq<TaskMem>, m0: Memory, l0: Runs, t: nat, vaddr: nat, src: seq<byte>,
                            given: bool, k: nat, writable: bool)
      reads this, heap, heap.entries
    {
      && t < |a| == |tasks| && Extends(h0, a, m0, Held(), tasks, mem, t)
      && tasks[t].space.Space? && tasks[t].stack == a[t].stack
      && MapsMore(a[t].space, tasks[t].space, vaddr, k, writable) && (given ==> k <= |src|)
      && SeesCopy(m0, a[t].space, mem, tasks[t].space, vaddr, if given then src[..k] else [])
      && Took(l0, heap.live, 2 * Rounds(vaddr, k))
    }

    /** One round of the copy: up to the end of a page, or nothing if there is no page. */
    method CopyChunk(t: nat, vaddr: nat, src: seq<byte>, given: bool, k: nat, len: nat, writable: bool,
                     ghost h0: nat -> nat, ghost a: seq<TaskMem>, ghost m0: Memory, ghost l0: Runs)
      returns (chunk: nat)
      requires Valid() && Copying(h0, a, m0, l0, t, vaddr, src, given, k, writable)
      requires k < len && |src| == (if given then len else 0) && (k == 0 || (vaddr + k) % PAGE_SIZE == 0)
      modifies this`mem, this`tasks, heap`live, heap.entries
      ensures Valid() && k + chunk <= len
      ensures chunk > 0 ==> Copying(h0, a, m0, l0, t, vaddr, src, given, k + chunk, writable)
      ensures chunk > 0 ==> k + chunk == len || (vaddr + k + chunk) % PAGE_SIZE == 0
      ensures chunk == 0 ==>
                && t < |a| == |tasks| && Extends(h0, a, m0, Held(), tasks, mem, t)
                && tasks[t].space.Space? && tasks[t].stack == a[t].stack && Took(l0, heap.live, CopyCost(len))
                && (Full() || !InRange(vaddr + k))
                && CopiedPart(m0, a[t].space, mem, tasks[t].space, vaddr, src, given, len, writable)
    {
      hide KHeap.Valid, OwnsOk, Tabled, HeldIn, BlocksApart, Extends, Full, UserByte, SeesCopy, MapsMore, MappedAt;
      hide NoPage, CopiedUpTo, ShapesOk, TableOk, Entry, Frame, Took, Rounds, InRange, CopyCost;
      var at := vaddr + k;
      ghost var h1, b, m1, l1 := Held(), tasks, mem, heap.live;
      var page := UserPage(t, at, writable);
      TookMore(l0, l1, heap.live, 2 * Rounds(vaddr, k), 2);
      if page == 0 {
        LastRound(vaddr, k, len);
        RoundCost(l0, heap.live, vaddr, k, len);
        ExtendsTwice(h0, a, m0, h1, b, m1, Held(), tasks, mem, t);
        CopyStopped(m0, a[t].space, m1, b[t].space, mem, tasks[t].space, vaddr, src, given, k, writable);
        return 0;
      }
      var offset := at % PAGE_SIZE;
      chunk := PAGE_SIZE - offset;
      if chunk > len - k {
        chunk := len - k;
      }
      ghost var c, m2 := tasks, mem;
      if given {
        mem := Loaded(mem, page + offset, src[k..k + chunk]);
      }
      CopyStep(h0, a, m0, h1, b, m1, Held(), c, m2, mem, t, vaddr, src, given, k, chunk, page, writable);
      NextRound(vaddr, k, chunk, len - k);
    }

    /** `task_copy_to_user`: `src`, or nothing if it is not given, is copied to `len` bytes at `vaddr`. */
    method CopyToUser(t: nat, vaddr: nat, src: seq<byte>, given: bool, len: nat, writable: bool) returns (r: int)
      requires Valid() && t < |tasks| && tasks[t].space.Space? && |src| == (if given then len else 0)
      modifies this`mem, this`tasks, heap`live, heap.entries
      ensures Valid() && Extends(old(Held()), old(tasks), old(mem), Held(), tasks, mem, t)
      ensures |tasks| == |old(tasks)| && tasks[t].space.Space? && tasks[t].stack == old(tasks)[t].stack
      ensures r == 0 ==>
                && MapsMore(old(tasks)[t].space, tasks[t].space, vaddr, len, writable)
                && SeesCopy(old(mem), old(tasks)[t].space, mem, tasks[t].space, vaddr, src)
      ensures r != 0 ==> r == NO_MEMORY && (Full() || !(USER_CODE_ADDR <= vaddr && vaddr + len <= USER_STACK_TOP))
      ensures r != 0 ==>
                CopiedPart(old(mem), old(tasks)[t].space, mem, tasks[t].space, vaddr, src, given, len, writable)
      ensures Took(old(heap.live), heap.live, CopyCost(len))
    {
      hide KHeap.Valid, OwnsOk, Tabled, HeldIn, BlocksApart, Extends, Full, UserByte, SeesCopy, MapsMore, MappedAt;
      hide NoPage, CopiedUpTo, ShapesOk, TableOk, Entry, Frame, Took, Rounds, CopiedPart;
      ghost var h0, a, m0, l0 := Held(), tasks, mem, heap.live;
      TookNone(l0, 0);
      NoRounds(vaddr, len);
      CopyStart(h0, a, m0, t, vaddr, writable);
      var k := 0;
      while k < len
        invariant Valid() && k <= len && Copying(h0, a, m0, l0, t, vaddr, src, given, k, writable)
        invariant k == 0 || k == len || (vaddr + k) % PAGE_SIZE == 0
      {
        var chunk := CopyChunk(t, vaddr, src, given, k, len, writable, h0, a, m0, l0);
        if chunk == 0 {
          return NO_MEMORY;
        }
        k := k + chunk;
      }
      assert given ==> src[..k] == src;
      RoundsBound(vaddr, len);
      TookUpTo(l0, heap.live, 2 * Rounds(vaddr, len), CopyCost(len));
      r := 0;
    }

    /** The blocks of a new directory, or those of them there are. */
    method TwoBlocks() returns (dir: nat, words: nat, ghost h1: nat -> nat)
      requires Valid()
      modifies this`mem, heap`live, heap.entries
      ensures Valid() && AllKept(old(Held()), old(mem), mem)
      ensures if dir == 0 then h1 == old(Held())
              else old(Held())(dir) == 0 && h1(dir) > 0 && forall q: nat :: q != dir ==> h1(q) == old(Held())(q)
      ensures if words == 0 then Held() == h1
              else h1(words) == 0 && Held()(words) > 0 && forall q: nat :: q != words ==> Held()(q) == h1(q)
      ensures Took(old(heap.live), heap.live, 2)
      ensures dir == 0 || words == 0 ==> NoFreeRun(old(heap.entries[..]), 3)
    {
      hide KHeap.Valid, OwnsOk, HeldIn, BlocksApart, ShapesOk, TableOk, Took, AllKept, BlocksFor, NoFreeRun;
      ghost var h0, m0, l0, e0 := Held(), mem, heap.live, heap.entries[..];
      HeapTable();
      OneBlock(SIZEOF_PAGE_DIR);
      OneBlock(4 * TABLE_ENTRIES);
      dir := Kcalloc(SIZEOF_PAGE_DIR);
      h1 := Held();
      ghost var m1, l1, e1 := mem, heap.live, heap.entries[..];
      HeapTable();
      words := Kcalloc(4 * TABLE_ENTRIES);
      HeapTable();
      KeptTwice(h0, m0, h1, m1, mem);
      TookMore(l0, l1, heap.live, 1, 1);
      if dir == 0 || words == 0 {
        if words != 0 { FullStays(e1, l1, heap.entries[..], heap.live, 1); }
        NoRoomBefore(e0, l0, heap.entries[..], heap.live, 2, 1);
        assert Stretch(2, 1) == 3;
      }
    }

    lemma HeapTable()
      requires heap.Valid()
      ensures TableOk(heap.entries[..], heap.live)
    {
      hide TableOk;
    }

    /** `page_dir_new_user`: a directory that shares the kernel's tables, with an empty user part. */
    method NewUser(t: nat) returns (ok: bool)
      requires Valid() && t < |tasks| && tasks[t].space == NoSpace
      modifies this`mem, this`tasks, heap`live, heap.entries
      ensures Valid() && Extends(old(Held()), old(tasks), old(mem), Held(), tasks, mem, t) && |tasks| == |old(tasks)|
      ensures ok ==>
                && tasks[t].space.Space? && Tabled(tasks[t].space)
                && (forall pn: nat :: !Mapped(tasks[t].space, pn) && !CanWrite(tasks[t].space, pn))
                && tasks[t].stack == old(tasks)[t].stack
      ensures !ok ==> tasks == old(tasks) && forall q: nat :: Held()(q) == old(Held())(q)
      ensures if ok then Took(old(heap.live), heap.live, 2) else NoFreeRun(old(heap.entries[..]), 3)
    {
      hide KHeap.Valid, OwnsOk, Tabled, HeldIn, BlocksApart, Extends, ShapesOk, TableOk, Mapped, CanWrite, Took;
      hide AllKept, BlocksFor, NoFreeRun;
      ghost var h0, a, m0 := Held(), tasks, mem;
      GrewStart(h0, a, t, m0);
      var dir, words;
      ghost var h1;
      dir, words, h1 := TwoBlocks();
      if dir == 0 || words == 0 {
        ghost var h2 := Held();
        Kfree(dir);
        Kfree(words);
        NothingTaken(h0, h1, h2, Held(), tasks, m0, mem, t, dir, words);
        HeapFacts();
        return false;
      }
      var user: seq<nat> := UserWords(kernelWords);
      tasks := tasks[t := tasks[t].(space := Space(dir, words, user, NoTables()))];
      NewDirectory(h0, a, m0, h1, Held(), tasks, mem, kernelWords, t, dir, words, user);
      ok := true;
    }

    /** `task_alloc_kernel_stack`. */
    method KernelStack(t: nat) returns (r: int)
      requires Valid() && t < |tasks| && tasks[t].stack == 0
      modifies this`mem, this`tasks, heap`live, heap.entries
      ensures Valid() && Extends(old(Held()), old(tasks), old(mem), Held(), tasks, mem, t)
      ensures AllKept(old(Held()), old(mem), mem)
      ensures r == 0 ==>
                && |tasks| == |old(tasks)| && tasks[t].stack != 0
                && tasks == old(tasks)[t := old(tasks)[t].(stack := tasks[t].stack)]
      ensures r != 0 ==> r == NO_MEMORY && tasks == old(tasks) && NoFreeRun(heap.entries[..], 4)
      ensures Took(old(heap.live), heap.live, 4)
    {
      hide Took, NoFreeRun;
      hide KHeap.Valid, OwnsOk, Tabled, HeldIn, BlocksApart, Extends, Full, ShapesOk, AllKept, BlocksFor;
      ghost var h0, a, m0 := Held(), tasks, mem;
      StackBlocks();
      var stack := Kcalloc(TASK_KERNEL_STACK_SIZE);
      if stack == 0 {
        SameHeldExtends(h0, Held(), tasks, m0, mem, t);
        return NO_MEMORY;
      }
      tasks := tasks[t := tasks[t].(stack := stack)];
      StackFilled(h0, a, m0, Held(), tasks, mem, kernelWords, t, stack);
      r := 0;
    }

    /** `task_free_user_pages`: every page of the task is given back. */
    method FreePages(t: nat, ghost held: nat -> nat)
      requires heap.Valid() && OwnsOk(held, tasks) && t < |tasks| && tasks[t].space.Space?
      requires Left(held, tasks, t, 0, Held())
      modifies heap`live, heap.entries
      ensures heap.Valid() && Left(held, tasks, t, USER_PAGES, Held())
    {
      hide KHeap.Valid, OwnsOk, Tabled, HeldIn, Left, Owns, Entry, Frame, TableShape;
      OwnsTabled(held, tasks, t);
      for i := 0 to USER_TABLES
        invariant heap.Valid() && Left(held, tasks, t, TABLE_ENTRIES * i, Held())
      {
        var table := TableOf(tasks[t].space, i);
        if table.at == 0 {
          LeftSkip(held, tasks, t, i, Held());
        } else {
          for j := 0 to TABLE_ENTRIES
            invariant heap.Valid() && Left(held, tasks, t, TABLE_ENTRIES * i + j, Held())
          {
            ghost var s, now := PageSlot(TABLE_ENTRIES * i + j), Held();
            PageOfTable(tasks[t], i, j);
            LeftHeld(held, tasks, t, s, now);
            if Present(table.entries[j]) {
              Kfree(Frame(table.entries[j]));
            }
            LeftStep(held, tasks, t, s, now, Held());
          }
        }
      }
    }

    /** `page_dir_free_user`: the page tables, the words and the directory are given back. */
    method FreeDirectory(t: nat, ghost held: nat -> nat)
      requires heap.Valid() && OwnsOk(held, tasks) && t < |tasks| && tasks[t].space.Space?
      requires Left(held, tasks, t, USER_PAGES, Held())
      modifies heap`live, heap.entries
      ensures heap.Valid() && Left(held, tasks, t, Rank(StackSlot), Held())
    {
      hide KHeap.Valid, OwnsOk, Tabled, HeldIn, Left, Owns, Entry, Frame, TableShape;
      OwnsTabled(held, tasks, t);
      for i := 0 to USER_TABLES
        invariant heap.Valid() && Left(held, tasks, t, USER_PAGES + i, Held())
      {
        ghost var now := Held();
        LeftHeld(held, tasks, t, TableSlot(i), now);
        Kfree(TableOf(tasks[t].space, i).at);
        LeftStep(held, tasks, t, TableSlot(i), now, Held());
      }
      ghost var now := Held();
      LeftHeld(held, tasks, t, WordsSlot, now);
      Kfree(tasks[t].space.dirEntry);
      LeftStep(held, tasks, t, WordsSlot, now, Held());
      now := Held();
      LeftHeld(held, tasks, t, DirSlot, now);
      Kfree(tasks[t].space.dir);
      LeftStep(held, tasks, t, DirSlot, now, Held());
    }

    /** `task_free`: exactly the blocks the task owns are given back, each of them once. */
    method FreeTask(t: nat)
      requires Valid() && t < |tasks|
      modifies this`tasks, heap`live, heap.entries
      ensures Valid() && tasks == old(tasks)[t := TaskMem(NoSpace, 0)]
      ensures forall p: nat :: Held()(p) == if OwnedBy(old(tasks), t, p) then 0 else old(Held())(p)
    {
      hide KHeap.Valid, OwnsOk, HeldIn, Left, Owns, ShapesOk, BlocksApart, Tabled;
      ghost var held, was := Held(), tasks;
      OwnsTabled(held, was, t);
      LeftNone(held, tasks, t);
      if tasks[t].space.Space? {
        FreePages(t, held);
        FreeDirectory(t, held);
      } else {
        LeftNoSpace(held, tasks, t);
      }
      ghost var now := Held();
      LeftHeld(held, tasks, t, StackSlot, now);
      Kfree(tasks[t].stack);
      LeftStep(held, tasks, t, StackSlot, now, Held());
      tasks := tasks[t := TaskMem(NoSpace, 0)];
      Freed(held, was, kernelWords, t, Held(), tasks);
      HeapFacts();
    }
  }

  lemma TookNone(live: Runs, k: nat)
    ensures Took(live, live, k)
  {}

  lemma TookUpTo(l0: Runs, l1: Runs, j: nat, k: nat)
    requires Took(l0, l1, j) && j <= k
    ensures Took(l0, l1, k)
  {
    hide TotalBlocks;
  }

  /** Blocks that copying to `len` bytes takes at most: a page and a page table for each page touched. */
  function CopyCost(len: nat): nat { 2 * (len / PAGE_SIZE + 2) }

  /** Pages the first `k` bytes from `vaddr` on touch. */
  function Rounds(vaddr: nat, k: nat): nat {
    if k == 0 then 0 else (vaddr + k - 1) / PAGE_SIZE - vaddr / PAGE_SIZE + 1
  }

  lemma NoRounds(vaddr: nat, len: nat)
    ensures Rounds(vaddr, 0) == 0
  {}

  lemma NextRound(vaddr: nat, k: nat, chunk: nat, left: nat)
    requires k == 0 || (vaddr + k) % PAGE_SIZE == 0
    requires var room := PAGE_SIZE - (vaddr + k) % PAGE_SIZE; chunk == (if room > left then left else room) > 0
    ensures Rounds(vaddr, k + chunk) == Rounds(vaddr, k) + 1
    ensures chunk == left || (vaddr + k + chunk) % PAGE_SIZE == 0
  {
    var at := vaddr + k;
    assert (at + chunk - 1) / PAGE_SIZE == at / PAGE_SIZE;
    if k > 0 { assert (at - 1) / PAGE_SIZE + 1 == at / PAGE_SIZE; }
  }

  lemma RoundsBound(vaddr: nat, len: nat)
    ensures Rounds(vaddr, len) <= len / PAGE_SIZE + 2
  {}

  lemma RoundCost(l0: Runs, l1: Runs, vaddr: nat, k: nat, len: nat)
    requires Took(l0, l1, 2 * Rounds(vaddr, k) + 2) && Rounds(vaddr, k) + 1 <= len / PAGE_SIZE + 2
    ensures Took(l0, l1, CopyCost(len))
  {
    hide Took, Rounds;
    TookUpTo(l0, l1, 2 * Rounds(vaddr, k) + 2, CopyCost(len));
  }

  /** There is at least one more page when not all bytes are copied. */
  lemma LastRound(vaddr: nat, k: nat, len: nat)
    requires k < len && (k == 0 || (vaddr + k) % PAGE_SIZE == 0)
    ensures Rounds(vaddr, k) + 1 <= len / PAGE_SIZE + 2
  {}

  ghost predicate ShapesOk(tasks: seq<TaskMem>, kernel: seq<nat>) {
    forall t :: 0 <= t < |tasks| ==> ShapeOk(tasks[t].space, kernel)
  }

  lemma ShapeAt(tasks: seq<TaskMem>, kernel: seq<nat>, t: nat)
    requires ShapesOk(tasks, kernel) && t < |tasks|
    ensures ShapeOk(tasks[t].space, kernel) && Tabled(tasks[t].space)
  {}

  lemma FreshNone(held: nat -> nat, mem: Memory)
    ensures AllKept(held, mem, mem)
  {}

  lemma StackBlocks()
    ensures BlocksFor(TASK_KERNEL_STACK_SIZE) == 4
  {}

  lemma OneBlock(size: Uint32)
    requires 0 < size <= PAGE_SIZE
    ensures BlocksFor(size) == 1
  {}

  lemma ZeroedInside(mem: Memory, p: nat, n: nat, room: nat)
    requires n <= room
    ensures Only(mem, Zeroed(mem, p, n), p, p + room)
  {}

  lemma GrewStart(held: nat -> nat, tasks: seq<TaskMem>, t: nat, mem: Memory)
    requires OwnsOk(held, tasks) && t < |tasks|
    ensures Extends(held, tasks, mem, held, tasks, mem, t) && SameView(mem, tasks[t].space, mem, tasks[t].space)
  {
    ExtendsNot(held, tasks, mem, t);
  }

  /** The word of entry `j` of table `idx` can be read and stored. */
  ghost predicate EntryPlace(sp: Space, idx: nat, j: nat) {
    && sp.Space? && idx < |sp.tables| == USER_TABLES && sp.tables[idx].at != 0
    && j < |sp.tables[idx].entries| == TABLE_ENTRIES
  }

  lemma TableThere(sp: Space, idx: nat)
    requires Tabled(sp) && sp.Space? && idx < USER_TABLES
    ensures |sp.tables| == USER_TABLES && (sp.tables[idx].at != 0 ==> |sp.tables[idx].entries| == TABLE_ENTRIES)
  {
    assert TableShape(sp.tables[idx]);
  }

  lemma NoTable(sp: Space, pn: nat)
    requires Tabled(sp) && sp.Space? && pn < USER_PAGES && sp.tables[pn / TABLE_ENTRIES].at == 0
    ensures !Mapped(sp, pn)
  {}

  lemma HookedTable(held: nat -> nat, tasks: seq<TaskMem>, more: nat -> nat, now: seq<TaskMem>, kernel: seq<nat>,
                    t: nat, idx: nat, table: nat)
    requires OwnsOk(held, tasks) && ShapesOk(tasks, kernel) && t < |tasks| && tasks[t].space.Space? && idx < USER_TABLES
    requires tasks[t].space.tables[idx].at == 0 && table > 0
    requires ShapeOk(WithTable(tasks[t].space, idx, table), kernel)
    requires now == tasks[t := tasks[t].(space := WithTable(tasks[t].space, idx, table))]
    requires forall pn: nat :: Entry(now[t].space, pn) == Entry(tasks[t].space, pn)
    requires held(table) == 0 && more(table) > 0 && forall q: nat :: q != table ==> more(q) == held(q)
    ensures OwnsOk(more, now) && Grew(held, tasks, more, now, t) && ShapesOk(now, kernel)
  {
    hide OwnsOk, Entry, WordsOk, TableShape;
    OwnsTabled(held, tasks, t);
    NowTabled(tasks, now, t);
    forall r | r != TableSlot(idx) ensures At(now[t], r) == At(tasks[t], r) {
      if r.TableSlot? && r.i < USER_TABLES { assert now[t].space.tables[r.i] == tasks[t].space.tables[r.i]; }
    }
    SlotFilled(held, tasks, more, now, t, TableSlot(idx), table);
  }

  lemma NowTabled(tasks: seq<TaskMem>, now: seq<TaskMem>, t: nat)
    requires TasksTabled(tasks) && t < |tasks| == |now| && Tabled(now[t].space)
    requires forall u: nat :: u < |tasks| && u != t ==> now[u] == tasks[u]
    ensures TasksTabled(now)
  {
    hide Tabled;
  }

  lemma EntryHere(held: nat -> nat, tasks: seq<TaskMem>, t: nat, pn: nat, idx: nat, j: nat)
    requires OwnsOk(held, tasks) && t < |tasks| && pn < USER_PAGES && idx == pn / TABLE_ENTRIES
    requires j == pn % TABLE_ENTRIES
    requires EntryPlace(tasks[t].space, idx, j)
    ensures Tabled(tasks[t].space) && tasks[t].space.tables[idx].entries[j] == Entry(tasks[t].space, pn)
  {
    hide TableShape;
  }

  lemma AlreadyMapped(held: nat -> nat, tasks: seq<TaskMem>, t: nat, vaddr: nat)
    requires OwnsOk(held, tasks) && t < |tasks| && InRange(vaddr)
    ensures Tabled(tasks[t].space)
    ensures (Present(Entry(tasks[t].space, PageNumber(vaddr))) ==> MappedAt(tasks[t].space, vaddr))
  {
    hide Entry;
    OwnsTabled(held, tasks, t);
  }

  lemma FrameThere(held: nat -> nat, tasks: seq<TaskMem>, t: nat, vaddr: nat)
    requires OwnsOk(held, tasks) && t < |tasks| && MappedAt(tasks[t].space, vaddr)
    ensures Frame(Entry(tasks[t].space, PageNumber(vaddr))) > 0
  {
    hide Entry, Frame;
    PageAt(tasks[t], PageNumber(vaddr));
  }

  ghost predicate StoredAt(sp: Space, pn: nat, e: nat, now: Space) {
    && pn < USER_PAGES && EntryPlace(sp, pn / TABLE_ENTRIES, pn % TABLE_ENTRIES)
    && now == WithEntry(sp, pn / TABLE_ENTRIES, pn % TABLE_ENTRIES, e)
  }

  /** Storing an entry changes no block but that of the page. */
  lemma StoredSlots(task: TaskMem, now: TaskMem, kernel: seq<nat>, pn: nat, e: nat)
    requires ShapeOk(task.space, kernel) && StoredAt(task.space, pn, e, now.space) && EntryOk(e)
    requires now.stack == task.stack
    ensures ShapeOk(now.space, kernel) && now.space.Space?
    ensures forall q: nat :: Entry(now.space, q) == if q == pn then e else Entry(task.space, q)
    ensures forall r :: r != PageSlot(pn) ==> At(now, r) == At(task, r)
    ensures At(now, PageSlot(pn)) == if Present(e) then Frame(e) else 0
  {
    hide Frame, Present, EntryOk;
    EntryStored(task.space, kernel, pn, e);
    forall r | r != PageSlot(pn) ensures At(now, r) == At(task, r) {
      if r.TableSlot? && r.i < USER_TABLES { assert now.space.tables[r.i].at == task.space.tables[r.i].at; }
    }
  }

  lemma ShapesNow(tasks: seq<TaskMem>, now: seq<TaskMem>, kernel: seq<nat>, t: nat)
    requires ShapesOk(tasks, kernel) && t < |tasks| == |now| && ShapeOk(now[t].space, kernel)
    requires forall u: nat :: u < |tasks| && u != t ==> now[u] == tasks[u]
    ensures ShapesOk(now, kernel) && TasksTabled(now)
  {
    hide ShapeOk, Tabled;
    forall u | 0 <= u < |now| ensures ShapeOk(now[u].space, kernel) && Tabled(now[u].space) {
      TabledShape(now[u].space, kernel);
    }
  }

  lemma TabledShape(sp: Space, kernel: seq<nat>)
    ensures ShapeOk(sp, kernel) ==> Tabled(sp)
  {}

  lemma PageHooked(held: nat -> nat, tasks: seq<TaskMem>, mem: Memory, more: nat -> nat, now: seq<TaskMem>,
                   after: Memory, kernel: seq<nat>,
                   t: nat, vaddr: nat, page: nat)
    requires OwnsOk(held, tasks) && ShapesOk(tasks, kernel) && t < |tasks| && InRange(vaddr)
    requires AllKept(held, mem, after)
    requires |now| == |tasks| && StoredAt(tasks[t].space, PageNumber(vaddr), page + PRESENT_ALL, now[t].space)
    requires !Mapped(tasks[t].space, PageNumber(vaddr))
    requires now == tasks[t := tasks[t].(space := now[t].space)] && page > 0 && page % PAGE_SIZE == 0
    requires held(page) == 0 && more(page) > 0 && forall q: nat :: q != page ==> more(q) == held(q)
    requires forall x: nat :: page <= x < page + PAGE_SIZE ==> after(x) == 0
    ensures OwnsOk(more, now) && ShapesOk(now, kernel) && Extends(held, tasks, mem, more, now, after, t)
    ensures MapsMore(tasks[t].space, now[t].space, vaddr, 1, false)
    ensures SeesCopy(mem, tasks[t].space, after, now[t].space, vaddr, [])
    ensures EntryPlace(now[t].space, PageNumber(vaddr) / TABLE_ENTRIES, PageNumber(vaddr) % TABLE_ENTRIES)
    ensures MappedAt(now[t].space, vaddr)
  {
    hide OwnsOk, ShapesOk, Entry, Tabled, EntryOk, Frame, Present, AllKept, MapsMore, SeesCopy, Grew, ShapeOk;
    var pn := PageNumber(vaddr);
    OwnsTabled(held, tasks, t);
    ShapeAt(tasks, kernel, t);
    NewEntry(page);
    StoredSlots(tasks[t], now[t], kernel, pn, page + PRESENT_ALL);
    ShapesNow(tasks, now, kernel, t);
    ShapeAt(now, kernel, t);
    SlotFilled(held, tasks, more, now, t, PageSlot(pn), page);
    KeptIsUntouched(held, now, t, mem, after);
    PageAdded(held, tasks, t, mem, after, now[t].space, vaddr, page);
  }

  lemma PageMadeWritable(held: nat -> nat, tasks: seq<TaskMem>, now: seq<TaskMem>, mem: Memory, kernel: seq<nat>,
                         t: nat, vaddr: nat)
    requires OwnsOk(held, tasks) && ShapesOk(tasks, kernel) && t < |tasks| && MappedAt(tasks[t].space, vaddr)
    requires |now| == |tasks|
    requires StoredAt(tasks[t].space, PageNumber(vaddr), OrWritable(Entry(tasks[t].space, PageNumber(vaddr))),
                      now[t].space)
    requires now == tasks[t := tasks[t].(space := now[t].space)]
    ensures OwnsOk(held, now) && ShapesOk(now, kernel) && Extends(held, tasks, mem, held, now, mem, t)
    ensures MapsMore(tasks[t].space, now[t].space, vaddr, 1, true)
    ensures SeesCopy(mem, tasks[t].space, mem, now[t].space, vaddr, [])
    ensures EntryPlace(now[t].space, PageNumber(vaddr) / TABLE_ENTRIES, PageNumber(vaddr) % TABLE_ENTRIES)
    ensures MappedAt(now[t].space, vaddr)
  {
    hide OwnsOk, ShapesOk, Entry, Tabled, EntryOk, Frame, OrWritable, MapsMore, SeesCopy, Grew, ShapeOk, CanWriteEntry;
    var pn := PageNumber(vaddr);
    var e := Entry(tasks[t].space, pn);
    OwnsTabled(held, tasks, t);
    ShapeAt(tasks, kernel, t);
    EntryIsOk(tasks[t].space, pn);
    WritableEntry(e);
    PageAt(tasks[t], pn);
    StoredSlots(tasks[t], now[t], kernel, pn, OrWritable(e));
    ShapesNow(tasks, now, kernel, t);
    ShapeAt(now, kernel, t);
    SlotsSame(held, tasks, now, t);
    PageOpened(mem, tasks[t].space, now[t].space, vaddr);
  }

  lemma CopyStart(held: nat -> nat, tasks: seq<TaskMem>, mem: Memory, t: nat, vaddr: nat, w: bool)
    requires OwnsOk(held, tasks) && t < |tasks|
    ensures Extends(held, tasks, mem, held, tasks, mem, t) && MapsMore(tasks[t].space, tasks[t].space, vaddr, 0, w)
    ensures SeesCopy(mem, tasks[t].space, mem, tasks[t].space, vaddr, [])
  {
    hide Tabled, Entry;
    OwnsTabled(held, tasks, t);
    ExtendsNot(held, tasks, mem, t);
    MapsNone(tasks[t].space, vaddr, w);
  }

  lemma OneMapped(sp: Space, vaddr: nat)
    requires MappedAt(sp, vaddr)
    ensures InRange(vaddr) && Tabled(sp) && Mapped(sp, PageNumber(vaddr))
  {}

  /** One round of the loop. */
  lemma CopyStep(h0: nat -> nat, a: seq<TaskMem>, m0: Memory, h1: nat -> nat, b: seq<TaskMem>, m1: Memory,
                 h2: nat -> nat, c: seq<TaskMem>, m2: Memory, m3: Memory, t: nat, vaddr: nat, src: seq<byte>,
                 given: bool, k: nat, n: nat, page: nat, w: bool)
    requires t < |a| == |b| == |c| && OwnsOk(h2, c) && BlocksApart(h2) && n > 0 && (given ==> k + n <= |src|)
    requires Extends(h0, a, m0, h1, b, m1, t) && Extends(h1, b, m1, h2, c, m2, t)
    requires MappedAt(c[t].space, vaddr + k) && page == Frame(Entry(c[t].space, PageNumber(vaddr + k)))
    requires MapsMore(a[t].space, b[t].space, vaddr, k, w) && MapsMore(b[t].space, c[t].space, vaddr + k, 1, w)
    requires SeesCopy(m0, a[t].space, m1, b[t].space, vaddr, if given then src[..k] else [])
    requires SeesCopy(m1, b[t].space, m2, c[t].space, vaddr + k, []) && n <= PAGE_SIZE - (vaddr + k) % PAGE_SIZE
    requires m3 == if given then Loaded(m2, page + (vaddr + k) % PAGE_SIZE, src[k..k + n]) else m2
    ensures Extends(h0, a, m0, h2, c, m3, t) && MapsMore(a[t].space, c[t].space, vaddr, k + n, w)
    ensures SeesCopy(m0, a[t].space, m3, c[t].space, vaddr, if given then src[..k + n] else [])
  {
    hide OwnsOk, Tabled, BlocksApart, Extends, SeesCopy, MapsMore, MappedAt, Entry, Frame;
    ExtendsTwice(h0, a, m0, h1, b, m1, h2, c, m2, t);
    OneMapped(c[t].space, vaddr + k);
    WholeChunk(b[t].space, c[t].space, vaddr + k, n, w);
    MapsMoreBoth(a[t].space, b[t].space, c[t].space, vaddr, k, n, w);
    if given {
      ChunkWritten(h2, c, t, m2, vaddr + k, page, src[k..k + n]);
      WriteExtends(h2, c, m2, m3, t);
      ExtendsTwice(h0, a, m0, h2, c, m2, h2, c, m3, t);
      SeesChunk(m0, a[t].space, m1, b[t].space, m2, c[t].space, m3, vaddr, src, k, n);
    } else {
      SeesMore(m0, a[t].space, m1, b[t].space, m2, c[t].space, vaddr, vaddr + k);
    }
  }

  lemma WriteExtends(held: nat -> nat, tasks: seq<TaskMem>, mem: Memory, after: Memory, t: nat)
    requires OwnsOk(held, tasks) && t < |tasks| && Untouched(held, tasks, t, mem, after)
    ensures Extends(held, tasks, mem, held, tasks, after, t)
  {
    hide TasksTabled, Untouched;
    GrewSame(held, tasks, t);
  }

  lemma SeesChunk(m0: Memory, a: Space, m1: Memory, b: Space, m2: Memory, c: Space, m3: Memory, vaddr: nat,
                  src: seq<byte>, k: nat, n: nat)
    requires k + n <= |src| && SeesCopy(m0, a, m1, b, vaddr, src[..k]) && SeesCopy(m1, b, m2, c, vaddr + k, [])
    requires SeesCopy(m2, c, m3, c, vaddr + k, src[k..k + n])
    ensures SeesCopy(m0, a, m3, c, vaddr, src[..k + n])
  {
    hide SeesCopy;
    SeesBoth(m0, a, m1, b, m2, c, vaddr, src[..k], []);
    assert src[..k] + [] == src[..k] && src[..k] + src[k..k + n] == src[..k + n];
    SeesBoth(m0, a, m2, c, m3, c, vaddr, src[..k], src[k..k + n]);
  }

  lemma SeesMore(m0: Memory, a: Space, m1: Memory, b: Space, m2: Memory, c: Space, vaddr: nat, at: nat)
    requires SeesCopy(m0, a, m1, b, vaddr, []) && SeesCopy(m1, b, m2, c, at, [])
    ensures SeesCopy(m0, a, m2, c, vaddr, [])
  {
    hide UserByte, Tabled;
  }

  lemma KeptTwice(h0: nat -> nat, m0: Memory, h1: nat -> nat, m1: Memory, m2: Memory)
    requires AllKept(h0, m0, m1) && AllKept(h1, m1, m2) && forall p: nat :: h0(p) > 0 ==> h1(p) == h0(p)
    ensures AllKept(h0, m0, m2)
  {}

  lemma SameHeldExtends(held: nat -> nat, same: nat -> nat, tasks: seq<TaskMem>, mem: Memory, after: Memory, t: nat)
    requires OwnsOk(held, tasks) && t < |tasks| && AllKept(held, mem, after) && forall p: nat :: same(p) == held(p)
    ensures Extends(held, tasks, mem, same, tasks, after, t)
  {
    hide Owns, TasksTabled;
    KeptIsUntouched(held, tasks, t, mem, after);
  }

  /** What was handed out in between is given back. */
  lemma NothingTaken(h0: nat -> nat, h1: nat -> nat, h2: nat -> nat, h3: nat -> nat, tasks: seq<TaskMem>, mem: Memory,
                     after: Memory,
                     t: nat, p: nat, q: nat)
    requires OwnsOk(h0, tasks) && t < |tasks| && AllKept(h0, mem, after)
    requires if p == 0 then h1 == h0 else h0(p) == 0 && forall r: nat :: r != p ==> h1(r) == h0(r)
    requires if q == 0 then h2 == h1 else h1(q) == 0 && forall r: nat :: r != q ==> h2(r) == h1(r)
    requires p == 0 || q == 0
    requires forall r: nat :: h3(r) == if (r == p && p != 0) || (r == q && q != 0) then 0 else h2(r)
    ensures (forall r: nat :: h3(r) == h0(r)) && OwnsOk(h3, tasks) && Extends(h0, tasks, mem, h3, tasks, after, t)
  {
    hide OwnsOk, AllKept, Extends;
    OwnsMore(h0, h3, tasks);
    SameHeldExtends(h0, h3, tasks, mem, after, t);
  }

  /** The kernel's directory words, with none in the user part. */
  function UserWords(kernel: seq<nat>): (r: seq<nat>)
    requires |kernel| == TABLE_ENTRIES
    ensures |r| == TABLE_ENTRIES
    ensures forall k :: 0 <= k < TABLE_ENTRIES ==>
              r[k] == if FIRST_WORD <= k < FIRST_WORD + USER_TABLES then 0 else kernel[k]
  {
    seq(TABLE_ENTRIES, k requires 0 <= k < TABLE_ENTRIES =>
      if FIRST_WORD <= k < FIRST_WORD + USER_TABLES then 0 else kernel[k])
  }

  function NoTables(): (r: seq<Table>)
    ensures |r| == USER_TABLES && forall i :: 0 <= i < USER_TABLES ==> r[i] == Table(0, [])
  {
    seq(USER_TABLES, (i: nat) => Table(0, []))
  }

  lemma NewDirectory(h0: nat -> nat, a: seq<TaskMem>, m0: Memory, h1: nat -> nat, h2: nat -> nat, now: seq<TaskMem>,
                     after: Memory,
                     kernel: seq<nat>, t: nat, dir: nat, words: nat, user: seq<nat>)
    requires OwnsOk(h0, a) && ShapesOk(a, kernel) && t < |a| && a[t].space == NoSpace && AllKept(h0, m0, after)
    requires dir > 0 && h0(dir) == 0 && h1(dir) > 0 && forall q: nat :: q != dir ==> h1(q) == h0(q)
    requires words > 0 && h1(words) == 0 && h2(words) > 0 && forall q: nat :: q != words ==> h2(q) == h1(q)
    requires |user| == |kernel| == TABLE_ENTRIES
    requires forall k :: 0 <= k < TABLE_ENTRIES ==>
               user[k] == if FIRST_WORD <= k < FIRST_WORD + USER_TABLES then 0 else kernel[k]
    requires now == a[t := a[t].(space := Space(dir, words, user, NoTables()))]
    ensures OwnsOk(h2, now) && ShapesOk(now, kernel) && Extends(h0, a, m0, h2, now, after, t)
    ensures Tabled(now[t].space) && forall pn: nat :: !Mapped(now[t].space, pn) && !CanWrite(now[t].space, pn)
  {
    hide OwnsOk, ShapesOk, AllKept, Grew;
    var sp := Space(dir, words, user, NoTables());
    var mid := a[t := a[t].(space := Space(dir, 0, user, NoTables()))];
    OwnsTabled(h0, a, t);
    NoTablesShape(sp, kernel);
    NoTablesShape(Space(dir, 0, user, NoTables()), kernel);
    ShapesNow(a, mid, kernel, t);
    ShapesNow(a, now, kernel, t);
    hide TasksTabled, TableShape, Tabled;
    SlotFilled(h0, a, h1, mid, t, DirSlot, dir);
    SlotFilled(h1, mid, h2, now, t, WordsSlot, words);
    GrewTwice(h0, a, h1, mid, h2, now, t);
    KeptIsUntouched(h0, now, t, m0, after);
  }

  lemma NoTablesShape(sp: Space, kernel: seq<nat>)
    requires sp.Space? && sp.dir != 0 && sp.tables == NoTables() && |sp.words| == |kernel| == TABLE_ENTRIES
    requires forall k :: 0 <= k < TABLE_ENTRIES ==>
               sp.words[k] == if FIRST_WORD <= k < FIRST_WORD + USER_TABLES then 0 else kernel[k]
    ensures ShapeOk(sp, kernel) && Tabled(sp) && forall pn: nat :: Entry(sp, pn) == 0
  {
    assert forall i :: 0 <= i < USER_TABLES ==> TableShape(sp.tables[i]) && sp.tables[i].at == 0;
  }

  lemma StackFilled(h0: nat -> nat, a: seq<TaskMem>, m0: Memory, h1: nat -> nat, now: seq<TaskMem>, after: Memory,
                    kernel: seq<nat>, t: nat, p: nat)
    requires OwnsOk(h0, a) && ShapesOk(a, kernel) && t < |a| && a[t].stack == 0 && AllKept(h0, m0, after) && p > 0
    requires h0(p) == 0 && h1(p) > 0 && forall q: nat :: q != p ==> h1(q) == h0(q)
    requires now == a[t := a[t].(stack := p)]
    ensures OwnsOk(h1, now) && ShapesOk(now, kernel) && Extends(h0, a, m0, h1, now, after, t)
  {
    hide OwnsOk, ShapesOk, AllKept, Grew, ShapeOk, Tabled;
    OwnsTabled(h0, a, t);
    ShapeAt(a, kernel, t);
    ShapesNow(a, now, kernel, t);
    SlotFilled(h0, a, h1, now, t, StackSlot, p);
    KeptIsUntouched(h0, now, t, m0, after);
  }

  // ---- giving back ----

  /** The order in which the blocks of a task are given back. */
  ghost function Rank(s: Slot): nat {
    match s
    case PageSlot(pn) => pn
    case TableSlot(i) => USER_PAGES + i
    case WordsSlot => USER_PAGES + USER_TABLES
    case DirSlot => USER_PAGES + USER_TABLES + 1
    case StackSlot => USER_PAGES + USER_TABLES + 2
  }

  ghost predicate OwnsBelow(tasks: seq<TaskMem>, t: nat, s: Slot, k: nat, p: nat)
    requires TasksTabled(tasks)
  {
    Owns(tasks, t, s, p) && Rank(s) < k
  }

  ghost predicate GivenBack(tasks: seq<TaskMem>, t: nat, k: nat, p: nat)
    requires TasksTabled(tasks)
  {
    exists s :: OwnsBelow(tasks, t, s, k, p)
  }

  /** The blocks of task `t` up to `k` are given back, all others are held as before. */
  ghost predicate Left(held: nat -> nat, tasks: seq<TaskMem>, t: nat, k: nat, now: nat -> nat) {
    TasksTabled(tasks) && forall p: nat :: now(p) == if GivenBack(tasks, t, k, p) then 0 else held(p)
  }

  predicate InBounds(s: Slot) { (s.PageSlot? ==> s.pn < USER_PAGES) && (s.TableSlot? ==> s.i < USER_TABLES) }

  lemma OwnsInBounds(tasks: seq<TaskMem>, t: nat, s: Slot, p: nat)
    requires TasksTabled(tasks) && Owns(tasks, t, s, p)
    ensures InBounds(s)
  {}

  lemma RankDecides(s: Slot, r: Slot)
    requires InBounds(s) && InBounds(r) && Rank(s) == Rank(r)
    ensures s == r
  {}

  function TableOf(sp: Space, i: nat): Table
    requires sp.Space? && i < |sp.tables|
  {
    sp.tables[i]
  }

  lemma LeftNone(held: nat -> nat, tasks: seq<TaskMem>, t: nat)
    requires OwnsOk(held, tasks)
    ensures Left(held, tasks, t, 0, held)
  {}

  lemma LeftHeld(held: nat -> nat, tasks: seq<TaskMem>, t: nat, s: Slot, now: nat -> nat)
    requires OwnsOk(held, tasks) && t < |tasks| && InBounds(s) && Left(held, tasks, t, Rank(s), now)
    ensures Tabled(tasks[t].space) && (At(tasks[t], s) != 0 ==> now(At(tasks[t], s)) > 0)
  {
    hide At, TasksTabled, Tabled;
    OwnsTabled(held, tasks, t);
    var p := At(tasks[t], s);
    if p != 0 {
      assert Owns(tasks, t, s, p);
      var k := Rank(s);
      forall r ensures !OwnsBelow(tasks, t, r, k, p) {}
    }
  }

  lemma LeftStep(held: nat -> nat, tasks: seq<TaskMem>, t: nat, s: Slot, now: nat -> nat, next: nat -> nat)
    requires OwnsOk(held, tasks) && t < |tasks| && InBounds(s) && Left(held, tasks, t, Rank(s), now)
    requires forall p: nat :: next(p) == if p == At(tasks[t], s) && p != 0 then 0 else now(p)
    ensures Left(held, tasks, t, Rank(s) + 1, next)
  {
    hide At, TasksTabled, Rank, InBounds, OwnsOk, Owns;
    OwnsTabled(held, tasks, t);
    forall p: nat
      ensures GivenBack(tasks, t, Rank(s) + 1, p) <==>
                GivenBack(tasks, t, Rank(s), p) || (p == At(tasks[t], s) && p != 0)
    {
      BackStep(tasks, t, s, p);
    }
  }

  lemma BackStep(tasks: seq<TaskMem>, t: nat, s: Slot, p: nat)
    requires TasksTabled(tasks) && t < |tasks| && InBounds(s) && Tabled(tasks[t].space)
    ensures GivenBack(tasks, t, Rank(s) + 1, p) <==> GivenBack(tasks, t, Rank(s), p) || (p == At(tasks[t], s) && p != 0)
  {
    hide At, TasksTabled, Rank, InBounds;
    var k := Rank(s) + 1;
    if r :| OwnsBelow(tasks, t, r, k, p) {
      OwnsInBounds(tasks, t, r, p);
      if Rank(r) == Rank(s) { RankDecides(r, s); } else { assert OwnsBelow(tasks, t, r, Rank(s), p); }
    }
    if r :| OwnsBelow(tasks, t, r, Rank(s), p) { assert OwnsBelow(tasks, t, r, Rank(s) + 1, p); }
    if p == At(tasks[t], s) && p != 0 { assert OwnsBelow(tasks, t, s, Rank(s) + 1, p); }
  }

  /** A table that is not there has no pages. */
  lemma LeftSkip(held: nat -> nat, tasks: seq<TaskMem>, t: nat, i: nat, now: nat -> nat)
    requires OwnsOk(held, tasks) && t < |tasks| && tasks[t].space.Space? && i < USER_TABLES
    requires Left(held, tasks, t, TABLE_ENTRIES * i, now)
    requires Tabled(tasks[t].space) && tasks[t].space.tables[i].at == 0
    ensures Left(held, tasks, t, TABLE_ENTRIES * (i + 1), now)
  {
    hide TasksTabled, OwnsOk, Tabled;
    var k, e := TABLE_ENTRIES * i, TABLE_ENTRIES * (i + 1);
    forall s, p: nat | Owns(tasks, t, s, p) ensures !(k <= Rank(s) < e) {
      if s.PageSlot? && k <= s.pn < e {
        assert s.pn / TABLE_ENTRIES == i;
        NoTable(tasks[t].space, s.pn);
      }
    }
    LeftSame(held, tasks, t, k, e, now);
  }

  lemma LeftSame(held: nat -> nat, tasks: seq<TaskMem>, t: nat, k: nat, e: nat, now: nat -> nat)
    requires Left(held, tasks, t, k, now) && k <= e
    requires forall s, p: nat :: Owns(tasks, t, s, p) ==> !(k <= Rank(s) < e)
    ensures Left(held, tasks, t, e, now)
  {
    hide TasksTabled, Rank, Owns;
    forall p: nat ensures GivenBack(tasks, t, e, p) <==> GivenBack(tasks, t, k, p) {
      if s :| OwnsBelow(tasks, t, s, e, p) { assert OwnsBelow(tasks, t, s, k, p); }
      if s :| OwnsBelow(tasks, t, s, k, p) { assert OwnsBelow(tasks, t, s, e, p); }
    }
  }

  lemma PageOfTable(task: TaskMem, i: nat, j: nat)
    requires Tabled(task.space) && task.space.Space? && i < USER_TABLES && j < TABLE_ENTRIES
    requires task.space.tables[i].at != 0
    ensures |task.space.tables[i].entries| == TABLE_ENTRIES && TABLE_ENTRIES * i + j < USER_PAGES
    ensures var e := task.space.tables[i].entries[j];
            At(task, PageSlot(TABLE_ENTRIES * i + j)) == if Present(e) then Frame(e) else 0
  {
    hide Present, Frame, EntryOk;
    var pn := TABLE_ENTRIES * i + j;
    assert pn / TABLE_ENTRIES == i && pn % TABLE_ENTRIES == j;
    TableThere(task.space, i);
  }

  lemma LeftNoSpace(held: nat -> nat, tasks: seq<TaskMem>, t: nat)
    requires OwnsOk(held, tasks) && t < |tasks| && tasks[t].space.NoSpace? && Left(held, tasks, t, 0, held)
    ensures Left(held, tasks, t, Rank(StackSlot), held)
  {
    hide TasksTabled, OwnsOk;
    LeftSame(held, tasks, t, 0, Rank(StackSlot), held);
  }

  /** After the last block the task owns nothing, and the others own what they did. */
  lemma Freed(held: nat -> nat, tasks: seq<TaskMem>, kernel: seq<nat>, t: nat, now: nat -> nat, left: seq<TaskMem>)
    requires OwnsOk(held, tasks) && ShapesOk(tasks, kernel) && t < |tasks|
    requires Left(held, tasks, t, Rank(StackSlot) + 1, now)
    requires left == tasks[t := TaskMem(NoSpace, 0)]
    ensures OwnsOk(now, left) && ShapesOk(left, kernel)
    ensures forall p: nat :: now(p) == if OwnedBy(tasks, t, p) then 0 else held(p)
  {
    hide ShapesOk, TasksTabled;
    ShapesNow(tasks, left, kernel, t);
    var k := Rank(StackSlot) + 1;
    forall p: nat ensures GivenBack(tasks, t, k, p) <==> OwnedBy(tasks, t, p) {
      if s :| OwnsBelow(tasks, t, s, k, p) { assert Owns(tasks, t, s, p); }
      if s :| Owns(tasks, t, s, p) {
        OwnsInBounds(tasks, t, s, p);
        assert OwnsBelow(tasks, t, s, k, p);
      }
    }
    hide At, Left, Rank;
    forall u: nat, s, p: nat | Owns(left, u, s, p)
      ensures Owns(tasks, u, s, p) && u != t
    {
      NothingOwned(left, t, s, p);
    }
    forall u: nat, s, p: nat | Owns(left, u, s, p) ensures now(p) > 0 { assert Owns(tasks, u, s, p); }
  }

  lemma NothingOwned(tasks: seq<TaskMem>, t: nat, s: Slot, p: nat)
    requires TasksTabled(tasks) && t < |tasks| && tasks[t] == TaskMem(NoSpace, 0)
    ensures !Owns(tasks, t, s, p)
  {}
}
