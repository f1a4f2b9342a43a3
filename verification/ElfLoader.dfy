// Loading executables into user address spaces, and starting tasks from them.
module ElfLoader {
  import opened Bytes
  import opened ByteMemory
  import opened KernelHeap
  import opened PageTables
  import opened AddressSpace
  import opened ElfFile
  import opened UserLayout

  const IO_ERROR: int := -1

  /** Exactly the pages of the first `n` segments are mapped in addition, those of writable ones for writing. */
  ghost predicate MapsImage(sp: Space, now: Space, file: seq<byte>, n: nat) {
    && Tabled(sp) && Tabled(now) && HeaderOk(file) && n <= Count(file)
    && (forall pn: nat :: pn < USER_PAGES ==> (Mapped(now, pn) <==> Mapped(sp, pn) || InImage(file, n, pn)))
    && (forall pn: nat :: pn < USER_PAGES ==> (CanWrite(now, pn) <==> CanWrite(sp, pn) || WritableInImage(file, n, pn)))
  }

  /** The program sees the bytes of the first `n` segments, and elsewhere what it saw before. */
  ghost predicate SeesImage(mem: Memory, sp: Space, after: Memory, now: Space, file: seq<byte>, n: nat) {
    && Tabled(sp) && Tabled(now) && HeaderOk(file) && n <= Count(file) && SegmentsFit(file, n)
    && forall a: nat :: UserByte(after, now, a) == Image(file, n, a, UserByte(mem, sp, a))
  }

  /** `elf_validate_header`; the sums wrap at 32 bits in the code. */
  method ValidateHeader(file: seq<byte>) returns (ok: bool)
    requires |file| < 0x1_0000_0000
    ensures ok <==> HeaderOk(file)
  {
    if |file| < ELF_HEADER_SIZE || file[..4] != Magic() || file[4] != CLASS_32 || file[5] != DATA_LSB
       || U16(file, 16) != TYPE_EXEC || U16(file, 18) != MACHINE_386 || U16(file, 42) != PROGRAM_HEADER_SIZE {
      return false;
    }
    var start := U32(file, 28);
    var tableEnd := (start + U16(file, 44) * PROGRAM_HEADER_SIZE) % 0x1_0000_0000;
    ok := !(tableEnd < start || tableEnd > |file|);
  }

  /** The checks of a segment, with sums that wrap. */
  method CheckSegment(s: Segment, size: nat) returns (ok: bool)
    requires s.offset < 0x1_0000_0000 && s.vaddr < 0x1_0000_0000 && s.filesz < 0x1_0000_0000 && s.memsz < 0x1_0000_0000
    requires Loads(s) && size < 0x1_0000_0000
    ensures ok <==> SegmentFits(s, size)
  {
    var segEnd := (s.vaddr + s.memsz) % 0x1_0000_0000;
    var fileEnd := (s.offset + s.filesz) % 0x1_0000_0000;
    ok := !(s.vaddr < USER_CODE_ADDR || segEnd > USER_HEAP_LIMIT || segEnd < s.vaddr || s.filesz > s.memsz
            || fileEnd > size || fileEnd < s.offset);
  }

  lemma NoSegmentYet(mem: Memory, sp: Space, file: seq<byte>)
    requires Tabled(sp) && HeaderOk(file)
    ensures MapsImage(sp, sp, file, 0) && SeesImage(mem, sp, mem, sp, file, 0)
  {}

  /** A header that loads nothing changes nothing. */
  lemma SegmentSkipped(m0: Memory, a: Space, m1: Memory, b: Space, file: seq<byte>, i: nat)
    requires HeaderOk(file) && i < Count(file) && MapsImage(a, b, file, i) && SeesImage(m0, a, m1, b, file, i)
    requires !Loads(SegmentAt(file, i))
    ensures MapsImage(a, b, file, i + 1) && SeesImage(m0, a, m1, b, file, i + 1)
  {
    hide SegmentAt, HeaderOk, Count, UserByte, Tabled, Mapped, CanWrite, Loads, IsWritable, Touches;
    forall pn: nat ensures InImage(file, i + 1, pn) <==> InImage(file, i, pn) { PagesOfSegment(file, i, pn); }
    forall pn: nat
      ensures WritableInImage(file, i + 1, pn) <==> WritableInImage(file, i, pn)
    {
      PagesOfSegment(file, i, pn);
    }
  }

  lemma PagesOfSegment(file: seq<byte>, i: nat, pn: nat)
    requires HeaderOk(file) && i < Count(file)
    ensures InImage(file, i + 1, pn) <==> InImage(file, i, pn) || LoadsInto(SegmentAt(file, i), pn)
    ensures WritableInImage(file, i + 1, pn) <==>
              WritableInImage(file, i, pn) || (IsWritable(SegmentAt(file, i)) && LoadsInto(SegmentAt(file, i), pn))
  {
    hide SegmentAt, HeaderOk, Count, LoadsInto, IsWritable;
  }

  /** The two copies of a segment. */
  lemma SegmentCopied(m0: Memory, a: Space, m1: Memory, b: Space, m2: Memory, c: Space, file: seq<byte>, i: nat)
    requires HeaderOk(file) && i < Count(file) && MapsImage(a, b, file, i) && SeesImage(m0, a, m1, b, file, i)
    requires Loads(SegmentAt(file, i)) && SegmentFits(SegmentAt(file, i), |file|)
    requires var s := SegmentAt(file, i);
             && MapsMore(b, c, s.vaddr, s.memsz, IsWritable(s))
             && SeesCopy(m1, b, m2, c, s.vaddr, file[s.offset..s.offset + s.filesz])
    ensures MapsImage(a, c, file, i + 1) && SeesImage(m0, a, m2, c, file, i + 1)
  {
    hide SegmentAt, HeaderOk, Count, UserByte, Tabled, Mapped, CanWrite, IsWritable, Touches, InImage, WritableInImage;
    var s := SegmentAt(file, i);
    forall pn: nat
      ensures InImage(file, i + 1, pn) <==> InImage(file, i, pn) || Touches(pn, s.vaddr, s.memsz)
      ensures WritableInImage(file, i + 1, pn) <==>
                WritableInImage(file, i, pn) || (IsWritable(s) && Touches(pn, s.vaddr, s.memsz))
    {
      PagesOfSegment(file, i, pn);
    }
    ImageGrown(m0, a, m1, b, m2, c, file, i);
  }

  lemma ImageGrown(m0: Memory, a: Space, m1: Memory, b: Space, m2: Memory, c: Space, file: seq<byte>, i: nat)
    requires HeaderOk(file) && i < Count(file) && SeesImage(m0, a, m1, b, file, i)
    requires Loads(SegmentAt(file, i)) && SegmentFits(SegmentAt(file, i), |file|)
    requires var s := SegmentAt(file, i);
             SeesCopy(m1, b, m2, c, s.vaddr, file[s.offset..s.offset + s.filesz])
    ensures SeesImage(m0, a, m2, c, file, i + 1)
  {
    hide SegmentAt, HeaderOk, Count, UserByte, Tabled;
    var s := SegmentAt(file, i);
    var part := file[s.offset..s.offset + s.filesz];
    forall x: nat ensures UserByte(m2, c, x) == Image(file, i + 1, x, UserByte(m0, a, x)) {
      if s.vaddr <= x < s.vaddr + s.filesz { assert part[x - s.vaddr] == file[s.offset + (x - s.vaddr)]; }
    }
  }

  /** `elf_load` through `task_copy_to_user`. */
  method ElfLoad(m: Machine, t: nat, file: seq<byte>) returns (r: int, entry: nat, end: nat)
    requires m.Valid() && t < |m.tasks| && m.tasks[t].space.Space? && |file| < 0x1_0000_0000
    modifies m`mem, m`tasks, m.heap`live, m.heap.entries
    ensures m.Valid() && Extends(old(m.Held()), old(m.tasks), old(m.mem), m.Held(), m.tasks, m.mem, t)
    ensures |m.tasks| == |old(m.tasks)| && m.tasks[t].space.Space? && m.tasks[t].stack == old(m.tasks)[t].stack
    ensures r == 0 ==> ElfOk(file) && entry == EntryPoint(file) && end == ImageEnd(file, Count(file))
    ensures r == 0 ==> MapsImage(old(m.tasks)[t].space, m.tasks[t].space, file, Count(file))
    ensures r == 0 ==> SeesImage(old(m.mem), old(m.tasks)[t].space, m.mem, m.tasks[t].space, file, Count(file))
    ensures r != 0 ==> (r == INVALID_ARG && !ElfOk(file)) || (r == NO_MEMORY && m.Full())
    ensures Took(old(m.heap.live), m.heap.live, ImageCost(file))
  {
    hide Machine.Valid, Machine.Full, KHeap.Valid, Extends, MapsImage, SeesImage, MapsMore, SeesCopy, HeaderOk;
    hide SegmentAt, Count, EntryPoint, SegmentsFit, ImageEnd, Image, InImage, WritableInImage, HeldIn, UserByte;
    hide Took, SegmentCost, CostUpTo, ImageCost;
    entry, end := 0, 0;
    ghost var h0, a, m0, l0 := m.Held(), m.tasks, m.mem, m.heap.live;
    TookNone(l0, 0);
    var ok := ValidateHeader(file);
    if !ok {
      Tables(m, t);
      ExtendsNot(h0, a, m0, t);
      TookNone(l0, ImageCost(file));
      return INVALID_ARG, entry, end;
    }
    Tables(m, t);
    ExtendsNot(h0, a, m0, t);
    NoSegmentYet(m0, a[t].space, file);
    NoneFits(file);
    NoCost(file);
    end := USER_CODE_ADDR;
    var loaded := false;
    for i := 0 to Count(file)
      invariant m.Valid() && Extends(h0, a, m0, m.Held(), m.tasks, m.mem, t) && |m.tasks| == |a|
      invariant m.tasks[t].space.Space? && m.tasks[t].stack == a[t].stack
      invariant MapsImage(a[t].space, m.tasks[t].space, file, i)
      invariant SeesImage(m0, a[t].space, m.mem, m.tasks[t].space, file, i)
      invariant SegmentsFit(file, i) && (loaded <==> EntryLoaded(file, i)) && end == ImageEnd(file, i)
      invariant Took(l0, m.heap.live, CostUpTo(file, i))
    {
      var s := SegmentAt(file, i);
      NextSegment(file, i);
      ghost var l1 := m.heap.live;
      CostSoFar(file, i, l0, l1);
      if s.kind != PT_LOAD || s.memsz == 0 {
        SegmentSkipped(m0, a[t].space, m.mem, m.tasks[t].space, file, i);
        TookNone(l1, 0);
        CostStep(file, i, l0, l1, l1);
        continue;
      }
      ghost var h1, b, m1 := m.Held(), m.tasks, m.mem;
      var fits := CheckSegment(s, |file|);
      if !fits {
        NotElf(file, i);
        return INVALID_ARG, 0, 0;
      }
      var writable := s.flags / 2 % 2 == 1;
      var res := CopySegment(m, t, file, s, writable);
      CostStep(file, i, l0, l1, m.heap.live);
      ExtendsTwice(h0, a, m0, h1, b, m1, m.Held(), m.tasks, m.mem, t);
      if res < 0 {
        return res, 0, 0;
      }
      SegmentCopied(m0, a[t].space, m1, b[t].space, m.mem, m.tasks[t].space, file, i);
      if EntryPoint(file) >= s.vaddr && EntryPoint(file) < s.vaddr + s.memsz {
        loaded := true;
      }
      if s.vaddr + s.memsz > end {
        end := s.vaddr + s.memsz;
      }
    }
    CostSoFar(file, Count(file), l0, m.heap.live);
    if !loaded {
      return INVALID_ARG, 0, 0;
    }
    r, entry := 0, EntryPoint(file);
  }

  lemma CostSoFar(file: seq<byte>, i: nat, l0: Runs, l1: Runs)
    requires HeaderOk(file) && i <= Count(file) && Took(l0, l1, CostUpTo(file, i))
    ensures Took(l0, l1, ImageCost(file))
  {
    hide HeaderOk, Count, CostUpTo, Took;
    CostGrows(file, i, Count(file));
    TookUpTo(l0, l1, CostUpTo(file, i), ImageCost(file));
  }

  lemma CostStep(file: seq<byte>, i: nat, l0: Runs, l1: Runs, l2: Runs)
    requires HeaderOk(file) && i < Count(file) && Took(l0, l1, CostUpTo(file, i))
    requires Took(l1, l2, if Loads(SegmentAt(file, i)) then SegmentCost(SegmentAt(file, i)) else 0)
    ensures Took(l0, l2, CostUpTo(file, i + 1)) && Took(l0, l2, ImageCost(file))
  {
    hide HeaderOk, Count, CostUpTo, Took, SegmentAt, SegmentCost, Loads;
    var s := SegmentAt(file, i);
    CostNext(file, i);
    TookMore(l0, l1, l2, CostUpTo(file, i), if Loads(s) then SegmentCost(s) else 0);
    CostSoFar(file, i + 1, l0, l2);
  }

  /** Blocks a segment takes at most. */
  function SegmentCost(s: Segment): nat {
    CopyCost(s.filesz) + CopyCost(if s.memsz > s.filesz then s.memsz - s.filesz else 0)
  }

  function CostUpTo(file: seq<byte>, n: nat): nat
    requires HeaderOk(file) && n <= Count(file)
  {
    if n == 0 then 0
    else CostUpTo(file, n - 1) + if Loads(SegmentAt(file, n - 1)) then SegmentCost(SegmentAt(file, n - 1)) else 0
  }

  /** Blocks all segments of a file take at most. */
  function ImageCost(file: seq<byte>): nat { if HeaderOk(file) then CostUpTo(file, Count(file)) else 0 }

  lemma NoCost(file: seq<byte>)
    requires HeaderOk(file)
    ensures CostUpTo(file, 0) == 0
  {}

  lemma CostNext(file: seq<byte>, i: nat)
    requires HeaderOk(file) && i < Count(file)
    ensures var s := SegmentAt(file, i);
            CostUpTo(file, i + 1) == CostUpTo(file, i) + if Loads(s) then SegmentCost(s) else 0
  {
    hide SegmentAt, HeaderOk, Count, SegmentCost;
  }

  lemma {:induction false} CostGrows(file: seq<byte>, i: nat, n: nat)
    requires HeaderOk(file) && i <= n <= Count(file)
    ensures CostUpTo(file, i) <= CostUpTo(file, n)
    decreases n
  {
    hide SegmentAt, HeaderOk, Count, SegmentCost, CostUpTo;
    if i < n {
      CostNext(file, n - 1);
      CostGrows(file, i, n - 1);
    }
  }

  /** File contents, then the zero filled rest of the segment. */
  method CopySegment(m: Machine, t: nat, file: seq<byte>, s: Segment, writable: bool) returns (r: int)
    requires m.Valid() && t < |m.tasks| && m.tasks[t].space.Space? && SegmentFits(s, |file|)
    modifies m`mem, m`tasks, m.heap`live, m.heap.entries
    ensures m.Valid() && Extends(old(m.Held()), old(m.tasks), old(m.mem), m.Held(), m.tasks, m.mem, t)
    ensures |m.tasks| == |old(m.tasks)| && m.tasks[t].space.Space? && m.tasks[t].stack == old(m.tasks)[t].stack
    ensures r == 0 ==> MapsMore(old(m.tasks)[t].space, m.tasks[t].space, s.vaddr, s.memsz, writable)
    ensures r == 0 ==>
              SeesCopy(old(m.mem), old(m.tasks)[t].space, m.mem, m.tasks[t].space, s.vaddr,
                       file[s.offset..s.offset + s.filesz])
    ensures r != 0 ==> r == NO_MEMORY && m.Full()
    ensures Took(old(m.heap.live), m.heap.live, SegmentCost(s))
  {
    hide Machine.Valid, Machine.Full, KHeap.Valid, Extends, MapsMore, SeesCopy, HeldIn, UserByte, Took, CopyCost;
    ghost var h0, a, m0, l0 := m.Held(), m.tasks, m.mem, m.heap.live;
    var part := file[s.offset..s.offset + s.filesz];
    r := m.CopyToUser(t, s.vaddr, part, true, s.filesz, writable);
    ghost var l1 := m.heap.live;
    TookUpTo(l0, l1, CopyCost(s.filesz), SegmentCost(s));
    if r == 0 && s.memsz > s.filesz {
      ghost var h1, b, m1 := m.Held(), m.tasks, m.mem;
      r := m.CopyToUser(t, s.vaddr + s.filesz, [], false, s.memsz - s.filesz, writable);
      TookMore(l0, l1, m.heap.live, CopyCost(s.filesz), CopyCost(s.memsz - s.filesz));
      ExtendsTwice(h0, a, m0, h1, b, m1, m.Held(), m.tasks, m.mem, t);
      if r == 0 {
        MapsMoreBoth(a[t].space, b[t].space, m.tasks[t].space, s.vaddr, s.filesz, s.memsz - s.filesz, writable);
        SeesMore(m0, a[t].space, m1, b[t].space, m.mem, m.tasks[t].space, s.vaddr, part);
      }
    }
  }

  lemma SeesMore(m0: Memory, a: Space, m1: Memory, b: Space, m2: Memory, c: Space, vaddr: nat, src: seq<byte>)
    requires SeesCopy(m0, a, m1, b, vaddr, src) && SeesCopy(m1, b, m2, c, vaddr + |src|, [])
    ensures SeesCopy(m0, a, m2, c, vaddr, src)
  {
    hide SeesCopy;
    assert src + [] == src;
    SeesBoth(m0, a, m1, b, m2, c, vaddr, src, []);
  }

  lemma Tables(m: Machine, t: nat)
    requires m.Valid() && t < |m.tasks|
    ensures TasksTabled(m.tasks) && Tabled(m.tasks[t].space) && OwnsOk(m.Held(), m.tasks) && BlocksApart(m.Held())
    ensures m.heap.Valid()
  {}

  lemma NoneFits(file: seq<byte>)
    requires HeaderOk(file)
    ensures SegmentsFit(file, 0) && !EntryLoaded(file, 0) && ImageEnd(file, 0) == USER_CODE_ADDR
  {}

  lemma NextSegment(file: seq<byte>, i: nat)
    requires HeaderOk(file) && i < Count(file) && SegmentsFit(file, i)
    ensures var s := SegmentAt(file, i);
            && (SegmentsFit(file, i + 1) <==> !Loads(s) || SegmentFits(s, |file|))
            && (EntryLoaded(file, i + 1) <==> EntryLoaded(file, i) || HoldsAddress(s, EntryPoint(file)))
            && ImageEnd(file, i + 1) == if Loads(s) && s.vaddr + s.memsz > ImageEnd(file, i) then s.vaddr + s.memsz
                                        else ImageEnd(file, i)
  {
    hide SegmentAt, HeaderOk, Count, SegmentFits, HoldsAddress, EntryPoint;
  }

  lemma NotElf(file: seq<byte>, i: nat)
    requires HeaderOk(file) && i < Count(file) && Loads(SegmentAt(file, i)) && !SegmentFits(SegmentAt(file, i), |file|)
    ensures !ElfOk(file)
  {
    hide SegmentAt, HeaderOk, Count, SegmentFits;
  }

  // ---- starting a task ----

  ghost predicate InStack(pn: nat) { Touches(pn, USER_STACK_TOP - USER_STACK_SIZE, USER_STACK_SIZE) }

  /** The pages of the segments and of the stack are mapped, and no others. */
  ghost predicate ProgramPages(sp: Space, file: seq<byte>) {
    && Tabled(sp) && ElfOk(file)
    && (forall pn: nat :: pn < USER_PAGES ==> (Mapped(sp, pn) <==> InImage(file, Count(file), pn) || InStack(pn)))
    && (forall pn: nat :: pn < USER_PAGES ==>
            (CanWrite(sp, pn) <==> WritableInImage(file, Count(file), pn) || InStack(pn)))
  }

  /** The address space holds the segments of the file, a stack that is used from `esp` on, and nothing else. */
  ghost predicate ProgramLoaded(mem: Memory, sp: Space, file: seq<byte>, esp: nat) {
    && ProgramPages(sp, file) && USER_STACK_TOP - USER_STACK_SIZE <= esp <= USER_STACK_TOP
    && forall a: nat :: !(esp <= a < USER_STACK_TOP) ==> UserByte(mem, sp, a) == Image(file, Count(file), a, 0)
  }

  ghost predicate EmptySpace(sp: Space) { Tabled(sp) && forall pn: nat :: !Mapped(sp, pn) && !CanWrite(sp, pn) }

  /** The page below the stack is never mapped: overflows are caught. */
  lemma GuardPage(sp: Space, file: seq<byte>)
    requires ProgramPages(sp, file)
    ensures !Mapped(sp, PageNumber(USER_HEAP_LIMIT)) && USER_HEAP_LIMIT + PAGE_SIZE == USER_STACK_TOP - USER_STACK_SIZE
  {
    hide Tabled, SegmentAt, Count, HeaderOk, Mapped;
    var pn := PageNumber(USER_HEAP_LIMIT);
    forall i | 0 <= i < Count(file) ensures !LoadsInto(SegmentAt(file, i), pn) {
      if Loads(SegmentAt(file, i)) { assert SegmentFits(SegmentAt(file, i), |file|); }
    }
  }

  /** A file with segments apart: each of their bytes is there, and zeros after the part in the file. */
  lemma SegmentsThere(mem: Memory, sp: Space, file: seq<byte>, esp: nat, i: nat, a: nat)
    requires ProgramLoaded(mem, sp, file, esp) && NoOverlap(file) && i < Count(file)
    requires HoldsAddress(SegmentAt(file, i), a)
    ensures var s := SegmentAt(file, i);
            UserByte(mem, sp, a) == if a < s.vaddr + s.filesz then file[s.offset + (a - s.vaddr)] else 0
  {
    hide Tabled, SegmentAt, Count, HeaderOk, UserByte, Mapped;
    ImageOfSegment(file, Count(file), i, a, 0);
  }

  lemma ImageAndStack(m0: Memory, a: Space, m1: Memory, b: Space, m2: Memory, c: Space, file: seq<byte>)
    requires EmptySpace(a) && ElfOk(file) && MapsImage(a, b, file, Count(file))
    requires SeesImage(m0, a, m1, b, file, Count(file))
    requires MapsMore(b, c, USER_STACK_TOP - USER_STACK_SIZE, USER_STACK_SIZE, true)
    requires SeesCopy(m1, b, m2, c, USER_STACK_TOP - USER_STACK_SIZE, [])
    ensures ProgramLoaded(m2, c, file, USER_STACK_TOP)
  {
    hide SegmentAt, Count, HeaderOk, InImage, WritableInImage, Image, SegmentsFit, EntryLoaded, Tabled, Touches;
    forall x: nat ensures UserByte(m0, a, x) == 0 {}
    hide UserByte, Mapped, CanWrite;
  }

  /** A block that is borrowed while task `t` gets more memory, and then given back. */
  lemma Borrowed(h0: nat -> nat, a: seq<TaskMem>, m0: Memory, h1: nat -> nat, h2: nat -> nat, c: seq<TaskMem>,
                 m2: Memory,
                 h3: nat -> nat, t: nat, p: nat)
    requires OwnsOk(h0, a) && OwnsOk(h2, c) && Extends(h1, a, m0, h2, c, m2, t)
    requires h0(p) == 0 && h1(p) > 0 && forall q: nat :: q != p ==> h1(q) == h0(q)
    requires forall q: nat :: h3(q) == if q == p then 0 else h2(q)
    ensures OwnsOk(h3, c) && Extends(h0, a, m0, h3, c, m2, t)
  {
    hide TasksTabled, At;
    forall u: nat, s ensures Owns(c, u, s, p) ==> Owns(a, u, s, p) {}
  }

  /** Blocks a program and its stack take at most. */
  function ProgramCost(file: seq<byte>): nat { ImageCost(file) + CopyCost(USER_STACK_SIZE) }

  /** Blocks that are taken while a file is loaded, with the buffer for it. */
  function LoadCost(file: seq<byte>): nat
    requires |file| < 0x1_0000_0000
  {
    2 + BlocksFor(|file|) + ProgramCost(file)
  }

  const TASK_MAX_ARGS := 16

  /** Blocks that pushing the arguments takes at most: some for each of them, for the pointers and `argc`. */
  const ARGS_COST := 4 * (TASK_MAX_ARGS + 2)

  /** Blocks a new task takes at most, with the buffer for its file, its arguments and its kernel stack. */
  function SpawnCost(file: seq<byte>): nat
    requires |file| < 0x1_0000_0000
  {
    LoadCost(file) + ARGS_COST + 4
  }

  /** A run of free blocks that is enough for a new task, whatever it is cut into. */
  function SpawnRoom(file: seq<byte>): nat
    requires |file| < 0x1_0000_0000
  {
    Stretch(SpawnCost(file), BlocksFor(|file|) + 4)
  }

  lemma TookThree(l0: Runs, l1: Runs, l2: Runs, l3: Runs, i: nat, j: nat, k: nat)
    requires Took(l0, l1, i) && Took(l1, l2, j) && Took(l2, l3, k)
    ensures Took(l0, l3, i + j + k) && Took(l0, l1, i + j + k) && Took(l1, l3, i + j + k) && Took(l0, l2, i + j)
  {
    hide TotalBlocks;
  }

  /** The kernel heap was short of room from the start. */
  lemma RoomWasShort(file: seq<byte>, e0: seq<bv8>, l0: Runs, e1: seq<bv8>, l1: Runs, k: nat, n: nat)
    requires |file| < 0x1_0000_0000 && TableOk(e0, l0) && TableOk(e1, l1) && |e0| == |e1| && Took(l0, l1, k)
    requires NoFreeRun(e1, n) && k <= SpawnCost(file) && n <= BlocksFor(|file|) + 4
    ensures NoFreeRun(e0, SpawnRoom(file))
  {
    hide TableOk, Took, NoFreeRun, SpawnCost, BlocksFor, Stretch;
    NoRoomBefore(e0, l0, e1, l1, k, n);
    StretchMore(k, n, SpawnCost(file), BlocksFor(|file|) + 4);
    NoFreeMore(e0, Stretch(k, n), SpawnRoom(file));
  }

  lemma LoadTook(file: seq<byte>, ok: bool, l0: Runs, l1: Runs, l2: Runs, l3: Runs)
    requires |file| < 0x1_0000_0000 && (ok ==> Took(l0, l1, 2)) && Took(l1, l2, BlocksFor(|file|))
    requires Took(l2, l3, ProgramCost(file))
    ensures var base := if ok then l0 else l1;
            Took(base, l1, LoadCost(file)) && Took(l1, l3, LoadCost(file)) && Took(base, l3, LoadCost(file))
  {
    hide Took, BlocksFor, ProgramCost;
    TookNone(l1, 2);
    TookThree(if ok then l0 else l1, l1, l2, l3, 2, BlocksFor(|file|), ProgramCost(file));
  }

  lemma LoadShort(file: seq<byte>, e0: seq<bv8>, l0: Runs, ok: bool, buf: nat, l1: Runs, e2: seq<bv8>, l2: Runs,
                  e3: seq<bv8>, l3: Runs)
    requires 0 < |file| < 0x1_0000_0000 && TableOk(e0, l0) && TableOk(e2, l2) && TableOk(e3, l3)
    requires |e0| == |e2| == |e3|
    requires if ok then Took(l0, l1, 2) else NoFreeRun(e0, 3)
    requires Took(l1, l2, BlocksFor(|file|)) && Took(l2, l3, ProgramCost(file))
    requires ok && buf == 0 ==> BlocksFor(|file|) == 0 || NoFreeRun(e2, BlocksFor(|file|))
    requires ok && buf != 0 ==> NoFreeRun(e3, 1)
    ensures |file| > 0xFFFFF000 || NoFreeRun(e0, SpawnRoom(file))
  {
    hide TableOk, Took, NoFreeRun, BlocksFor, Stretch, ProgramCost;
    BlocksHold(|file|);
    if !ok {
      StretchMore(2, 1, SpawnCost(file), BlocksFor(|file|) + 4);
      ThreeBlocks();
      NoFreeMore(e0, 3, SpawnRoom(file));
    } else {
      TookThree(l0, l1, l2, l3, 2, BlocksFor(|file|), ProgramCost(file));
      if buf != 0 {
        RoomWasShort(file, e0, l0, e3, l3, 2 + BlocksFor(|file|) + ProgramCost(file), 1);
      } else if BlocksFor(|file|) > 0 {
        RoomWasShort(file, e0, l0, e2, l2, 2 + BlocksFor(|file|), BlocksFor(|file|));
      }
    }
  }

  lemma ThreeBlocks()
    ensures Stretch(2, 1) == 3
  {}

  /** `task_load`: the file is read into a buffer and loaded, and the stack is mapped. */
  method Load(m: Machine, t: nat, file: seq<byte>, readable: bool) returns (r: int, entry: nat, brk: nat)
    requires m.Valid() && t < |m.tasks| && m.tasks[t].space == NoSpace && |file| < 0x1_0000_0000
    modifies m`mem, m`tasks, m.heap`live, m.heap.entries
    ensures m.Valid() && Extends(old(m.Held()), old(m.tasks), old(m.mem), m.Held(), m.tasks, m.mem, t)
    ensures |m.tasks| == |old(m.tasks)| && m.tasks[t].stack == old(m.tasks)[t].stack
    ensures r == 0 ==>
              && ProgramLoaded(m.mem, m.tasks[t].space, file, USER_STACK_TOP) && entry == EntryPoint(file)
              && ImageEnd(file, Count(file)) <= brk < ImageEnd(file, Count(file)) + PAGE_SIZE && brk % PAGE_SIZE == 0
    ensures r != 0 ==> (r == INVALID_ARG && !ElfOk(file)) || (r == IO_ERROR && !readable) || r == NO_MEMORY
    ensures r == NO_MEMORY ==> |file| > 0xFFFFF000 || NoFreeRun(old(m.heap.entries[..]), SpawnRoom(file))
    ensures r == 0 ==> Took(old(m.heap.live), m.heap.live, LoadCost(file))
  {
    hide Machine.Valid, KHeap.Valid, Extends, HeldIn, Tabled, ProgramLoaded, ElfOk, EmptySpace;
    hide EntryPoint, Count, ImageEnd, NoFreeRun, BlocksFor, Took, ProgramCost, LoadCost, SpawnRoom, TableOk, OwnsOk;
    entry, brk := 0, 0;
    ghost var h0, a, m0, l0, e0 := m.Held(), m.tasks, m.mem, m.heap.live, m.heap.entries[..];
    Tables(m, t);
    ExtendsNot(h0, a, m0, t);
    if |file| == 0 {
      EmptyIsNoElf(file);
      return INVALID_ARG, entry, brk;
    }
    m.HeapTable();
    var ok, buf;
    ghost var h1, l1;
    ok, buf, h1, l1 := Reserve(m, t, |file|);
    ghost var b, m1, h2, l2, e2 := m.tasks, m.mem, m.Held(), m.heap.live, m.heap.entries[..];
    Tables(m, t);
    m.HeapTable();
    r, entry, brk := LoadFile(m, t, file, readable, ok && buf != 0);
    Tables(m, t);
    m.HeapTable();
    ghost var base := if ok then l0 else l1;
    LoadTook(file, ok, l0, l1, l2, m.heap.live);
    if r == NO_MEMORY { LoadShort(file, e0, l0, ok, buf, l1, e2, l2, m.heap.entries[..], m.heap.live); }
    if buf != 0 {
      GiveBack(m, buf, h1, b, m1, h2, t, base, l1, LoadCost(file));
    }
    ExtendsTwice(h0, a, m0, h1, b, m1, m.Held(), m.tasks, m.mem, t);
  }

  /** The part of `task_load` between getting the buffer and giving it back. */
  method LoadFile(m: Machine, t: nat, file: seq<byte>, readable: bool, ok: bool)
    returns (r: int, entry: nat, brk: nat)
    requires m.Valid() && t < |m.tasks| && |file| < 0x1_0000_0000
    requires ok ==> m.tasks[t].space.Space? && EmptySpace(m.tasks[t].space)
    modifies m`mem, m`tasks, m.heap`live, m.heap.entries
    ensures m.Valid() && Extends(old(m.Held()), old(m.tasks), old(m.mem), m.Held(), m.tasks, m.mem, t)
    ensures |m.tasks| == |old(m.tasks)| && m.tasks[t].stack == old(m.tasks)[t].stack
    ensures r == 0 ==>
              && ok && ProgramLoaded(m.mem, m.tasks[t].space, file, USER_STACK_TOP) && entry == EntryPoint(file)
              && ImageEnd(file, Count(file)) <= brk < ImageEnd(file, Count(file)) + PAGE_SIZE && brk % PAGE_SIZE == 0
    ensures r != 0 ==> (r == INVALID_ARG && !ElfOk(file)) || (r == IO_ERROR && !readable) || r == NO_MEMORY
    ensures r == NO_MEMORY && ok ==> m.Full()
    ensures Took(old(m.heap.live), m.heap.live, ProgramCost(file))
  {
    hide Machine.Valid, Machine.Full, KHeap.Valid, Extends, HeldIn, Tabled, ProgramLoaded, ElfOk, EmptySpace;
    hide EntryPoint, Count, ImageEnd, Took, ProgramCost, OwnsOk;
    entry, brk := 0, 0;
    Tables(m, t);
    ExtendsNot(m.Held(), m.tasks, m.mem, t);
    TookNone(m.heap.live, ProgramCost(file));
    if !ok {
      return NO_MEMORY, entry, brk;
    }
    if !readable {
      return IO_ERROR, entry, brk;
    }
    r, entry, brk := Fill(m, t, file);
  }

  /** An empty address space, and a buffer for the file. */
  method Reserve(m: Machine, t: nat, size: Uint32)
    returns (ok: bool, buf: nat, ghost h1: nat -> nat, ghost l1: Runs)
    requires m.Valid() && t < |m.tasks| && m.tasks[t].space == NoSpace && size > 0
    modifies m`mem, m`tasks, m.heap`live, m.heap.entries
    ensures m.Valid() && Extends(old(m.Held()), old(m.tasks), old(m.mem), h1, m.tasks, m.mem, t)
    ensures |m.tasks| == |old(m.tasks)| && m.tasks[t].stack == old(m.tasks)[t].stack
    ensures ok ==> m.tasks[t].space.Space? && EmptySpace(m.tasks[t].space)
    ensures h1 == HeldFn(m.heap.addr, l1) && OwnsOk(h1, m.tasks)
    ensures if buf == 0 then m.Held() == h1
            else h1(buf) == 0 && m.Held()(buf) > 0 && forall q: nat :: q != buf ==> m.Held()(q) == h1(q)
    ensures if ok then Took(old(m.heap.live), l1, 2) else NoFreeRun(old(m.heap.entries[..]), 3)
    ensures Took(l1, m.heap.live, BlocksFor(size))
    ensures ok && buf == 0 ==> BlocksFor(size) == 0 || NoFreeRun(m.heap.entries[..], BlocksFor(size))
  {
    hide Machine.Valid, Machine.Full, KHeap.Valid, Extends, HeldIn, Tabled, Mapped, CanWrite;
    hide NoFreeRun, BlocksFor, Took, TableOk, OwnsOk;
    ok := m.NewUser(t);
    h1, l1 := m.Held(), m.heap.live;
    Tables(m, t);
    buf := m.Kmalloc(size);
  }

  lemma EmptyIsNoElf(file: seq<byte>)
    requires |file| == 0
    ensures !ElfOk(file)
  {}

  lemma HeldStill(h1: nat -> nat, a: seq<TaskMem>, m1: Memory, h2: nat -> nat, c: seq<TaskMem>, m2: Memory, t: nat,
                  p: nat)
    requires Extends(h1, a, m1, h2, c, m2, t) && h1(p) > 0
    ensures h2(p) > 0
  {}

  lemma NotHeldBefore(addr: nat, l0: Runs, l1: Runs, l2: Runs, k: nat, p: nat)
    requires Took(l0, l1, k) && Took(l1, l2, k) && HeldIn(addr, l1, p) == 0 && HeldIn(addr, l2, p) > 0
    ensures (p - addr) / BLOCK_SIZE in l2 && (p - addr) / BLOCK_SIZE !in l0
  {
    hide TotalBlocks;
  }

  lemma BufferTaken(table: seq<bv8>, addr: nat, l0: Runs, l1: Runs, l2: Runs, k: nat, p: nat)
    requires Took(l0, l1, k) && Took(l1, l2, k) && Took(l0, l2, k) && TableOk(table, l2)
    requires HeldIn(addr, l1, p) == 0 && HeldIn(addr, l2, p) > 0
    ensures p >= addr ==> Took(l0, l2 - {(p - addr) / BLOCK_SIZE}, k)
  {
    hide Took, HeldIn, TableOk;
    TableRuns(table, l2);
    if p >= addr {
      NotHeldBefore(addr, l0, l1, l2, k, p);
      TookLess(|table|, l0, l2, (p - addr) / BLOCK_SIZE, k);
    }
  }

  method GiveBack(m: Machine, buf: nat, ghost h0: nat -> nat, ghost a: seq<TaskMem>, ghost m0: Memory,
                  ghost h1: nat -> nat, ghost t: nat, ghost l0: Runs, ghost l1: Runs, ghost k: nat)
    requires h0 == HeldFn(m.heap.addr, l1) && Took(l0, l1, k) && Took(l1, m.heap.live, k) && Took(l0, m.heap.live, k)
    requires m.Valid() && buf != 0 && OwnsOk(h0, a)
    requires Extends(h1, a, m0, m.Held(), m.tasks, m.mem, t)
    requires h0(buf) == 0 && h1(buf) > 0 && forall q: nat :: q != buf ==> h1(q) == h0(q)
    modifies m.heap`live, m.heap.entries
    ensures m.Valid() && Extends(h0, a, m0, m.Held(), m.tasks, m.mem, t) && Took(l0, m.heap.live, k)
  {
    hide KHeap.Valid, OwnsOk, ShapesOk, Extends, HeldIn, BlocksApart, Took, TableOk;
    ghost var h2, l2 := m.Held(), m.heap.live;
    HeldStill(h1, a, m0, h2, m.tasks, m.mem, t, buf);
    m.HeapTable();
    BufferTaken(m.heap.entries[..], m.heap.addr, l0, l1, l2, k, buf);
    m.Kfree(buf);
    m.HeapFacts();
    Borrowed(h0, a, m0, h1, h2, m.tasks, m.mem, m.Held(), t, buf);
  }

  /** The part of `task_load` after the file is read. */
  method Fill(m: Machine, t: nat, file: seq<byte>) returns (r: int, entry: nat, brk: nat)
    requires m.Valid() && t < |m.tasks| && m.tasks[t].space.Space? && EmptySpace(m.tasks[t].space)
    requires |file| < 0x1_0000_0000
    modifies m`mem, m`tasks, m.heap`live, m.heap.entries
    ensures m.Valid() && Extends(old(m.Held()), old(m.tasks), old(m.mem), m.Held(), m.tasks, m.mem, t)
    ensures |m.tasks| == |old(m.tasks)| && m.tasks[t].stack == old(m.tasks)[t].stack
    ensures r == 0 ==>
              && ProgramLoaded(m.mem, m.tasks[t].space, file, USER_STACK_TOP) && entry == EntryPoint(file)
              && ImageEnd(file, Count(file)) <= brk < ImageEnd(file, Count(file)) + PAGE_SIZE && brk % PAGE_SIZE == 0
    ensures r != 0 ==> (r == INVALID_ARG && !ElfOk(file)) || (r == NO_MEMORY && m.Full())
    ensures Took(old(m.heap.live), m.heap.live, ProgramCost(file))
  {
    hide Machine.Valid, Machine.Full, KHeap.Valid, Extends, HeldIn, Tabled, EmptySpace, MapsImage, SeesImage, MapsMore;
    hide SeesCopy, ProgramLoaded, EntryPoint, ImageEnd, SegmentsFit, EntryLoaded, HeaderOk, Count;
    hide Took, ImageCost;
    ghost var h0, a, m0, l0 := m.Held(), m.tasks, m.mem, m.heap.live;
    var end: nat;
    r, entry, end := ElfLoad(m, t, file);
    ghost var l1 := m.heap.live;
    TookUpTo(l0, l1, ImageCost(file), ProgramCost(file));
    brk := 0;
    if r < 0 {
      return;
    }
    ghost var h1, b, m1 := m.Held(), m.tasks, m.mem;
    brk := RoundUp(end);
    r := m.CopyToUser(t, USER_STACK_TOP - USER_STACK_SIZE, [], false, USER_STACK_SIZE, true);
    TookMore(l0, l1, m.heap.live, ImageCost(file), CopyCost(USER_STACK_SIZE));
    ExtendsTwice(h0, a, m0, h1, b, m1, m.Held(), m.tasks, m.mem, t);
    if r == 0 {
      ImageAndStack(m0, a[t].space, m1, b[t].space, m.mem, m.tasks[t].space, file);
    }
  }

  function RoundUp(end: nat): (brk: nat)
    ensures end <= brk < end + PAGE_SIZE && brk % PAGE_SIZE == 0
  {
    (end + PAGE_SIZE - 1) / PAGE_SIZE * PAGE_SIZE
  }
}
