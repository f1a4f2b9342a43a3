// What a program finds when it starts, as the processor reads it: its file by the numbers at their places in the
// header and the program headers (System V Application Binary Interface, chapter 4, "Object Files" and chapter 5,
// "Program Loading"), and its arguments.
module ProgramBytes {
  import opened Bytes
  import opened ByteMemory
  import opened PageTables
  import opened AddressSpace
  import opened PageWalk
  import opened ElfFile
  import opened ElfLoader
  import opened TaskArgs
  import opened TaskStart

  lemma PairIs(file: seq<byte>, o: nat)
    requires o + 2 <= |file|
    ensures U16(file, o) == Pair(file, o)
  {}

  lemma QuadIs(file: seq<byte>, o: nat)
    requires o + 4 <= |file|
    ensures U32(file, o) == Quad(file, o)
  {}

  /** The header of an executable for the 386: 0x7F "ELF", 32 bits, low byte first, type 2, machine 3, and program
      headers of 32 bytes that lie in the file. */
  ghost predicate IsExecutable(file: seq<byte>) {
    && |file| >= 52 && file[..4] == [0x7F, 0x45, 0x4C, 0x46] && file[4] == 1 && file[5] == 1
    && Pair(file, 16) == 2 && Pair(file, 18) == 3 && Pair(file, 42) == 32
    && Quad(file, 28) + 32 * Pair(file, 44) <= |file|
  }

  /** Where program header `i` begins. */
  ghost function At(file: seq<byte>, i: nat): (h: nat)
    requires IsExecutable(file) && i < Pair(file, 44)
    ensures h + 32 <= |file|
  {
    Quad(file, 28) + 32 * i
  }

  /** It asks for memory: it is of type 1, and its size in memory is not 0. */
  ghost predicate IsLoaded(file: seq<byte>, i: nat)
    requires IsExecutable(file) && i < Pair(file, 44)
  {
    Quad(file, At(file, i)) == 1 && Quad(file, At(file, i) + 20) != 0
  }

  ghost function Offset(file: seq<byte>, i: nat): nat
    requires IsExecutable(file) && i < Pair(file, 44)
  {
    Quad(file, At(file, i) + 4)
  }

  ghost function Address(file: seq<byte>, i: nat): nat
    requires IsExecutable(file) && i < Pair(file, 44)
  {
    Quad(file, At(file, i) + 8)
  }

  ghost function FileSize(file: seq<byte>, i: nat): nat
    requires IsExecutable(file) && i < Pair(file, 44)
  {
    Quad(file, At(file, i) + 16)
  }

  ghost function MemorySize(file: seq<byte>, i: nat): nat
    requires IsExecutable(file) && i < Pair(file, 44)
  {
    Quad(file, At(file, i) + 20)
  }

  lemma HeaderIs(file: seq<byte>)
    ensures HeaderOk(file) <==> IsExecutable(file)
    ensures HeaderOk(file) ==> Count(file) == Pair(file, 44) && EntryPoint(file) == Quad(file, 24)
  {
    hide U16, U32, Pair, Quad;
    if |file| >= 52 {
      PairIs(file, 16);
      PairIs(file, 18);
      PairIs(file, 42);
      PairIs(file, 44);
      QuadIs(file, 24);
      QuadIs(file, 28);
    }
  }

  lemma SegmentIs(file: seq<byte>, i: nat)
    requires IsExecutable(file) && i < Pair(file, 44)
    ensures HeaderOk(file) && i < Count(file)
    ensures var s := SegmentAt(file, i);
            && (Loads(s) <==> IsLoaded(file, i)) && s.offset == Offset(file, i) && s.vaddr == Address(file, i)
            && s.filesz == FileSize(file, i) && s.memsz == MemorySize(file, i)
            && s.flags == Quad(file, At(file, i) + 24)
  {
    hide U16, U32, Pair, Quad;
    HeaderIs(file);
    QuadIs(file, 28);
    var h := At(file, i);
    QuadIs(file, h);
    QuadIs(file, h + 4);
    QuadIs(file, h + 8);
    QuadIs(file, h + 16);
    QuadIs(file, h + 20);
    QuadIs(file, h + 24);
  }

  /** A segment lies from 0x40000000 to 0x43FFB000, and its part in the file in the file. */
  ghost predicate IsPlaced(file: seq<byte>, i: nat)
    requires IsExecutable(file) && i < Pair(file, 44)
  {
    && 0x40000000 <= Address(file, i) && Address(file, i) + MemorySize(file, i) <= 0x43FFB000
    && FileSize(file, i) <= MemorySize(file, i) && Offset(file, i) + FileSize(file, i) <= |file|
  }

  ghost predicate HoldsEntry(file: seq<byte>, i: nat)
    requires IsExecutable(file) && i < Pair(file, 44)
  {
    IsLoaded(file, i) && Address(file, i) <= Quad(file, 24) < Address(file, i) + MemorySize(file, i)
  }

  /** The files the loader takes: all segments are in place, and the program starts in one of them. */
  lemma Accepted(file: seq<byte>)
    ensures ElfOk(file) <==>
            && IsExecutable(file)
            && (forall i :: 0 <= i < Pair(file, 44) && IsLoaded(file, i) ==> IsPlaced(file, i))
            && exists i :: 0 <= i < Pair(file, 44) && HoldsEntry(file, i)
  {
    hide SegmentAt, IsExecutable, HeaderOk, Pair, Quad, IsLoaded, Address, Offset, FileSize, MemorySize, Count;
    hide EntryPoint;
    HeaderIs(file);
    if IsExecutable(file) {
      forall i | 0 <= i < Count(file)
        ensures Loads(SegmentAt(file, i)) <==> IsLoaded(file, i)
        ensures SegmentFits(SegmentAt(file, i), |file|) <==> IsPlaced(file, i)
        ensures HoldsAddress(SegmentAt(file, i), EntryPoint(file)) <==> HoldsEntry(file, i)
      {
        SegmentIs(file, i);
      }
    }
  }

  // ---- memory ----

  /** Segment `j` has no byte in common with segment `i`. */
  ghost predicate IsBeside(file: seq<byte>, i: nat, j: nat)
    requires IsExecutable(file) && i < Pair(file, 44) && j < Pair(file, 44)
  {
    || !IsLoaded(file, j) || Address(file, i) + MemorySize(file, i) <= Address(file, j)
    || Address(file, j) + MemorySize(file, j) <= Address(file, i)
  }

  lemma {:induction false} ImageByte(file: seq<byte>, n: nat, i: nat, a: nat)
    requires ElfOk(file) && IsExecutable(file) && i < Pair(file, 44) == Count(file) && IsLoaded(file, i)
    requires Address(file, i) <= a < Address(file, i) + MemorySize(file, i) && n <= Count(file)
    requires forall j :: 0 <= j < Pair(file, 44) && j != i ==> IsBeside(file, i, j)
    ensures Offset(file, i) + FileSize(file, i) <= |file|
    ensures Image(file, n, a, 0)
            == if i < n && a < Address(file, i) + FileSize(file, i) then file[Offset(file, i) + (a - Address(file, i))]
               else 0
    decreases n
  {
    hide SegmentAt, IsExecutable, HeaderOk, Pair, Quad, IsLoaded, Address, Offset, FileSize, MemorySize, Count;
    hide EntryPoint;
    SegmentIs(file, i);
    if n > 0 {
      ImageByte(file, n - 1, i, a);
      SegmentIs(file, n - 1);
      assert n - 1 != i ==> IsBeside(file, i, n - 1);
    }
  }

  lemma PageInImage(file: seq<byte>, i: nat, a: nat)
    requires HeaderOk(file) && i < Count(file) && HoldsAddress(SegmentAt(file, i), a) && InRange(a)
    ensures InImage(file, Count(file), PageNumber(a))
    ensures IsWritable(SegmentAt(file, i)) ==> WritableInImage(file, Count(file), PageNumber(a))
  {
    hide SegmentAt, HeaderOk, Count;
    WalkIndex(a);
    assert LoadsInto(SegmentAt(file, i), PageNumber(a));
  }

  /** Byte `k` of a segment that shares no byte with others is byte `k` of its part in the file, and 0 behind that.
      It may be written if bit 1 of the flags says so. */
  lemma SegmentByte(m: Machine, t: nat, file: seq<byte>, esp: nat, i: nat, k: nat)
    requires m.Valid() && t < |m.tasks| && ProgramLoaded(m.mem, m.tasks[t].space, file, esp)
    requires IsExecutable(file) && i < Pair(file, 44) && IsLoaded(file, i) && k < MemorySize(file, i)
    requires forall j :: 0 <= j < Pair(file, 44) && j != i ==> IsBeside(file, i, j)
    ensures Offset(file, i) + FileSize(file, i) <= |file|
    ensures Reads(m.mem, m.tasks[t].space, Address(file, i) + k,
                  if k < FileSize(file, i) then file[Offset(file, i) + k] else 0)
    ensures Quad(file, At(file, i) + 24) / 2 % 2 == 1 ==> MayWrite(m.tasks[t].space, Address(file, i) + k)
  {
    hide SegmentAt, IsExecutable, HeaderOk, Pair, Quad, IsLoaded, Offset, FileSize, Count, EntryPoint;
    hide Machine.Valid, Image, InImage, WritableInImage, UserByte, Reads, MayWrite, At, Address, MemorySize;
    var a, sp := Address(file, i) + k, m.tasks[t].space;
    HeaderIs(file);
    SegmentIs(file, i);
    assert SegmentFits(SegmentAt(file, i), |file|);
    ImageByte(file, Count(file), i, a);
    ViewIsRead(m, t, a);
    PageInImage(file, i, a);
  }

  /** A loaded program can read and write its stack, 16 KiB below 0x44000000; the page below it is not there. */
  lemma StackByte(m: Machine, t: nat, file: seq<byte>, esp: nat, a: nat)
    requires m.Valid() && t < |m.tasks| && ProgramLoaded(m.mem, m.tasks[t].space, file, esp)
    requires 0x43FFB000 <= a < 0x44000000
    ensures a >= 0x43FFC000 ==> Reachable(m.tasks[t].space, a) && MayWrite(m.tasks[t].space, a)
    ensures a < 0x43FFC000 ==> !Reachable(m.tasks[t].space, a)
  {
    hide Machine.Valid, ElfOk, Count, InImage, WritableInImage, UserByte, Reads, MayWrite, Reachable, Mapped, CanWrite;
    var sp := m.tasks[t].space;
    ViewIsRead(m, t, a);
    if a >= 0x43FFC000 {
      StackPage(a);
    } else {
      GuardPage(sp, file);
      SameGuard(a);
    }
  }

  lemma SameGuard(a: nat)
    requires 0x43FFB000 <= a < 0x43FFC000
    ensures InRange(a) && PageNumber(a) == PageNumber(0x43FFB000)
  {}

  // ---- arguments ----

  /** The word of four bytes at `a`, the low one first. */
  ghost predicate ReadsWord(mem: Memory, sp: Space, a: nat, v: nat) {
    exists b: byte, c: byte, d: byte, e: byte :: WordOf(mem, sp, a, b, c, d, e, v)
  }

  ghost predicate WordOf(mem: Memory, sp: Space, a: nat, b: byte, c: byte, d: byte, e: byte, v: nat) {
    && Reads(mem, sp, a, b) && Reads(mem, sp, a + 1, c) && Reads(mem, sp, a + 2, d) && Reads(mem, sp, a + 3, e)
    && v == b as int + 0x100 * c as int + 0x10000 * d as int + 0x1000000 * e as int
  }

  ghost predicate ReadsString(mem: Memory, sp: Space, p: nat, s: seq<byte>) {
    (forall k :: 0 <= k < |s| ==> Reads(mem, sp, p + k, s[k])) && Reads(mem, sp, p + |s|, 0)
  }

  /** In the array at `argv` is a pointer to `s`. */
  ghost predicate HasArg(mem: Memory, sp: Space, argv: nat, i: nat, s: seq<byte>) {
    exists p: nat :: ReadsWord(mem, sp, argv + 4 * i, p) && ReadsString(mem, sp, p, s)
  }

  lemma StackRead(m: Machine, t: nat, file: seq<byte>, esp: nat, a: nat)
    requires m.Valid() && t < |m.tasks| && ProgramLoaded(m.mem, m.tasks[t].space, file, esp)
    requires 0x43FFC000 <= a < 0x44000000
    ensures Reads(m.mem, m.tasks[t].space, a, Seen(m.mem, m.tasks[t].space)(a))
  {
    hide Machine.Valid, ElfOk, Count, InImage, WritableInImage, UserByte, Reads, MayWrite, Reachable, Mapped, CanWrite;
    StackPage(a);
    ViewIsRead(m, t, a);
  }

  lemma StackWord(m: Machine, t: nat, file: seq<byte>, esp: nat, a: nat)
    requires m.Valid() && t < |m.tasks| && ProgramLoaded(m.mem, m.tasks[t].space, file, esp)
    requires 0x43FFC000 <= a && a + 4 <= 0x44000000
    ensures ReadsWord(m.mem, m.tasks[t].space, a, Word(Seen(m.mem, m.tasks[t].space), a))
  {
    hide Machine.Valid, ProgramLoaded, UserByte, Reads, Tabled;
    var sp := m.tasks[t].space;
    LoadedTabled(m.mem, sp, file, esp);
    var view := Seen(m.mem, sp);
    StackRead(m, t, file, esp, a);
    StackRead(m, t, file, esp, a + 1);
    StackRead(m, t, file, esp, a + 2);
    StackRead(m, t, file, esp, a + 3);
    assert WordOf(m.mem, sp, a, view(a), view(a + 1), view(a + 2), view(a + 3), Word(view, a));
  }

  lemma LoadedTabled(mem: Memory, sp: Space, file: seq<byte>, esp: nat)
    requires ProgramLoaded(mem, sp, file, esp)
    ensures Tabled(sp) && 0x43FFC000 <= esp <= 0x44000000
  {}

  lemma ArgRead(m: Machine, t: nat, file: seq<byte>, esp: nat, argv: nat, i: nat, s: seq<byte>)
    requires m.Valid() && t < |m.tasks| && ProgramLoaded(m.mem, m.tasks[t].space, file, esp)
    requires esp <= argv && argv + 4 * i + 4 <= 0x44000000 && Tabled(m.tasks[t].space)
    requires var view := Seen(m.mem, m.tasks[t].space); StringAt(view, esp, Word(view, argv + 4 * i), s)
    ensures HasArg(m.mem, m.tasks[t].space, argv, i, s)
  {
    hide Machine.Valid, ProgramLoaded, UserByte, Reads, Tabled, ReadsWord, Seen, Word;
    var sp := m.tasks[t].space;
    LoadedTabled(m.mem, sp, file, esp);
    StackWord(m, t, file, esp, argv + 4 * i);
    var view := Seen(m.mem, sp);
    var p := Word(view, argv + 4 * i);
    forall k | 0 <= k < |s| ensures Reads(m.mem, sp, p + k, s[k]) { StackRead(m, t, file, esp, p + k); }
    StackRead(m, t, file, esp, p + |s|);
    assert ReadsString(m.mem, sp, p, s);
  }

  /** A new program finds the number of its arguments at its stack pointer, and behind it the address of an array
      of pointers to them, ended by 0; each argument ends with a zero byte. */
  lemma ArgsBytes(m: Machine, t: nat, file: seq<byte>, args: seq<seq<byte>>, esp: nat, brk: nat) returns (argv: nat)
    requires m.Valid() && t < |m.tasks| && Started(m.mem, m.tasks[t].space, file, args, esp, brk)
    ensures esp % 4 == 0 && ReadsWord(m.mem, m.tasks[t].space, esp, |args|)
    ensures ReadsWord(m.mem, m.tasks[t].space, esp + 4, argv)
    ensures forall i :: 0 <= i < |args| ==> HasArg(m.mem, m.tasks[t].space, argv, i, args[i])
    ensures ReadsWord(m.mem, m.tasks[t].space, argv + 4 * |args|, 0)
  {
    hide Machine.Valid, ProgramLoaded, UserByte, Reads, Tabled, ReadsWord, HasArg, Seen, StringAt, Word, HeapPages;
    var sp := m.tasks[t].space;
    LoadedTabled(m.mem, sp, file, esp);
    var view := Seen(m.mem, sp);
    argv := Word(view, esp + 4);
    StackWord(m, t, file, esp, esp);
    StackWord(m, t, file, esp, esp + 4);
    StackWord(m, t, file, esp, argv + 4 * |args|);
    forall i | 0 <= i < |args| ensures HasArg(m.mem, sp, argv, i, args[i]) {
      ArgRead(m, t, file, esp, argv, i, args[i]);
    }
  }

  /** Bytes that strings take up, each with a zero byte. */
  function Needed(args: seq<seq<byte>>): nat {
    if args == [] then 0 else Needed(args[..|args| - 1]) + |args[|args| - 1]| + 1
  }

  lemma {:induction false} NeededIsTotal(args: seq<seq<byte>>)
    ensures Needed(args) == Total(args)
    decreases |args|
  {
    if |args| > 0 {
      NeededIsTotal(args[..|args| - 1]);
      TotalOfFront(args);
    }
  }

  lemma {:induction false} TotalOfFront(args: seq<seq<byte>>)
    requires args != []
    ensures Total(args) == Total(args[..|args| - 1]) + |args[|args| - 1]| + 1
    decreases |args|
  {
    if |args| > 1 {
      TotalOfFront(args[1..]);
      assert args[1..][..|args| - 2] == args[..|args| - 1][1..];
    }
  }

  /** A program may have 16 arguments of 1024 bytes together. */
  lemma ArgsLimit(args: seq<seq<byte>>)
    ensures ArgsFit(args) <==> |args| <= 16 && Needed(args) <= 1024
  {
    NeededIsTotal(args);
  }
}
