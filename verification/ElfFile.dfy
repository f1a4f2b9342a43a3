// Executables: what the bytes of a file say should be in memory.
module ElfFile {
  import opened Bytes
  import opened PageTables
  import opened UserLayout

  const ELF_HEADER_SIZE := 52
  const PROGRAM_HEADER_SIZE := 32
  const CLASS_32 := 1
  const DATA_LSB := 1
  const TYPE_EXEC := 2
  const MACHINE_386 := 3
  const PT_LOAD := 1

  function Magic(): seq<byte> { [0x7f, 0x45, 0x4c, 0x46] }

  function U16(file: seq<byte>, o: nat): (v: nat)
    requires o + 2 <= |file|
    ensures v < 0x1_0000
  {
    file[o] as int + 0x100 * file[o + 1] as int
  }

  function U32(file: seq<byte>, o: nat): (v: nat)
    requires o + 4 <= |file|
    ensures v < 0x1_0000_0000
  {
    U16(file, o) + 0x10000 * U16(file, o + 2)
  }

  /** An i386 executable whose program headers lie in the file. */
  predicate HeaderOk(file: seq<byte>) {
    && |file| >= ELF_HEADER_SIZE && file[..4] == Magic() && file[4] == CLASS_32 && file[5] == DATA_LSB
    && U16(file, 16) == TYPE_EXEC && U16(file, 18) == MACHINE_386 && U16(file, 42) == PROGRAM_HEADER_SIZE
    && U32(file, 28) + U16(file, 44) * PROGRAM_HEADER_SIZE <= |file|
  }

  function Count(file: seq<byte>): nat
    requires HeaderOk(file)
  {
    U16(file, 44)
  }

  function EntryPoint(file: seq<byte>): nat
    requires HeaderOk(file)
  {
    U32(file, 24)
  }

  datatype Segment = Segment(kind: nat, offset: nat, vaddr: nat, filesz: nat, memsz: nat, flags: nat)

  function SegmentAt(file: seq<byte>, i: nat): (s: Segment)
    requires HeaderOk(file) && i < Count(file)
    ensures s.offset < 0x1_0000_0000 && s.vaddr < 0x1_0000_0000 && s.filesz < 0x1_0000_0000 && s.memsz < 0x1_0000_0000
  {
    var o := U32(file, 28) + i * PROGRAM_HEADER_SIZE;
    Segment(U32(file, o), U32(file, o + 4), U32(file, o + 8), U32(file, o + 16), U32(file, o + 20), U32(file, o + 24))
  }

  predicate Loads(s: Segment) { s.kind == PT_LOAD && s.memsz != 0 }

  predicate IsWritable(s: Segment) { s.flags / 2 % 2 == 1 }

  /** The segment lies in the user space below the stack, and its file part in the file. */
  predicate SegmentFits(s: Segment, size: nat) {
    && USER_CODE_ADDR <= s.vaddr && s.vaddr + s.memsz <= USER_HEAP_LIMIT && s.filesz <= s.memsz
    && s.offset + s.filesz <= size
  }

  ghost predicate SegmentsFit(file: seq<byte>, n: nat)
    requires HeaderOk(file) && n <= Count(file)
  {
    forall i :: 0 <= i < n && Loads(SegmentAt(file, i)) ==> SegmentFits(SegmentAt(file, i), |file|)
  }

  /** The entry point is in one of the first `n` segments. */
  ghost predicate EntryLoaded(file: seq<byte>, n: nat)
    requires HeaderOk(file) && n <= Count(file)
  {
    exists i :: 0 <= i < n && HoldsAddress(SegmentAt(file, i), EntryPoint(file))
  }

  predicate HoldsAddress(s: Segment, a: nat) { Loads(s) && s.vaddr <= a < s.vaddr + s.memsz }

  /** An executable the loader takes. */
  ghost predicate ElfOk(file: seq<byte>) {
    HeaderOk(file) && SegmentsFit(file, Count(file)) && EntryLoaded(file, Count(file))
  }

  /** The byte at `a` after the first `n` segments: that of the last one whose file part covers it, else `base`. */
  ghost function Image(file: seq<byte>, n: nat, a: nat, base: byte): byte
    requires HeaderOk(file) && n <= Count(file) && SegmentsFit(file, n)
  {
    if n == 0 then base else
      var s := SegmentAt(file, n - 1);
      if Loads(s) && s.vaddr <= a < s.vaddr + s.filesz then file[s.offset + (a - s.vaddr)]
      else Image(file, n - 1, a, base)
  }

  /** Some segment has bytes in the page. */
  ghost predicate InImage(file: seq<byte>, n: nat, pn: nat)
    requires HeaderOk(file) && n <= Count(file)
  {
    exists i :: 0 <= i < n && LoadsInto(SegmentAt(file, i), pn)
  }

  ghost predicate LoadsInto(s: Segment, pn: nat) { Loads(s) && Touches(pn, s.vaddr, s.memsz) }

  /** Some writable segment has bytes in the page. */
  ghost predicate WritableInImage(file: seq<byte>, n: nat, pn: nat)
    requires HeaderOk(file) && n <= Count(file)
  {
    exists i :: 0 <= i < n && IsWritable(SegmentAt(file, i)) && LoadsInto(SegmentAt(file, i), pn)
  }

  /** The end of the highest segment. */
  ghost function ImageEnd(file: seq<byte>, n: nat): nat
    requires HeaderOk(file) && n <= Count(file)
  {
    if n == 0 then USER_CODE_ADDR else
      var s, below := SegmentAt(file, n - 1), ImageEnd(file, n - 1);
      if Loads(s) && s.vaddr + s.memsz > below then s.vaddr + s.memsz else below
  }

  /** No two segments share a byte. */
  ghost predicate NoOverlap(file: seq<byte>)
    requires HeaderOk(file)
  {
    forall i, j :: 0 <= i < j < Count(file) && Loads(SegmentAt(file, i)) && Loads(SegmentAt(file, j)) ==>
                     Apart(SegmentAt(file, i), SegmentAt(file, j))
  }

  predicate Apart(s: Segment, t: Segment) { s.vaddr + s.memsz <= t.vaddr || t.vaddr + t.memsz <= s.vaddr }

  /** If segments do not overlap, each byte of one is its byte in the file, or what was there before. */
  lemma {:induction false} ImageOfSegment(file: seq<byte>, n: nat, i: nat, a: nat, base: byte)
    requires HeaderOk(file) && i < n <= Count(file) && SegmentsFit(file, n) && NoOverlap(file)
    requires HoldsAddress(SegmentAt(file, i), a)
    ensures var s := SegmentAt(file, i);
            Image(file, n, a, base) == if a < s.vaddr + s.filesz then file[s.offset + (a - s.vaddr)] else base
    decreases n
  {
    hide SegmentAt, HeaderOk, Count;
    var s, last := SegmentAt(file, i), SegmentAt(file, n - 1);
    if i < n - 1 {
      ImageOfSegment(file, n - 1, i, a, base);
      assert Loads(last) ==> Apart(s, last);
    } else if a >= s.vaddr + s.filesz {
      ImageOutside(file, n - 1, i, a, base);
    }
  }

  /** Segments before number `i` leave its bytes alone. */
  lemma {:induction false} ImageOutside(file: seq<byte>, n: nat, i: nat, a: nat, base: byte)
    requires HeaderOk(file) && n <= i < Count(file) && SegmentsFit(file, n) && NoOverlap(file)
    requires HoldsAddress(SegmentAt(file, i), a)
    ensures Image(file, n, a, base) == base
    decreases n
  {
    hide SegmentAt, HeaderOk, Count;
    if n > 0 {
      ImageOutside(file, n - 1, i, a, base);
      assert Loads(SegmentAt(file, n - 1)) ==> Apart(SegmentAt(file, n - 1), SegmentAt(file, i));
    }
  }

  /** Bytes in no segment are not written, and the image ends where the last of its bytes does. */
  lemma {:induction false} OutsideImage(file: seq<byte>, n: nat, a: nat, base: byte)
    requires HeaderOk(file) && n <= Count(file) && SegmentsFit(file, n)
    requires forall i :: 0 <= i < n ==> !HoldsAddress(SegmentAt(file, i), a)
    ensures Image(file, n, a, base) == base
    decreases n
  {
    hide SegmentAt, HeaderOk, Count;
    if n > 0 {
      OutsideImage(file, n - 1, a, base);
      assert !HoldsAddress(SegmentAt(file, n - 1), a);
    }
  }

  lemma {:induction false} ImageEndBounds(file: seq<byte>, n: nat)
    requires HeaderOk(file) && n <= Count(file) && SegmentsFit(file, n)
    ensures USER_CODE_ADDR <= ImageEnd(file, n) <= USER_HEAP_LIMIT
    ensures forall i :: 0 <= i < n && Loads(SegmentAt(file, i)) ==>
              SegmentAt(file, i).vaddr + SegmentAt(file, i).memsz <= ImageEnd(file, n)
    decreases n
  {
    hide SegmentAt, HeaderOk, Count;
    if n > 0 { ImageEndBounds(file, n - 1); }
  }
}
