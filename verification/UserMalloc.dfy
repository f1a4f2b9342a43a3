// malloc, free, calloc and realloc of user programs.
module UserMalloc {
  import opened Bytes
  import opened ByteMemory
  import opened UserBlocks
  import opened UserHeap
  import opened UserLayout

  /** The end of the data segment moves by `increment`: it may, and there are pages left if it moves up. */
  predicate Grows(start: nat, brk: nat, increment: int, room: bool) {
    MayMove(start, brk, increment) && (increment <= 0 || room)
  }

  /** No free block can take `size` bytes as they are rounded, and the data segment does not take the
      increment the program asks for then. */
  ghost predicate Refused(start: nat, blocks: seq<Block>, brk: nat, size: Uint32, room: bool) {
    NoFit(blocks, Rounded(size)) && !Grows(start, brk, Signed(HEADER_SIZE + Rounded(size)), room)
  }

  class Heap {
    const start: nat
    var mem: Memory
    var brk: nat
    var head: nat
    var tail: nat
    ghost var blocks: seq<Block>

    ghost predicate Shaped() reads this { Tiles(mem, start, blocks, brk, head, tail) }

    ghost predicate Valid() reads this { Shaped() && Merged(blocks) }

    /** `p` was handed out with `n` bytes. */
    ghost predicate Live(p: nat, n: nat) reads this { IsLive(start, blocks, p, n) }

    constructor (start: nat, mem: Memory)
      requires 0 < start <= USER_HEAP_LIMIT && start % 4096 == 0
      ensures Valid() && this.start == start == brk && blocks == [] && forall p, n :: !Live(p, n)
    {
      hide Tiles, IsLive, Merged;
      this.start := start;
      this.mem := mem;
      brk := start;
      head, tail := 0, 0;
      blocks := [];
      NoBlocks(mem, start);
    }

    /** `task_sbrk`; `room` says whether there are pages left. */
    method Sbrk(increment: int, room: bool) returns (r: nat)
      requires 0 < start <= brk <= USER_HEAP_LIMIT && -0x8000_0000 <= increment < 0x8000_0000
      modifies this`brk
      ensures r == 0 ==> brk == old(brk)
      ensures r != 0 ==> r == old(brk) && brk == old(brk) + increment && start <= brk <= USER_HEAP_LIMIT
      ensures r != 0 <==> Grows(start, old(brk), increment, room)
    {
      var next := (brk + increment) % 0x1_0000_0000;
      if (increment > 0 && next < brk) || next < start || next > USER_HEAP_LIMIT {
        return 0;
      }
      if next > brk && !room {
        return 0;
      }
      r := brk;
      brk := next;
    }

    /** Takes free block `i` at address `block`, splitting off the rest if that is of use. */
    method Take(block: nat, size: nat, ghost i: nat) returns (ghost n: nat)
      requires Valid() && i < |blocks| && block == Addr(start, blocks, i) && blocks[i].free && blocks[i].size >= size
      requires size % ALIGN == 0
      modifies this`mem, this`tail, this`blocks
      ensures Valid() && LiveKept(start, old(blocks), old(mem), mem)
      ensures size <= n < size + MIN_SPLIT && OneMore(start, old(blocks), blocks, block + HEADER_SIZE, n)
    {
      hide Span, Addr, HeaderAt, Linked, IsLive, Merged, Aligned, Store, StoreHeader, Word, Tiles, LiveKept, OneMore;
      BlockFacts(mem, start, blocks, brk, head, tail, i);
      HeaderWords(mem, block, blocks[i], NextOf(start, blocks, i));
      ghost var was := mem;
      var blockSize, next := Word(mem, block), Word(mem, block + 8);
      if blockSize >= size + MIN_SPLIT {
        var rest := block + HEADER_SIZE + size;
        mem := StoreHeader(mem, rest, blockSize - size - HEADER_SIZE, 1, next);
        mem := Store(mem, block + 8, rest);
        mem := Store(mem, block, size);
        if tail == block {
          tail := rest;
        }
        mem := Store(mem, block + 4, 0);
        SplitOk(was, mem, start, blocks, brk, head, old(tail), i, size, next);
        blocks := Replaced(blocks, i, 1, SplitBlock(blocks[i], size));
        n := size;
      } else {
        mem := Store(mem, block + 4, 0);
        UseOk(was, mem, start, blocks, brk, head, tail, i, false);
        FlagLive(start, blocks, i);
        UsedMerged(blocks, i);
        n := blocks[i].size;
        blocks := blocks[i := Block(blocks[i].size, false)];
      }
    }

    /** A new block behind the last one, of memory the data segment grows by. */
    method Grow(size: Uint32, room: bool) returns (block: nat)
      requires Valid() && size % ALIGN == 0
      modifies this
      ensures block == 0 ==> Valid() && mem == old(mem) && brk == old(brk) && blocks == old(blocks)
      ensures block != 0 ==> block == old(brk) > 0 && brk == old(brk) + Signed(HEADER_SIZE + size) <= USER_HEAP_LIMIT
      ensures block != 0 <==> Grows(start, old(brk), Signed(HEADER_SIZE + size), room)
      ensures HEADER_SIZE + size < 0x8000_0000 && block != 0 ==>
                && Valid() && LiveKept(start, old(blocks), old(mem), mem)
                && OneMore(start, old(blocks), blocks, block + HEADER_SIZE, size)
    {
      hide Span, Addr, HeaderAt, Linked, IsLive, Merged, Aligned, Store, StoreHeader, Word, LiveKept, OneMore;
      ghost var was := mem;
      StartAddr(start, blocks);
      EndAfterStart(start, blocks);
      block := Sbrk(Signed(HEADER_SIZE + size), room);
      if block == 0 {
        return;
      }
      mem := StoreHeader(mem, block, size, 0, 0);
      if tail != 0 {
        mem := Store(mem, tail + 8, block);
      } else {
        head := block;
      }
      tail := block;
      if HEADER_SIZE + size < 0x8000_0000 {
        GrowOk(was, mem, start, blocks, old(brk), old(head), old(tail), size);
        blocks := blocks + [Block(size, false)];
      }
    }

    /** `malloc`: the first free block that is large enough, or new memory. `n` is what the block holds.
        A size that does not fit wraps around: the program gets nothing, or a pointer with too little
        behind it, and the condition says which. */
    method Malloc(size: Uint32, room: bool) returns (p: nat, ghost n: nat)
      requires Valid()
      modifies this
      ensures p == 0 ==> Valid() && mem == old(mem) && brk == old(brk) && blocks == old(blocks)
      ensures p == 0 <==> size == 0 || Refused(start, old(blocks), old(brk), size, room)
      ensures FitsHeap(size) && p != 0 ==>
                && Valid() && size <= n < Rounded(size) + 24 && p + n <= brk
                && OneMore(start, old(blocks), blocks, p, n) && LiveKept(start, old(blocks), old(mem), mem)
                && (!NoFit(old(blocks), Rounded(size)) ==> FirstFit(start, old(blocks), Rounded(size), p))
      ensures p != 0 && NoFit(old(blocks), Rounded(size)) ==>
                p == old(brk) + HEADER_SIZE && brk == old(brk) + Signed(HEADER_SIZE + Rounded(size))
      ensures p == 0 || p + size <= brk <==>
                size == 0 || FitsHeap(size) || Refused(start, old(blocks), old(brk), size, room)
    {
      hide Span, Addr, HeaderAt, Linked, IsLive, Merged, Aligned, Store, StoreHeader, Word, LiveKept, OneMore, Grows;
      hide Signed;
      n := 0;
      if size == 0 {
        return 0, n;
      }
      var rounded := Rounded(size);
      RoundedFits(size);
      EndAfterStart(start, blocks);
      var block := head;
      ghost var i := 0;
      StartAddr(start, blocks);
      AfterStart(start, blocks);
      while block != 0
        invariant Valid() && mem == old(mem) && brk == old(brk) && blocks == old(blocks)
        invariant i <= |blocks| && block == if i < |blocks| then Addr(start, blocks, i) else 0
        invariant NoFit(blocks[..i], rounded)
        decreases |blocks| - i
      {
        InList(mem, start, blocks, brk, head, tail, i);
        NoFitMore(blocks, i, rounded);
        if Word(mem, block + 4) == 0 || Word(mem, block) < rounded {
          block := Word(mem, block + 8);
          i := i + 1;
          continue;
        }
        assert FirstFitAt(start, blocks, rounded, block + HEADER_SIZE, i);
        n := Take(block, rounded, i);
        if FitsHeap(size) { LiveEnd(mem, start, blocks, brk, head, tail, block + HEADER_SIZE, n, old(blocks)); }
        return block + HEADER_SIZE, n;
      }
      assert blocks[..|blocks|] == blocks && NoFit(blocks, rounded);
      block := Grow(rounded, room);
      if block == 0 {
        return 0, n;
      }
      n := rounded;
      if FitsHeap(size) { LiveEnd(mem, start, blocks, brk, head, tail, block + HEADER_SIZE, n, old(blocks)); }
      p := block + HEADER_SIZE;
    }

    /** One round of the inner loop of `free`: the block takes in the free one behind it. */
    method Absorb(block: nat, ghost i: nat) returns (more: bool)
      requires Shaped() && i < |blocks| && block == Addr(start, blocks, i)
      modifies this`mem, this`tail, this`blocks
      ensures Shaped() && more == old(FreePair(blocks, i))
      ensures !more ==> mem == old(mem) && blocks == old(blocks) && tail == old(tail)
      ensures more ==>
                && i + 1 < |old(blocks)| && blocks == Joined(old(blocks), i) && block == Addr(start, blocks, i)
                && SameLive(start, old(blocks), blocks) && LiveKept(start, blocks, old(mem), mem)
    {
      hide Span, Addr, HeaderAt, Linked, IsLive, Aligned, Store, Word, LiveKept, SameLive, Joined, Tiles;
      InList(mem, start, blocks, brk, head, tail, i);
      var next: nat := Word(mem, block + 8);
      if Word(mem, block + 4) == 0 || next == 0 {
        EndHasNoNext(mem, start, blocks, brk, head, tail, i);
        return false;
      }
      InList(mem, start, blocks, brk, head, tail, i + 1);
      if Word(mem, next + 4) == 0 {
        return false;
      }
      ghost var was := mem;
      if tail == next {
        tail := block;
      }
      JoinFits(mem, start, blocks, brk, head, old(tail), i);
      var size := Word(mem, block) + HEADER_SIZE + Word(mem, next);
      NextKept(mem, block, size, next);
      mem := Store(mem, block, size);
      var link := Word(mem, next + 8);
      mem := Store(mem, block + 8, link);
      JoinOk(was, mem, start, blocks, brk, head, old(tail), i, size, link);
      JoinedLength(blocks, i);
      blocks := Joined(blocks, i);
      more := true;
    }

    /** The loops of `free`: each block takes in the free ones behind it. */
    method MergeRuns()
      requires Shaped()
      modifies this`mem, this`tail, this`blocks
      ensures Valid() && SameLive(start, old(blocks), blocks) && LiveKept(start, blocks, old(mem), mem)
    {
      hide Span, Addr, HeaderAt, Linked, IsLive, Aligned, Store, Word, LiveKept, SameLive, Joined, MergedTo, Merged;
      SameLiveRefl(start, blocks, mem);
      StartAddr(start, blocks);
      NoneMerged(blocks);
      var block := head;
      ghost var i := 0;
      while block != 0
        invariant Shaped() && i <= |blocks| && block == if i < |blocks| then Addr(start, blocks, i) else 0
        invariant SameLive(start, old(blocks), blocks) && LiveKept(start, blocks, old(mem), mem)
        invariant MergedTo(blocks, i) && (i == |blocks| ==> Merged(blocks))
        decreases |blocks| - i
      {
        InList(mem, start, blocks, brk, head, tail, i);
        ghost var left := |blocks| - i;
        var more := true;
        while more
          invariant Shaped() && i < |blocks| && block == Addr(start, blocks, i) && |blocks| - i <= left
          invariant SameLive(start, old(blocks), blocks) && LiveKept(start, blocks, old(mem), mem)
          invariant MergedTo(blocks, i) && (!more ==> !FreePair(blocks, i))
          decreases |blocks|, more
        {
          ghost var was, before := mem, blocks;
          more := Absorb(block, i);
          if more {
            JoinedLength(before, i);
            MergedJoin(before, i);
            KeptStep(start, old(blocks), before, blocks, old(mem), was, mem);
          }
        }
        InList(mem, start, blocks, brk, head, tail, i);
        MergedNext(blocks, i);
        AfterStart(start, blocks);
        block := Word(mem, block + 8);
        i := i + 1;
      }
      AfterStart(start, blocks);
    }

    /** `free`: the block is free again, and runs of free blocks become one. */
    method Free(p: nat, ghost n: nat)
      requires Valid() && (p == 0 || Live(p, n))
      modifies this`mem, this`tail, this`blocks
      ensures Valid()
      ensures p == 0 ==> mem == old(mem) && blocks == old(blocks)
      ensures p != 0 ==> OneMore(start, blocks, old(blocks), p, n) && LiveKept(start, blocks, old(mem), mem)
    {
      hide Span, Addr, HeaderAt, Linked, IsLive, Merged, Aligned, Store, Word, LiveKept, OneMore, SameLive;
      if p == 0 {
        return;
      }
      ghost var i := LiveIndex(start, blocks, p, n);
      ghost var was, before := mem, blocks;
      mem := Store(mem, p - HEADER_SIZE + 4, 1);
      UseOk(was, mem, start, before, brk, head, tail, i, true);
      FreedLive(start, before, i);
      blocks := before[i := Block(n, true)];
      ghost var mid, freed := mem, blocks;
      MergeRuns();
      OneMoreSame(start, before, freed, blocks, p, n);
      FewerKept(start, before, blocks, p, n, was, mid);
      SameLiveRefl(start, blocks, mem);
      KeptStep(start, blocks, blocks, blocks, was, mid, mem);
    }

    /** `calloc`: nothing if the product does not fit into 32 bits; if it does, what `malloc` says of it. */
    method Calloc(count: Uint32, size: Uint32, room: bool) returns (p: nat, ghost n: nat)
      requires Valid()
      modifies this
      ensures p == 0 ==> Valid() && mem == old(mem) && brk == old(brk) && blocks == old(blocks)
      ensures p == 0 <==>
                || Times(count, size) >= 0x1_0000_0000 || Times(count, size) == 0
                || Refused(start, old(blocks), old(brk), Times(count, size), room)
      ensures p != 0 ==> (p + Times(count, size) <= brk <==> FitsHeap(Times(count, size)))
      ensures p != 0 && FitsHeap(Times(count, size)) ==>
                && Valid() && Times(count, size) <= n && OneMore(start, old(blocks), blocks, p, n)
                && LiveKept(start, old(blocks), old(mem), mem)
                && ZeroIn(mem, p, Times(count, size))
    {
      hide Span, Addr, HeaderAt, Linked, IsLive, Merged, Aligned, LiveKept, OneMore, Refused, Times;
      var total := Times(count, size) % 0x1_0000_0000;
      Product(count, size);
      if size != 0 && total / size != count {
        return 0, 0;
      }
      p, n := Malloc(total, room);
      if p != 0 {
        ghost var was := mem;
        mem := Zeroed(mem, p, total);
        if FitsHeap(total) {
          ZeroedOnly(was, p, total, n);
          LiveNow(start, old(blocks), blocks, p, n);
          OwnerWrites(was, mem, start, blocks, brk, head, tail, p, n);
          MoreKept(start, old(blocks), blocks, old(mem), was, mem, p, n);
        }
      }
    }

    /** `realloc`: the bytes move to a larger block if they have to; all other pointers keep theirs. If
        `malloc` answers with too little for a size that does not fit, this is where the model stops:
        what is copied then goes beyond the block. */
    method Realloc(p: nat, size: Uint32, room: bool, ghost n: nat) returns (q: nat, ghost m: nat)
      requires Valid() && (p == 0 || Live(p, n))
      modifies this
      ensures q == 0 || FitsHeap(size) || (p != 0 && size <= n) ==> Valid()
      ensures q == 0 ==> mem == old(mem) && brk == old(brk) && blocks == old(blocks)
      ensures p == 0 && FitsHeap(size) && q != 0 ==>
                size <= m && OneMore(start, old(blocks), blocks, q, m) && LiveKept(start, old(blocks), old(mem), mem)
      ensures p != 0 && size <= n ==> q == p && m == n && mem == old(mem) && brk == old(brk) && blocks == old(blocks)
      ensures p != 0 && size > n && FitsHeap(size) && q != 0 ==>
                && size <= m && Moved(start, old(blocks), blocks, p, q, m)
                && OthersStay(start, old(blocks), blocks, old(mem), mem, p)
                && Carried(old(mem), p, mem, q, n)
      ensures p == 0 || size > n ==>
                (q == 0 <==> size == 0 || Refused(start, old(blocks), old(brk), size, room))
      ensures p == 0 || size > n ==> (q == 0 || q + size <= brk <==>
                size == 0 || FitsHeap(size) || Refused(start, old(blocks), old(brk), size, room))
    {
      hide Span, Addr, HeaderAt, Linked, IsLive, Merged, Aligned, LiveKept, OneMore, Refused, Word, Only, OthersStay;
      hide Moved, Copied, Carried, SameIn;
      if p == 0 {
        q, m := Malloc(size, room);
        return;
      }
      ghost var i := LiveIndex(start, blocks, p, n);
      InList(mem, start, blocks, brk, head, tail, i);
      if Word(mem, p - HEADER_SIZE) >= size {
        return p, n;
      }
      q, m := Malloc(size, room);
      if q == 0 || !FitsHeap(size) {
        return;
      }
      ghost var m1, b1 := mem, blocks;
      LiveNow(start, old(blocks), b1, q, m);
      StillLive(start, old(blocks), b1, q, m, p, n);
      ghost var j := LiveIndex(start, blocks, p, n);
      InList(mem, start, blocks, brk, head, tail, j);
      CopiedOnly(mem, q, p, n, m);
      mem := Copied(mem, q, p, Word(mem, p - HEADER_SIZE));
      ghost var m2 := mem;
      OwnerWrites(m1, m2, start, blocks, brk, head, tail, q, m);
      Free(p, n);
      MovedOk(start, old(blocks), b1, blocks, old(mem), m1, m2, mem, p, n, q, m);
      CopyStays(old(mem), m1, m2, mem, p, q, n, m);
    }

    /** The program writes one byte of a pointer it holds. */
    method Put(p: nat, ghost n: nat, k: nat, b: byte)
      requires Valid() && Live(p, n) && k < n
      modifies this`mem
      ensures Valid() && (forall x: nat :: mem(x) == if x == p + k then b else old(mem)(x))
    {
      hide Span, Addr, HeaderAt, Linked, IsLive, Merged, Aligned;
      ghost var was := mem;
      mem := WithByte(mem, p + k, b);
      OwnerWrites(was, mem, start, blocks, brk, head, tail, p, n);
    }
  }

  /** What the condition comes to for a size that does not fit: one that wraps to nothing is refused
      unless any block is free or a header can be added, and any other unless its negative increment
      leaves the end of the data segment behind the start of the heap. */
  lemma WrappedSizes(h: Heap, size: Uint32, room: bool)
    requires h.Valid() && !FitsHeap(size)
    ensures Refused(h.start, h.blocks, h.brk, size, room) <==>
              if Rounded(size) == 0 then
                (forall i :: 0 <= i < |h.blocks| ==>
                     !h.blocks[i].free) && !(h.brk + HEADER_SIZE <= USER_HEAP_LIMIT && room)
              else if HEADER_SIZE + Rounded(size) == 0x1_0000_0008 then !(h.brk + 8 <= USER_HEAP_LIMIT && room)
              else h.brk + HEADER_SIZE + Rounded(size) < h.start + 0x1_0000_0000
  {
    hide Linked, Aligned, Addr, Merged;
    EndAfterStart(h.start, h.blocks);
    RoundedFits(size);
    forall i | 0 <= i < |h.blocks| ensures h.blocks[i].size <= USER_HEAP_LIMIT {
      BlockFacts(h.mem, h.start, h.blocks, h.brk, h.head, h.tail, i);
    }
    assert Rounded(size) != 0 ==> NoFit(h.blocks, Rounded(size));
  }

  /** The smallest sizes that do not fit are refused whatever the heap is like. */
  lemma RefusedAnyway(h: Heap, size: Uint32, room: bool)
    requires h.Valid() && !FitsHeap(size) && size <= 0x1_0000_0000 - HEADER_SIZE - ALIGN - USER_HEAP_LIMIT
    ensures Refused(h.start, h.blocks, h.brk, size, room)
  {
    hide Tiles, Merged, Rounded, Refused;
    RoundedFits(size);
    InLimits(h);
    WrappedSizes(h, size, room);
  }

  lemma InLimits(h: Heap)
    requires h.Valid()
    ensures 0 < h.start && h.brk <= USER_HEAP_LIMIT
  {
    hide Linked, Addr, Merged;
  }

  /** On a fresh heap nearly 4 GiB are answered with a pointer, and nothing is behind it. */
  method FreshHeapWraps(start: nat, mem: Memory, room: bool) returns (p: nat, brk: nat)
    requires 0 < start <= USER_HEAP_LIMIT && start % 4096 == 0
    ensures p == start + HEADER_SIZE && brk == start
  {
    hide Tiles, Merged, IsLive, LiveKept, OneMore, FirstFit, Heap.Valid;
    var h := new Heap(start, mem);
    ghost var n;
    assert Rounded(0xFFFFFFF0) == 0xFFFFFFF0 && Signed(HEADER_SIZE + Rounded(0xFFFFFFF0)) == 0;
    p, n := h.Malloc(0xFFFFFFF0, room);
    brk := h.brk;
  }

  function Times(a: nat, b: nat): nat { a * b }

  ghost predicate ZeroIn(mem: Memory, p: nat, n: nat) { forall x: nat :: p <= x < p + n ==> mem(x) == 0 }

  /** The `n` bytes at `to` are those that were at `from`. */
  ghost predicate Carried(mem: Memory, from: nat, after: Memory, to: nat, n: nat) {
    forall x: nat :: to <= x < to + n ==> after(x) == mem(x - to + from)
  }

  function WithByte(mem: Memory, a: nat, b: byte): Memory { (x: nat) => if x == a then b else mem(x) }

  lemma EndHasNoNext(mem: Memory, start: nat, blocks: seq<Block>, brk: nat, head: nat, tail: nat, i: nat)
    requires Tiles(mem, start, blocks, brk, head, tail) && i < |blocks|
    requires (Word(mem, Addr(start, blocks, i) + 4) == 0 || Word(mem, Addr(start, blocks, i) + 8) == 0)
    ensures !FreePair(blocks, i)
  {
    hide Span, Addr, Word, Linked, Aligned;
    InList(mem, start, blocks, brk, head, tail, i);
    if i + 1 < |blocks| { InList(mem, start, blocks, brk, head, tail, i + 1); }
  }

  lemma JoinFits(mem: Memory, start: nat, blocks: seq<Block>, brk: nat, head: nat, tail: nat, i: nat)
    requires Tiles(mem, start, blocks, brk, head, tail) && i + 1 < |blocks|
    ensures blocks[i].size + HEADER_SIZE + blocks[i + 1].size <= USER_HEAP_LIMIT
    ensures Addr(start, blocks, i) + HEADER_SIZE <= Addr(start, blocks, i + 1)
  {
    hide Span, Addr, Linked, Aligned;
    BlockFacts(mem, start, blocks, brk, head, tail, i);
    BlockFacts(mem, start, blocks, brk, head, tail, i + 1);
  }

  lemma NextKept(mem: Memory, a: nat, size: Uint32, next: nat)
    requires a + HEADER_SIZE <= next
    ensures Word(Store(mem, a, size), next + 8) == Word(mem, next + 8)
  {
    hide Word;
    WordSame(mem, Store(mem, a, size), next + 8);
  }

  lemma JoinedLength(blocks: seq<Block>, i: nat)
    requires i + 1 < |blocks|
    ensures |Joined(blocks, i)| == |blocks| - 1
  {}

  lemma NoneMerged(blocks: seq<Block>)
    ensures MergedTo(blocks, 0) && (blocks == [] ==> Merged(blocks))
  {}

  lemma Product(count: Uint32, size: Uint32)
    ensures Times(count, size) < 0x1_0000_0000 ==>
              Times(count, size) % 0x1_0000_0000 == Times(count, size) && (size != 0 ==>
                   Times(count, size) / size == count)
    ensures Times(count, size) >= 0x1_0000_0000 ==> size != 0 && Times(count, size) % 0x1_0000_0000 / size != count
  {
    if size == 0 {
      assert Times(count, size) == 0;
    } else {
      var whole := Times(count, size);
      hide Times;
      Quotient(count, size, whole);
      if whole >= 0x1_0000_0000 { Quotient(count, size, whole % 0x1_0000_0000); }
    }
  }

  /** Dividing by a factor gives the other one only for the product itself or a little more. */
  lemma Quotient(a: nat, b: nat, x: nat)
    requires b > 0
    ensures x == Times(a, b) ==> x / b == a
    ensures x < Times(a, b) ==> x / b != a
  {
    var q := x / b;
    DivisionWithRest(x, b);
    hide Times;
    if q < a { NextMultiple(q, a, b); } else if q > a { NextMultiple(a, q, b); }
  }

  lemma DivisionWithRest(x: nat, b: nat)
    requires b > 0
    ensures Times(x / b, b) <= x < Times(x / b, b) + b
  {}

  lemma NextMultiple(q: nat, a: nat, b: nat)
    requires q < a
    ensures Times(q, b) + b <= Times(a, b)
  {
    assert (a - q - 1) * b >= 0;
  }

  lemma LiveNow(start: nat, without: seq<Block>, more: seq<Block>, p: nat, n: nat)
    requires OneMore(start, without, more, p, n)
    ensures IsLive(start, more, p, n)
  {}

  lemma StillLive(start: nat, without: seq<Block>, more: seq<Block>, p: nat, n: nat, q: nat, m: nat)
    requires OneMore(start, without, more, p, n) && IsLive(start, without, q, m)
    ensures IsLive(start, more, q, m) && q != p
  {
    hide IsLive;
  }

  /** Bytes of the new pointer are nobody's before it. */
  lemma MoreKept(start: nat, without: seq<Block>, more: seq<Block>, m0: Memory, m1: Memory, m2: Memory, p: nat, n: nat)
    requires OneMore(start, without, more, p, n) && LiveKept(start, without, m0, m1)
    requires forall r: nat, k: nat :: IsLive(start, more, r, k) && r != p ==> SameIn(m1, m2, r, r + k)
    ensures LiveKept(start, without, m0, m2)
  {
    hide IsLive;
  }

  lemma CopiedOnly(mem: Memory, to: nat, from: nat, n: nat, room: nat)
    requires n <= room
    ensures Only(mem, Copied(mem, to, from, n), to, to + room) && Carried(mem, from, Copied(mem, to, from, n), to, n)
  {}

  lemma ZeroedOnly(mem: Memory, a: nat, n: nat, room: nat)
    requires n <= room
    ensures Only(mem, Zeroed(mem, a, n), a, a + room) && ZeroIn(Zeroed(mem, a, n), a, n)
  {}

  lemma CopyStays(m0: Memory, m1: Memory, m2: Memory, m3: Memory, p: nat, q: nat, n: nat, m: nat)
    requires SameIn(m0, m1, p, p + n) && SameIn(m2, m3, q, q + m) && n <= m && Carried(m1, p, m2, q, n)
    ensures Carried(m0, p, m3, q, n)
  {
    forall x: nat | q <= x < q + n ensures m3(x) == m0(x - q + p) {
      assert m3(x) == m2(x) && m1(x - q + p) == m0(x - q + p);
    }
  }
}
