// The allocator of user programs: its blocks tile the data segment, and what each step keeps.
module UserHeap {
  import opened ByteMemory
  import opened UserBlocks
  import opened UserLayout

  /** The blocks tile the heap from its start to the end of the data segment; head and tail are the
      first and the last one. */
  ghost predicate Tiles(mem: Memory, start: nat, blocks: seq<Block>, brk: nat, head: nat, tail: nat) {
    && start % ALIGN == 0 && 0 < start && brk == Addr(start, blocks, |blocks|) <= USER_HEAP_LIMIT
    && Linked(mem, start, blocks) && Aligned(blocks)
    && (if blocks == [] then head == tail == 0 else head == start && tail == Addr(start, blocks, |blocks| - 1))
  }

  lemma BlockFacts(mem: Memory, start: nat, blocks: seq<Block>, brk: nat, head: nat, tail: nat, i: nat)
    requires Tiles(mem, start, blocks, brk, head, tail) && i < |blocks|
    ensures var a := Addr(start, blocks, i);
            && HeaderAt(mem, a, blocks[i], NextOf(start, blocks, i))
            && a > 0 && a + HEADER_SIZE + blocks[i].size <= USER_HEAP_LIMIT && Addr(start, blocks, 0) == start
            && blocks[i].size % ALIGN == 0
    ensures i + 1 < |blocks| ==> Addr(start, blocks, i + 1) == Addr(start, blocks, i) + HEADER_SIZE + blocks[i].size
    ensures tail == Addr(start, blocks, i) <==> i == |blocks| - 1
  {
    hide Span;
    AddrMono(start, blocks, i, |blocks|);
    AddrNext(start, blocks, i);
    StartAddr(start, blocks);
    if i < |blocks| - 1 { AddrMono(start, blocks, i, |blocks| - 1); }
  }

  lemma StartAddr(start: nat, blocks: seq<Block>)
    ensures Addr(start, blocks, 0) == start
  {}

  /** Sizes that fit: the rounded size and a header make a positive 32 bit increment. */
  predicate FitsHeap(size: Uint32) { size <= 0x7FFFFFE8 }

  /** `size` rounded up to the alignment, with 32 bits. */
  function Rounded(size: Uint32): Uint32 { (size + 7) % 0x1_0000_0000 / 8 * 8 }

  lemma RoundedFits(size: Uint32)
    ensures Rounded(size) % ALIGN == 0
    ensures FitsHeap(size) ==> size <= Rounded(size) <= 0x7FFFFFE8
    ensures !FitsHeap(size) ==> Rounded(size) == 0 || HEADER_SIZE + Rounded(size) >= 0x8000_0000
    ensures size + 7 < 0x1_0000_0000 ==> size <= Rounded(size) <= size + 7
  {
    if size + 7 < 0x1_0000_0000 {
      assert (size + 7) % 0x1_0000_0000 == size + 7;
    }
  }

  /** An increment read as a signed 32 bit number. */
  function Signed(v: int): int {
    if v % 0x1_0000_0000 >= 0x8000_0000 then v % 0x1_0000_0000 - 0x1_0000_0000 else v % 0x1_0000_0000
  }

  /** No block can take `size` bytes. */
  ghost predicate NoFit(blocks: seq<Block>, size: nat) {
    forall i :: 0 <= i < |blocks| ==> !(blocks[i].free && blocks[i].size >= size)
  }

  ghost predicate FirstFitAt(start: nat, blocks: seq<Block>, size: nat, p: nat, i: nat) {
    && i < |blocks| && blocks[i].free && blocks[i].size >= size && NoFit(blocks[..i], size)
    && p == Addr(start, blocks, i) + HEADER_SIZE
  }

  /** `p` is the payload of the first free block that can take `size` bytes. */
  ghost predicate FirstFit(start: nat, blocks: seq<Block>, size: nat, p: nat) {
    exists i: nat :: FirstFitAt(start, blocks, size, p, i)
  }

  lemma NoFitMore(blocks: seq<Block>, i: nat, size: nat)
    requires i < |blocks| && NoFit(blocks[..i], size)
    ensures blocks[i].free && blocks[i].size >= size ==> !NoFit(blocks, size)
    ensures !(blocks[i].free && blocks[i].size >= size) ==> NoFit(blocks[..i + 1], size)
  {
    assert forall j :: 0 <= j < i ==> blocks[..i + 1][j] == blocks[..i][j];
  }

  lemma EndAfterStart(start: nat, blocks: seq<Block>)
    ensures start <= Addr(start, blocks, |blocks|)
  {
    StartAddr(start, blocks);
    if |blocks| > 0 { AddrMono(start, blocks, 0, |blocks|); }
  }

  lemma AfterStart(start: nat, blocks: seq<Block>)
    ensures forall i: nat :: i <= |blocks| ==> Addr(start, blocks, i) >= start
  {
    forall i: nat | i <= |blocks| ensures Addr(start, blocks, i) >= start {
      StartAddr(start, blocks);
      if i > 0 { AddrMono(start, blocks, 0, i); }
    }
  }

  /** What a walk along the list finds at block `i`. */
  lemma InList(mem: Memory, start: nat, blocks: seq<Block>, brk: nat, head: nat, tail: nat, i: nat)
    requires Tiles(mem, start, blocks, brk, head, tail) && i < |blocks|
    ensures var a := Addr(start, blocks, i);
            && a > 0 && Word(mem, a) == blocks[i].size && (Word(mem, a + 4) == 0 <==> !blocks[i].free)
            && Word(mem, a + 8) == (if i + 1 < |blocks| then Addr(start, blocks, i + 1) else 0)
            && blocks[i].size <= USER_HEAP_LIMIT
  {
    hide Span, Addr, Word, Linked, Aligned;
    BlockFacts(mem, start, blocks, brk, head, tail, i);
  }

  lemma LiveEnd(mem: Memory, start: nat, blocks: seq<Block>, brk: nat, head: nat, tail: nat, p: nat, n: nat,
                before: seq<Block>)
    requires Tiles(mem, start, blocks, brk, head, tail) && OneMore(start, before, blocks, p, n)
    ensures IsLive(start, blocks, p, n) && p + n <= brk
  {
    hide Span, Addr, Linked, LiveAt;
    assert IsLive(start, blocks, p, n);
    LiveDisjoint(start, blocks, p, n, p, n);
  }

  lemma AddrAppend(start: nat, blocks: seq<Block>, b: Block, j: nat)
    requires j <= |blocks|
    ensures Addr(start, blocks + [b], j) == Addr(start, blocks, j)
    ensures Addr(start, blocks + [b], |blocks| + 1) == Addr(start, blocks, |blocks|) + HEADER_SIZE + b.size
  {
    assert (blocks + [b])[..j] == blocks[..j];
    AddrNext(start, blocks + [b], |blocks|);
    assert (blocks + [b])[..|blocks|] == blocks[..|blocks|];
  }

  lemma GrowLinked(mem: Memory, after: Memory, start: nat, blocks: seq<Block>, b: Block)
    requires Linked(mem, start, blocks)
    requires HeaderAt(after, Addr(start, blocks, |blocks|), b, 0)
    requires forall j :: 0 <= j < |blocks| - 1 ==>
               SameIn(mem, after, Addr(start, blocks, j), Addr(start, blocks, j) + HEADER_SIZE)
    requires blocks != [] ==>
               HeaderAt(after, Addr(start, blocks, |blocks| - 1), blocks[|blocks| - 1], Addr(start, blocks, |blocks|))
    ensures Linked(after, start, blocks + [b])
  {
    hide Span, Addr, HeaderAt, SameIn;
    var r := blocks + [b];
    forall j | 0 <= j < |r| ensures HeaderAt(after, Addr(start, r, j), r[j], NextOf(start, r, j)) {
      AddrAppend(start, blocks, b, j);
      if j + 1 < |r| { AddrAppend(start, blocks, b, j + 1); }
      if j < |blocks| - 1 {
        HeaderSame(mem, after, Addr(start, blocks, j), blocks[j], NextOf(start, blocks, j));
      }
    }
  }

  lemma GrowLive(start: nat, blocks: seq<Block>, size: nat)
    ensures OneMore(start, blocks, blocks + [Block(size, false)], Addr(start, blocks, |blocks|) + HEADER_SIZE, size)
  {
    hide Span, Addr;
    FreeNotLive(start, blocks, |blocks|);
    var r := blocks + [Block(size, false)];
    forall q: nat, m: nat
      ensures IsLive(start, r, q, m) <==>
                IsLive(start, blocks, q, m) || (q == Addr(start, blocks, |blocks|) + HEADER_SIZE && m == size)
    {
      forall j: nat | j <= |blocks|
        ensures Addr(start, r, j) == Addr(start, blocks, j)
      {
        AddrAppend(start, blocks, Block(size, false), j);
      }
      assert LiveAt(start, r, q, m, |blocks|) <==> q == Addr(start, blocks, |blocks|) + HEADER_SIZE && m == size;
      if i: nat :| LiveAt(start, blocks, q, m, i) { assert LiveAt(start, r, q, m, i); }
      if i: nat :| LiveAt(start, r, q, m, i) { assert i < |blocks| ==> LiveAt(start, blocks, q, m, i); }
    }
  }

  lemma NoBlocks(mem: Memory, start: nat)
    requires 0 < start <= USER_HEAP_LIMIT && start % 4096 == 0
    ensures Tiles(mem, start, [], start, 0, 0) && Merged([]) && forall p, n :: !IsLive(start, [], p, n)
  {
    hide HeaderAt, Word;
    PageAligned(start);
    StartAddr(start, []);
    var none: seq<Block> := [];
    assert none[..|none|] == none[..0];
  }

  lemma PageAligned(a: nat)
    requires a % 4096 == 0
    ensures a % ALIGN == 0
  {
    assert a == 8 * (512 * (a / 4096));
  }

  lemma HeaderWords(mem: Memory, a: nat, b: Block, next: nat)
    requires HeaderAt(mem, a, b, next)
    ensures Word(mem, a) == b.size && Word(mem, a + 8) == next && Word(mem, a + 4) == if b.free then 1 else 0
  {}

  lemma UsedMerged(blocks: seq<Block>, i: nat)
    requires Merged(blocks) && i < |blocks|
    ensures Merged(blocks[i := Block(blocks[i].size, false)])
  {}

  lemma SplitMerged(blocks: seq<Block>, i: nat, size: nat)
    requires Merged(blocks) && i < |blocks| && blocks[i].free && blocks[i].size >= size + HEADER_SIZE
    ensures Merged(Replaced(blocks, i, 1, SplitBlock(blocks[i], size)))
  {}

  lemma SplitAligned(blocks: seq<Block>, i: nat, size: nat)
    requires Aligned(blocks) && i < |blocks| && blocks[i].size >= size + HEADER_SIZE && size % ALIGN == 0
    ensures Aligned(Replaced(blocks, i, 1, SplitBlock(blocks[i], size)))
  {}

  /** Storing the flag of a block. */
  lemma FlagStored(mem: Memory, a: nat, b: Block, next: nat, free: bool)
    requires HeaderAt(mem, a, b, next)
    ensures var after := Store(mem, a + 4, if free then 1 else 0);
            HeaderAt(after, a, Block(b.size, free), next) && Only(mem, after, a, a + HEADER_SIZE)
  {
    hide Word;
    var after := Store(mem, a + 4, if free then 1 else 0);
    WordStored(mem, a + 4, if free then 1 else 0);
    WordSame(mem, after, a);
    WordSame(mem, after, a + 8);
  }

  lemma UseOk(mem: Memory, after: Memory, start: nat, blocks: seq<Block>, brk: nat, head: nat, tail: nat, i: nat,
              free: bool)
    requires Tiles(mem, start, blocks, brk, head, tail) && i < |blocks|
    requires after == Store(mem, Addr(start, blocks, i) + 4, if free then 1 else 0)
    ensures Tiles(after, start, blocks[i := Block(blocks[i].size, free)], brk, head, tail)
    ensures LiveKept(start, blocks, mem, after)
  {
    hide Span, Addr, HeaderAt, Store, IsLive, Only;
    FlagStored(mem, Addr(start, blocks, i), blocks[i], NextOf(start, blocks, i), free);
    FlagLinked(mem, after, start, blocks, i, Block(blocks[i].size, free));
    AddrMono(start, blocks, i, i + 1);
    OnlyWider(mem, after, Addr(start, blocks, i), Addr(start, blocks, i) + HEADER_SIZE,
              if blocks[i].free then Addr(start, blocks, i + 1) else Addr(start, blocks, i) + HEADER_SIZE);
    InsideKeeps(start, blocks, mem, after, i);
  }

  /** The stores of a split. */
  lemma SplitStored(mem: Memory, a: nat, size: Uint32, rest: Uint32, left: Uint32, next: Uint32)
    requires rest == a + HEADER_SIZE + size
    ensures var m := Store(Store(Store(StoreHeader(mem, rest, left, 1, next), a + 8, rest), a, size), a + 4, 0);
            && HeaderAt(m, a, Block(size, false), rest) && HeaderAt(m, rest, Block(left, true), next)
            && Only(mem, m, a, rest + HEADER_SIZE)
  {
    hide Word, StoreHeader, Store;
    var m0 := StoreHeader(mem, rest, left, 1, next);
    HeaderStored(mem, rest, left, 1, next);
    var m1 := Store(m0, a + 8, rest);
    var m2 := Store(m1, a, size);
    var m3 := Store(m2, a + 4, 0);
    WordStored(m0, a + 8, rest);
    WordStored(m1, a, size);
    WordStored(m2, a + 4, 0);
    StoreOnly(m0, a + 8, rest);
    StoreOnly(m1, a, size);
    StoreOnly(m2, a + 4, 0);
    WordSame(m1, m2, a + 8);
    WordSame(m2, m3, a + 8);
    WordSame(m2, m3, a);
    HeaderSame(m0, m3, rest, Block(left, true), next);
  }

  lemma SplitOk(mem: Memory, after: Memory, start: nat, blocks: seq<Block>, brk: nat, head: nat, tail: nat, i: nat,
                size: nat, next: Uint32)
    requires Tiles(mem, start, blocks, brk, head, tail) && Merged(blocks) && i < |blocks| && blocks[i].free
    requires blocks[i].size >= size + MIN_SPLIT && size % ALIGN == 0 && next == NextOf(start, blocks, i)
    requires Addr(start, blocks, i) + HEADER_SIZE + blocks[i].size <= USER_HEAP_LIMIT
    requires var a, rest := Addr(start, blocks, i), Addr(start, blocks, i) + HEADER_SIZE + size;
             after == Store(Store(Store(StoreHeader(mem, rest, blocks[i].size - size - HEADER_SIZE, 1, next), a + 8,
                                        rest), a, size), a + 4, 0)
    ensures var r := Replaced(blocks, i, 1, SplitBlock(blocks[i], size));
            var a := Addr(start, blocks, i);
            && Tiles(after, start, r, brk, head, if tail == a then a + HEADER_SIZE + size else tail) && Merged(r)
            && LiveKept(start, blocks, mem, after)
            && OneMore(start, blocks, r, a + HEADER_SIZE, size)
  {
    hide Span, Addr, HeaderAt, Store, StoreHeader, IsLive, Only, NextOf, Linked, Merged, Aligned, OneMore;
    var a := Addr(start, blocks, i);
    BlockFacts(mem, start, blocks, brk, head, tail, i);
    SplitStored(mem, a, size, a + HEADER_SIZE + size, blocks[i].size - size - HEADER_SIZE, next);
    AddrNext(start, blocks, i);
    OnlyWider(mem, after, a, a + 2 * HEADER_SIZE + size, Addr(start, blocks, i + 1));
    SplitLinked(mem, after, start, blocks, i, size);
    SplitShape(start, blocks, i, size);
    SplitMerged(blocks, i, size);
    SplitAligned(blocks, i, size);
    SplitLive(start, blocks, i, size);
    InsideKeeps(start, blocks, mem, after, i);
  }

  /** The stores when a block is appended: its header, and the link of the last one before it. */
  lemma GrowStored(mem: Memory, a: nat, size: Uint32, last: nat, b: Block)
    requires a < 0x1_0000_0000 && HeaderAt(mem, last, b, 0) && last + HEADER_SIZE <= a
    ensures var m := Store(StoreHeader(mem, a, size, 0, 0), last + 8, a);
            && HeaderAt(m, a, Block(size, false), 0) && HeaderAt(m, last, b, a)
            && forall x: nat :: !(last + 8 <= x < last + 12) && !(a <= x < a + HEADER_SIZE) ==> m(x) == mem(x)
  {
    hide Word, StoreHeader, Store;
    HeaderStored(mem, a, size, 0, 0);
    var m0 := StoreHeader(mem, a, size, 0, 0);
    WordStored(m0, last + 8, a);
    StoreOnly(m0, last + 8, a);
    var m := Store(m0, last + 8, a);
    HeaderSame(m0, m, a, Block(size, false), 0);
    WordSame(mem, m, last);
    WordSame(mem, m, last + 4);
  }

  /** Writing where no pointer handed out has its bytes. */
  lemma OutsideKeeps(start: nat, blocks: seq<Block>, mem: Memory, after: Memory)
    requires forall x: nat :: x < Addr(start, blocks, |blocks|) && !InHeader(start, blocks, x) ==> after(x) == mem(x)
    ensures LiveKept(start, blocks, mem, after)
  {
    forall p: nat, n: nat | IsLive(start, blocks, p, n) ensures SameIn(mem, after, p, p + n) {
      var j: nat :| LiveAt(start, blocks, p, n, j);
      AddrMono(start, blocks, j, |blocks|);
      hide Span, Addr;
      forall x: nat | p <= x < p + n ensures after(x) == mem(x) {
        NotInHeader(start, blocks, j, x);
      }
    }
  }

  ghost predicate InHeader(start: nat, blocks: seq<Block>, x: nat) {
    exists i :: 0 <= i < |blocks| && Addr(start, blocks, i) <= x < Addr(start, blocks, i) + HEADER_SIZE
  }

  lemma NotInHeader(start: nat, blocks: seq<Block>, j: nat, x: nat)
    requires j < |blocks|
    requires Addr(start, blocks, j) + HEADER_SIZE <= x < Addr(start, blocks, j) + HEADER_SIZE + blocks[j].size
    ensures !InHeader(start, blocks, x)
  {
    hide Span, Addr;
    forall i | 0 <= i < |blocks| ensures !(Addr(start, blocks, i) <= x < Addr(start, blocks, i) + HEADER_SIZE) {
      if i < j { AddrMono(start, blocks, i, j); } else if j < i { AddrMono(start, blocks, j, i); }
    }
  }

  lemma GrowOk(mem: Memory, after: Memory, start: nat, blocks: seq<Block>, brk: nat, head: nat, tail: nat, size: Uint32)
    requires Tiles(mem, start, blocks, brk, head, tail) && Merged(blocks) && size % ALIGN == 0
    requires brk + HEADER_SIZE + size <= USER_HEAP_LIMIT
    requires var m := StoreHeader(mem, brk, size, 0, 0);
             after == if tail != 0 then Store(m, tail + 8, brk) else m
    ensures var r := blocks + [Block(size, false)];
            && Tiles(after, start, r, brk + HEADER_SIZE + size, if tail != 0 then head else brk, brk) && Merged(r)
            && LiveKept(start, blocks, mem, after) && OneMore(start, blocks, r, brk + HEADER_SIZE, size)
  {
    hide Span, Addr, HeaderAt, Store, StoreHeader, IsLive, NextOf, Linked, OneMore, Word, InHeader;
    AddrAppend(start, blocks, Block(size, false), |blocks|);
    GrowLive(start, blocks, size);
    StartAddr(start, blocks);
    HeaderStored(mem, brk, size, 0, 0);
    if blocks != [] {
      var last := |blocks| - 1;
      BlockFacts(mem, start, blocks, brk, head, tail, last);
      AddrNext(start, blocks, last);
      LastNext(start, blocks);
      GrowStored(mem, brk, size, tail, blocks[last]);
      GrowApart(start, blocks, mem, after, tail, brk, size);
    } else {
      NewHeader(mem, brk, size);
      OutsideKeeps(start, blocks, mem, after);
    }
    GrowLinked(mem, after, start, blocks, Block(size, false));
  }

  lemma LastNext(start: nat, blocks: seq<Block>)
    requires blocks != []
    ensures NextOf(start, blocks, |blocks| - 1) == 0
  {}

  lemma NewHeader(mem: Memory, a: nat, size: Uint32)
    ensures HeaderAt(StoreHeader(mem, a, size, 0, 0), a, Block(size, false), 0)
    ensures forall x: nat :: x < a ==> StoreHeader(mem, a, size, 0, 0)(x) == mem(x)
  {
    HeaderStored(mem, a, size, 0, 0);
    hide StoreHeader, Word;
  }

  lemma GrowApart(start: nat, blocks: seq<Block>, mem: Memory, after: Memory, tail: nat, brk: nat, size: nat)
    requires blocks != [] && tail == Addr(start, blocks, |blocks| - 1) && brk == Addr(start, blocks, |blocks|)
    requires forall x: nat :: !(tail + 8 <= x < tail + 12) && !(brk <= x < brk + HEADER_SIZE) ==> after(x) == mem(x)
    ensures forall j :: 0 <= j < |blocks| - 1 ==>
              SameIn(mem, after, Addr(start, blocks, j), Addr(start, blocks, j) + HEADER_SIZE)
    ensures LiveKept(start, blocks, mem, after)
  {
    hide Span, Addr, IsLive;
    forall j | 0 <= j < |blocks| - 1
      ensures SameIn(mem, after, Addr(start, blocks, j), Addr(start, blocks, j) + HEADER_SIZE)
    {
      AddrMono(start, blocks, j, |blocks| - 1);
      AddrNext(start, blocks, |blocks| - 1);
    }
    forall x: nat | x < brk && !InHeader(start, blocks, x) ensures after(x) == mem(x) {}
    OutsideKeeps(start, blocks, mem, after);
  }

  // ---- giving back ----

  /** The same pointers are handed out. */
  ghost predicate SameLive(start: nat, before: seq<Block>, after: seq<Block>) {
    forall q: nat, m: nat :: IsLive(start, before, q, m) <==> IsLive(start, after, q, m)
  }

  /** No two of the first `i` blocks and the one after them are free neighbours. */
  ghost predicate MergedTo(blocks: seq<Block>, i: nat) {
    forall j :: 0 <= j < i && j + 1 < |blocks| ==> !(blocks[j].free && blocks[j + 1].free)
  }

  ghost predicate FreePair(blocks: seq<Block>, i: nat) { i + 1 < |blocks| && blocks[i].free && blocks[i + 1].free }

  ghost function Joined(blocks: seq<Block>, i: nat): seq<Block>
    requires i + 1 < |blocks|
  {
    Replaced(blocks, i, 2, [JoinedBlock(blocks[i], blocks[i + 1])])
  }

  lemma LiveIndex(start: nat, blocks: seq<Block>, p: nat, n: nat) returns (i: nat)
    requires IsLive(start, blocks, p, n)
    ensures i < |blocks| && !blocks[i].free && blocks[i].size == n && p == Addr(start, blocks, i) + HEADER_SIZE
  {
    i :| LiveAt(start, blocks, p, n, i);
  }

  /** A block handed out is taken back. */
  lemma FreedLive(start: nat, blocks: seq<Block>, i: nat)
    requires i < |blocks| && !blocks[i].free
    ensures OneMore(start, blocks[i := Block(blocks[i].size, true)], blocks, Addr(start, blocks, i) + HEADER_SIZE,
                    blocks[i].size)
  {
    hide Addr, OneMore;
    var b := Block(blocks[i].size, true);
    var freed := blocks[i := b];
    assert freed[i := Block(b.size, false)] == blocks;
    FlagAddr(start, blocks, i, b);
    FlagLive(start, freed, i);
  }

  lemma OneMoreSame(start: nat, before: seq<Block>, freed: seq<Block>, last: seq<Block>, p: nat, n: nat)
    requires OneMore(start, freed, before, p, n) && SameLive(start, freed, last)
    ensures OneMore(start, last, before, p, n)
  {
    hide IsLive;
  }

  lemma KeptStep(start: nat, a: seq<Block>, b: seq<Block>, c: seq<Block>, m0: Memory, m1: Memory, m2: Memory)
    requires SameLive(start, a, b) && SameLive(start, b, c) && LiveKept(start, b, m0, m1) && LiveKept(start, c, m1, m2)
    ensures SameLive(start, a, c) && LiveKept(start, c, m0, m2)
  {
    hide IsLive;
  }

  lemma FewerKept(start: nat, before: seq<Block>, freed: seq<Block>, p: nat, n: nat, mem: Memory, after: Memory)
    requires OneMore(start, freed, before, p, n) && LiveKept(start, before, mem, after)
    ensures LiveKept(start, freed, mem, after)
  {
    hide IsLive;
  }

  lemma SameLiveRefl(start: nat, blocks: seq<Block>, mem: Memory)
    ensures SameLive(start, blocks, blocks) && LiveKept(start, blocks, mem, mem)
  {}

  lemma MergedJoin(blocks: seq<Block>, i: nat)
    requires FreePair(blocks, i) && MergedTo(blocks, i)
    ensures MergedTo(Joined(blocks, i), i)
  {}

  lemma MergedNext(blocks: seq<Block>, i: nat)
    requires MergedTo(blocks, i) && i < |blocks| && !FreePair(blocks, i)
    ensures MergedTo(blocks, i + 1)
    ensures i + 1 == |blocks| ==> Merged(blocks)
  {}

  /** The stores of a join. */
  lemma JoinStored(mem: Memory, a: nat, b: Block, link: nat, size: Uint32, next: Uint32)
    requires HeaderAt(mem, a, b, link) && b.free
    ensures var m := Store(Store(mem, a, size), a + 8, next);
            HeaderAt(m, a, Block(size, true), next) && Only(mem, m, a, a + HEADER_SIZE)
  {
    hide Word, Store;
    var m1 := Store(mem, a, size);
    var m2 := Store(m1, a + 8, next);
    WordStored(mem, a, size);
    WordStored(m1, a + 8, next);
    StoreOnly(mem, a, size);
    StoreOnly(m1, a + 8, next);
    WordSame(mem, m1, a + 4);
    WordSame(m1, m2, a + 4);
    WordSame(m1, m2, a);
  }

  lemma JoinOk(mem: Memory, after: Memory, start: nat, blocks: seq<Block>, brk: nat, head: nat, tail: nat, i: nat,
               size: Uint32, next: Uint32)
    requires Tiles(mem, start, blocks, brk, head, tail) && FreePair(blocks, i)
    requires size == blocks[i].size + HEADER_SIZE + blocks[i + 1].size && next == NextOf(start, blocks, i + 1)
    requires after == Store(Store(mem, Addr(start, blocks, i), size), Addr(start, blocks, i) + 8, next)
    ensures var r := Joined(blocks, i);
            && Tiles(after, start, r, brk, head,
                     if tail == Addr(start, blocks, i + 1) then Addr(start, blocks, i) else tail)
            && SameLive(start, blocks, r) && LiveKept(start, r, mem, after)
            && Addr(start, r, i) == Addr(start, blocks, i)
  {
    hide Span, Addr, HeaderAt, Store, IsLive, Only, NextOf, Linked, Aligned, Replaced;
    var a := Addr(start, blocks, i);
    BlockFacts(mem, start, blocks, brk, head, tail, i);
    BlockFacts(mem, start, blocks, brk, head, tail, i + 1);
    JoinStored(mem, a, blocks[i], NextOf(start, blocks, i), size, next);
    JoinLinked(mem, after, start, blocks, i);
    JoinShape(start, blocks, i);
    JoinAligned(blocks, i);
    JoinStart(start, blocks, i);
    forall q: nat, m: nat ensures IsLive(start, blocks, q, m) <==> IsLive(start, Joined(blocks, i), q, m) {
      JoinLive(start, blocks, i, q, m);
    }
    AddrMono(start, blocks, i, i + 1);
    OnlyWider(mem, after, a, a + HEADER_SIZE, Addr(start, blocks, i + 1));
    InsideKeeps(start, blocks, mem, after, i);
  }

  lemma JoinAligned(blocks: seq<Block>, i: nat)
    requires Aligned(blocks) && i + 1 < |blocks|
    ensures Aligned(Joined(blocks, i))
  {
    var r := Joined(blocks, i);
    assert r[i] == JoinedBlock(blocks[i], blocks[i + 1]);
    hide Replaced;
    forall j | 0 <= j < |r| ensures r[j].size % ALIGN == 0 {
      JoinedAt(blocks, i, j);
      if j == i { SumAligned(blocks[i].size, blocks[i + 1].size); }
    }
  }

  lemma JoinedAt(blocks: seq<Block>, i: nat, j: nat)
    requires i + 1 < |blocks| && j < |blocks| - 1
    ensures |Joined(blocks, i)| == |blocks| - 1
    ensures Joined(blocks, i)[j] ==
            if j < i then blocks[j] else if j == i then JoinedBlock(blocks[i], blocks[i + 1]) else blocks[j + 1]
  {}

  lemma SumAligned(a: nat, b: nat)
    requires a % ALIGN == 0 && b % ALIGN == 0
    ensures (a + HEADER_SIZE + b) % ALIGN == 0
  {}

  lemma JoinStart(start: nat, blocks: seq<Block>, i: nat)
    requires i + 1 < |blocks|
    ensures Addr(start, Joined(blocks, i), 0) == start
  {}

  // ---- use by the owner ----

  /** The owner of `p` writes inside its bytes: the list and all other pointers' bytes are kept. */
  lemma OwnerWrites(mem: Memory, after: Memory, start: nat, blocks: seq<Block>, brk: nat, head: nat, tail: nat, p: nat,
                    n: nat)
    requires Tiles(mem, start, blocks, brk, head, tail) && IsLive(start, blocks, p, n) && Only(mem, after, p, p + n)
    ensures Tiles(after, start, blocks, brk, head, tail)
    ensures forall q: nat, m: nat :: IsLive(start, blocks, q, m) && q != p ==> SameIn(mem, after, q, q + m)
  {
    hide Span, Addr, HeaderAt, IsLive;
    var i := LiveIndex(start, blocks, p, n);
    forall j | 0 <= j < |blocks| ensures HeaderAt(after, Addr(start, blocks, j), blocks[j], NextOf(start, blocks, j)) {
      AddrNext(start, blocks, i);
      if j < i { AddrMono(start, blocks, j, i); } else if i < j { AddrMono(start, blocks, i, j); }
      HeaderSame(mem, after, Addr(start, blocks, j), blocks[j], NextOf(start, blocks, j));
    }
    forall q: nat, m: nat | IsLive(start, blocks, q, m) && q != p ensures SameIn(mem, after, q, q + m) {
      LiveDisjoint(start, blocks, p, n, q, m);
    }
  }

  /** All pointers handed out but `gone` stay, with their bytes. */
  ghost predicate OthersStay(start: nat, before: seq<Block>, after: seq<Block>, mem: Memory, now: Memory, gone: nat) {
    forall q: nat, m: nat :: IsLive(start, before, q, m) && q != gone ==>
        IsLive(start, after, q, m) && SameIn(mem, now, q, q + m)
  }

  /** `p` is no longer handed out, `q` with `m` bytes is, and nothing else has changed. */
  ghost predicate Moved(start: nat, before: seq<Block>, after: seq<Block>, p: nat, q: nat, m: nat) {
    && NotLive(start, before, q)
    && forall r: nat, k: nat :: IsLive(start, after, r, k) <==>
           (IsLive(start, before, r, k) && r != p) || (r == q && k == m)
  }

  /** `malloc`, a copy, and `free`. */
  lemma MovedOk(start: nat, b0: seq<Block>, b1: seq<Block>, b2: seq<Block>, m0: Memory, m1: Memory, m2: Memory,
                m3: Memory,
                p: nat, n: nat, q: nat, m: nat)
    requires start % ALIGN == 0 && Aligned(b0) && IsLive(start, b0, p, n) && OneMore(start, b0, b1, q, m)
    requires LiveKept(start, b0, m0, m1)
    requires forall r: nat, k: nat :: IsLive(start, b1, r, k) && r != q ==> SameIn(m1, m2, r, r + k)
    requires OneMore(start, b2, b1, p, n) && LiveKept(start, b2, m2, m3)
    ensures Moved(start, b0, b2, p, q, m) && OthersStay(start, b0, b2, m0, m3, p)
    ensures IsLive(start, b2, q, m) && SameIn(m2, m3, q, q + m) && SameIn(m0, m1, p, p + n)
  {
    hide IsLive, Aligned;
    forall r: nat, k: nat
      ensures IsLive(start, b2, r, k) <==> (IsLive(start, b0, r, k) && r != p) || (r == q && k == m)
    {
      if IsLive(start, b0, r, k) && r == p { LiveDisjoint(start, b0, p, n, r, k); }
    }
  }
}
