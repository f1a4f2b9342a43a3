// The memory of a user program, and a list of blocks in address order whose headers are kept in it.
module UserBlocks {
  import opened ByteMemory

  const HEADER_SIZE := 16
  const ALIGN := 8
  const MIN_SPLIT := 24

  // ---- blocks ----

  datatype Block = Block(size: nat, free: bool)

  /** Bytes the blocks take up, headers included. */
  ghost function Span(blocks: seq<Block>): nat {
    if blocks == [] then 0 else Span(blocks[..|blocks| - 1]) + HEADER_SIZE + blocks[|blocks| - 1].size
  }

  /** Address of block number `i`. */
  ghost function Addr(start: nat, blocks: seq<Block>, i: nat): nat
    requires i <= |blocks|
  {
    start + Span(blocks[..i])
  }

  lemma AddrNext(start: nat, blocks: seq<Block>, i: nat)
    requires i < |blocks|
    ensures Addr(start, blocks, i + 1) == Addr(start, blocks, i) + HEADER_SIZE + blocks[i].size
  {
    assert blocks[..i + 1][..i] == blocks[..i];
  }

  lemma {:induction false} AddrMono(start: nat, blocks: seq<Block>, i: nat, j: nat)
    requires i < j <= |blocks|
    ensures Addr(start, blocks, i) + HEADER_SIZE + blocks[i].size <= Addr(start, blocks, j)
    decreases j
  {
    AddrNext(start, blocks, j - 1);
    if i < j - 1 { AddrMono(start, blocks, i, j - 1); }
  }

  lemma {:induction false} SpanSplit(a: seq<Block>, b: seq<Block>)
    ensures Span(a + b) == Span(a) + Span(b)
    decreases |b|
  {
    if b == [] {
      assert a + b == a;
    } else {
      assert (a + b)[..|a + b| - 1] == a + b[..|b| - 1];
      SpanSplit(a, b[..|b| - 1]);
    }
  }

  /** `blocks` with the `k` blocks from `i` on replaced by `mid`. */
  ghost function Replaced(blocks: seq<Block>, i: nat, k: nat, mid: seq<Block>): (r: seq<Block>)
    requires i + k <= |blocks|
    ensures |r| == |blocks| - k + |mid|
  {
    blocks[..i] + mid + blocks[i + k..]
  }

  /** Blocks that take up the same bytes leave all others where they are. */
  lemma AddrReplaced(start: nat, blocks: seq<Block>, i: nat, k: nat, mid: seq<Block>, j: nat)
    requires i + k <= |blocks| && Span(mid) == Span(blocks[i..i + k]) && j <= |Replaced(blocks, i, k, mid)|
    ensures j <= i ==> Addr(start, Replaced(blocks, i, k, mid), j) == Addr(start, blocks, j)
    ensures j >= i + |mid| ==> Addr(start, Replaced(blocks, i, k, mid), j) == Addr(start, blocks, j - |mid| + k)
  {
    hide Span, Replaced;
    ReplacedTake(blocks, i, k, mid, j);
    if j >= i + |mid| {
      var t := j - |mid| + k;
      SpanSplit(blocks[..i], mid);
      SpanSplit(blocks[..i] + mid, blocks[i + k..t]);
      SpanSplit(blocks[..i], blocks[i..i + k]);
      SpanSplit(blocks[..i] + blocks[i..i + k], blocks[i + k..t]);
    }
  }

  lemma ReplacedTake(blocks: seq<Block>, i: nat, k: nat, mid: seq<Block>, j: nat)
    requires i + k <= |blocks| && j <= |Replaced(blocks, i, k, mid)|
    ensures j <= i ==> Replaced(blocks, i, k, mid)[..j] == blocks[..j]
    ensures j >= i + |mid| ==>
              var t := j - |mid| + k;
              && t <= |blocks| && Replaced(blocks, i, k, mid)[..j] == blocks[..i] + mid + blocks[i + k..t]
              && blocks[..t] == blocks[..i] + blocks[i..i + k] + blocks[i + k..t]
  {}

  /** The header of a block in memory. */
  ghost predicate HeaderAt(mem: Memory, a: nat, b: Block, next: nat) {
    Word(mem, a) == b.size && Word(mem, a + 4) == (if b.free then 1 else 0) && Word(mem, a + 8) == next
  }

  ghost function NextOf(start: nat, blocks: seq<Block>, i: nat): nat
    requires i < |blocks|
  {
    if i + 1 < |blocks| then Addr(start, blocks, i + 1) else 0
  }

  /** All headers are in memory, each naming the next one. */
  ghost predicate Linked(mem: Memory, start: nat, blocks: seq<Block>) {
    forall i :: 0 <= i < |blocks| ==> HeaderAt(mem, Addr(start, blocks, i), blocks[i], NextOf(start, blocks, i))
  }

  ghost predicate Aligned(blocks: seq<Block>) { forall i :: 0 <= i < |blocks| ==> blocks[i].size % ALIGN == 0 }

  /** No two neighbours are both free. */
  ghost predicate Merged(blocks: seq<Block>) {
    forall i :: 0 <= i < |blocks| - 1 ==> !(blocks[i].free && blocks[i + 1].free)
  }

  /** `p` is a pointer handed out, with `n` bytes. */
  ghost predicate LiveAt(start: nat, blocks: seq<Block>, p: nat, n: nat, i: nat) {
    i < |blocks| && !blocks[i].free && p == Addr(start, blocks, i) + HEADER_SIZE && n == blocks[i].size
  }

  ghost predicate IsLive(start: nat, blocks: seq<Block>, p: nat, n: nat) {
    exists i: nat :: LiveAt(start, blocks, p, n, i)
  }

  /** Pointers handed out are aligned, inside the heap, and their bytes are nobody else's. */
  lemma LiveDisjoint(start: nat, blocks: seq<Block>, p: nat, n: nat, q: nat, m: nat)
    requires start % ALIGN == 0 && Aligned(blocks) && IsLive(start, blocks, p, n) && IsLive(start, blocks, q, m)
    ensures p % ALIGN == 0 && start + HEADER_SIZE <= p && p + n <= Addr(start, blocks, |blocks|)
    ensures p == q ==> n == m
    ensures p != q ==> p + n + HEADER_SIZE <= q || q + m + HEADER_SIZE <= p
  {
    var i: nat :| LiveAt(start, blocks, p, n, i);
    var j: nat :| LiveAt(start, blocks, q, m, j);
    AddrAligned(start, blocks, i);
    AddrMono(start, blocks, i, |blocks|);
    if i < j { AddrMono(start, blocks, i, j); } else if j < i { AddrMono(start, blocks, j, i); }
  }

  lemma {:induction false} AddrAligned(start: nat, blocks: seq<Block>, i: nat)
    requires start % ALIGN == 0 && Aligned(blocks) && i <= |blocks|
    ensures Addr(start, blocks, i) % ALIGN == 0
    decreases i
  {
    if i > 0 {
      AddrAligned(start, blocks, i - 1);
      AddrNext(start, blocks, i - 1);
    }
  }

  // ---- writing headers ----

  function StoreHeader(mem: Memory, a: nat, size: Uint32, free: Uint32, next: Uint32): Memory {
    Store(Store(Store(mem, a, size), a + 4, free), a + 8, next)
  }

  lemma HeaderStored(mem: Memory, a: nat, size: Uint32, free: Uint32, next: Uint32)
    ensures var m := StoreHeader(mem, a, size, free, next);
            Word(m, a) == size && Word(m, a + 4) == free && Word(m, a + 8) == next && Only(mem, m, a, a + HEADER_SIZE)
  {
    WordStored(mem, a, size);
    var m1 := Store(mem, a, size);
    WordStored(m1, a + 4, free);
    var m2 := Store(m1, a + 4, free);
    WordStored(m2, a + 8, next);
    WordSame(m1, m2, a);
    WordSame(m2, Store(m2, a + 8, next), a);
    WordSame(m2, Store(m2, a + 8, next), a + 4);
  }

  lemma HeaderSame(mem: Memory, after: Memory, a: nat, b: Block, next: nat)
    requires HeaderAt(mem, a, b, next) && SameIn(mem, after, a, a + HEADER_SIZE)
    ensures HeaderAt(after, a, b, next)
  {
    WordSame(mem, after, a);
    WordSame(mem, after, a + 4);
    WordSame(mem, after, a + 8);
  }

  /** Block `i` is replaced by blocks that take up the same bytes: only headers inside these bytes
      change, and the new ones are there. */
  lemma ReplacedLinked(mem: Memory, after: Memory, start: nat, blocks: seq<Block>, i: nat, k: nat, mid: seq<Block>)
    requires Linked(mem, start, blocks) && k > 0 && i + k <= |blocks| && mid != []
    requires Span(mid) == Span(blocks[i..i + k])
    requires Only(mem, after, Addr(start, blocks, i), Addr(start, blocks, i + k))
    requires var r := Replaced(blocks, i, k, mid);
             forall j :: i <= j < i + |mid| ==> HeaderAt(after, Addr(start, r, j), r[j], NextOf(start, r, j))
    ensures Linked(after, start, Replaced(blocks, i, k, mid))
  {
    var r := Replaced(blocks, i, k, mid);
    forall j | 0 <= j < |r| ensures HeaderAt(after, Addr(start, r, j), r[j], NextOf(start, r, j)) {
      if !(i <= j < i + |mid|) { ReplacedOther(mem, after, start, blocks, i, k, mid, j); }
    }
  }

  lemma ReplacedOther(mem: Memory, after: Memory, start: nat, blocks: seq<Block>, i: nat, k: nat, mid: seq<Block>,
                      j: nat)
    requires Linked(mem, start, blocks) && k > 0 && i + k <= |blocks| && mid != []
    requires Span(mid) == Span(blocks[i..i + k])
    requires Only(mem, after, Addr(start, blocks, i), Addr(start, blocks, i + k))
    requires j < |Replaced(blocks, i, k, mid)| && !(i <= j < i + |mid|)
    ensures var r := Replaced(blocks, i, k, mid);
            HeaderAt(after, Addr(start, r, j), r[j], NextOf(start, r, j))
  {
    hide Span, HeaderAt, Addr;
    var r := Replaced(blocks, i, k, mid);
    var t := if j < i then j else j - |mid| + k;
    AddrReplaced(start, blocks, i, k, mid, j);
    AddrReplaced(start, blocks, i, k, mid, j + 1);
    assert r[j] == blocks[t];
    if j < i { AddrMono(start, blocks, j, i); } else if i + k < t { AddrMono(start, blocks, i + k, t); }
    HeaderSame(mem, after, Addr(start, blocks, t), blocks[t], NextOf(start, blocks, t));
  }

  /** The blocks outside the replaced ones stay handed out. */
  lemma ReplacedLive(start: nat, blocks: seq<Block>, i: nat, k: nat, mid: seq<Block>, p: nat, n: nat)
    requires k > 0 && i + k <= |blocks| && Span(mid) == Span(blocks[i..i + k])
    ensures IsLive(start, Replaced(blocks, i, k, mid), p, n) <==>
              || (exists j: nat :: j < |blocks| && !(i <= j < i + k) && LiveAt(start, blocks, p, n, j))
              || (exists j: nat :: i <= j < i + |mid| && LiveAt(start, Replaced(blocks, i, k, mid), p, n, j))
  {
    hide Span, Addr;
    var r := Replaced(blocks, i, k, mid);
    if IsLive(start, r, p, n) {
      var j: nat :| LiveAt(start, r, p, n, j);
      AddrReplaced(start, blocks, i, k, mid, j);
      if !(i <= j < i + |mid|) { assert LiveAt(start, blocks, p, n, if j < i then j else j - |mid| + k); }
    }
    if t: nat :| t < |blocks| && !(i <= t < i + k) && LiveAt(start, blocks, p, n, t) {
      var j := if t < i then t else t + |mid| - k;
      AddrReplaced(start, blocks, i, k, mid, j);
      assert LiveAt(start, r, p, n, j);
    }
  }

  /** The bytes of all pointers handed out are as before. */
  ghost predicate LiveKept(start: nat, blocks: seq<Block>, mem: Memory, after: Memory) {
    forall p: nat, n: nat :: IsLive(start, blocks, p, n) ==> SameIn(mem, after, p, p + n)
  }

  /** Writing inside one block touches no pointer that is handed out, save that block's if it is. */
  lemma InsideKeeps(start: nat, blocks: seq<Block>, mem: Memory, after: Memory, i: nat)
    requires i < |blocks|
    requires Only(mem, after, Addr(start, blocks, i),
                  if blocks[i].free then Addr(start, blocks, i + 1) else Addr(start, blocks, i) + HEADER_SIZE)
    ensures LiveKept(start, blocks, mem, after)
  {
    forall p: nat, n: nat | IsLive(start, blocks, p, n) ensures SameIn(mem, after, p, p + n) {
      var j: nat :| LiveAt(start, blocks, p, n, j);
      AddrNext(start, blocks, i);
      if i < j { AddrMono(start, blocks, i, j); } else if j < i { AddrMono(start, blocks, j, i); }
    }
  }

  lemma OneSpan(b: Block)
    ensures Span([b]) == HEADER_SIZE + b.size
  {
    assert [b][..0] == [];
  }

  lemma TwoSpan(a: Block, b: Block)
    ensures Span([a, b]) == 2 * HEADER_SIZE + a.size + b.size
  {
    assert [a, b][..1] == [a];
    OneSpan(a);
  }

  /** Block `i` changes its flag. */
  lemma FlagLinked(mem: Memory, after: Memory, start: nat, blocks: seq<Block>, i: nat, b: Block)
    requires Linked(mem, start, blocks) && i < |blocks| && b.size == blocks[i].size
    requires Only(mem, after, Addr(start, blocks, i), Addr(start, blocks, i) + HEADER_SIZE)
    requires HeaderAt(after, Addr(start, blocks, i), b, NextOf(start, blocks, i))
    ensures Linked(after, start, blocks[i := b])
    ensures forall j :: 0 <= j <= |blocks| ==> Addr(start, blocks[i := b], j) == Addr(start, blocks, j)
  {
    hide Span, Addr, HeaderAt, Linked, Only;
    FlagAddr(start, blocks, i, b);
    AddrMono(start, blocks, i, i + 1);
    OnlyWider(mem, after, Addr(start, blocks, i), Addr(start, blocks, i) + HEADER_SIZE, Addr(start, blocks, i + 1));
    ReplacedLinked(mem, after, start, blocks, i, 1, [b]);
  }

  lemma FlagAddr(start: nat, blocks: seq<Block>, i: nat, b: Block)
    requires i < |blocks| && b.size == blocks[i].size
    ensures Span([b]) == Span(blocks[i..i + 1]) && Replaced(blocks, i, 1, [b]) == blocks[i := b]
    ensures forall j :: 0 <= j <= |blocks| ==> Addr(start, blocks[i := b], j) == Addr(start, blocks, j)
  {
    OneSpan(b);
    OneSpan(blocks[i]);
    assert blocks[i..i + 1] == [blocks[i]] && Replaced(blocks, i, 1, [b]) == blocks[i := b];
    hide Span, Addr;
    forall j | 0 <= j <= |blocks| ensures Addr(start, blocks[i := b], j) == Addr(start, blocks, j) {
      AddrReplaced(start, blocks, i, 1, [b], j);
    }
  }

  /** `more` has the pointers of `without` handed out, and in addition `p` with `n` bytes. */
  ghost predicate OneMore(start: nat, without: seq<Block>, more: seq<Block>, p: nat, n: nat) {
    && NotLive(start, without, p)
    && forall q: nat, m: nat :: IsLive(start, more, q, m) <==> IsLive(start, without, q, m) || (q == p && m == n)
  }

  ghost predicate NotLive(start: nat, blocks: seq<Block>, p: nat) { forall n: nat :: !IsLive(start, blocks, p, n) }

  lemma FreeNotLive(start: nat, blocks: seq<Block>, i: nat)
    requires i <= |blocks| && (i < |blocks| ==> blocks[i].free)
    ensures NotLive(start, blocks, Addr(start, blocks, i) + HEADER_SIZE)
  {
    hide Addr;
    var p := Addr(start, blocks, i) + HEADER_SIZE;
    forall n: nat ensures !IsLive(start, blocks, p, n) {
      if j: nat :| LiveAt(start, blocks, p, n, j) {
        if i < j { AddrMono(start, blocks, i, j); } else if j < i { AddrMono(start, blocks, j, i); }
      }
    }
  }

  /** Block `i` is handed out, or taken back. */
  lemma FlagLive(start: nat, blocks: seq<Block>, i: nat)
    requires i < |blocks| && blocks[i].free
    ensures var after, p := blocks[i := Block(blocks[i].size, false)], Addr(start, blocks, i) + HEADER_SIZE;
            OneMore(start, blocks, after, p, blocks[i].size)
  {
    var b := Block(blocks[i].size, false);
    var after := blocks[i := b];
    OneSpan(b);
    OneSpan(blocks[i]);
    assert blocks[i..i + 1] == [blocks[i]] && Replaced(blocks, i, 1, [b]) == after;
    AddrReplaced(start, blocks, i, 1, [b], i);
    FreeNotLive(start, blocks, i);
    forall q: nat, m: nat
      ensures IsLive(start, after, q, m) <==>
                IsLive(start, blocks, q, m) || (q == Addr(start, blocks, i) + HEADER_SIZE && m == blocks[i].size)
    {
      ReplacedLive(start, blocks, i, 1, [b], q, m);
      assert LiveAt(start, after, q, m, i) <==> q == Addr(start, blocks, i) + HEADER_SIZE && m == blocks[i].size;
    }
  }

  // ---- splitting and merging ----

  /** The front of a free block is handed out, the rest stays free. */
  function SplitBlock(b: Block, size: nat): seq<Block>
    requires b.size >= size + HEADER_SIZE
  {
    [Block(size, false), Block(b.size - size - HEADER_SIZE, true)]
  }

  lemma SplitShape(start: nat, blocks: seq<Block>, i: nat, size: nat)
    requires i < |blocks| && blocks[i].size >= size + HEADER_SIZE
    ensures var mid := SplitBlock(blocks[i], size);
            var r := Replaced(blocks, i, 1, mid);
            && Span(mid) == Span(blocks[i..i + 1])
            && Addr(start, r, i) == Addr(start, blocks, i)
            && Addr(start, r, i + 1) == Addr(start, blocks, i) + HEADER_SIZE + size
            && NextOf(start, r, i) == Addr(start, blocks, i) + HEADER_SIZE + size
            && NextOf(start, r, i + 1) == NextOf(start, blocks, i)
            && Addr(start, r, |r|) == Addr(start, blocks, |blocks|)
            && (i + 1 < |blocks| ==> Addr(start, r, |r| - 1) == Addr(start, blocks, |blocks| - 1))
  {
    var mid := SplitBlock(blocks[i], size);
    var r := Replaced(blocks, i, 1, mid);
    assert blocks[i..i + 1] == [blocks[i]];
    OneSpan(blocks[i]);
    TwoSpan(mid[0], mid[1]);
    AddrReplaced(start, blocks, i, 1, mid, i);
    AddrReplaced(start, blocks, i, 1, mid, i + 2);
    AddrReplaced(start, blocks, i, 1, mid, |r|);
    if i + 1 < |blocks| { AddrReplaced(start, blocks, i, 1, mid, |r| - 1); }
    AddrNext(start, r, i);
  }

  lemma SplitLinked(mem: Memory, after: Memory, start: nat, blocks: seq<Block>, i: nat, size: nat)
    requires Linked(mem, start, blocks) && i < |blocks| && blocks[i].size >= size + HEADER_SIZE
    requires Only(mem, after, Addr(start, blocks, i), Addr(start, blocks, i + 1))
    requires var a, rest := Addr(start, blocks, i), Addr(start, blocks, i) + HEADER_SIZE + size;
             && HeaderAt(after, a, Block(size, false), rest)
             && HeaderAt(after, rest, Block(blocks[i].size - size - HEADER_SIZE, true), NextOf(start, blocks, i))
    ensures Linked(after, start, Replaced(blocks, i, 1, SplitBlock(blocks[i], size)))
  {
    hide Span, Addr, HeaderAt, NextOf, Linked, Only;
    SplitShape(start, blocks, i, size);
    ReplacedLinked(mem, after, start, blocks, i, 1, SplitBlock(blocks[i], size));
  }

  lemma SplitLive(start: nat, blocks: seq<Block>, i: nat, size: nat)
    requires i < |blocks| && blocks[i].free && blocks[i].size >= size + HEADER_SIZE
    ensures OneMore(start, blocks, Replaced(blocks, i, 1, SplitBlock(blocks[i], size)),
                    Addr(start, blocks, i) + HEADER_SIZE, size)
  {
    SplitShape(start, blocks, i, size);
    FreeNotLive(start, blocks, i);
    var mid := SplitBlock(blocks[i], size);
    var r := Replaced(blocks, i, 1, mid);
    forall q: nat, m: nat
      ensures IsLive(start, r, q, m) <==>
                IsLive(start, blocks, q, m) || (q == Addr(start, blocks, i) + HEADER_SIZE && m == size)
    {
      ReplacedLive(start, blocks, i, 1, mid, q, m);
      assert LiveAt(start, r, q, m, i) <==> q == Addr(start, blocks, i) + HEADER_SIZE && m == size;
      assert !LiveAt(start, r, q, m, i + 1);
    }
  }

  /** Block `i` and the one behind it, both free, become one. */
  function JoinedBlock(a: Block, b: Block): Block { Block(a.size + HEADER_SIZE + b.size, true) }

  lemma JoinShape(start: nat, blocks: seq<Block>, i: nat)
    requires i + 1 < |blocks|
    ensures var mid := [JoinedBlock(blocks[i], blocks[i + 1])];
            var r := Replaced(blocks, i, 2, mid);
            && Span(mid) == Span(blocks[i..i + 2])
            && Addr(start, r, i) == Addr(start, blocks, i)
            && NextOf(start, r, i) == NextOf(start, blocks, i + 1)
            && Addr(start, r, |r|) == Addr(start, blocks, |blocks|)
            && (i + 2 < |blocks| ==> Addr(start, r, |r| - 1) == Addr(start, blocks, |blocks| - 1))
            && (i + 2 == |blocks| ==> Addr(start, r, |r| - 1) == Addr(start, blocks, i))
            && (i + 1 < |r| ==> Addr(start, r, i + 1) == Addr(start, blocks, i + 2))
  {
    var mid := [JoinedBlock(blocks[i], blocks[i + 1])];
    var r := Replaced(blocks, i, 2, mid);
    assert blocks[i..i + 2] == [blocks[i], blocks[i + 1]];
    OneSpan(mid[0]);
    TwoSpan(blocks[i], blocks[i + 1]);
    AddrReplaced(start, blocks, i, 2, mid, i);
    AddrReplaced(start, blocks, i, 2, mid, i + 1);
    AddrReplaced(start, blocks, i, 2, mid, |r|);
    if i + 2 < |blocks| { AddrReplaced(start, blocks, i, 2, mid, |r| - 1); }
  }

  lemma JoinLinked(mem: Memory, after: Memory, start: nat, blocks: seq<Block>, i: nat)
    requires Linked(mem, start, blocks) && i + 1 < |blocks|
    requires Only(mem, after, Addr(start, blocks, i), Addr(start, blocks, i) + HEADER_SIZE)
    requires HeaderAt(after, Addr(start, blocks, i), JoinedBlock(blocks[i], blocks[i + 1]),
                      NextOf(start, blocks, i + 1))
    ensures Linked(after, start, Replaced(blocks, i, 2, [JoinedBlock(blocks[i], blocks[i + 1])]))
  {
    hide Span, Addr, HeaderAt, NextOf, Linked, Only;
    JoinShape(start, blocks, i);
    AddrMono(start, blocks, i, i + 2);
    OnlyWider(mem, after, Addr(start, blocks, i), Addr(start, blocks, i) + HEADER_SIZE, Addr(start, blocks, i + 2));
    ReplacedLinked(mem, after, start, blocks, i, 2, [JoinedBlock(blocks[i], blocks[i + 1])]);
  }

  lemma JoinLive(start: nat, blocks: seq<Block>, i: nat, q: nat, m: nat)
    requires i + 1 < |blocks| && blocks[i].free && blocks[i + 1].free
    ensures IsLive(start, Replaced(blocks, i, 2, [JoinedBlock(blocks[i], blocks[i + 1])]), q, m) <==>
              IsLive(start, blocks, q, m)
  {
    JoinShape(start, blocks, i);
    var mid := [JoinedBlock(blocks[i], blocks[i + 1])];
    ReplacedLive(start, blocks, i, 2, mid, q, m);
    assert !LiveAt(start, Replaced(blocks, i, 2, mid), q, m, i);
  }
}
