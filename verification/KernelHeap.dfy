// The heap of the kernel: a table with one flag byte for each block of 4096 bytes.
module KernelHeap {
  import opened ByteMemory

  const BLOCK_SIZE := 4096
  const TAKEN: bv8 := 0x01
  const FREE: bv8 := 0x00
  const HAS_NEXT: bv8 := 0x80
  const IS_FIRST: bv8 := 0x40

  const NO_MEMORY: int := -2
  const INVALID_ARG: int := -3

  // ---- the table as a set of runs ----

  /** Runs of blocks handed out: first block to number of blocks. */
  type Runs = map<nat, nat>

  ghost predicate Covers(live: Runs, s: nat, b: nat) { s in live && s <= b < s + live[s] }

  ghost predicate Covered(live: Runs, b: nat) { exists s :: Covers(live, s, b) }

  ghost predicate EndsBefore(live: Runs, s: nat, e: nat) { s in live && s + live[s] == e }

  ghost predicate IsEnd(live: Runs, e: nat) { exists s :: EndsBefore(live, s, e) }

  function Flag(first: bool, more: bool): bv8 {
    if first then (if more then 0xC1 else 0x41) else (if more then 0x81 else 0x01)
  }

  /** The flag byte of block `b`. */
  ghost function FlagOf(live: Runs, b: nat): bv8 {
    if Covered(live, b) then Flag(b in live, !IsEnd(live, b + 1)) else FREE
  }

  ghost predicate RunsOk(total: nat, live: Runs) {
    && (forall s :: s in live ==> live[s] >= 1 && s + live[s] <= total)
    && (forall s, r :: s in live && r in live && s < r ==> s + live[s] <= r)
  }

  /** The table says exactly which runs are handed out. */
  ghost predicate TableOk(table: seq<bv8>, live: Runs) {
    RunsOk(|table|, live) && forall b :: 0 <= b < |table| ==> table[b] == FlagOf(live, b)
  }

  lemma FlagBits(first: bool, more: bool)
    ensures Flag(first, more) & 0x0f == TAKEN && FREE & 0x0f == FREE && TAKEN != FREE
    ensures Flag(first, more) & IS_FIRST != 0 <==> first
    ensures Flag(first, more) & HAS_NEXT != 0 <==> more
    ensures FREE & IS_FIRST == 0 && FREE & HAS_NEXT == 0
  {}

  lemma FlagParts(more: bool)
    ensures Flag(true, more) == if more then TAKEN | IS_FIRST | HAS_NEXT else TAKEN | IS_FIRST
    ensures Flag(false, more) == if more then TAKEN | HAS_NEXT else TAKEN
  {}

  /** Inside a run only its last block ends one. */
  lemma EndOfRun(total: nat, live: Runs, s: nat, b: nat)
    requires RunsOk(total, live) && Covers(live, s, b)
    ensures IsEnd(live, b + 1) <==> b + 1 == s + live[s]
    ensures b in live <==> b == s
  {
    assert b + 1 == s + live[s] ==> EndsBefore(live, s, b + 1);
  }

  /** The flag bytes of a run: bit 6 in the first one, bit 7 in all but the last, bit 0 in all; 0 for free blocks. */
  lemma FlagBytes(table: seq<bv8>, live: Runs, s: nat, b: nat)
    requires TableOk(table, live) && b < |table|
    ensures Covers(live, s, b) ==>
              table[b] == if b == s then (if live[s] > 1 then 0xC1 else 0x41)
                          else if b + 1 < s + live[s] then 0x81 else 0x01
    ensures !Covered(live, b) ==> table[b] == 0x00
  {
    if Covers(live, s, b) { EndOfRun(|table|, live, s, b); }
  }

  /** The table can be read in one way only. */
  lemma OneReading(table: seq<bv8>, a: Runs, b: Runs)
    requires TableOk(table, a) && TableOk(table, b)
    ensures a == b
  {
    forall s | s in a ensures s in b && a[s] <= b[s] { Read(table, a, b, s); }
    forall s | s in b ensures s in a && b[s] <= a[s] { Read(table, b, a, s); }
  }

  lemma Read(table: seq<bv8>, a: Runs, b: Runs, s: nat)
    requires TableOk(table, a) && TableOk(table, b) && s in a
    ensures s in b && a[s] <= b[s]
  {
    hide Flag, Covered, IsEnd;
    assert Covers(a, s, s);
    CoveredBy(a, s, s);
    SameFlag(table, a, b, s);
    if b[s] < a[s] {
      var e := s + b[s] - 1;
      assert Covers(a, s, e) && Covers(b, s, e);
      CoveredBy(a, s, e);
      SameFlag(table, a, b, e);
      EndOfRun(|table|, a, s, e);
      EndOfRun(|table|, b, s, e);
    }
  }

  lemma CoveredBy(live: Runs, s: nat, b: nat)
    requires Covers(live, s, b)
    ensures Covered(live, b)
  {}

  lemma SameFlag(table: seq<bv8>, a: Runs, b: Runs, x: nat)
    requires TableOk(table, a) && TableOk(table, b) && x < |table| && Covered(a, x)
    ensures Covered(b, x) && (x in a <==> x in b) && (IsEnd(a, x + 1) <==> IsEnd(b, x + 1))
  {
    hide Covered, IsEnd, RunsOk;
    assert FlagOf(a, x) == FlagOf(b, x);
    FlagBits(x in a, !IsEnd(a, x + 1));
    FlagBits(x in b, !IsEnd(b, x + 1));
  }

  // ---- what the operations do to the runs ----

  /** Blocks `b` to `b + n - 1` are free. */
  ghost predicate FreeRun(table: seq<bv8>, b: nat, n: nat) {
    b + n <= |table| && forall x :: b <= x < b + n ==> table[x] == FREE
  }

  ghost predicate NoFreeRun(table: seq<bv8>, n: nat) { forall b: nat :: !FreeRun(table, b, n) }

  lemma FreeIsUncovered(table: seq<bv8>, live: Runs, b: nat)
    requires TableOk(table, live) && b < |table|
    ensures table[b] & 0x0f != FREE <==> Covered(live, b)
    ensures table[b] == FREE <==> !Covered(live, b)
    ensures table[b] & 0x0f == TAKEN <==> Covered(live, b)
  {
    hide Covered, IsEnd, RunsOk, Flag;
    FlagBits(b in live, !IsEnd(live, b + 1));
  }

  /** The table with a new run. */
  ghost function WithRun(table: seq<bv8>, b: nat, n: nat): (r: seq<bv8>)
    requires b + n <= |table|
    ensures |r| == |table|
  {
    seq(|table|, (x: nat) requires x < |table| => if b <= x < b + n then Flag(x == b, x + 1 < b + n) else table[x])
  }

  /** The table with blocks marked free. */
  ghost function Cleared(table: seq<bv8>, b: nat, n: nat): (r: seq<bv8>)
    ensures |r| == |table|
  {
    seq(|table|, (x: nat) requires x < |table| => if b <= x < b + n then FREE else table[x])
  }

  lemma RunAdded(table: seq<bv8>, live: Runs, b: nat, n: nat)
    requires TableOk(table, live) && FreeRun(table, b, n) && n >= 1
    ensures TableOk(WithRun(table, b, n), live[b := n]) && b !in live
  {
    hide Flag, Covered, IsEnd;
    var more := live[b := n];
    forall x | b <= x < b + n ensures !Covered(live, x) { FreeIsUncovered(table, live, x); }
    Apart(|table|, live, b, n);
    forall x: nat | x < |table| ensures WithRun(table, b, n)[x] == FlagOf(more, x) {
      if b <= x < b + n {
        assert Covers(more, b, x);
        CoveredBy(more, b, x);
        EndOfRun(|table|, more, b, x);
      } else {
        FlagElsewhere(|table|, live, b, n, x);
      }
    }
  }

  lemma Apart(total: nat, live: Runs, b: nat, n: nat)
    requires RunsOk(total, live) && n >= 1 && b + n <= total && forall x :: b <= x < b + n ==> !Covered(live, x)
    ensures b !in live && RunsOk(total, live[b := n])
  {
    forall s | s in live ensures s + live[s] <= b || b + n <= s {
      if b < s + live[s] && s < b + n {
        var x := if s <= b then b else s;
        assert Covers(live, s, x);
        CoveredBy(live, s, x);
      }
    }
  }

  lemma FlagElsewhere(total: nat, live: Runs, b: nat, n: nat, x: nat)
    requires RunsOk(total, live) && b !in live && RunsOk(total, live[b := n]) && !(b <= x < b + n)
    ensures FlagOf(live[b := n], x) == FlagOf(live, x)
  {
    var more := live[b := n];
    forall s ensures Covers(more, s, x) <==> Covers(live, s, x) {}
    if s :| Covers(live, s, x) {
      assert Covers(more, s, x);
      EndOfRun(total, live, s, x);
      EndOfRun(total, more, s, x);
    }
  }

  lemma RunRemoved(table: seq<bv8>, live: Runs, b: nat)
    requires TableOk(table, live) && b in live
    ensures TableOk(Cleared(table, b, live[b]), live - {b})
  {
    hide Flag;
    var n, less := live[b], live - {b};
    assert less[b := n] == live;
    forall x: nat | x < |table| ensures Cleared(table, b, n)[x] == FlagOf(less, x) {
      if b <= x < b + n {
        assert Covers(live, b, x);
        forall s ensures !Covers(less, s, x) {}
      } else {
        FlagElsewhere(|table|, less, b, n, x);
      }
    }
  }

  /** Blocks handed out then taken back leave the table as it was. */
  lemma BackAgain(table: seq<bv8>, b: nat, n: nat)
    requires FreeRun(table, b, n)
    ensures Cleared(WithRun(table, b, n), b, n) == table
  {}

  // ---- counting ----

  /** Blocks of all runs together. */
  ghost function TotalBlocks(live: Runs): nat
    decreases |live|
  {
    if live == map[] then 0 else
      var s := SomeStart(live);
      assert live.Keys == (live - {s}).Keys + {s};
      live[s] + TotalBlocks(live - {s})
  }

  ghost function SomeStart(live: Runs): (s: nat)
    requires live != map[]
    ensures s in live
  {
    var s :| s in live;
    s
  }

  ghost function UsedBelow(live: Runs, k: nat): set<nat> { set b | 0 <= b < k && Covered(live, b) }

  ghost function Range(b: nat, n: nat): (r: set<nat>)
    ensures |r| == n && forall x: nat :: x in r <==> b <= x < b + n
  {
    if n == 0 then {} else Range(b, n - 1) + {b + n - 1}
  }

  /** The blocks in use are as many as the runs have together. */
  lemma {:induction false} UsedIsTotal(total: nat, live: Runs)
    requires RunsOk(total, live)
    ensures |UsedBelow(live, total)| == TotalBlocks(live)
    decreases |live|
  {
    if live == map[] {
      assert UsedBelow(live, total) == {};
    } else {
      var s := SomeStart(live);
      var less := live - {s};
      assert live.Keys == less.Keys + {s};
      UsedIsTotal(total, less);
      UsedWithout(total, live, s);
    }
  }

  lemma UsedWithout(total: nat, live: Runs, s: nat)
    requires RunsOk(total, live) && s in live
    ensures UsedBelow(live, total) == UsedBelow(live - {s}, total) + Range(s, live[s])
    ensures UsedBelow(live - {s}, total) !! Range(s, live[s])
  {
    hide Range, Covered;
    forall b: nat
      ensures Covered(live, b) <==> Covered(live - {s}, b) || s <= b < s + live[s]
      ensures Covered(live - {s}, b) ==> !(s <= b < s + live[s])
    {
      CoveredWithout(total, live, s, b);
    }
  }

  lemma CoveredWithout(total: nat, live: Runs, s: nat, b: nat)
    requires RunsOk(total, live) && s in live
    ensures Covered(live, b) <==> Covered(live - {s}, b) || s <= b < s + live[s]
    ensures Covered(live - {s}, b) ==> !(s <= b < s + live[s])
  {
    var less := live - {s};
    if r :| Covers(live, r, b) { assert r == s || Covers(less, r, b); }
    if r :| Covers(less, r, b) { assert Covers(live, r, b); }
    if s <= b < s + live[s] { assert Covers(live, s, b); }
  }

  // ---- running out ----

  /** From `l0` to `l1` at most `k` more blocks were handed out, and none was given back. */
  ghost predicate Took(l0: Runs, l1: Runs, k: nat) {
    (forall b :: b in l0 ==> b in l1 && l1[b] == l0[b]) && TotalBlocks(l1) <= TotalBlocks(l0) + k
  }

  lemma TookMore(l0: Runs, l1: Runs, l2: Runs, j: nat, k: nat)
    requires Took(l0, l1, j) && Took(l1, l2, k)
    ensures Took(l0, l2, j + k)
  {
    hide TotalBlocks;
  }

  lemma TookRun(total: nat, live: Runs, b: nat, n: nat)
    requires b !in live && RunsOk(total, live[b := n]) && RunsOk(total, live)
    ensures Took(live, live[b := n], n)
  {
    hide TotalBlocks, UsedBelow, Range;
    TotalWithout(total, live[b := n], b);
    assert live[b := n] - {b} == live;
  }

  /** One of the runs handed out since is given back. */
  lemma TookLess(total: nat, l0: Runs, l1: Runs, b: nat, k: nat)
    requires Took(l0, l1, k) && b in l1 && b !in l0 && RunsOk(total, l1)
    ensures Took(l0, l1 - {b}, k)
  {
    hide TotalBlocks;
    TotalWithout(total, l1, b);
  }

  lemma TotalWithout(total: nat, live: Runs, b: nat)
    requires RunsOk(total, live) && b in live
    ensures TotalBlocks(live) == TotalBlocks(live - {b}) + live[b]
  {
    hide TotalBlocks, UsedBelow, Range;
    UsedIsTotal(total, live);
    UsedIsTotal(total, live - {b});
    UsedWithout(total, live, b);
  }

  /** A heap without a free block stays without one. */
  lemma FullStays(t0: seq<bv8>, l0: Runs, t1: seq<bv8>, l1: Runs, k: nat)
    requires TableOk(t0, l0) && TableOk(t1, l1) && |t0| == |t1| && Took(l0, l1, k) && NoFreeRun(t0, 1)
    ensures NoFreeRun(t1, 1)
  {
    hide TableOk, TotalBlocks, Covered;
    forall b: nat ensures !FreeRun(t1, b, 1) {
      if b < |t1| {
        assert !FreeRun(t0, b, 1);
        FreeIsUncovered(t0, l0, b);
        FreeIsUncovered(t1, l1, b);
        CoveredStays(l0, l1, k, b);
      }
    }
  }

  lemma CoveredStays(l0: Runs, l1: Runs, k: nat, b: nat)
    requires Took(l0, l1, k) && Covered(l0, b)
    ensures Covered(l1, b)
  {
    hide TotalBlocks;
    var s :| Covers(l0, s, b);
    assert Covers(l1, s, b);
  }

  /** Blocks of a run in which `n` in a row are left, whichever `k` of it are taken. */
  function Stretch(k: nat, n: nat): nat { Times(k + 1, n) }

  /** If there is no run of `n` free blocks after `k` blocks were handed out, there was no such stretch before. */
  lemma NoRoomBefore(t0: seq<bv8>, l0: Runs, t1: seq<bv8>, l1: Runs, k: nat, n: nat)
    requires TableOk(t0, l0) && TableOk(t1, l1) && |t0| == |t1| && Took(l0, l1, k) && NoFreeRun(t1, n)
    ensures NoFreeRun(t0, Stretch(k, n))
  {
    hide TableOk, TotalBlocks, Covered, FreeRun;
    var all := Stretch(k, n);
    forall b: nat ensures !FreeRun(t0, b, all) {
      if FreeRun(t0, b, all) {
        var w := Windows(t0, l0, t1, l1, n, b, k + 1);
        TableRuns(t0, l0);
        TableRuns(t1, l1);
        UsedIsTotal(|t0|, l0);
        UsedIsTotal(|t1|, l1);
        forall x | x in UsedBelow(l0, |t0|) ensures x in UsedBelow(l1, |t1|) { CoveredStays(l0, l1, k, x); }
        Cards(w, UsedBelow(l0, |t0|), UsedBelow(l1, |t1|));
        assert false;
      }
    }
  }

  lemma Cards(w: set<nat>, a: set<nat>, b: set<nat>)
    requires w <= b && a <= b && w !! a
    ensures |w| + |a| <= |b|
  {
    var rest := b - (w + a);
    assert b == w + a + rest;
  }

  /** Each of the first `i` stretches of `n` blocks has a block that was handed out since. */
  lemma {:induction false} Windows(t0: seq<bv8>, l0: Runs, t1: seq<bv8>, l1: Runs, n: nat, b: nat, i: nat)
      returns (w: set<nat>)
    requires TableOk(t0, l0) && TableOk(t1, l1) && |t0| == |t1| && NoFreeRun(t1, n) && FreeRun(t0, b, Times(i, n))
    ensures |w| == i && w <= UsedBelow(l1, |t1|) && w !! UsedBelow(l0, |t0|)
    ensures forall x :: x in w ==> x < b + Times(i, n)
  {
    hide TableOk, Covered, FreeRun, NoFreeRun, Times;
    if i == 0 {
      w := {};
    } else {
      LastWindow(t0, b, i, n);
      w := Windows(t0, l0, t1, l1, n, b, i - 1);
      var x := TakenSince(t0, l0, t1, l1, n, b + Times(i - 1, n));
      w := w + {x};
    }
  }

  function Times(i: nat, n: nat): nat { i * n }

  lemma LastWindow(table: seq<bv8>, b: nat, i: nat, n: nat)
    requires i > 0 && FreeRun(table, b, Times(i, n))
    ensures Times(i, n) == Times(i - 1, n) + n
    ensures FreeRun(table, b, Times(i - 1, n)) && FreeRun(table, b + Times(i - 1, n), n)
  {
    assert i * n == (i - 1) * n + n;
    hide Times;
  }

  lemma TakenSince(t0: seq<bv8>, l0: Runs, t1: seq<bv8>, l1: Runs, n: nat, b: nat) returns (x: nat)
    requires TableOk(t0, l0) && TableOk(t1, l1) && |t0| == |t1| && NoFreeRun(t1, n) && FreeRun(t0, b, n)
    ensures b <= x < b + n <= |t0| && Covered(l1, x) && !Covered(l0, x)
  {
    hide TableOk, Covered;
    assert !FreeRun(t1, b, n);
    x :| b <= x < b + n && t1[x] != FREE;
    FreeIsUncovered(t0, l0, x);
    FreeIsUncovered(t1, l1, x);
  }

  lemma StretchMore(j: nat, m: nat, k: nat, n: nat)
    requires j <= k && m <= n
    ensures Stretch(j, m) <= Stretch(k, n) && m <= Stretch(j, m)
  {
    assert (j + 1) * m <= (k + 1) * m <= (k + 1) * n;
    assert (j + 1) * m == j * m + m;
  }

  lemma NoFreeMore(table: seq<bv8>, n: nat, more: nat)
    requires NoFreeRun(table, n) && n <= more
    ensures NoFreeRun(table, more)
  {
    forall b: nat ensures !FreeRun(table, b, more) { assert !FreeRun(table, b, n); }
  }

  // ---- the heap ----

  /** Blocks of the run that starts at address `p`, or 0 if none does. */
  ghost function HeldIn(addr: nat, live: Runs, p: nat): nat {
    if p >= addr && (p - addr) % BLOCK_SIZE == 0 && (p - addr) / BLOCK_SIZE in live then live[(p - addr) / BLOCK_SIZE]
    else 0
  }

  ghost function HeldFn(addr: nat, live: Runs): nat -> nat { (p: nat) => HeldIn(addr, live, p) }

  /** Runs handed out share no byte and lie in the heap. */
  lemma HeldApart(addr: nat, total: nat, live: Runs, p: nat, q: nat)
    requires RunsOk(total, live) && HeldIn(addr, live, p) > 0 && HeldIn(addr, live, q) > 0 && p != q
    ensures addr <= p && p + BLOCK_SIZE * HeldIn(addr, live, p) <= addr + BLOCK_SIZE * total
    ensures p + BLOCK_SIZE * HeldIn(addr, live, p) <= q || q + BLOCK_SIZE * HeldIn(addr, live, q) <= p
  {
    var b, c := (p - addr) / BLOCK_SIZE, (q - addr) / BLOCK_SIZE;
    assert p == addr + BLOCK_SIZE * b && q == addr + BLOCK_SIZE * c;
  }

  lemma BlockAddress(addr: nat, b: nat)
    ensures (addr + BLOCK_SIZE * b - addr) % BLOCK_SIZE == 0 && (addr + BLOCK_SIZE * b - addr) / BLOCK_SIZE == b
  {}

  /** Blocks needed for `size` bytes, rounded up with 32 bits. */
  function BlocksFor(size: Uint32): nat {
    (if size % BLOCK_SIZE > 0 then (size - size % BLOCK_SIZE + BLOCK_SIZE) % 0x1_0000_0000 else size) / BLOCK_SIZE
  }

  lemma BlocksHold(size: Uint32)
    ensures size <= 0xFFFFF000 ==> size <= BlocksFor(size) * BLOCK_SIZE < size + BLOCK_SIZE
    ensures size > 0xFFFFF000 ==> BlocksFor(size) == 0
  {
    var rest := size % BLOCK_SIZE;
    assert size == size / BLOCK_SIZE * BLOCK_SIZE + rest;
    if rest > 0 {
      if size > 0xFFFFF000 {
        assert size - rest + BLOCK_SIZE == 0x1_0000_0000;
      }
    }
  }

  class KHeap {
    var addr: nat
    const entries: array<bv8>
    ghost var live: Runs

    ghost predicate Valid()
      reads this, entries
    {
      && 0 < addr && addr % BLOCK_SIZE == 0 && entries.Length < 0x8000_0000
      && addr + BLOCK_SIZE * entries.Length <= 0x1_0000_0000
      && TableOk(entries[..], live)
    }

    ghost function Held(p: nat): nat
      reads this
    {
      HeldIn(addr, live, p)
    }

    constructor (entries: array<bv8>)
      ensures this.entries == entries
    {
      this.entries := entries;
      addr, live := 0, map[];
    }

    /** `heap_desc_init`: the whole region is free. */
    method Init(start: nat, end: nat) returns (r: int)
      requires 0 < start <= end <= 0x1_0000_0000 && entries.Length < 0x8000_0000
      modifies this, entries
      ensures r == 0 <==>
                start % BLOCK_SIZE == 0 && end % BLOCK_SIZE == 0 && entries.Length == (end - start) / BLOCK_SIZE
      ensures r == 0 ==> Valid() && addr == start && live == map[]
      ensures r != 0 ==> r == INVALID_ARG && addr == old(addr) && entries[..] == old(entries[..]) && live == old(live)
    {
      if start % BLOCK_SIZE != 0 || end % BLOCK_SIZE != 0 {
        return INVALID_ARG;
      }
      if entries.Length != (end - start) / BLOCK_SIZE {
        return INVALID_ARG;
      }
      addr, live := start, map[];
      for i := 0 to entries.Length
        invariant addr == start && live == map[]
        invariant forall x :: 0 <= x < i ==> entries[x] == FREE
      {
        entries[i] := FREE;
      }
      r := 0;
    }

    /** The first run of `n` free blocks, or an error if there is none. */
    method FindFree(n: nat) returns (r: int)
      requires Valid() && n > 0
      ensures r >= 0 ==> FreeRun(entries[..], r, n) && forall b: nat :: b < r ==> !FreeRun(entries[..], b, n)
      ensures r < 0 ==> r == NO_MEMORY && NoFreeRun(entries[..], n)
    {
      hide TableOk;
      ghost var table := entries[..];
      var current := 0;
      var start := -1;
      for i := 0 to entries.Length
        invariant entries[..] == table && current < n
        invariant if start == -1 then current == 0
                  else 0 <= start <= i && current == i - start && FreeRun(table, start, current)
        invariant forall b: nat :: b < (if start == -1 then i else start) ==> !FreeRun(table, b, n)
      {
        FreeIsUncovered(table, live, i);
        if entries[i] & 0x0f != FREE {
          forall b: nat | b <= i ensures !FreeRun(table, b, n) {
            if start != -1 && b >= start { assert b + n > i; }
          }
          current := 0;
          start := -1;
          continue;
        }
        if start == -1 {
          start := i;
        }
        current := current + 1;
        if current == n {
          return start;
        }
      }
      forall b: nat ensures !FreeRun(table, b, n) {}
      r := NO_MEMORY;
    }

    method MarkTaken(start: nat, n: nat)
      requires n >= 1 && start + n <= entries.Length
      modifies entries
      ensures entries[..] == WithRun(old(entries[..]), start, n)
    {
      hide Flag;
      ghost var was := entries[..];
      var last := start + n - 1;
      var entry := TAKEN | IS_FIRST;
      FlagParts(true);
      FlagParts(false);
      if n > 1 {
        entry := entry | HAS_NEXT;
      }
      for i := start to last + 1
        invariant i <= last ==> entry == Flag(i == start, i < last)
        invariant forall x :: start <= x < i ==> entries[x] == Flag(x == start, x < last)
        invariant forall x :: 0 <= x < entries.Length && !(start <= x < i) ==> entries[x] == was[x]
      {
        entries[i] := entry;
        entry := TAKEN;
        if i != last - 1 {
          entry := entry | HAS_NEXT;
        }
      }
    }

    /** `heap_malloc`: first fit; it fails only if there is no large enough run of free blocks. */
    method Malloc(size: Uint32) returns (p: nat)
      requires Valid()
      modifies this`live, entries
      ensures Valid()
      ensures p == 0 <==> BlocksFor(size) == 0 || NoFreeRun(old(entries[..]), BlocksFor(size))
      ensures p == 0 ==> live == old(live) && entries[..] == old(entries[..])
      ensures Took(old(live), live, BlocksFor(size))
      ensures p != 0 ==>
                && old(Held(p)) == 0 && p % BLOCK_SIZE == 0 && addr <= p
                && p + BLOCK_SIZE * BlocksFor(size) <= addr + BLOCK_SIZE * entries.Length
                && var b := (p - addr) / BLOCK_SIZE;
                && FreeRun(old(entries[..]), b, BlocksFor(size))
                && (forall c: nat :: c < b ==> !FreeRun(old(entries[..]), c, BlocksFor(size)))
                && entries[..] == WithRun(old(entries[..]), b, BlocksFor(size))
                && live == old(live)[b := BlocksFor(size)]
      ensures p != 0 ==>
                Held(p) == BlocksFor(size) && forall q: nat :: q != p ==>
                    HeldIn(addr, live, q) == HeldIn(addr, old(live), q)
    {
      hide TableOk, FreeRun, NoFreeRun, WithRun, TotalBlocks, RunsOk;
      var rounded: int := size;
      if size % BLOCK_SIZE > 0 {
        rounded := (size - size % BLOCK_SIZE + BLOCK_SIZE) % 0x1_0000_0000;
      }
      var n := rounded / BLOCK_SIZE;
      if n == 0 {
        return 0;
      }
      var b := FindFree(n);
      if b < 0 {
        return 0;
      }
      RunFits(entries[..], b, n);
      p := addr + BLOCK_SIZE * b;
      BlockAddress(addr, b);
      RunAdded(entries[..], live, b, n);
      TableRuns(entries[..], live);
      TableRuns(WithRun(entries[..], b, n), live[b := n]);
      TookRun(entries.Length, live, b, n);
      NewHeld(addr, live, b, n);
      SomeRun(entries[..], b, n);
      MarkTaken(b, n);
      live := live[b := n];
    }

    method FreeBlocks(p: nat)
      requires Valid() && p >= addr && (p - addr) / BLOCK_SIZE in live
      modifies this`live, entries
      ensures Valid() && live == old(live) - {(p - addr) / BLOCK_SIZE}
      ensures entries[..] == Cleared(old(entries[..]), (p - addr) / BLOCK_SIZE, old(live)[(p - addr) / BLOCK_SIZE])
    {
      hide TableOk, Flag, Covered, IsEnd;
      var b := (p - addr) / BLOCK_SIZE;
      ghost var table, n := entries[..], live[b];
      LiveRun(table, live, b);
      var i := b;
      while i < entries.Length
        invariant b <= i < b + n <= |table| == entries.Length && live == old(live) && addr == old(addr)
        invariant forall x :: 0 <= x < |table| ==> entries[x] == if b <= x < i then FREE else table[x]
        decreases entries.Length - i
      {
        var entry := entries[i];
        RunFlag(table, live, b, i);
        entries[i] := FREE;
        if entry & HAS_NEXT == 0 {
          break;
        }
        i := i + 1;
      }
      assert entries[..] == Cleared(table, b, n);
      RunRemoved(table, live, b);
      live := live - {b};
    }

    /** `heap_free`: a run is given back whole; every other pointer is refused. */
    method Free(p: nat) returns (r: int)
      requires Valid()
      modifies this`live, entries
      ensures Valid() && (r == 0 <==> old(Held(p)) > 0)
      ensures r != 0 ==> r == INVALID_ARG && live == old(live) && entries[..] == old(entries[..])
      ensures r == 0 ==>
                && var b := (p - addr) / BLOCK_SIZE;
                live == old(live) - {b} && b in old(live) && entries[..] == Cleared(old(entries[..]), b, old(live)[b])
      ensures r == 0 ==> Held(p) == 0 && forall q: nat :: q != p ==> HeldIn(addr, live, q) == HeldIn(addr, old(live), q)
    {
      hide TableOk, Flag, Covered, IsEnd, Cleared;
      NotHeldOutside(addr, entries[..], live, p);
      if p < addr || p >= addr + entries.Length * BLOCK_SIZE || (p - addr) % BLOCK_SIZE != 0 {
        return INVALID_ARG;
      }
      var b := (p - addr) / BLOCK_SIZE;
      FirstFlag(entries[..], live, b);
      if entries[b] & IS_FIRST == 0 {
        return INVALID_ARG;
      }
      LiveRun(entries[..], live, b);
      OldHeld(addr, live, p);
      FreeBlocks(p);
      r := 0;
    }

    method Stats() returns (total: nat, used: nat)
      requires Valid()
      ensures total == entries.Length && used == TotalBlocks(live)
    {
      hide TableOk, Covered, TotalBlocks;
      ghost var table := entries[..];
      used := 0;
      assert UsedBelow(live, 0) == {};
      for i := 0 to entries.Length
        invariant entries[..] == table && used == |UsedBelow(live, i)|
      {
        FreeIsUncovered(table, live, i);
        assert UsedBelow(live, i + 1) == if Covered(live, i) then UsedBelow(live, i) + {i} else UsedBelow(live, i);
        if entries[i] & 0x0f == TAKEN {
          used := used + 1;
        }
      }
      TableRuns(table, live);
      UsedIsTotal(entries.Length, live);
      total := entries.Length;
    }

    /** What `malloc` gives and `free` takes back leaves the heap as it was. */
    method MallocThenFree(size: Uint32) returns (p: nat)
      requires Valid()
      modifies this`live, entries
      ensures Valid() && entries[..] == old(entries[..]) && live == old(live)
    {
      hide TableOk, FreeRun, NoFreeRun, WithRun, Cleared;
      ghost var table := entries[..];
      p := Malloc(size);
      if p != 0 {
        ghost var b := (p - addr) / BLOCK_SIZE;
        BlocksPositive(addr, live, p, BlocksFor(size));
        var r := Free(p);
        BackAgain(table, b, BlocksFor(size));
        OneReading(table, old(live), live);
      }
    }
  }

  lemma BlocksPositive(addr: nat, live: Runs, p: nat, n: nat)
    requires HeldIn(addr, live, p) == n
    ensures n > 0 ==> (p - addr) / BLOCK_SIZE in live && live[(p - addr) / BLOCK_SIZE] == n
  {}

  lemma RunFits(table: seq<bv8>, b: nat, n: nat)
    requires FreeRun(table, b, n)
    ensures b + n <= |table|
  {}

  lemma SomeRun(table: seq<bv8>, b: nat, n: nat)
    requires FreeRun(table, b, n)
    ensures !NoFreeRun(table, n)
  {}

  lemma TableRuns(table: seq<bv8>, live: Runs)
    requires TableOk(table, live)
    ensures RunsOk(|table|, live)
  {}

  lemma NewHeld(addr: nat, live: Runs, b: nat, n: nat)
    requires b !in live
    ensures HeldIn(addr, live, addr + BLOCK_SIZE * b) == 0 && HeldIn(addr, live[b := n], addr + BLOCK_SIZE * b) == n
    ensures forall q: nat :: q != addr + BLOCK_SIZE * b ==> HeldIn(addr, live[b := n], q) == HeldIn(addr, live, q)
  {
    BlockAddress(addr, b);
    forall q: nat | q != addr + BLOCK_SIZE * b ensures HeldIn(addr, live[b := n], q) == HeldIn(addr, live, q) {
      AddressOf(addr, q);
    }
  }

  lemma AddressOf(addr: nat, q: nat)
    ensures q >= addr && (q - addr) % BLOCK_SIZE == 0 ==> q == addr + BLOCK_SIZE * ((q - addr) / BLOCK_SIZE)
  {}

  lemma OldHeld(addr: nat, live: Runs, p: nat)
    requires p >= addr && (p - addr) % BLOCK_SIZE == 0
    ensures var less := live - {(p - addr) / BLOCK_SIZE};
            HeldIn(addr, less, p) == 0 && forall q: nat :: q != p ==> HeldIn(addr, less, q) == HeldIn(addr, live, q)
  {
    AddressOf(addr, p);
    var less := live - {(p - addr) / BLOCK_SIZE};
    forall q: nat | q != p ensures HeldIn(addr, less, q) == HeldIn(addr, live, q) {
      AddressOf(addr, q);
    }
  }

  lemma LiveRun(table: seq<bv8>, live: Runs, b: nat)
    requires TableOk(table, live) && b in live
    ensures live[b] >= 1 && b + live[b] <= |table|
  {}

  lemma RunFlag(table: seq<bv8>, live: Runs, b: nat, i: nat)
    requires TableOk(table, live) && b in live && b <= i < b + live[b] <= |table|
    ensures table[i] & HAS_NEXT == 0 <==> i + 1 == b + live[b]
  {
    hide Flag;
    assert Covers(live, b, i);
    EndOfRun(|table|, live, b, i);
    FlagBits(i in live, !IsEnd(live, i + 1));
  }

  lemma FirstFlag(table: seq<bv8>, live: Runs, b: nat)
    requires TableOk(table, live) && b < |table|
    ensures table[b] & IS_FIRST != 0 <==> b in live
  {
    hide Flag;
    FlagBits(b in live, !IsEnd(live, b + 1));
    if b in live { assert Covers(live, b, b); }
  }

  lemma NotHeldOutside(addr: nat, table: seq<bv8>, live: Runs, p: nat)
    requires TableOk(table, live)
    ensures HeldIn(addr, live, p) > 0 <==>
              addr <= p < addr + |table| * BLOCK_SIZE && (p - addr) % BLOCK_SIZE == 0 && (p - addr) / BLOCK_SIZE in live
  {
    AddressOf(addr, p);
  }
}
