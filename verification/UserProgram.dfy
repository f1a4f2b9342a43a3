// A user program and its named buffers: over every run the heap is a map of independent byte sequences.
module UserProgram {
  import opened Bytes
  import opened ByteMemory
  import opened UserBlocks
  import opened UserHeap
  import opened UserMalloc

  /** A pointer the program holds, and the size it asked for. */
  datatype Buffer = Buffer(p: nat, size: nat)

  datatype Command =
    | Alloc(x: nat, size: Uint32)
    | Clear(x: nat, count: Uint32, size: Uint32)
    | Resize(x: nat, size: Uint32)
    | Drop(x: nat)
    | Put(x: nat, k: nat, b: byte)

  ghost function BytesAt(mem: Memory, p: nat, n: nat): seq<byte> { seq(n, (k: nat) => mem(p + k)) }

  /** The block behind `p` is large enough already. */
  ghost predicate Reaches(start: nat, blocks: seq<Block>, p: nat, size: nat) { Held(start, blocks, Buffer(p, size)) }

  ghost function Changed(s: seq<byte>, k: nat, b: byte): (t: seq<byte>)
    requires k < |s|
    ensures |t| == |s|
  {
    s[k := b]
  }

  ghost predicate Holds(start: nat, blocks: seq<Block>, b: Buffer, n: nat) {
    b.size <= n && IsLive(start, blocks, b.p, n)
  }

  ghost predicate Held(start: nat, blocks: seq<Block>, b: Buffer) { exists n: nat :: Holds(start, blocks, b, n) }

  /** Every buffer is handed out to the program, and no two share their memory. */
  ghost predicate VarsOk(start: nat, blocks: seq<Block>, vars: map<nat, Buffer>) {
    && (forall x :: x in vars ==> Held(start, blocks, vars[x]))
    && (forall x, y :: x in vars && y in vars && x != y ==> vars[x].p != vars[y].p)
  }

  ghost function ContentsOf(mem: Memory, vars: map<nat, Buffer>): map<nat, seq<byte>> {
    map x | x in vars :: BytesAt(mem, vars[x].p, vars[x].size)
  }

  ghost function Zeros(n: nat): seq<byte> { seq(n, (k: nat) => 0) }

  /** Sizes that fit: for another one `malloc` may answer with too little. */
  predicate SizesFit(c: Command) {
    match c
    case Alloc(_, size) => FitsHeap(size)
    case Clear(_, count, size) => Times(count, size) < 0x1_0000_0000 ==> FitsHeap(Times(count, size))
    case Resize(_, size) => FitsHeap(size)
    case Drop(_) => true
    case Put(_, _, _) => true
  }

  /** What a command does to the buffers as byte sequences. */
  ghost predicate Did(c: Command, was: map<nat, seq<byte>>, now: map<nat, seq<byte>>, ok: bool) {
    if !ok then now == was else
    match c
    case Alloc(x, size) => exists s: seq<byte> :: |s| == size && now == was[x := s]
    case Clear(x, count, size) => Times(count, size) < 0x1_0000_0000 && now == was[x := Zeros(Times(count, size))]
    case Resize(x, size) => exists s: seq<byte> :: |s| == size && now == was[x := s] && (x in was ==>
         SamePrefix(was[x], s))
    case Drop(x) => now == was - {x}
    case Put(x, k, b) => x in was && k < |was[x]| && now == was[x := Changed(was[x], k, b)]
  }

  /** A program at some time: the heap, the buffers and what is in them. */
  datatype Moment = Moment(blocks: seq<Block>, brk: nat, vars: map<nat, Buffer>, contents: map<nat, seq<byte>>)

  /** Whether a command succeeds, as `room` says whether there are pages left. */
  ghost predicate Succeeds(start: nat, m: Moment, c: Command, room: bool) {
    match c
    case Alloc(x, size) => size > 0 && !Refused(start, m.blocks, m.brk, size, room)
    case Clear(x, count, size) =>
      0 < Times(count, size) < 0x1_0000_0000 && !Refused(start, m.blocks, m.brk, Times(count, size), room)
    case Resize(x, size) =>
      if x in m.vars then Reaches(start, m.blocks, m.vars[x].p, size) || !Refused(start, m.blocks, m.brk, size, room)
      else size > 0 && !Refused(start, m.blocks, m.brk, size, room)
    case Drop(x) => x in m.vars
    case Put(x, k, b) => x in m.vars && k < m.vars[x].size
  }

  ghost predicate SamePrefix(s: seq<byte>, t: seq<byte>) { forall k :: 0 <= k < |s| && k < |t| ==> t[k] == s[k] }

  /** A buffer gets a pointer; the one it had, if that is `gone`, is given up. */
  lemma VarsSet(start: nat, b0: seq<Block>, b1: seq<Block>, m0: Memory, m1: Memory, vars: map<nat, Buffer>,
                x: nat, gone: nat, p: nat, n: nat, size: nat)
    requires VarsOk(start, b0, vars) && OthersStay(start, b0, b1, m0, m1, gone) && IsLive(start, b1, p, n) && size <= n
    requires gone == 0 || (x in vars && gone == vars[x].p)
    requires p == gone || NotLive(start, b0, p)
    ensures VarsOk(start, b1, vars[x := Buffer(p, size)])
    ensures ContentsOf(m1, vars[x := Buffer(p, size)]) == ContentsOf(m0, vars)[x := BytesAt(m1, p, size)]
  {
    hide IsLive, OthersStay, SameIn;
    var after := vars[x := Buffer(p, size)];
    assert Holds(start, b1, after[x], n);
    forall y | y in vars && y != x
      ensures Held(start, b1, vars[y]) && vars[y].p != p
      ensures BytesAt(m1, vars[y].p, vars[y].size) == BytesAt(m0, vars[y].p, vars[y].size)
    {
      HeldAbove(start, b0, vars[y]);
      VarStays(start, b0, b1, m0, m1, vars, y, gone);
      NotHeld(start, b0, vars[y], p);
    }
  }

  lemma HeldAbove(start: nat, blocks: seq<Block>, b: Buffer)
    requires Held(start, blocks, b)
    ensures b.p >= HEADER_SIZE
  {}

  lemma NotHeld(start: nat, blocks: seq<Block>, b: Buffer, p: nat)
    requires Held(start, blocks, b)
    ensures NotLive(start, blocks, p) ==> b.p != p
  {}

  lemma VarStays(start: nat, b0: seq<Block>, b1: seq<Block>, m0: Memory, m1: Memory, vars: map<nat, Buffer>, y: nat,
                 gone: nat)
    requires y in vars && Held(start, b0, vars[y]) && vars[y].p != gone && OthersStay(start, b0, b1, m0, m1, gone)
    ensures Held(start, b1, vars[y]) && BytesAt(m1, vars[y].p, vars[y].size) == BytesAt(m0, vars[y].p, vars[y].size)
  {
    hide IsLive;
    var n: nat :| Holds(start, b0, vars[y], n);
    assert Holds(start, b1, vars[y], n);
  }

  lemma VarsDrop(start: nat, b0: seq<Block>, b1: seq<Block>, m0: Memory, m1: Memory, vars: map<nat, Buffer>, x: nat)
    requires VarsOk(start, b0, vars) && x in vars && OthersStay(start, b0, b1, m0, m1, vars[x].p)
    ensures VarsOk(start, b1, vars - {x}) && ContentsOf(m1, vars - {x}) == ContentsOf(m0, vars) - {x}
  {
    hide IsLive, OthersStay;
    forall y | y in vars && y != x
      ensures Held(start, b1, vars[y]) && BytesAt(m1, vars[y].p, vars[y].size) == BytesAt(m0, vars[y].p, vars[y].size)
    {
      VarStays(start, b0, b1, m0, m1, vars, y, vars[x].p);
    }
  }

  lemma MoreStay(start: nat, b0: seq<Block>, b1: seq<Block>, m0: Memory, m1: Memory, p: nat, n: nat)
    requires OneMore(start, b0, b1, p, n) && LiveKept(start, b0, m0, m1)
    ensures OthersStay(start, b0, b1, m0, m1, 0) && IsLive(start, b1, p, n) && NotLive(start, b0, p)
  {
    hide IsLive;
  }

  lemma FewerStay(start: nat, b0: seq<Block>, b1: seq<Block>, m0: Memory, m1: Memory, p: nat, n: nat)
    requires OneMore(start, b1, b0, p, n) && LiveKept(start, b1, m0, m1)
    ensures OthersStay(start, b0, b1, m0, m1, p)
  {
    hide IsLive;
  }

  /** A buffer changes in place. */
  lemma PutStay(start: nat, blocks: seq<Block>, m0: Memory, m1: Memory, p: nat, n: nat, k: nat, b: byte)
    requires start % ALIGN == 0 && Aligned(blocks) && IsLive(start, blocks, p, n) && k < n
    requires forall x: nat :: m1(x) == if x == p + k then b else m0(x)
    ensures OthersStay(start, blocks, blocks, m0, m1, p)
  {
    hide IsLive, Aligned;
    forall q: nat, m: nat | IsLive(start, blocks, q, m) && q != p ensures SameIn(m0, m1, q, q + m) {
      LiveDisjoint(start, blocks, p, n, q, m);
    }
  }

  lemma PutBytes(m0: Memory, m1: Memory, p: nat, size: nat, k: nat, b: byte)
    requires k < size && forall x: nat :: m1(x) == if x == p + k then b else m0(x)
    ensures BytesAt(m1, p, size) == Changed(BytesAt(m0, p, size), k, b)
  {}

  lemma ZeroBytes(mem: Memory, p: nat, n: nat)
    requires ZeroIn(mem, p, n)
    ensures BytesAt(mem, p, n) == Zeros(n)
  {}

  lemma CarriedBytes(m0: Memory, m1: Memory, p: nat, q: nat, n: nat, size: nat, asked: nat)
    requires Carried(m0, p, m1, q, n) && size <= n
    ensures SamePrefix(BytesAt(m0, p, size), BytesAt(m1, q, asked))
  {
    var s, t := BytesAt(m0, p, size), BytesAt(m1, q, asked);
    forall k | 0 <= k < |s| && k < |t| ensures t[k] == s[k] {
      assert t[k] == m1(q + k) && s[k] == m0((q + k) - q + p);
    }
  }


  class Program {
    const heap: Heap
    var vars: map<nat, Buffer>

    ghost predicate Valid() reads this, heap { heap.Valid() && VarsOk(heap.start, heap.blocks, vars) }

    ghost function Contents(): map<nat, seq<byte>> reads this, heap { ContentsOf(heap.mem, vars) }

    ghost function Now(): Moment reads this, heap { Moment(heap.blocks, heap.brk, vars, Contents()) }

    constructor (heap: Heap)
      requires heap.Valid()
      ensures this.heap == heap && Valid() && Contents() == map[]
    {
      this.heap := heap;
      vars := map[];
    }

    /** `malloc` into a variable. */
    method Alloc(x: nat, size: Uint32, room: bool) returns (ok: bool)
      requires Valid()
      modifies this, heap
      ensures FitsHeap(size) || !ok ==> Valid() && Did(Command.Alloc(x, size), old(Contents()), Contents(), ok)
      ensures ok == Succeeds(heap.start, old(Now()), Command.Alloc(x, size), room)
    {
      hide IsLive, LiveKept, OneMore, OthersStay, Tiles, Merged, Refused, Rounded, NoFit, FirstFit, VarsOk, ContentsOf;
      hide BytesAt;
      ghost var b0, m0 := heap.blocks, heap.mem;
      ghost var n: nat;
      var p: nat;
      p, n := heap.Malloc(size, room);
      ok := p != 0;
      if ok && FitsHeap(size) {
        MoreStay(heap.start, b0, heap.blocks, m0, heap.mem, p, n);
        VarsSet(heap.start, b0, heap.blocks, m0, heap.mem, vars, x, 0, p, n, size);
        vars := vars[x := Buffer(p, size)];
        BytesLength(heap.mem, p, size);
      }
    }

    method Clear(x: nat, count: Uint32, size: Uint32, room: bool) returns (ok: bool)
      requires Valid()
      modifies this, heap
      ensures SizesFit(Command.Clear(x, count, size)) || !ok ==>
                Valid() && Did(Command.Clear(x, count, size), old(Contents()), Contents(), ok)
      ensures ok == Succeeds(heap.start, old(Now()), Command.Clear(x, count, size), room)
    {
      hide IsLive, LiveKept, OneMore, OthersStay, Tiles, Merged, VarsOk, ContentsOf, BytesAt, Times, Zeros, ZeroIn;
      hide Refused;
      ghost var b0, m0 := heap.blocks, heap.mem;
      ghost var n: nat;
      var p: nat;
      p, n := heap.Calloc(count, size, room);
      ok := p != 0;
      if ok && SizesFit(Command.Clear(x, count, size)) {
        MoreStay(heap.start, b0, heap.blocks, m0, heap.mem, p, n);
        VarsSet(heap.start, b0, heap.blocks, m0, heap.mem, vars, x, 0, p, n, Times(count, size));
        ZeroBytes(heap.mem, p, Times(count, size));
        vars := vars[x := Buffer(p, Times(count, size))];
      }
    }

    method Resize(x: nat, size: Uint32, room: bool) returns (ok: bool)
      requires Valid()
      modifies this, heap
      ensures FitsHeap(size) || !ok ==> Valid() && Did(Command.Resize(x, size), old(Contents()), Contents(), ok)
      ensures ok == Succeeds(heap.start, old(Now()), Command.Resize(x, size), room)
    {
      hide IsLive, LiveKept, OneMore, OthersStay, Linked, Aligned, Addr, Merged, Refused, Reaches, VarsOk, ContentsOf;
      hide BytesAt, Moved, Carried, SamePrefix;
      ghost var b0, m0 := heap.blocks, heap.mem;
      ghost var n: nat, m: nat := 0, 0;
      var p, q := 0, 0;
      if x in vars {
        p := vars[x].p;
        n := HeldBytes(heap.start, b0, vars, x);
        LiveAbove(heap.start, b0, p, n);
        ReachesWhen(heap.start, b0, p, n, size);
      }
      q, m := heap.Realloc(p, size, room, n);
      ok := q != 0;
      if !ok || !FitsHeap(size) {
        return;
      }
      BytesLength(heap.mem, q, size);
      if p == 0 {
        MoreStay(heap.start, b0, heap.blocks, m0, heap.mem, q, m);
        NoVar(m0, vars, x);
        VarsSet(heap.start, b0, heap.blocks, m0, heap.mem, vars, x, 0, q, m, size);
      } else {
        ResizedStay(heap.start, b0, heap.blocks, m0, heap.mem, p, n, q, m, size);
        ContentsAt(m0, vars, x);
        CarriedBytes(m0, heap.mem, p, q, n, vars[x].size, size);
        VarsSet(heap.start, b0, heap.blocks, m0, heap.mem, vars, x, p, q, m, size);
      }
      vars := vars[x := Buffer(q, size)];
    }

    method Drop(x: nat) returns (ok: bool)
      requires Valid()
      modifies this, heap
      ensures Valid() && Did(Command.Drop(x), old(Contents()), Contents(), ok)
      ensures ok == Succeeds(heap.start, old(Now()), Command.Drop(x), true)
    {
      hide IsLive, LiveKept, OneMore, OthersStay, Tiles, Merged, VarsOk, ContentsOf;
      if x !in vars {
        return false;
      }
      ghost var b0, m0 := heap.blocks, heap.mem;
      ghost var n := HeldBytes(heap.start, b0, vars, x);
      LiveAbove(heap.start, b0, vars[x].p, n);
      heap.Free(vars[x].p, n);
      FewerStay(heap.start, b0, heap.blocks, m0, heap.mem, vars[x].p, n);
      VarsDrop(heap.start, b0, heap.blocks, m0, heap.mem, vars, x);
      vars := vars - {x};
      ok := true;
    }

    method Put(x: nat, k: nat, b: byte) returns (ok: bool)
      requires Valid()
      modifies this, heap
      ensures Valid() && Did(Command.Put(x, k, b), old(Contents()), Contents(), ok)
      ensures ok == Succeeds(heap.start, old(Now()), Command.Put(x, k, b), true)
    {
      hide IsLive, LiveKept, OthersStay, Linked, Aligned, Merged, VarsOk, ContentsOf, BytesAt, Addr;
      if x !in vars || k >= vars[x].size {
        return false;
      }
      ghost var blocks, m0 := heap.blocks, heap.mem;
      ghost var n := HeldBytes(heap.start, blocks, vars, x);
      ContentsAt(m0, vars, x);
      heap.Put(vars[x].p, n, k, b);
      PutStay(heap.start, blocks, m0, heap.mem, vars[x].p, n, k, b);
      PutBytes(m0, heap.mem, vars[x].p, vars[x].size, k, b);
      VarsSet(heap.start, blocks, blocks, m0, heap.mem, vars, x, vars[x].p, vars[x].p, n, vars[x].size);
      assert vars[x := Buffer(vars[x].p, vars[x].size)] == vars;
      ok := true;
    }

    method Execute(c: Command, room: bool) returns (ok: bool)
      requires Valid()
      modifies this, heap
      ensures SizesFit(c) || !ok ==> Valid() && Did(c, old(Contents()), Contents(), ok)
      ensures ok == Succeeds(heap.start, old(Now()), c, room)
    {
      hide Program.Valid, Program.Contents, Did, Reaches, Refused;
      match c {
        case Alloc(x, size) => ok := Alloc(x, size, room);
        case Clear(x, count, size) => ok := Clear(x, count, size, room);
        case Resize(x, size) => ok := Resize(x, size, room);
        case Drop(x) => ok := Drop(x);
        case Put(x, k, b) => ok := Put(x, k, b);
      }
    }

    /** Over every run each command succeeds or fails as the heap says, and changes its own buffer and no
        other. A run ends early only where `malloc` answers for a size that does not fit. */
    method Run(cs: seq<Command>, rooms: seq<bool>) returns (oks: seq<bool>, ghost seen: seq<Moment>)
      requires Valid() && |rooms| == |cs|
      modifies this, heap
      ensures |oks| <= |cs| && |seen| == |oks| + 1 && seen[0] == old(Now())
      ensures forall i :: 0 <= i < |oks| ==>
                && oks[i] == Succeeds(heap.start, seen[i], cs[i], rooms[i])
                && Did(cs[i], seen[i].contents, seen[i + 1].contents, oks[i])
      ensures |oks| == |cs| ==> Valid() && seen[|cs|] == Now()
      ensures |oks| < |cs| ==> var n := |oks|; !SizesFit(cs[n]) && Succeeds(heap.start, seen[n], cs[n], rooms[n])
    {
      hide Program.Valid, Program.Contents, Did, SizesFit, Succeeds;
      oks, seen := [], [Now()];
      for i := 0 to |cs|
        invariant Valid() && |oks| == i && |seen| == i + 1 && seen[0] == old(Now()) && seen[i] == Now()
        invariant forall j :: 0 <= j < i ==> oks[j] == Succeeds(heap.start, seen[j], cs[j], rooms[j])
        invariant forall j :: 0 <= j < i ==> Did(cs[j], seen[j].contents, seen[j + 1].contents, oks[j])
      {
        var ok := Execute(cs[i], rooms[i]);
        if ok && !SizesFit(cs[i]) {
          return;
        }
        oks, seen := oks + [ok], seen + [Now()];
      }
    }
  }

  lemma BytesLength(mem: Memory, p: nat, n: nat)
    ensures |BytesAt(mem, p, n)| == n
  {}

  lemma ContentsAt(mem: Memory, vars: map<nat, Buffer>, x: nat)
    requires x in vars
    ensures x in ContentsOf(mem, vars) && ContentsOf(mem, vars)[x] == BytesAt(mem, vars[x].p, vars[x].size)
    ensures |BytesAt(mem, vars[x].p, vars[x].size)| == vars[x].size
  {}

  lemma NoVar(mem: Memory, vars: map<nat, Buffer>, x: nat)
    ensures x !in vars ==> x !in ContentsOf(mem, vars)
  {}

  lemma HeldBytes(start: nat, blocks: seq<Block>, vars: map<nat, Buffer>, x: nat) returns (n: nat)
    requires VarsOk(start, blocks, vars) && x in vars
    ensures IsLive(start, blocks, vars[x].p, n) && vars[x].size <= n
  {
    hide IsLive;
    n :| Holds(start, blocks, vars[x], n);
  }

  lemma LiveAbove(start: nat, blocks: seq<Block>, p: nat, n: nat)
    requires IsLive(start, blocks, p, n)
    ensures p >= HEADER_SIZE
  {}

  lemma ReachesWhen(start: nat, blocks: seq<Block>, p: nat, n: nat, size: nat)
    requires start % ALIGN == 0 && Aligned(blocks) && IsLive(start, blocks, p, n)
    ensures Reaches(start, blocks, p, size) <==> size <= n
  {
    hide IsLive, Aligned;
    if size <= n { assert Holds(start, blocks, Buffer(p, size), n); }
    if m: nat :| Holds(start, blocks, Buffer(p, size), m) { LiveDisjoint(start, blocks, p, n, p, m); }
  }

  lemma ResizedStay(start: nat, b0: seq<Block>, b1: seq<Block>, m0: Memory, m1: Memory, p: nat, n: nat, q: nat, m: nat,
                    size: nat)
    requires IsLive(start, b0, p, n)
    requires size <= n ==> q == p && m == n && m0 == m1 && b0 == b1
    requires size > n ==>
               && size <= m && Moved(start, b0, b1, p, q, m) && OthersStay(start, b0, b1, m0, m1, p)
               && Carried(m0, p, m1, q, n)
    ensures OthersStay(start, b0, b1, m0, m1, p) && Carried(m0, p, m1, q, n) && IsLive(start, b1, q, m) && size <= m
    ensures q == p || NotLive(start, b0, q)
  {
    hide IsLive;
  }
}
