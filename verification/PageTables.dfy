// The user part of a page directory, what it maps, and who owns the heap blocks behind it.
module PageTables {
  import opened Bytes
  import opened ByteMemory
  import opened UserLayout

  const PRESENT_ALL := 5
  const WRITABLE := 2
  const TABLE_FLAGS := 7

  /** A page table in the heap block at `at`, or none if that is 0. */
  datatype Table = Table(at: nat, entries: seq<nat>)

  /** A user address space: its directory, the words the processor walks, and its page tables. */
  datatype Space = NoSpace | Space(dir: nat, dirEntry: nat, words: seq<nat>, tables: seq<Table>)

  datatype TaskMem = TaskMem(space: Space, stack: nat)

  predicate InRange(vaddr: nat) { USER_CODE_ADDR <= vaddr < USER_STACK_TOP }

  function PageNumber(vaddr: nat): (pn: nat)
    requires InRange(vaddr)
    ensures pn < USER_PAGES
  {
    (vaddr - USER_CODE_ADDR) / PAGE_SIZE
  }

  /** The walk of the code finds the entry of the page. */
  lemma WalkIndex(vaddr: nat)
    requires InRange(vaddr)
    ensures PageNumber(vaddr) / TABLE_ENTRIES == (vaddr - USER_CODE_ADDR) / (TABLE_ENTRIES * PAGE_SIZE) < USER_TABLES
    ensures PageNumber(vaddr) % TABLE_ENTRIES == vaddr / PAGE_SIZE % TABLE_ENTRIES
    ensures vaddr == USER_CODE_ADDR + PageNumber(vaddr) * PAGE_SIZE + vaddr % PAGE_SIZE
  {}

  // ---- entries ----

  function Frame(e: nat): nat { e - e % PAGE_SIZE }

  predicate Present(e: nat) { e % 2 == 1 }

  predicate CanWriteEntry(e: nat) { e / 2 % 2 == 1 }

  function OrWritable(e: nat): nat { if CanWriteEntry(e) then e else e + WRITABLE }

  /** An entry is empty, or a page for ring 3 with or without leave to write. */
  ghost predicate EntryOk(e: nat) {
    e == 0 || (e >= PAGE_SIZE && (e % PAGE_SIZE == PRESENT_ALL || e % PAGE_SIZE == PRESENT_ALL + WRITABLE))
  }

  lemma EntryBits(base: nat, k: nat)
    requires k < 8
    ensures var e := 4096 * base + k;
            e % PAGE_SIZE == k && e % 2 == k % 2 && e / 2 % 2 == k / 2 % 2 && e - e % PAGE_SIZE == 4096 * base
  {
    LowBits(base, k);
    Half(2048 * base, k);
    Half(1024 * base, k / 2);
  }

  lemma LowBits(base: nat, k: nat)
    requires k < 8
    ensures (4096 * base + k) % 4096 == k
  {}

  lemma Half(a: nat, k: nat)
    ensures (2 * a + k) / 2 == a + k / 2 && (2 * a + k) % 2 == k % 2
  {}

  lemma NewEntry(page: nat)
    requires page % PAGE_SIZE == 0 && page > 0
    ensures var e := page + PRESENT_ALL;
            EntryOk(e) && Present(e) && !CanWriteEntry(e) && Frame(e) == page
  {
    assert page == 4096 * (page / 4096);
    EntryBits(page / 4096, PRESENT_ALL);
  }

  lemma WritableEntry(e: nat)
    requires EntryOk(e) && Present(e)
    ensures var w := OrWritable(e);
            EntryOk(w) && Present(w) && CanWriteEntry(w) && Frame(w) == Frame(e)
  {
    var base := e / 4096;
    assert e == 4096 * base + e % 4096;
    EntryBits(base, PRESENT_ALL);
    EntryBits(base, PRESENT_ALL + WRITABLE);
  }

  // ---- tables ----

  ghost predicate TableShape(t: Table) {
    t.at != 0 ==> |t.entries| == TABLE_ENTRIES && forall j :: 0 <= j < TABLE_ENTRIES ==> EntryOk(t.entries[j])
  }

  /** The directory word of a table, as the processor reads it. */
  function WordOf(t: Table): nat { if t.at == 0 then 0 else t.at + TABLE_FLAGS }

  const FIRST_WORD := 256

  /** The words name the user tables; all others are those of the kernel. */
  ghost predicate WordsOk(words: seq<nat>, kernel: seq<nat>, tables: seq<Table>)
    requires |tables| == USER_TABLES
  {
    && |words| == |kernel| == TABLE_ENTRIES
    && forall k :: 0 <= k < TABLE_ENTRIES ==>
         words[k] == if FIRST_WORD <= k < FIRST_WORD + USER_TABLES then WordOf(tables[k - FIRST_WORD]) else kernel[k]
  }

  ghost predicate ShapeOk(sp: Space, kernel: seq<nat>) {
    sp.Space? ==>
      && sp.dir != 0 && |sp.tables| == USER_TABLES && (forall i :: 0 <= i < USER_TABLES ==> TableShape(sp.tables[i]))
      && WordsOk(sp.words, kernel, sp.tables)
  }

  ghost predicate Tabled(sp: Space) {
    sp.Space? ==> |sp.tables| == USER_TABLES && forall i :: 0 <= i < USER_TABLES ==> TableShape(sp.tables[i])
  }

  /** The page table entry of a page, 0 if there is no table. */
  ghost function Entry(sp: Space, pn: nat): nat
    requires Tabled(sp)
  {
    if sp.NoSpace? || pn >= USER_PAGES then 0 else
      var t := sp.tables[pn / TABLE_ENTRIES];
      assert TableShape(t);
      if t.at == 0 then 0 else t.entries[pn % TABLE_ENTRIES]
  }

  ghost predicate Mapped(sp: Space, pn: nat)
    requires Tabled(sp)
  {
    Present(Entry(sp, pn))
  }

  ghost predicate CanWrite(sp: Space, pn: nat)
    requires Tabled(sp)
  {
    CanWriteEntry(Entry(sp, pn))
  }

  lemma EntryIsOk(sp: Space, pn: nat)
    requires Tabled(sp)
    ensures EntryOk(Entry(sp, pn))
  {}

  function ZeroEntries(): (r: seq<nat>)
    ensures |r| == TABLE_ENTRIES
  {
    seq(TABLE_ENTRIES, (k: nat) => 0)
  }

  /** A new table is hooked in. */
  function WithTable(sp: Space, idx: nat, at: nat): Space
    requires sp.Space? && idx < |sp.tables| == USER_TABLES && |sp.words| == TABLE_ENTRIES
  {
    sp.(tables := sp.tables[idx := Table(at, ZeroEntries())], words := sp.words[FIRST_WORD + idx := at + TABLE_FLAGS])
  }

  /** An entry is stored. */
  function WithEntry(sp: Space, idx: nat, j: nat, e: nat): Space
    requires sp.Space? && idx < |sp.tables| && j < |sp.tables[idx].entries|
  {
    sp.(tables := sp.tables[idx := sp.tables[idx].(entries := sp.tables[idx].entries[j := e])])
  }

  lemma TableHooked(sp: Space, kernel: seq<nat>, idx: nat, at: nat)
    requires ShapeOk(sp, kernel) && sp.Space? && idx < USER_TABLES && sp.tables[idx].at == 0 && at > 0
    ensures var r := WithTable(sp, idx, at);
            ShapeOk(r, kernel) && forall pn: nat :: Entry(r, pn) == Entry(sp, pn)
  {
    var r := WithTable(sp, idx, at);
    assert forall i :: 0 <= i < USER_TABLES ==>
        r.tables[i] == if i == idx then Table(at, ZeroEntries()) else sp.tables[i];
  }

  lemma EntryStored(sp: Space, kernel: seq<nat>, pn: nat, e: nat)
    requires ShapeOk(sp, kernel) && sp.Space? && pn < USER_PAGES && sp.tables[pn / TABLE_ENTRIES].at != 0 && EntryOk(e)
    ensures var r := WithEntry(sp, pn / TABLE_ENTRIES, pn % TABLE_ENTRIES, e);
            ShapeOk(r, kernel) && forall q: nat :: Entry(r, q) == if q == pn then e else Entry(sp, q)
  {
    hide EntryOk;
    var r := WithEntry(sp, pn / TABLE_ENTRIES, pn % TABLE_ENTRIES, e);
    assert forall i :: 0 <= i < USER_TABLES && i != pn / TABLE_ENTRIES ==> r.tables[i] == sp.tables[i];
    forall q: nat ensures Entry(r, q) == if q == pn then e else Entry(sp, q) {
      if q / TABLE_ENTRIES == pn / TABLE_ENTRIES && q % TABLE_ENTRIES == pn % TABLE_ENTRIES { SamePlace(pn, q); }
    }
  }

  lemma SamePlace(a: nat, b: nat)
    requires a / TABLE_ENTRIES == b / TABLE_ENTRIES && a % TABLE_ENTRIES == b % TABLE_ENTRIES
    ensures a == b
  {}

  // ---- what a program sees ----

  /** The byte a program reads at `a`; 0 where nothing is mapped. */
  ghost function UserByte(mem: Memory, sp: Space, a: nat): byte
    requires Tabled(sp)
  {
    if InRange(a) && Mapped(sp, PageNumber(a)) then mem(Frame(Entry(sp, PageNumber(a))) + a % PAGE_SIZE) else 0
  }

  /** Some of the `n` bytes at `vaddr` lie in the page. */
  ghost predicate Touches(pn: nat, vaddr: nat, n: nat) {
    && n > 0 && USER_CODE_ADDR + pn * PAGE_SIZE < vaddr + n && vaddr < USER_CODE_ADDR + (pn + 1) * PAGE_SIZE
  }

  lemma TouchesBoth(pn: nat, vaddr: nat, n: nat, m: nat)
    ensures Touches(pn, vaddr, n + m) <==> Touches(pn, vaddr, n) || Touches(pn, vaddr + n, m)
  {}

  lemma TouchesOne(pn: nat, vaddr: nat, n: nat)
    requires InRange(vaddr) && 0 < n <= PAGE_SIZE - vaddr % PAGE_SIZE
    ensures Touches(pn, vaddr, n) <==> pn == PageNumber(vaddr)
  {}

  /** Exactly the pages of these bytes are mapped in addition, and may be written if `w`. */
  ghost predicate MapsMore(sp: Space, now: Space, vaddr: nat, n: nat, w: bool) {
    && Tabled(sp) && Tabled(now)
    && (forall pn: nat :: pn < USER_PAGES ==> (Mapped(now, pn) <==> Mapped(sp, pn) || Touches(pn, vaddr, n)))
    && (forall pn: nat :: pn < USER_PAGES ==> (CanWrite(now, pn) <==> CanWrite(sp, pn) || (w && Touches(pn, vaddr, n))))
  }

  /** The bytes from `vaddr` on are `src`, if it is given; all others are as before. */
  ghost predicate SeesCopy(mem: Memory, sp: Space, after: Memory, now: Space, vaddr: nat, src: seq<byte>) {
    && Tabled(sp) && Tabled(now)
    && forall a: nat :: UserByte(after, now, a) == if vaddr <= a < vaddr + |src| then src[a - vaddr]
                                                   else UserByte(mem, sp, a)
  }

  lemma MapsMoreBoth(a: Space, b: Space, c: Space, vaddr: nat, n: nat, m: nat, w: bool)
    requires MapsMore(a, b, vaddr, n, w) && MapsMore(b, c, vaddr + n, m, w)
    ensures MapsMore(a, c, vaddr, n + m, w)
  {
    hide Touches, Mapped, CanWrite, Tabled;
    forall pn: nat ensures Touches(pn, vaddr, n + m) <==> Touches(pn, vaddr, n) || Touches(pn, vaddr + n, m) {
      TouchesBoth(pn, vaddr, n, m);
    }
  }

  lemma MapsNone(sp: Space, vaddr: nat, w: bool)
    requires Tabled(sp)
    ensures MapsMore(sp, sp, vaddr, 0, w)
  {}

  lemma SeesBoth(m0: Memory, a: Space, m1: Memory, b: Space, m2: Memory, c: Space, vaddr: nat, first: seq<byte>,
                 second: seq<byte>)
    requires SeesCopy(m0, a, m1, b, vaddr, first) && SeesCopy(m1, b, m2, c, vaddr + |first|, second)
    ensures SeesCopy(m0, a, m2, c, vaddr, first + second)
  {
    hide UserByte, Tabled;
  }

  lemma SeesNothing(m0: Memory, a: Space, m1: Memory, b: Space, m2: Memory, c: Space, vaddr: nat)
    requires SeesCopy(m0, a, m1, b, vaddr, []) && SeesCopy(m1, b, m2, c, vaddr, [])
    ensures SeesCopy(m0, a, m2, c, vaddr, [])
  {
    hide UserByte, Tabled;
  }

  // ---- owners of heap blocks ----

  datatype Slot = PageSlot(pn: nat) | TableSlot(i: nat) | WordsSlot | DirSlot | StackSlot

  ghost predicate TasksTabled(tasks: seq<TaskMem>) { forall t :: 0 <= t < |tasks| ==> Tabled(tasks[t].space) }

  /** The heap block in a slot of a task, 0 if there is none. */
  ghost function At(task: TaskMem, s: Slot): nat
    requires Tabled(task.space)
  {
    if s.StackSlot? then task.stack
    else if task.space.NoSpace? then 0
    else if s.DirSlot? then task.space.dir
    else if s.WordsSlot? then task.space.dirEntry
    else if s.TableSlot? then (if s.i < USER_TABLES then task.space.tables[s.i].at else 0)
    else if Mapped(task.space, s.pn) then Frame(Entry(task.space, s.pn)) else 0
  }

  ghost predicate Owns(tasks: seq<TaskMem>, t: nat, s: Slot, p: nat)
    requires TasksTabled(tasks)
  {
    t < |tasks| && p != 0 && At(tasks[t], s) == p
  }

  /** Task `t` owns the block at `p`. */
  ghost predicate OwnedBy(tasks: seq<TaskMem>, t: nat, p: nat)
    requires TasksTabled(tasks)
  {
    exists s :: Owns(tasks, t, s, p)
  }

  /** Blocks handed out lie apart, on page boundaries. `held` is the number of pages of the run at an address. */
  ghost predicate BlocksApart(held: nat -> nat) {
    && (forall p: nat :: held(p) > 0 ==> p > 0 && p % PAGE_SIZE == 0)
    && (forall p: nat, q: nat :: held(p) > 0 && held(q) > 0 && p < q ==> p + PAGE_SIZE * held(p) <= q)
  }

  /** What tasks own is handed out, and in one slot of one task only. */
  ghost predicate OwnsOk(held: nat -> nat, tasks: seq<TaskMem>) {
    && TasksTabled(tasks)
    && (forall t: nat, s, p: nat :: Owns(tasks, t, s, p) ==> held(p) > 0)
    && (forall t: nat, s, u: nat, r, p: nat :: Owns(tasks, t, s, p) && Owns(tasks, u, r, p) ==> t == u && s == r)
  }

  /** Only task `t` has got more: what is newly handed out is its own, and nothing is given back. */
  ghost predicate Grew(held: nat -> nat, tasks: seq<TaskMem>, more: nat -> nat, now: seq<TaskMem>, t: nat) {
    && TasksTabled(tasks) && TasksTabled(now) && |now| == |tasks| && t < |tasks|
    && (forall u: nat :: u < |tasks| && u != t ==> now[u] == tasks[u])
    && (forall p: nat :: held(p) > 0 ==> more(p) == held(p))
    && (forall p: nat :: held(p) == 0 && more(p) > 0 ==> OwnedBy(now, t, p))
    && (forall s, p: nat :: Owns(tasks, t, s, p) ==> Owns(now, t, s, p))
    && (forall s, p: nat :: Owns(now, t, s, p) ==> Owns(tasks, t, s, p) || held(p) == 0)
  }

  lemma GrewSame(held: nat -> nat, tasks: seq<TaskMem>, t: nat)
    requires TasksTabled(tasks) && t < |tasks|
    ensures Grew(held, tasks, held, tasks, t)
  {}

  lemma GrewTwice(h0: nat -> nat, a: seq<TaskMem>, h1: nat -> nat, b: seq<TaskMem>, h2: nat -> nat, c: seq<TaskMem>,
                  t: nat)
    requires Grew(h0, a, h1, b, t) && Grew(h1, b, h2, c, t)
    ensures Grew(h0, a, h2, c, t)
  {
    hide TasksTabled, Owns;
    forall p: nat | h0(p) == 0 && h2(p) > 0 ensures OwnedBy(c, t, p) {
      if h1(p) > 0 {
        var s :| Owns(b, t, s, p);
        assert Owns(c, t, s, p);
      }
    }
  }

  /** One slot gets a block that was not handed out before. */
  lemma SlotFilled(held: nat -> nat, tasks: seq<TaskMem>, more: nat -> nat, now: seq<TaskMem>, t: nat, s: Slot, p: nat)
    requires OwnsOk(held, tasks) && TasksTabled(now) && |now| == |tasks| && t < |tasks| && p > 0
    requires forall u: nat :: u < |tasks| && u != t ==> now[u] == tasks[u]
    requires At(tasks[t], s) == 0 && At(now[t], s) == p && forall r :: r != s ==> At(now[t], r) == At(tasks[t], r)
    requires held(p) == 0 && more(p) > 0 && forall q: nat :: q != p ==> more(q) == held(q)
    ensures OwnsOk(more, now) && Grew(held, tasks, more, now, t)
  {
    hide At, TasksTabled;
    assert Owns(now, t, s, p);
    forall u: nat, r, q: nat ensures Owns(now, u, r, q) <==> Owns(tasks, u, r, q) || (u == t && r == s && q == p) {}
  }

  /** Blocks in the slots do not change. */
  lemma SlotsSame(held: nat -> nat, tasks: seq<TaskMem>, now: seq<TaskMem>, t: nat)
    requires OwnsOk(held, tasks) && TasksTabled(now) && |now| == |tasks| && t < |tasks|
    requires forall u: nat :: u < |tasks| && u != t ==> now[u] == tasks[u]
    requires forall r :: At(now[t], r) == At(tasks[t], r)
    ensures OwnsOk(held, now) && Grew(held, tasks, held, now, t)
  {
    hide At, TasksTabled;
    forall u: nat, r, q: nat ensures Owns(now, u, r, q) <==> Owns(tasks, u, r, q) {}
  }

  /** Memory handed out that is no page of task `t` is as before. */
  ghost predicate Untouched(held: nat -> nat, now: seq<TaskMem>, t: nat, mem: Memory, after: Memory)
    requires TasksTabled(now)
  {
    forall p: nat, x: nat :: held(p) > 0 && p <= x < p + PAGE_SIZE * held(p) && !IsPage(now, t, p) ==>
        after(x) == mem(x)
  }

  ghost predicate IsPage(tasks: seq<TaskMem>, t: nat, p: nat)
    requires TasksTabled(tasks)
  {
    exists pn: nat :: Owns(tasks, t, PageSlot(pn), p)
  }

  lemma UntouchedTwice(h0: nat -> nat, a: seq<TaskMem>, h1: nat -> nat, b: seq<TaskMem>, h2: nat -> nat,
                       c: seq<TaskMem>, t: nat,
                       m0: Memory, m1: Memory, m2: Memory)
    requires Grew(h0, a, h1, b, t) && Grew(h1, b, h2, c, t)
    requires Untouched(h0, b, t, m0, m1) && Untouched(h1, c, t, m1, m2)
    ensures Untouched(h0, c, t, m0, m2)
  {
    hide TasksTabled, Owns;
    forall p: nat | IsPage(b, t, p) ensures IsPage(c, t, p) {
      var pn: nat :| Owns(b, t, PageSlot(pn), p);
      assert Owns(c, t, PageSlot(pn), p);
    }
  }

  /** Task `t` has got more memory, and only its own pages and memory that was free have changed. */
  ghost predicate Extends(held: nat -> nat, tasks: seq<TaskMem>, mem: Memory, more: nat -> nat, now: seq<TaskMem>,
                          after: Memory, t: nat) {
    Grew(held, tasks, more, now, t) && Untouched(held, now, t, mem, after)
  }

  lemma ExtendsTwice(h0: nat -> nat, a: seq<TaskMem>, m0: Memory, h1: nat -> nat, b: seq<TaskMem>, m1: Memory,
                     h2: nat -> nat, c: seq<TaskMem>, m2: Memory, t: nat)
    requires Extends(h0, a, m0, h1, b, m1, t) && Extends(h1, b, m1, h2, c, m2, t)
    ensures Extends(h0, a, m0, h2, c, m2, t)
  {
    hide Grew, Untouched;
    GrewTwice(h0, a, h1, b, h2, c, t);
    UntouchedTwice(h0, a, h1, b, h2, c, t, m0, m1, m2);
  }

  lemma ExtendsNot(held: nat -> nat, tasks: seq<TaskMem>, mem: Memory, t: nat)
    requires TasksTabled(tasks) && t < |tasks|
    ensures Extends(held, tasks, mem, held, tasks, mem, t)
  {
    GrewSame(held, tasks, t);
  }

  /** Other tasks see the same bytes. */
  lemma OthersSee(held: nat -> nat, tasks: seq<TaskMem>, more: nat -> nat, now: seq<TaskMem>, t: nat, mem: Memory,
                  after: Memory, u: nat, a: nat)
    requires OwnsOk(held, tasks) && OwnsOk(more, now) && Extends(held, tasks, mem, more, now, after, t)
    requires u < |tasks| && u != t
    ensures now[u] == tasks[u] && UserByte(after, now[u].space, a) == UserByte(mem, tasks[u].space, a)
  {
    hide Tabled, Mapped, Entry, TasksTabled;
    TabledAt(tasks, u);
    var sp := tasks[u].space;
    if InRange(a) && Mapped(sp, PageNumber(a)) {
      var pn := PageNumber(a);
      PageAt(tasks[u], pn);
      var p := At(tasks[u], PageSlot(pn));
      assert Owns(tasks, u, PageSlot(pn), p) && Owns(now, u, PageSlot(pn), p);
      assert !IsPage(now, t, p);
      assert p <= p + a % PAGE_SIZE < p + PAGE_SIZE * held(p);
    }
  }

  lemma TabledAt(tasks: seq<TaskMem>, t: nat)
    requires TasksTabled(tasks) && t < |tasks|
    ensures Tabled(tasks[t].space)
  {}

  lemma PageAt(task: TaskMem, pn: nat)
    requires Tabled(task.space)
    ensures Mapped(task.space, pn) ==>
              task.space.Space? && pn < USER_PAGES && At(task, PageSlot(pn)) == Frame(Entry(task.space, pn)) > 0
  {
    EntryIsOk(task.space, pn);
  }

  /** No two user addresses, of one task or of two, are the same byte of memory. */
  lemma FramesApart(held: nat -> nat, tasks: seq<TaskMem>, t: nat, a: nat, u: nat, b: nat)
    requires OwnsOk(held, tasks) && BlocksApart(held) && t < |tasks| && u < |tasks| && InRange(a) && InRange(b)
    requires Mapped(tasks[t].space, PageNumber(a)) && Mapped(tasks[u].space, PageNumber(b))
    requires Frame(Entry(tasks[t].space, PageNumber(a))) + a % PAGE_SIZE
             == Frame(Entry(tasks[u].space, PageNumber(b))) + b % PAGE_SIZE
    ensures t == u && a == b
  {
    hide Tabled, Entry, Present, Frame;
    OwnedByte(held, tasks, t, a);
    OwnedByte(held, tasks, u, b);
    WalkIndex(a);
    WalkIndex(b);
  }

  // ---- steps ----

  /** All memory handed out is as before. */
  ghost predicate AllKept(held: nat -> nat, mem: Memory, after: Memory) {
    forall p: nat, x: nat :: held(p) > 0 && p <= x < p + PAGE_SIZE * held(p) ==> after(x) == mem(x)
  }

  lemma FreshKeeps(held: nat -> nat, more: nat -> nat, p: nat, mem: Memory, after: Memory)
    requires BlocksApart(more) && held(p) == 0 && more(p) > 0 && forall q: nat :: q != p ==> more(q) == held(q)
    requires Only(mem, after, p, p + PAGE_SIZE * more(p))
    ensures AllKept(held, mem, after)
  {}

  lemma KeptIsUntouched(held: nat -> nat, now: seq<TaskMem>, t: nat, mem: Memory, after: Memory)
    requires TasksTabled(now) && AllKept(held, mem, after)
    ensures Untouched(held, now, t, mem, after)
  {}

  lemma OwnsMore(held: nat -> nat, more: nat -> nat, tasks: seq<TaskMem>)
    requires OwnsOk(held, tasks) && forall p: nat :: held(p) > 0 ==> more(p) == held(p)
    ensures OwnsOk(more, tasks)
  {
    hide Owns, TasksTabled;
  }

  /** The program sees the same pages and bytes. */
  ghost predicate SameView(mem: Memory, sp: Space, after: Memory, now: Space) {
    && Tabled(sp) && Tabled(now) && (forall pn: nat :: Entry(now, pn) == Entry(sp, pn))
    && forall a: nat :: UserByte(after, now, a) == UserByte(mem, sp, a)
  }

  lemma SameViewKept(held: nat -> nat, tasks: seq<TaskMem>, t: nat, mem: Memory, after: Memory, now: Space)
    requires OwnsOk(held, tasks) && t < |tasks| && AllKept(held, mem, after) && Tabled(now)
    requires forall pn: nat :: Entry(now, pn) == Entry(tasks[t].space, pn)
    ensures SameView(mem, tasks[t].space, after, now)
  {
    hide Tabled, Entry, Present;
    TabledAt(tasks, t);
    forall a: nat ensures UserByte(after, now, a) == UserByte(mem, tasks[t].space, a) {
      if InRange(a) && Mapped(tasks[t].space, PageNumber(a)) { OwnedByte(held, tasks, t, a); }
    }
  }

  /** A byte a program can reach lies in a block its task owns. */
  lemma OwnedByte(held: nat -> nat, tasks: seq<TaskMem>, t: nat, a: nat)
    requires OwnsOk(held, tasks) && t < |tasks| && InRange(a) && Mapped(tasks[t].space, PageNumber(a))
    ensures var p := Frame(Entry(tasks[t].space, PageNumber(a)));
            && Owns(tasks, t, PageSlot(PageNumber(a)), p) && held(p) > 0
            && p <= p + a % PAGE_SIZE < p + PAGE_SIZE * held(p)
  {
    hide Tabled, Entry, Present, Frame;
    PageAt(tasks[t], PageNumber(a));
    assert Owns(tasks, t, PageSlot(PageNumber(a)), Frame(Entry(tasks[t].space, PageNumber(a))));
  }

  /** A new page of zeros is mapped: the program sees what it saw before. */
  lemma PageAdded(held: nat -> nat, tasks: seq<TaskMem>, t: nat, mem: Memory, after: Memory, now: Space, vaddr: nat,
                  page: nat)
    requires OwnsOk(held, tasks) && t < |tasks| && AllKept(held, mem, after) && Tabled(now) && InRange(vaddr)
    requires page % PAGE_SIZE == 0 && page > 0 && !Mapped(tasks[t].space, PageNumber(vaddr))
    requires forall x: nat :: page <= x < page + PAGE_SIZE ==> after(x) == 0
    requires forall pn: nat :: Entry(now, pn) == if pn == PageNumber(vaddr) then page + PRESENT_ALL
                                                 else Entry(tasks[t].space, pn)
    ensures MapsMore(tasks[t].space, now, vaddr, 1, false) && SeesCopy(mem, tasks[t].space, after, now, vaddr, [])
  {
    hide Tabled, Entry, Present, Touches, CanWriteEntry, Frame, EntryOk;
    TabledAt(tasks, t);
    NewEntry(page);
    EntryIsOk(tasks[t].space, PageNumber(vaddr));
    forall pn: nat ensures Touches(pn, vaddr, 1) <==> pn == PageNumber(vaddr) { TouchesOne(pn, vaddr, 1); }
    AbsentEntry(Entry(tasks[t].space, PageNumber(vaddr)));
    forall a: nat ensures UserByte(after, now, a) == UserByte(mem, tasks[t].space, a) {
      if InRange(a) && Mapped(tasks[t].space, PageNumber(a)) { OwnedByte(held, tasks, t, a); }
    }
  }

  lemma AbsentEntry(e: nat)
    requires EntryOk(e) && !Present(e)
    ensures e == 0 && !CanWriteEntry(e)
  {
    assert e == 4096 * (e / 4096) + e % 4096;
  }

  /** A page may be written from now on. */
  lemma PageOpened(mem: Memory, sp: Space, now: Space, vaddr: nat)
    requires Tabled(sp) && Tabled(now) && InRange(vaddr) && Mapped(sp, PageNumber(vaddr))
    requires forall pn: nat :: Entry(now, pn) == if pn == PageNumber(vaddr) then OrWritable(Entry(sp, pn))
                                                 else Entry(sp, pn)
    ensures MapsMore(sp, now, vaddr, 1, true) && SeesCopy(mem, sp, mem, now, vaddr, [])
    ensures forall pn: nat :: pn < USER_PAGES && Mapped(sp, pn) ==>
        Mapped(now, pn) && Frame(Entry(now, pn)) == Frame(Entry(sp, pn))
  {
    hide Tabled, Entry, Present, Touches, CanWriteEntry, Frame, EntryOk, OrWritable;
    EntryIsOk(sp, PageNumber(vaddr));
    WritableEntry(Entry(sp, PageNumber(vaddr)));
    forall pn: nat ensures Touches(pn, vaddr, 1) <==> pn == PageNumber(vaddr) { TouchesOne(pn, vaddr, 1); }
  }

  lemma SameIsNone(mem: Memory, sp: Space, after: Memory, now: Space, vaddr: nat)
    requires SameView(mem, sp, after, now)
    ensures MapsMore(sp, now, vaddr, 0, false) && SeesCopy(mem, sp, after, now, vaddr, [])
  {
    hide UserByte, Entry, Tabled;
  }

  /** Nothing, the page, the leave to write: together one page of the stretch. */
  lemma OnePage(a: Space, b: Space, c: Space, d: Space, vaddr: nat, w: bool)
    requires MapsMore(a, b, vaddr, 0, false) && (MapsMore(b, c, vaddr, 1, false) || (b == c && MappedAt(c, vaddr)))
    requires if w then MapsMore(c, d, vaddr, 1, true) else c == d
    ensures MapsMore(a, d, vaddr, 1, w)
  {
    hide Tabled, Mapped, CanWrite;
    if MappedAt(c, vaddr) {
      forall pn: nat ensures Touches(pn, vaddr, 1) ==> pn == PageNumber(vaddr) { TouchesOne(pn, vaddr, 1); }
    }
  }

  /** There is no page at `vaddr`, and there was none. */
  ghost predicate NoPage(mem: Memory, sp: Space, after: Memory, now: Space, vaddr: nat, w: bool) {
    MapsMore(sp, now, vaddr, 0, w) && SeesCopy(mem, sp, after, now, vaddr, []) && !MappedAt(sp, vaddr)
  }

  lemma NoPageIf(mem: Memory, sp: Space, after: Memory, now: Space, vaddr: nat, w: bool)
    requires SameView(mem, sp, after, now) && (InRange(vaddr) ==> !Mapped(now, PageNumber(vaddr)))
    ensures NoPage(mem, sp, after, now, vaddr, w)
  {
    hide UserByte, Entry, Tabled;
  }

  ghost predicate MappedAt(sp: Space, vaddr: nat) { Tabled(sp) && InRange(vaddr) && Mapped(sp, PageNumber(vaddr)) }

  /** Part of a stretch is copied, up to where a page was not mapped and no block is left for it. */
  ghost predicate CopiedPart(mem: Memory, sp: Space, after: Memory, now: Space, vaddr: nat, src: seq<byte>, given: bool,
                             len: nat, w: bool) {
    exists k: nat :: k < len && CopiedUpTo(mem, sp, after, now, vaddr, src, given, k, w)
  }

  ghost predicate CopiedUpTo(mem: Memory, sp: Space, after: Memory, now: Space, vaddr: nat, src: seq<byte>, given: bool,
                             k: nat, w: bool) {
    && MapsMore(sp, now, vaddr, k, w) && !MappedAt(sp, vaddr + k) && (given ==> k <= |src|)
    && SeesCopy(mem, sp, after, now, vaddr, if given then src[..k] else [])
  }

  lemma CopyStopped(m0: Memory, a: Space, m1: Memory, b: Space, m2: Memory, c: Space, vaddr: nat, src: seq<byte>,
                    given: bool, k: nat, w: bool)
    requires MapsMore(a, b, vaddr, k, w) && NoPage(m1, b, m2, c, vaddr + k, w) && (given ==> k <= |src|)
    requires SeesCopy(m0, a, m1, b, vaddr, if given then src[..k] else [])
    ensures CopiedUpTo(m0, a, m2, c, vaddr, src, given, k, w)
  {
    hide UserByte, Tabled, Entry, Touches, Present, CanWriteEntry;
    MapsMoreBoth(a, b, c, vaddr, k, 0, w);
  }

  /** A page of the stretch stands for all bytes in it. */
  lemma WholeChunk(sp: Space, now: Space, vaddr: nat, n: nat, w: bool)
    requires MapsMore(sp, now, vaddr, 1, w) && InRange(vaddr) && 0 < n <= PAGE_SIZE - vaddr % PAGE_SIZE
    ensures MapsMore(sp, now, vaddr, n, w)
  {
    hide Tabled, Mapped, CanWrite, Touches;
    forall pn: nat ensures Touches(pn, vaddr, 1) <==> Touches(pn, vaddr, n) {
      TouchesOne(pn, vaddr, 1);
      TouchesOne(pn, vaddr, n);
    }
  }

  /** Bytes are copied into a page of the task. */
  lemma ChunkWritten(held: nat -> nat, tasks: seq<TaskMem>, t: nat, mem: Memory, vaddr: nat, page: nat, data: seq<byte>)
    requires OwnsOk(held, tasks) && BlocksApart(held) && t < |tasks| && InRange(vaddr)
    requires vaddr % PAGE_SIZE + |data| <= PAGE_SIZE
    requires Mapped(tasks[t].space, PageNumber(vaddr)) && page == Frame(Entry(tasks[t].space, PageNumber(vaddr)))
    ensures var after := Loaded(mem, page + vaddr % PAGE_SIZE, data);
            SeesCopy(mem, tasks[t].space, after, tasks[t].space, vaddr, data) && Untouched(held, tasks, t, mem, after)
  {
    hide Tabled, Entry, Present, Frame, OwnsOk;
    var sp, after := tasks[t].space, Loaded(mem, page + vaddr % PAGE_SIZE, data);
    OwnsTabled(held, tasks, t);
    OwnedByte(held, tasks, t, vaddr);
    assert IsPage(tasks, t, page);
    forall a: nat
      ensures UserByte(after, sp, a) == if vaddr <= a < vaddr + |data| then data[a - vaddr] else UserByte(mem, sp, a)
    {
      ChunkByte(held, tasks, t, mem, vaddr, page, data, a);
    }
  }

  lemma OwnsTabled(held: nat -> nat, tasks: seq<TaskMem>, t: nat)
    requires OwnsOk(held, tasks) && t < |tasks|
    ensures TasksTabled(tasks) && Tabled(tasks[t].space)
  {}

  lemma ChunkByte(held: nat -> nat, tasks: seq<TaskMem>, t: nat, mem: Memory, vaddr: nat, page: nat, data: seq<byte>,
                  a: nat)
    requires OwnsOk(held, tasks) && BlocksApart(held) && t < |tasks| && InRange(vaddr)
    requires vaddr % PAGE_SIZE + |data| <= PAGE_SIZE
    requires Mapped(tasks[t].space, PageNumber(vaddr)) && page == Frame(Entry(tasks[t].space, PageNumber(vaddr)))
    ensures UserByte(Loaded(mem, page + vaddr % PAGE_SIZE, data), tasks[t].space, a)
            == if vaddr <= a < vaddr + |data| then data[a - vaddr] else UserByte(mem, tasks[t].space, a)
  {
    hide Tabled, Entry, Present, Frame;
    OwnsTabled(held, tasks, t);
    OwnedByte(held, tasks, t, vaddr);
    WalkIndex(vaddr);
    if InRange(a) {
      WalkIndex(a);
      if Mapped(tasks[t].space, PageNumber(a)) {
        OwnedByte(held, tasks, t, a);
        if PageNumber(a) != PageNumber(vaddr) { PagesApart(vaddr, a, |data|); }
      } else {
        PagesApart(vaddr, a, |data|);
      }
    }
  }

  lemma PagesApart(vaddr: nat, a: nat, n: nat)
    requires InRange(vaddr) && InRange(a) && PageNumber(a) != PageNumber(vaddr) && vaddr % PAGE_SIZE + n <= PAGE_SIZE
    ensures !(vaddr <= a < vaddr + n)
  {
    WalkIndex(vaddr);
    WalkIndex(a);
  }
}
