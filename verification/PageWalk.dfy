// How the processor finds the byte at a user address: from the words of the page directory on, with 32 bit
// paging and pages of 4 KiB (Intel 64 and IA-32 Architectures Software Developer's Manual, volume 3A,
// section 4.3).
module PageWalk {
  import opened Bytes
  import opened ByteMemory
  import opened PageTables
  import opened AddressSpace
  import opened UserLayout

  // ---- the walk ----

  /** A directory word or page table entry leads on: it is present, and open to ring 3. */
  predicate LeadsOn(w: nat) { w % 2 == 1 && w / 4 % 2 == 1 }

  predicate LetsWrite(w: nat) { w / 2 % 2 == 1 }

  /** The address in a word or an entry: all but its low 12 bits. */
  function Base(w: nat): nat { w / 0x1000 * 0x1000 }

  /** From directory word `a` / 4 MiB over the page table in the block it names, to the entry of the page. */
  ghost predicate Walks(sp: Space, a: nat, word: nat, entry: nat) {
    && sp.Space? && a / 0x400000 < |sp.words| && word == sp.words[a / 0x400000] && LeadsOn(word)
    && (exists i :: 0 <= i < |sp.tables| && TableEntryAt(sp.tables[i], Base(word), a / 0x1000 % 0x400, entry))
    && LeadsOn(entry)
  }

  ghost predicate TableEntryAt(table: Table, at: nat, j: nat, entry: nat) {
    table.at == at && j < |table.entries| && table.entries[j] == entry
  }

  /** The walk ends at a page; otherwise there is a page fault. */
  ghost predicate Reachable(sp: Space, a: nat) { exists word, entry :: Walks(sp, a, word, entry) }

  // ---- where the walk leads ----

  lemma WordBits(at: nat)
    requires at % 4096 == 0
    ensures var w := at + TABLE_FLAGS; LeadsOn(w) && LetsWrite(w) && Base(w) == at
  {
    var k := at / 4096;
    EntryBits(k, 7);
    assert (4096 * k + 7) / 4 % 2 == 1;
  }

  lemma EntryLeads(e: nat)
    requires EntryOk(e)
    ensures LeadsOn(e) <==> Present(e)
    ensures LetsWrite(e) <==> CanWriteEntry(e)
    ensures Base(e) == Frame(e)
  {
    var k := e / 4096;
    assert e == 4096 * k + e % 4096;
    assert e % 4096 < 8;
    EntryBits(k, e % 4096);
    assert e / 4 % 2 == e % 4096 / 4 % 2;
  }

  /** Where the code keeps the table and the entry of an address is where the processor looks. */
  lemma Places(a: nat)
    requires 0x40000000 <= a < 0x44000000
    ensures InRange(a) && PageNumber(a) < USER_PAGES
    ensures a / 0x400000 == FIRST_WORD + PageNumber(a) / TABLE_ENTRIES
    ensures a / 0x1000 % 0x400 == PageNumber(a) % TABLE_ENTRIES
  {
    WalkIndex(a);
  }

  /** No two tables of a task are in one block, and each begins on a page. */
  lemma TableBlocks(held: nat -> nat, tasks: seq<TaskMem>, t: nat, i: nat, j: nat)
    requires OwnsOk(held, tasks) && BlocksApart(held) && t < |tasks| && tasks[t].space.Space?
    requires i < USER_TABLES && j < USER_TABLES && |tasks[t].space.tables| == USER_TABLES
    requires tasks[t].space.tables[i].at != 0 && tasks[t].space.tables[i].at == tasks[t].space.tables[j].at
    ensures i == j && tasks[t].space.tables[i].at % 4096 == 0
  {
    var p := tasks[t].space.tables[i].at;
    assert Owns(tasks, t, TableSlot(i), p) && Owns(tasks, t, TableSlot(j), p);
  }

  /** Where there is a table, the walk gets to the entry; where there is none, it ends at the directory. */
  lemma WalkFinds(held: nat -> nat, tasks: seq<TaskMem>, kernel: seq<nat>, t: nat, a: nat, word: nat, entry: nat)
    requires OwnsOk(held, tasks) && BlocksApart(held) && ShapesOk(tasks, kernel) && t < |tasks|
    requires tasks[t].space.Space? && 0x40000000 <= a < 0x44000000
    ensures Walks(tasks[t].space, a, word, entry) <==>
            && a / 0x400000 < |tasks[t].space.words| && word == tasks[t].space.words[a / 0x400000]
            && Mapped(tasks[t].space, PageNumber(a)) && entry == Entry(tasks[t].space, PageNumber(a))
    ensures Walks(tasks[t].space, a, word, entry) ==> LetsWrite(word)
  {
    hide EntryOk, LeadsOn, LetsWrite, Base, OwnsOk, BlocksApart, Frame, CanWriteEntry;
    var sp, pn := tasks[t].space, PageNumber(a);
    ShapeAt(tasks, kernel, t);
    Places(a);
    EntryIsOk(sp, pn);
    EntryLeads(Entry(sp, pn));
    var i := pn / TABLE_ENTRIES;
    var at := sp.tables[i].at;
    assert sp.words[FIRST_WORD + i] == WordOf(sp.tables[i]);
    if at == 0 {
      NoWord();
    } else {
      TableBlocks(held, tasks, t, i, i);
      WordBits(at);
      assert TableEntryAt(sp.tables[i], at, pn % TABLE_ENTRIES, Entry(sp, pn));
      forall j | 0 <= j < |sp.tables| && sp.tables[j].at == at ensures j == i {
        TableBlocks(held, tasks, t, i, j);
      }
    }
  }

  lemma NoWord()
    ensures !LeadsOn(0)
  {}

  /** What the model says a program sees is what the processor finds: a page is there exactly if the walk ends at
      one, the byte is the one in that page, and it can be written exactly if word and entry let it. */
  lemma WalkIsView(held: nat -> nat, tasks: seq<TaskMem>, kernel: seq<nat>, mem: Memory, t: nat, a: nat)
    requires OwnsOk(held, tasks) && BlocksApart(held) && ShapesOk(tasks, kernel) && t < |tasks|
    requires Tabled(tasks[t].space) && 0x40000000 <= a < 0x44000000
    ensures InRange(a) && (Mapped(tasks[t].space, PageNumber(a)) <==> Reachable(tasks[t].space, a))
    ensures forall word, entry :: Walks(tasks[t].space, a, word, entry) ==>
              && UserByte(mem, tasks[t].space, a) == mem(Base(entry) + a % 0x1000)
              && (CanWrite(tasks[t].space, PageNumber(a)) <==> LetsWrite(word) && LetsWrite(entry))
    ensures !Reachable(tasks[t].space, a) ==> UserByte(mem, tasks[t].space, a) == 0
  {
    hide EntryOk, LeadsOn, LetsWrite, Base, Walks, OwnsOk, BlocksApart, ShapesOk, Frame, CanWriteEntry, Entry, Tabled;
    var sp := tasks[t].space;
    Places(a);
    if sp.NoSpace? {
      NoWalk(sp, a);
      return;
    }
    forall word, entry | Walks(sp, a, word, entry)
      ensures Mapped(sp, PageNumber(a)) && entry == Entry(sp, PageNumber(a)) && LetsWrite(word)
    {
      WalkFinds(held, tasks, kernel, t, a, word, entry);
    }
    EntryIsOk(sp, PageNumber(a));
    EntryLeads(Entry(sp, PageNumber(a)));
    WordThere(tasks, kernel, t, a);
    if Mapped(sp, PageNumber(a)) {
      WalkFinds(held, tasks, kernel, t, a, sp.words[a / 0x400000], Entry(sp, PageNumber(a)));
    }
  }

  lemma NoWalk(sp: Space, a: nat)
    requires sp.NoSpace? && InRange(a)
    ensures Tabled(sp) && !Reachable(sp, a) && !Mapped(sp, PageNumber(a))
  {}

  lemma WordThere(tasks: seq<TaskMem>, kernel: seq<nat>, t: nat, a: nat)
    requires ShapesOk(tasks, kernel) && t < |tasks| && tasks[t].space.Space? && 0x40000000 <= a < 0x44000000
    ensures a / 0x400000 < |tasks[t].space.words|
  {
    ShapeAt(tasks, kernel, t);
  }

  /** The words of all other addresses are those of the kernel. */
  lemma KernelWords(tasks: seq<TaskMem>, kernel: seq<nat>, t: nat, a: nat)
    requires ShapesOk(tasks, kernel) && t < |tasks| && tasks[t].space.Space?
    requires a < 0x40000000 || 0x44000000 <= a < 0x1_0000_0000
    ensures |tasks[t].space.words| == |kernel| == 1024 && a / 0x400000 < 1024
    ensures tasks[t].space.words[a / 0x400000] == kernel[a / 0x400000]
  {
    ShapeAt(tasks, kernel, t);
  }

  /** The same of every machine the methods leave behind. */
  lemma MachineView(m: Machine, t: nat, a: nat)
    requires m.Valid() && t < |m.tasks| && Tabled(m.tasks[t].space) && 0x40000000 <= a < 0x44000000
    ensures InRange(a) && (Mapped(m.tasks[t].space, PageNumber(a)) <==> Reachable(m.tasks[t].space, a))
    ensures forall word, entry :: Walks(m.tasks[t].space, a, word, entry) ==>
              && UserByte(m.mem, m.tasks[t].space, a) == m.mem(Base(entry) + a % 0x1000)
              && (CanWrite(m.tasks[t].space, PageNumber(a)) <==> LetsWrite(word) && LetsWrite(entry))
  {
    hide OwnsOk, BlocksApart, ShapesOk, Walks, Reachable, Mapped, UserByte, CanWrite;
    WalkIsView(m.Held(), m.tasks, m.kernelWords, m.mem, t, a);
  }

  // ---- what the processor reads ----

  ghost predicate Reads(mem: Memory, sp: Space, a: nat, b: byte) {
    exists word, entry :: Walks(sp, a, word, entry) && mem(Base(entry) + a % 0x1000) == b
  }

  ghost predicate MayWrite(sp: Space, a: nat) {
    exists word, entry :: Walks(sp, a, word, entry) && LetsWrite(word) && LetsWrite(entry)
  }

  lemma ViewIsRead(m: Machine, t: nat, a: nat)
    requires m.Valid() && t < |m.tasks| && Tabled(m.tasks[t].space) && 0x40000000 <= a < 0x44000000
    ensures InRange(a)
    ensures Mapped(m.tasks[t].space, PageNumber(a)) ==>
              && Reads(m.mem, m.tasks[t].space, a, UserByte(m.mem, m.tasks[t].space, a))
              && (CanWrite(m.tasks[t].space, PageNumber(a)) ==> MayWrite(m.tasks[t].space, a))
    ensures Mapped(m.tasks[t].space, PageNumber(a)) <==> Reachable(m.tasks[t].space, a)
  {
    hide Machine.Valid, Walks, Mapped, UserByte, CanWrite, LetsWrite, Tabled;
    MachineView(m, t, a);
  }
}
