// The arguments of a new task on its stack, as its `main` finds them.
module TaskArgs {
  import opened Bytes
  import opened ByteMemory
  import opened KernelHeap
  import opened PageTables
  import opened AddressSpace
  import opened ElfLoader
  import opened UserLayout

  const TASK_MAX_ARGS_BYTES := 1024
  const STACK := 0x43FFC000

  // ---- words in memory ----

  function WordBytes(v: Uint32): (b: seq<byte>)
    ensures |b| == 4
  {
    [ByteOf(v, 0), ByteOf(v, 1), ByteOf(v, 2), ByteOf(v, 3)]
  }

  /** An array of words as bytes. */
  function AllBytes(words: seq<Uint32>): (b: seq<byte>)
    ensures |b| == 4 * |words|
  {
    if words == [] then [] else AllBytes(words[..|words| - 1]) + WordBytes(words[|words| - 1])
  }

  lemma {:induction false} WordOfBytes(words: seq<Uint32>, i: nat)
    requires i < |words|
    ensures AllBytes(words)[4 * i..4 * i + 4] == WordBytes(words[i])
  {
    var front := words[..|words| - 1];
    if i < |words| - 1 {
      WordOfBytes(front, i);
      assert AllBytes(words)[4 * i..4 * i + 4] == AllBytes(front)[4 * i..4 * i + 4];
    }
  }

  /** The words of an array that is in memory. */
  lemma WordsThere(view: Memory, a: nat, words: seq<Uint32>, i: nat)
    requires i < |words| && forall x: nat :: a <= x < a + 4 * |words| ==> view(x) == AllBytes(words)[x - a]
    ensures Word(view, a + 4 * i) == words[i]
  {
    hide ByteOf, AllBytes;
    WordOfBytes(words, i);
    var b := AllBytes(words)[4 * i..4 * i + 4];
    BytesBack(words[i]);
    forall k | 0 <= k < 4 ensures view(a + 4 * i + k) == b[k] {}
  }

  // ---- what main finds ----

  /** A string that ends with a zero byte, in the used part of the stack. */
  ghost predicate StringAt(view: Memory, esp: nat, p: nat, s: seq<byte>) {
    && esp <= p && p + |s| < USER_STACK_TOP
    && (forall k :: 0 <= k < |s| ==> view(p + k) == s[k]) && view(p + |s|) == 0
  }

  /** The stack pointer is at `argc` and `argv`, as in a call of `main`: `argv` is an array of pointers to
      the arguments that ends with a null pointer. */
  ghost predicate ArgsAt(view: Memory, esp: nat, args: seq<seq<byte>>) {
    var argv := Word(view, esp + 4);
    && esp % 4 == 0 && esp + 8 <= argv && argv + 4 * |args| + 4 <= USER_STACK_TOP
    && Word(view, esp) == |args|
    && (forall i :: 0 <= i < |args| ==> StringAt(view, esp, Word(view, argv + 4 * i), args[i]))
    && Word(view, argv + 4 * |args|) == 0
  }

  /** What the program reads. */
  ghost function Seen(mem: Memory, sp: Space): Memory
    requires Tabled(sp)
  {
    (x: nat) => UserByte(mem, sp, x)
  }

  /** Bytes the arguments take up, with the zero at the end of each. */
  function Total(args: seq<seq<byte>>): nat { if args == [] then 0 else |args[0]| + 1 + Total(args[1..]) }

  /** Arguments a task may be started with. */
  predicate ArgsFit(args: seq<seq<byte>>) { |args| <= TASK_MAX_ARGS && Total(args) <= TASK_MAX_ARGS_BYTES }

  lemma {:induction false} TotalOfRest(args: seq<seq<byte>>, i: nat)
    requires i <= |args|
    ensures Total(args[i..]) <= Total(args)
  {
    if i > 0 {
      TotalOfRest(args[1..], i - 1);
      assert args[1..][i - 1..] == args[i..];
    } else {
      assert args[0..] == args;
    }
  }

  lemma TotalNext(args: seq<seq<byte>>, i: nat)
    requires i < |args|
    ensures Total(args[i..]) == |args[i]| + 1 + Total(args[i + 1..])
  {
    assert args[i..][1..] == args[i + 1..];
  }

  // ---- pushing ----

  ghost predicate StackMapped(sp: Space) {
    Tabled(sp) && forall pn: nat :: pn < USER_PAGES && InStack(pn) ==> Mapped(sp, pn) && CanWrite(sp, pn)
  }

  lemma InStackMapped(sp: Space, a: nat)
    requires StackMapped(sp) && STACK <= a < USER_STACK_TOP
    ensures MappedAt(sp, a)
  {
    hide Tabled, Mapped, CanWrite;
    StackPage(a);
  }

  lemma StackPage(a: nat)
    requires STACK <= a < USER_STACK_TOP
    ensures InRange(a) && InStack(PageNumber(a))
  {
    WalkIndex(a);
  }

  lemma TouchesInStack(pn: nat, a: nat, n: nat)
    requires pn < USER_PAGES && STACK <= a && a + n <= USER_STACK_TOP
    ensures Touches(pn, a, n) ==> InStack(pn)
  {}

  ghost predicate SamePages(sp: Space, now: Space) {
    && Tabled(sp) && Tabled(now)
    && forall pn: nat :: pn < USER_PAGES ==>
           (Mapped(now, pn) <==> Mapped(sp, pn)) && (CanWrite(now, pn) <==> CanWrite(sp, pn))
  }

  lemma PushedPages(sp: Space, now: Space, a: nat, n: nat)
    requires StackMapped(sp) && MapsMore(sp, now, a, n, true) && STACK <= a && a + n <= USER_STACK_TOP
    ensures SamePages(sp, now) && StackMapped(now)
  {
    hide Tabled, Mapped, CanWrite, Touches;
    forall pn: nat | pn < USER_PAGES ensures Touches(pn, a, n) ==> InStack(pn) { TouchesInStack(pn, a, n); }
    hide InStack;
  }

  lemma StackTaken(mem: Memory, sp: Space, after: Memory, now: Space, a: nat, src: seq<byte>)
    requires StackMapped(sp) && STACK <= a && a + |src| <= USER_STACK_TOP
    ensures !CopiedPart(mem, sp, after, now, a, src, true, |src|, true)
  {
    forall k: nat | k < |src| ensures !CopiedUpTo(mem, sp, after, now, a, src, true, k, true) {
      InStackMapped(sp, a + k);
    }
    hide CopiedUpTo;
  }

  /** `task_copy_to_user` to the stack, which is mapped: its result needs no look at. */
  method Push(m: Machine, t: nat, a: nat, src: seq<byte>)
    requires m.Valid() && t < |m.tasks| && m.tasks[t].space.Space? && StackMapped(m.tasks[t].space)
    requires STACK <= a && a + |src| <= USER_STACK_TOP
    modifies m`mem, m`tasks, m.heap`live, m.heap.entries
    ensures m.Valid() && Extends(old(m.Held()), old(m.tasks), old(m.mem), m.Held(), m.tasks, m.mem, t)
    ensures |m.tasks| == |old(m.tasks)| && m.tasks[t].space.Space? && m.tasks[t].stack == old(m.tasks)[t].stack
    ensures SamePages(old(m.tasks)[t].space, m.tasks[t].space) && StackMapped(m.tasks[t].space)
    ensures SeesCopy(old(m.mem), old(m.tasks)[t].space, m.mem, m.tasks[t].space, a, src)
    ensures |src| < PAGE_SIZE ==> Took(old(m.heap.live), m.heap.live, 4)
  {
    hide Machine.Valid, KHeap.Valid, Extends, MapsMore, SeesCopy, HeldIn, CopiedPart, StackMapped, SamePages, Took;
    ghost var sp, mem := m.tasks[t].space, m.mem;
    var r := m.CopyToUser(t, a, src, true, |src|, true);
    StackTaken(mem, sp, m.mem, m.tasks[t].space, a, src);
    PushedPages(sp, m.tasks[t].space, a, |src|);
  }

  /** The program sees other bytes only from `from` to the top of the stack. */
  ghost predicate SeesBelow(mem: Memory, sp: Space, after: Memory, now: Space, from: nat) {
    Tabled(sp) && Tabled(now) && forall a: nat :: !(from <= a < USER_STACK_TOP) ==>
        UserByte(after, now, a) == UserByte(mem, sp, a)
  }

  lemma SeesBelowMore(m0: Memory, a: Space, m1: Memory, b: Space, m2: Memory, c: Space, from: nat, at: nat,
                      src: seq<byte>)
    requires SeesBelow(m0, a, m1, b, from) && SeesCopy(m1, b, m2, c, at, src) && at <= from
    requires at + |src| <= USER_STACK_TOP
    ensures SeesBelow(m0, a, m2, c, at)
  {
    hide Tabled, UserByte;
  }

  lemma SamePagesTwice(a: Space, b: Space, c: Space)
    requires SamePages(a, b) && SamePages(b, c)
    ensures SamePages(a, c)
  {
    hide Tabled, Mapped, CanWrite;
  }

  /** The last arguments are on the stack, one behind the other up to its top. */
  ghost predicate Strings(view: Memory, sp: nat, args: seq<seq<byte>>, ptrs: seq<Uint32>) {
    && |ptrs| == |args| && sp + Total(args) == USER_STACK_TOP
    && forall i :: 0 <= i < |args| ==> StringAt(view, sp, ptrs[i], args[i])
  }

  /** The bytes of a string just copied. */
  lemma NewString(m0: Memory, a: Space, m1: Memory, b: Space, at: nat, s: seq<byte>)
    requires Tabled(a) && Tabled(b) && SeesCopy(m0, a, m1, b, at, s + [0]) && at + |s| < USER_STACK_TOP
    ensures StringAt(Seen(m1, b), at, at, s)
  {
    hide Tabled, UserByte;
    forall j | 0 <= j < |s| ensures Seen(m1, b)(at + j) == s[j] { assert (s + [0])[j] == s[j]; }
    assert (s + [0])[|s|] == 0;
  }

  /** A string above the bytes copied. */
  lemma OldString(m0: Memory, a: Space, m1: Memory, b: Space, sp: nat, p: nat, s: seq<byte>, at: nat, src: seq<byte>)
    requires Tabled(a) && Tabled(b) && SeesCopy(m0, a, m1, b, at, src) && at + |src| <= sp
    requires StringAt(Seen(m0, a), sp, p, s)
    ensures StringAt(Seen(m1, b), sp, p, s) && StringAt(Seen(m1, b), at, p, s)
  {
    hide Tabled, UserByte;
  }

  /** Another argument is pushed. */
  lemma StringPushed(m0: Memory, a: Space, m1: Memory, b: Space, sp: nat, args: seq<seq<byte>>, ptrs: seq<Uint32>,
                     i: nat, at: Uint32)
    requires i < |args| && Tabled(a) && Tabled(b) && Strings(Seen(m0, a), sp, args[i + 1..], ptrs)
    requires at + |args[i]| + 1 == sp && SeesCopy(m0, a, m1, b, at, args[i] + [0])
    ensures Strings(Seen(m1, b), at, args[i..], [at] + ptrs)
  {
    hide Tabled, UserByte, StringAt, SeesCopy, Seen, Total;
    TotalNext(args, i);
    var all, rest := [at] + ptrs, args[i + 1..];
    forall k | 0 <= k < |args[i..]| ensures StringAt(Seen(m1, b), at, all[k], args[i..][k]) {
      if k == 0 {
        NewString(m0, a, m1, b, at, args[i]);
      } else {
        assert args[i..][k] == rest[k - 1] && all[k] == ptrs[k - 1];
        OldString(m0, a, m1, b, sp, ptrs[k - 1], rest[k - 1], at, args[i] + [0]);
      }
    }
  }

  /** Bytes below them leave the strings alone. */
  lemma StringsStay(m0: Memory, a: Space, m1: Memory, b: Space, sp: nat, args: seq<seq<byte>>, ptrs: seq<Uint32>,
                    at: nat, src: seq<byte>)
    requires Tabled(a) && Tabled(b) && Strings(Seen(m0, a), sp, args, ptrs) && SeesCopy(m0, a, m1, b, at, src)
    requires at + |src| <= sp
    ensures Strings(Seen(m1, b), sp, args, ptrs)
  {
    hide Tabled, UserByte, StringAt, SeesCopy, Seen, Total;
    forall i | 0 <= i < |args| ensures StringAt(Seen(m1, b), sp, ptrs[i], args[i]) {
      OldString(m0, a, m1, b, sp, ptrs[i], args[i], at, src);
    }
  }

  /** The array of pointers, and below it `argc` and `argv`. */
  lemma ArgsThere(m0: Memory, a: Space, m1: Memory, b: Space, m2: Memory, c: Space, sp: nat, args: seq<seq<byte>>,
                  ptrs: seq<Uint32>,
                  argv: Uint32, argc: Uint32)
    requires Tabled(a) && Tabled(b) && Tabled(c) && Strings(Seen(m0, a), sp, args, ptrs) && argc == |args| && argv >= 8
    requires argv % 4 == 0
    requires argv + 4 * |args| + 4 <= sp <= USER_STACK_TOP && SeesCopy(m0, a, m1, b, argv, AllBytes(ptrs + [0]))
    requires SeesCopy(m1, b, m2, c, argv - 8, AllBytes([argc, argv]))
    ensures ArgsAt(Seen(m2, c), argv - 8, args)
  {
    hide Tabled, UserByte, Word, AllBytes, SeesCopy, StringAt, Seen, ArgsAt;
    assert |ptrs| == |args|;
    StringsStay(m0, a, m1, b, sp, args, ptrs, argv, AllBytes(ptrs + [0]));
    StringsStay(m1, b, m2, c, sp, args, ptrs, argv - 8, AllBytes([argc, argv]));
    FrameThere(m1, b, m2, c, argv, argc);
    PointersThere(m0, a, m1, b, m2, c, argv, ptrs + [0], AllBytes([argc, argv]));
    ArgsBy(Seen(m2, c), sp, args, ptrs, argv);
  }

  lemma PointersThere(m0: Memory, a: Space, m1: Memory, b: Space, m2: Memory, c: Space, argv: nat, words: seq<Uint32>,
                      below: seq<byte>)
    requires Tabled(a) && Tabled(b) && Tabled(c) && argv >= 8 && |below| == 8
    requires SeesCopy(m0, a, m1, b, argv, AllBytes(words)) && SeesCopy(m1, b, m2, c, argv - 8, below)
    ensures forall i :: 0 <= i < |words| ==> Word(Seen(m2, c), argv + 4 * i) == words[i]
  {
    hide Tabled, UserByte, Word, AllBytes;
    var view := Seen(m2, c);
    forall x: nat | argv <= x < argv + 4 * |words| ensures view(x) == AllBytes(words)[x - argv] {
      assert Seen(m1, b)(x) == AllBytes(words)[x - argv];
    }
    forall i | 0 <= i < |words| ensures Word(view, argv + 4 * i) == words[i] { WordsThere(view, argv, words, i); }
  }

  lemma ArgsBy(view: Memory, sp: nat, args: seq<seq<byte>>, ptrs: seq<Uint32>, argv: Uint32)
    requires Strings(view, sp, args, ptrs) && argv >= 8 && argv % 4 == 0
    requires argv + 4 * |args| + 4 <= sp <= USER_STACK_TOP
    requires forall i :: 0 <= i < |ptrs + [0]| ==> Word(view, argv + 4 * i) == (ptrs + [0])[i]
    requires Word(view, argv - 8) == |args| && Word(view, argv - 4) == argv
    ensures ArgsAt(view, argv - 8, args)
  {
    hide Word, Total;
    assert Word(view, argv + 4 * |args|) == (ptrs + [0])[|args|] == 0;
    forall i | 0 <= i < |args| ensures StringAt(view, argv - 8, Word(view, argv + 4 * i), args[i]) {
      assert Word(view, argv + 4 * i) == (ptrs + [0])[i] == ptrs[i] && StringAt(view, sp, ptrs[i], args[i]);
    }
    assert Word(view, argv - 8 + 4) == argv;
  }

  lemma FrameThere(m1: Memory, b: Space, m2: Memory, c: Space, argv: Uint32, argc: Uint32)
    requires Tabled(b) && Tabled(c) && argv >= 8 && SeesCopy(m1, b, m2, c, argv - 8, AllBytes([argc, argv]))
    ensures Word(Seen(m2, c), argv - 8) == argc && Word(Seen(m2, c), argv - 4) == argv
  {
    hide Tabled, UserByte, Word, AllBytes;
    var view, at, words := Seen(m2, c), argv - 8, [argc, argv];
    forall x: nat | at <= x < at + 8 ensures view(x) == AllBytes(words)[x - at] {}
    WordsThere(view, at, words, 0);
    WordsThere(view, at, words, 1);
    assert at + 4 * 0 == argv - 8 && at + 4 * 1 == argv - 4;
  }

  /** Pages and bytes after something was pushed, down to `from`. */
  ghost predicate Pushed(m0: Memory, a: Space, m1: Memory, b: Space, from: nat) {
    SamePages(a, b) && StackMapped(b) && SeesBelow(m0, a, m1, b, from)
  }

  /** The strings, from the last one to the first, as long as they are not too long together. */
  method PushStrings(m: Machine, t: nat, args: seq<seq<byte>>) returns (fits: bool, sp: nat, ptrs: seq<Uint32>)
    requires m.Valid() && t < |m.tasks| && m.tasks[t].space.Space? && StackMapped(m.tasks[t].space)
    requires |args| <= TASK_MAX_ARGS && forall i :: 0 <= i < |args| ==> |args[i]| < 0x8000_0000
    modifies m`mem, m`tasks, m.heap`live, m.heap.entries
    ensures m.Valid() && Extends(old(m.Held()), old(m.tasks), old(m.mem), m.Held(), m.tasks, m.mem, t)
    ensures |m.tasks| == |old(m.tasks)| && m.tasks[t].space.Space? && m.tasks[t].stack == old(m.tasks)[t].stack
    ensures Pushed(old(m.mem), old(m.tasks)[t].space, m.mem, m.tasks[t].space, sp)
    ensures Took(old(m.heap.live), m.heap.live, 4 * |args|)
    ensures fits <==> Total(args) <= TASK_MAX_ARGS_BYTES
    ensures fits ==> sp <= USER_STACK_TOP <= sp + TASK_MAX_ARGS_BYTES
    ensures fits ==> Tabled(m.tasks[t].space) && Strings(Seen(m.mem, m.tasks[t].space), sp, args, ptrs)
  {
    hide Machine.Valid, KHeap.Valid, Extends, SeesCopy, HeldIn, StackMapped, SamePages, SeesBelow, Strings;
    hide Total, Tabled, Took;
    ghost var h0, a, m0, l0 := m.Held(), m.tasks, m.mem, m.heap.live;
    ArgsStart(m, t);
    TookNone(l0, 0);
    sp, ptrs := USER_STACK_TOP, [];
    NoStrings(Seen(m0, a[t].space), args);
    for i := |args| downto 0
      invariant m.Valid() && Extends(h0, a, m0, m.Held(), m.tasks, m.mem, t)
      invariant |m.tasks| == |a| && m.tasks[t].space.Space? && m.tasks[t].stack == a[t].stack
      invariant Tabled(m.tasks[t].space) && Pushed(m0, a[t].space, m.mem, m.tasks[t].space, sp)
      invariant Strings(Seen(m.mem, m.tasks[t].space), sp, args[i..], ptrs) && |ptrs| == |args| - i
      invariant sp == USER_STACK_TOP - Total(args[i..]) && USER_STACK_TOP - sp <= TASK_MAX_ARGS_BYTES
      invariant Took(l0, m.heap.live, 4 * (|args| - i))
    {
      var size := |args[i]| + 1;
      TotalNext(args, i);
      TotalOfRest(args, i);
      if (USER_STACK_TOP - (sp - size)) % 0x1_0000_0000 > TASK_MAX_ARGS_BYTES {
        TookUpTo(l0, m.heap.live, 4 * (|args| - i - 1), 4 * |args|);
        return false, sp, ptrs;
      }
      ghost var h1, b, m1, l1 := m.Held(), m.tasks, m.mem, m.heap.live;
      Push(m, t, sp - size, args[i] + [0]);
      FourMore(l0, l1, m.heap.live, |args| - i - 1);
      ArgsMore(m, h0, a, m0, h1, b, m1, t, sp, sp - size, args[i] + [0]);
      StringPushed(m1, b[t].space, m.mem, m.tasks[t].space, sp, args, ptrs, i, sp - size);
      ptrs := [sp - size] + ptrs;
      sp := sp - size;
    }
    assert args[0..] == args;
    fits := true;
  }

  /** `task_push_args`: refused if there are too many arguments or they are too long. */
  method PushArgs(m: Machine, t: nat, args: seq<seq<byte>>) returns (r: int, esp: nat)
    requires m.Valid() && t < |m.tasks| && m.tasks[t].space.Space? && StackMapped(m.tasks[t].space)
    requires forall i :: 0 <= i < |args| ==> |args[i]| < 0x8000_0000
    modifies m`mem, m`tasks, m.heap`live, m.heap.entries
    ensures m.Valid() && Extends(old(m.Held()), old(m.tasks), old(m.mem), m.Held(), m.tasks, m.mem, t)
    ensures |m.tasks| == |old(m.tasks)| && m.tasks[t].space.Space? && m.tasks[t].stack == old(m.tasks)[t].stack
    ensures SamePages(old(m.tasks)[t].space, m.tasks[t].space)
    ensures Took(old(m.heap.live), m.heap.live, ARGS_COST)
    ensures r == if ArgsFit(args) then 0 else INVALID_ARG
    ensures r == 0 ==>
              && STACK <= esp <= USER_STACK_TOP && ArgsAt(Seen(m.mem, m.tasks[t].space), esp, args)
              && SeesBelow(old(m.mem), old(m.tasks)[t].space, m.mem, m.tasks[t].space, esp)
  {
    hide Machine.Valid, KHeap.Valid, Extends, SeesCopy, HeldIn, StackMapped, SamePages, SeesBelow, Strings, ArgsAt;
    hide AllBytes, Total, Tabled, Took;
    ghost var h0, a, m0, l0 := m.Held(), m.tasks, m.mem, m.heap.live;
    esp := USER_STACK_TOP;
    ArgsStart(m, t);
    if |args| > TASK_MAX_ARGS {
      TookNone(l0, ARGS_COST);
      return INVALID_ARG, esp;
    }
    var fits, sp, ptrs := PushStrings(m, t, args);
    TookUpTo(l0, m.heap.live, 4 * |args|, ARGS_COST);
    if !fits {
      return INVALID_ARG, esp;
    }
    CountPtrs(Seen(m.mem, m.tasks[t].space), sp, args, ptrs);
    var argv := sp - sp % 4 - 4 * (|args| + 1);
    ghost var h1, b, m1, l1 := m.Held(), m.tasks, m.mem, m.heap.live;
    Push(m, t, argv, AllBytes(ptrs + [0]));
    FourMore(l0, l1, m.heap.live, |args|);
    ArgsMore(m, h0, a, m0, h1, b, m1, t, sp, argv, AllBytes(ptrs + [0]));
    ghost var h2, c, m2, l2 := m.Held(), m.tasks, m.mem, m.heap.live;
    Push(m, t, argv - 8, AllBytes([|args|, argv]));
    FourMore(l0, l2, m.heap.live, |args| + 1);
    ArgsMore(m, h0, a, m0, h2, c, m2, t, argv, argv - 8, AllBytes([|args|, argv]));
    ArgsThere(m1, b[t].space, m2, c[t].space, m.mem, m.tasks[t].space, sp, args, ptrs, argv, |args|);
    r, esp := 0, argv - 8;
  }

  lemma CountPtrs(view: Memory, sp: nat, args: seq<seq<byte>>, ptrs: seq<Uint32>)
    requires Strings(view, sp, args, ptrs)
    ensures |ptrs| == |args|
  {}

  lemma FourMore(l0: Runs, l1: Runs, l2: Runs, n: nat)
    requires Took(l0, l1, 4 * n) && Took(l1, l2, 4) && n < TASK_MAX_ARGS + 2
    ensures Took(l0, l2, 4 * (n + 1)) && Took(l0, l2, ARGS_COST)
  {
    hide Took;
    TookMore(l0, l1, l2, 4 * n, 4);
    TookUpTo(l0, l2, 4 * n + 4, ARGS_COST);
  }

  lemma ArgsStart(m: Machine, t: nat)
    requires m.Valid() && t < |m.tasks|
    ensures Extends(m.Held(), m.tasks, m.mem, m.Held(), m.tasks, m.mem, t) && Tabled(m.tasks[t].space)
    ensures SamePages(m.tasks[t].space, m.tasks[t].space)
    ensures SeesBelow(m.mem, m.tasks[t].space, m.mem, m.tasks[t].space, USER_STACK_TOP)
  {
    hide Extends, UserByte, Mapped, CanWrite;
    Tables(m, t);
    ExtendsNot(m.Held(), m.tasks, m.mem, t);
  }

  lemma NoStrings(view: Memory, args: seq<seq<byte>>)
    ensures Strings(view, USER_STACK_TOP, args[|args|..], []) && Total(args[|args|..]) == 0
  {}

  lemma ArgsMore(m: Machine, h0: nat -> nat, a: seq<TaskMem>, m0: Memory, h1: nat -> nat, b: seq<TaskMem>, m1: Memory,
                 t: nat,
                 from: nat, at: nat, src: seq<byte>)
    requires m.Valid() && t < |a| == |b| == |m.tasks|
    requires Extends(h0, a, m0, h1, b, m1, t) && Extends(h1, b, m1, m.Held(), m.tasks, m.mem, t)
    requires SamePages(a[t].space, b[t].space) && SamePages(b[t].space, m.tasks[t].space)
    requires SeesBelow(m0, a[t].space, m1, b[t].space, from)
    requires SeesCopy(m1, b[t].space, m.mem, m.tasks[t].space, at, src)
    requires at <= from && at + |src| <= USER_STACK_TOP
    ensures Extends(h0, a, m0, m.Held(), m.tasks, m.mem, t) && Tabled(m.tasks[t].space)
    ensures SamePages(a[t].space, m.tasks[t].space) && SeesBelow(m0, a[t].space, m.mem, m.tasks[t].space, at)
  {
    hide Extends, SeesCopy, SeesBelow, SamePages;
    Tables(m, t);
    ExtendsTwice(h0, a, m0, h1, b, m1, m.Held(), m.tasks, m.mem, t);
    SamePagesTwice(a[t].space, b[t].space, m.tasks[t].space);
    SeesBelowMore(m0, a[t].space, m1, b[t].space, m.mem, m.tasks[t].space, from, at, src);
  }
}
