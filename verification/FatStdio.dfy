// Open files of the kernel: `fopen`, `fread`, `fwrite`, `fseek` and `fclose` (stdio.c) on the FAT driver.
module FatStdio {
  import opened Bytes
  import opened FatDisk
  import opened FatLayout
  import opened FatVolume
  import opened FatItems
  import opened FatChains
  import opened FatContent
  import opened FatFiles
  import opened FatFsck
  import opened FatDirs
  import opened FatOthers
  import opened FatOps
  import opened FatSound
  import opened FatOpen
  import opened FatWriting
  import opened FatRemove

  const MAX_FILE_DESCS := 512

  /** What a file descriptor stands for: a directory, or a file by the slot it is listed in, with a copy
      of its entry, a position and a mode. */
  datatype Open = Shut | OnDirectory | OnFile(slot: Slot, item: Item, pos: nat, mode: Mode)

  /** The volume and what is open on it. */
  datatype Moment = Moment(v: View, t: Tree, files: seq<Open>)

  ghost predicate Writes(f: Open) { f.OnFile? && !f.mode.ReadMode? }

  /** The file is listed. The copy of a writer is its entry; that of a reader may be of an earlier time when
      the file was shorter. */
  ghost predicate Describes(g: Geometry, v: View, t: Tree, f: Open)
    requires Shaped(g, v) && TreeShape(g, t)
  {
    f.OnFile? ==>
      && f.slot in t.chains && !IsDirectory(EntryAt(g, v, f.slot)) && f.pos <= FileSize(f.item)
      && if Writes(f) then f.item == EntryAt(g, v, f.slot) else OlderCopy(f.item, EntryAt(g, v, f.slot))
  }

  ghost predicate OlderCopy(item: Item, now: Item) {
    FileSize(item) <= FileSize(now) && (FileSize(item) > 0 ==> FirstCluster(item) == FirstCluster(now))
  }

  /** All open files are those of the volume, and none is open for writing twice. */
  ghost predicate FilesOk(g: Geometry, v: View, t: Tree, files: seq<Open>)
    requires Shaped(g, v) && TreeShape(g, t)
  {
    && |files| == MAX_FILE_DESCS
    && (forall i :: 0 <= i < |files| ==> Describes(g, v, t, files[i]))
    && forall i, j :: 0 <= i < j < |files| && Writes(files[i]) && Writes(files[j]) ==> files[i].slot != files[j].slot
  }

  /** The volume is sound and the open files are its own. */
  ghost predicate RunOk(g: Geometry, m: Moment) { Sound(g, m.v, m.t) && FilesOk(g, m.v, m.t, m.files) }

  // ---- what an operation on other files leaves ----

  /** From `a` to `b` all files open in `a`, save those listed in `s`, are listed with the same entry,
      chain and bytes. */
  ghost predicate OpenKept(g: Geometry, a: Moment, b: Moment, s: set<Slot>) {
    && Shaped(g, a.v) && Shaped(g, b.v)
    && forall i :: 0 <= i < |a.files| && a.files[i].OnFile? && a.files[i].slot !in s ==>
         Kept(g, a.v, b.v, a.t, b.t, a.files[i].slot)
  }

  lemma OpenStays(g: Geometry, a: Moment, b: Moment, d: Dir, touched: set<Slot>)
    requires Shaped(g, a.v) && TreeShape(g, a.t) && FilesOk(g, a.v, a.t, a.files) && IsListed(g, a.v, a.t, d)
    requires OthersKept(g, a.v, b.v, a.t, b.t, d, touched)
    ensures OpenKept(g, a, b, touched)
  {
    hide Kept, EntryAt, IsDirectory, FileSize, FirstCluster;
    forall i | 0 <= i < |a.files| && a.files[i].OnFile? && a.files[i].slot !in touched
      ensures Kept(g, a.v, b.v, a.t, b.t, a.files[i].slot)
    {
      assert Describes(g, a.v, a.t, a.files[i]);
    }
  }

  /** What is kept stays described. */
  lemma StaysOpen(g: Geometry, v: View, w: View, t: Tree, o: Tree, f: Open)
    requires Shaped(g, v) && TreeShape(g, t) && Shaped(g, w) && TreeShape(g, o) && Describes(g, v, t, f)
    requires f.OnFile? ==> Kept(g, v, w, t, o, f.slot)
    ensures Describes(g, w, o, f)
  {
    hide EntryAt, FileSize, FirstCluster, IsDirectory;
  }

  /** All files open before stay described if no operation touched them. */
  lemma AllStayOpen(g: Geometry, a: Moment, b: Moment)
    requires RunOk(g, a) && Sound(g, b.v, b.t) && OpenKept(g, a, b, {})
    ensures FilesOk(g, b.v, b.t, a.files)
  {
    hide Kept, EntryAt, Describes, TreeShape, EntriesOk, SlotsOk, UsedOk, EndsOk, HasRoot, DirTidy, HomesOk;
    forall i | 0 <= i < |a.files| ensures Describes(g, b.v, b.t, a.files[i]) {
      StaysOpen(g, a.v, b.v, a.t, b.t, a.files[i]);
    }
  }

  // ---- descriptors ----

  /** A descriptor as it is kept; `at` is where the entry of the file is on the disk. */
  datatype Handle = NoFile | DirectoryFile | PlainFile(desc: Descriptor, at: nat)

  ghost function DescOf(h: Handle): set<Descriptor> { if h.PlainFile? then {h.desc} else {} }

  ghost function Descs(hs: seq<Handle>): set<Descriptor> {
    set i | 0 <= i < |hs| && hs[i].PlainFile? :: hs[i].desc
  }

  ghost predicate HandleIs(vol: Volume, h: Handle, f: Open)
    requires vol.g.Valid()
    reads DescOf(h)
  {
    match h
    case NoFile => f.Shut?
    case DirectoryFile => f.OnDirectory?
    case PlainFile(desc, at) =>
      && desc as object !in vol.Parts() && f.OnFile? && SlotExists(vol.g, f.slot) && at == SlotPos(vol.g, f.slot)
      && desc.item == f.item && desc.pos == f.pos && desc.mode == f.mode && (Writes(f) ==> desc.entryPos == at)
  }

  ghost predicate Apart(hs: seq<Handle>) {
    forall i, j :: 0 <= i < j < |hs| && hs[i].PlainFile? && hs[j].PlainFile? ==> hs[i].desc != hs[j].desc
  }

  /** The table of descriptors stands for these files. */
  ghost predicate TableIs(vol: Volume, hs: seq<Handle>, files: seq<Open>)
    requires vol.g.Valid()
    reads Descs(hs)
  {
    && |hs| == |files| && Apart(hs)
    && forall i :: 0 <= i < |hs| ==> DescOf(hs[i]) <= Descs(hs) && HandleIs(vol, hs[i], files[i])
  }

  /** The disk, the caches and the table of descriptors are as in moment `m`. */
  ghost predicate At(vol: Volume, table: array<Handle>, m: Moment)
    reads vol.Parts(), table, Descs(table[..])
  {
    && table as object !in vol.Parts()
    && vol.Valid() && vol.V() == m.v && RunOk(vol.g, m) && TableIs(vol, table[..], m.files)
  }

  /** `fs_init`: nothing is open at the start. */
  method FsInit(vol: Volume, ghost t: Tree) returns (table: array<Handle>, ghost m: Moment)
    requires vol.Valid() && Sound(vol.g, vol.V(), t)
    ensures fresh(table) && At(vol, table, m)
    ensures m.v == vol.V() && m.t == t && |m.files| == 512 && forall i :: 0 <= i < 512 ==> m.files[i].Shut?
  {
    hide FlatOf, FatImage, RootImage, DataImage, Geometry.Limit, Geometry.Valid, Volume.Valid, Volume.V;
    hide DirTidy, HomesOk, EndsOk, HasRoot, EntriesOk, SlotsOk, UsedOk, TreeShape, Shaped;
    ghost var v := vol.V();
    table := new Handle[MAX_FILE_DESCS](_ => NoFile);
    assert table as object !in vol.Parts();
    m := Moment(v, t, seq(MAX_FILE_DESCS, _ => Shut));
  }

  /** `file_get_descriptor`: descriptors start at 1. */
  method GetDescriptor(table: array<Handle>, fd: int) returns (h: Handle)
    ensures h == if 1 <= fd <= table.Length then table[fd - 1] else NoFile
  {
    if fd <= 0 || fd > table.Length {
      return NoFile;
    }
    h := table[fd - 1];
  }

  /** The first free place of `was` is taken by `x`, or there is none. */
  ghost predicate Taken<T>(was: seq<T>, now: seq<T>, free: T, x: T, fd: int) {
    if fd == 0 then now == was && forall i :: 0 <= i < |was| ==> was[i] != free
    else
      && 1 <= fd <= |was| && was[fd - 1] == free && (forall i :: 0 <= i < fd - 1 ==> was[i] != free)
      && now == was[fd - 1 := x]
  }

  function FileOf(files: seq<Open>, fd: int): Open { if 1 <= fd <= |files| then files[fd - 1] else Shut }

  // ---- writing ----

  datatype WriteHow = WriteHow(d: Dir, k: nat, was: seq<Item>, item: Item, written: nat)

  /** The first `written` bytes overwrite the file from the position on, which moves behind them. */
  ghost predicate WrittenBy(g: Geometry, a: Moment, b: Moment, fd: int, nmemb: nat, bytes: seq<byte>, res: int,
                            how: WriteHow)
  {
    && Writes(FileOf(a.files, fd)) && how.written <= |bytes|
    && var f := FileOf(a.files, fd);
       && FileWritten(g, a.v, b.v, a.t, b.t, how.d, how.was, how.k, how.item, f.pos, bytes[..how.written])
       && SlotOf(g, a.v, a.t, how.d, how.k) == f.slot
       && b.files == a.files[fd - 1 := f.(item := how.item, pos := f.pos + how.written)]
       && if res >= 0 then res == nmemb && how.written == |bytes|
          else res == NO_MEMORY_ERROR && how.written < |bytes| && NoFreeCluster(b.v.fat, g.Limit())
  }

  ghost predicate Fwritten(g: Geometry, a: Moment, b: Moment, fd: int, size: nat, nmemb: nat, bytes: seq<byte>,
                           date: Word, time: Word, res: int)
  {
    if size == 0 || nmemb == 0 then res == 0 && b == a
    else if !Writes(FileOf(a.files, fd)) then res == INVALID_ARG_ERROR && b == a
    else
      && (exists how :: WrittenBy(g, a, b, fd, nmemb, bytes, res, how))
      && Modified(FileOf(a.files, fd).item, FileOf(b.files, fd).item, date, time)
  }

  /** Where a file is listed. */
  lemma PlaceOf(g: Geometry, v: View, t: Tree, s: Slot) returns (d: Dir, k: nat)
    requires Consistent(g, v, t, []) && s in t.chains && !IsDirectory(EntryAt(g, v, s))
    ensures FileAt(g, v, t, d, k, EntryAt(g, v, s)) && SlotOf(g, v, t, d, k) == s
  {
    hide UsedOk, HasRoot, EntryOk, Live, EndsOnce;
    assert InDirectory(g, v, t, s) && Live(EntryAt(g, v, s));
    if s.RootSlot? {
      d, k := RootDir, s.idx;
    } else {
      d := SubDir(t.owner[s.cluster]);
      k := DirSlotIndex(g, t.chains[d.slot], s);
    }
    SlotOfEntry(g, v, t, d, k);
  }

  /** What is in a directory now. */
  lemma AnyView(g: Geometry, v: View, t: Tree, d: Dir, k: nat, item: Item) returns (view: DirView)
    requires Consistent(g, v, t, []) && FileAt(g, v, t, d, k, item)
    ensures Loaded(view, g, v, t, d) && k < |view.items| && view.items[k] == item
  {
    hide EntriesOk, SlotsOk, UsedOk, HasRoot, EntryAt, IsDirectory, IsLongName, IsVolumeLabel, EntryOk, SlotOf;
    hide TreeShape;
    var all := AllItems(g, v, t, d);
    var n := TotalOf(all, 0);
    view := DirView(all[..n], if d.RootDir? then 0 else First(t.chains[d.slot]));
  }

  /** After a write the copy of the writer is the entry again, and readers have older copies of it. */
  lemma FilesWritten(g: Geometry, a: Moment, b: Moment, fd: int, nmemb: nat, bytes: seq<byte>, res: int, how: WriteHow)
    requires RunOk(g, a) && Sound(g, b.v, b.t) && WrittenBy(g, a, b, fd, nmemb, bytes, res, how)
    ensures RunOk(g, b) && OpenKept(g, a, b, {FileOf(a.files, fd).slot})
  {
    hide Kept, EntryAt, Describes, TreeShape, EntriesOk, SlotsOk, UsedOk, EndsOk, HasRoot, DirTidy, HomesOk;
    hide FileAt, SlotOf, AllItems, Contents, Overwritten, IsDirectory, OthersKept, Lists;
    var f := FileOf(a.files, fd);
    assert Describes(g, a.v, a.t, f);
    FileThere(g, a.v, a.t, how.d, how.k, how.was[how.k]);
    OpenStays(g, a, b, how.d, {f.slot});
    forall i | 0 <= i < |b.files| ensures Describes(g, b.v, b.t, b.files[i]) {
      if a.files[i].OnFile? && a.files[i].slot == f.slot {
        assert Describes(g, a.v, a.t, a.files[i]);
        CopyAfter(g, a, b, how.d, how.was, how.k, how.item, f, bytes[..how.written], a.files[i]);
      } else {
        StaysOpen(g, a.v, b.v, a.t, b.t, a.files[i]);
      }
    }
  }

  lemma FileThere(g: Geometry, v: View, t: Tree, d: Dir, k: nat, item: Item)
    requires Shaped(g, v) && TreeShape(g, t) && FileAt(g, v, t, d, k, item)
    ensures IsListed(g, v, t, d) && k < |AllItems(g, v, t, d)| && !IsDirectory(item)
    ensures EntryAt(g, v, SlotOf(g, v, t, d, k)) == item && SlotOf(g, v, t, d, k) in t.chains
  {
    SlotOfEntry(g, v, t, d, k);
    hide AllItems, SlotOf, EntryAt, Live, EntryOk, IsListed;
  }

  /** A descriptor `e` of the file that `f` writes to. */
  lemma CopyAfter(g: Geometry, a: Moment, b: Moment, d: Dir, items: seq<Item>, k: nat, item: Item, f: Open,
                  bytes: seq<byte>, e: Open)
    requires Shaped(g, a.v) && TreeShape(g, a.t) && Shaped(g, b.v) && TreeShape(g, b.t)
    requires Writes(f) && Describes(g, a.v, a.t, f) && Describes(g, a.v, a.t, e) && e.OnFile? && e.slot == f.slot
    requires FileWritten(g, a.v, b.v, a.t, b.t, d, items, k, item, f.pos, bytes)
    requires IsListed(g, a.v, a.t, d) && k < |AllItems(g, a.v, a.t, d)| && SlotOf(g, a.v, a.t, d, k) == f.slot
    ensures Writes(e) ==> Describes(g, b.v, b.t, e.(item := item, pos := f.pos + |bytes|))
    ensures !Writes(e) ==> Describes(g, b.v, b.t, e)
  {
    hide EntryAt, TreeShape, SlotsOk, UsedOk, AllItems, SlotOf, Overwritten, IsDirectory, OthersKept, Lists, FileSize;
    hide FirstCluster, EntriesOk, FileAt, IsListed;
    var s := f.slot;
    FileThere(g, b.v, b.t, d, k, item);
    SizeOf(g, a.v, a.t, s);
    SizeOf(g, b.v, b.t, s);
  }

  /** A file is as long as its entry says, and its entry names the first cluster of its chain. */
  lemma SizeOf(g: Geometry, v: View, t: Tree, s: Slot)
    requires FsckBut(g, v, t, []) && s in t.chains && !IsDirectory(EntryAt(g, v, s))
    ensures |Contents(g, v, t, s)| == FileSize(EntryAt(g, v, s))
    ensures FirstCluster(EntryAt(g, v, s)) == First(t.chains[s])
    ensures FileSize(EntryAt(g, v, s)) > 0 ==> t.chains[s] != []
  {
    hide SlotsOk, UsedOk, IsDirectory, EntryAt, FileSize, IsChain;
    assert EntryOk(g, v, EntryAt(g, v, s), t.chains[s]);
    ChainClusters(g, v, t.chains[s]);
  }

  /** A writer describes the file with entry `k` of directory `d`. */
  lemma WriterPlace(vol: Volume, m: Moment, f: Open, desc: Descriptor) returns (d: Dir, k: nat, view: DirView)
    requires RunOk(vol.g, m) && f in m.files && Writes(f) && HandleIs(vol, PlainFile(desc, desc.entryPos), f)
    ensures Sound(vol.g, m.v, m.t) && Loaded(view, vol.g, m.v, m.t, d)
    ensures k < |view.items| && view.items[k] == desc.item
    ensures IsListed(vol.g, m.v, m.t, d) && k < |AllItems(vol.g, m.v, m.t, d)|
    ensures DescribesFile(vol.g, m.v, m.t, d, k, desc) && SlotOf(vol.g, m.v, m.t, d, k) == f.slot
  {
    hide DirTidy, HomesOk, EndsOk, HasRoot, EntriesOk, SlotsOk, UsedOk, AllItems, EntryAt, IsDirectory, FileSize;
    hide SlotPos, Loaded, SlotOf, TreeShape;
    assert Describes(vol.g, m.v, m.t, f);
    d, k := PlaceOf(vol.g, m.v, m.t, f.slot);
    view := AnyView(vol.g, m.v, m.t, d, k, f.item);
    OpensFile(vol.g, m.v, m.t, d, k, desc);
  }

  lemma WrittenIs(g: Geometry, a: Moment, b: Moment, fd: int, nmemb: nat, bytes: seq<byte>, res: int)
    requires RunOk(g, a) && Sound(g, b.v, b.t) && exists how :: WrittenBy(g, a, b, fd, nmemb, bytes, res, how)
    ensures RunOk(g, b)
  {
    hide RunOk, Sound, WrittenBy;
    var how :| WrittenBy(g, a, b, fd, nmemb, bytes, res, how);
    FilesWritten(g, a, b, fd, nmemb, bytes, res, how);
  }

  /** Writing through a descriptor that may write. */
  method WriteOpenFile(vol: Volume, table: array<Handle>, fd: nat, desc: Descriptor, size: nat, nmemb: nat,
                       bytes: seq<byte>, date: Word, time: Word, ghost m: Moment)
    returns (res: int, ghost b: Moment)
    requires At(vol, table, m) && |bytes| == size * nmemb < 0x100000000
    requires 1 <= fd <= table.Length && table[fd - 1] == PlainFile(desc, desc.entryPos) && !desc.mode.ReadMode?
    modifies vol.Parts(), desc
    ensures vol.Valid() && Sound(vol.g, b.v, b.t) && b.v == vol.V() && TableIs(vol, table[..], b.files)
    ensures exists how :: WrittenBy(vol.g, m, b, fd, nmemb, bytes, res, how)
    ensures Modified(m.files[fd - 1].item, FileOf(b.files, fd).item, date, time)
  {
    hide FlatOf, FatImage, RootImage, DataImage, Geometry.Limit, Geometry.Valid, Volume.Valid, Volume.V;
    hide RunOk, FileWritten, SlotOf, AllItems, FileAt, TreeShape, IsDirectory, EntryAt, FileSize, NoFreeCluster;
    hide SlotPos, DescribesFile, Loaded, Sound, Modified;
    ghost var f := m.files[fd - 1];
    assert HandleIs(vol, table[..][fd - 1], f);
    ghost var d, k, view := WriterPlace(vol, m, f, desc);
    ghost var o;
    res, o := WriteFile(vol, desc, size, nmemb, bytes, date, time, view, m.t, d, k);
    b := Moment(vol.V(), o, m.files[fd - 1 := f.(item := desc.item, pos := desc.pos)]);
    OneChanged(vol, table[..], m.files, fd - 1, b.files[fd - 1]);
    assert WrittenBy(vol.g, m, b, fd, nmemb, bytes, res, WriteHow(d, k, view.items, desc.item, desc.pos - f.pos));
  }

  method Fwrite(vol: Volume, table: array<Handle>, fd: int, size: nat, nmemb: nat, bytes: seq<byte>,
                date: Word, time: Word, ghost m: Moment)
    returns (res: int, ghost b: Moment)
    requires At(vol, table, m) && |bytes| == size * nmemb < 0x100000000
    modifies vol.Parts(), Descs(table[..])
    ensures At(vol, table, b) && Fwritten(vol.g, m, b, fd, size, nmemb, bytes, date, time, res)
  {
    hide FlatOf, FatImage, RootImage, DataImage, Geometry.Limit, Geometry.Valid, Volume.Valid, Volume.V;
    hide RunOk, Sound, SlotPos, WrittenBy, SlotExists, Modified;
    b := m;
    if size == 0 || nmemb == 0 {
      return 0, b;
    }
    var h := GetDescriptor(table, fd);
    assert h.PlainFile? ==> HandleIs(vol, table[..][fd - 1], m.files[fd - 1]);
    if !h.PlainFile? || h.desc.mode.ReadMode? {
      return INVALID_ARG_ERROR, b;
    }
    res, b := WriteOpenFile(vol, table, fd, h.desc, size, nmemb, bytes, date, time, m);
    WrittenIs(vol.g, m, b, fd, nmemb, bytes, res);
  }

  // ---- reading and seeking ----

  /** Whole members are read from the position on, which moves behind them, and nothing on the volume
      changes. What is read is what the file holds now, up to the size it had for the descriptor. */
  ghost predicate ReadBy(g: Geometry, a: Moment, b: Moment, fd: int, size: nat, nmemb: nat, res: int, out: seq<byte>)
  {
    && var f := FileOf(a.files, fd);
       && f.OnFile? && f.pos <= FileSize(f.item) && size > 0
       && res == MinOf(IndexIn(FileSize(f.item) - f.pos, size), nmemb)
       && ReadUpTo(g, a, b, fd, f.pos + res * size, out)
  }

  ghost predicate ReadUpTo(g: Geometry, a: Moment, b: Moment, fd: int, end: int, out: seq<byte>) {
    && FsckBut(g, a.v, a.t, []) && FileOf(a.files, fd).OnFile? && Describes(g, a.v, a.t, FileOf(a.files, fd))
    && var f := FileOf(a.files, fd);
       && f.pos <= end <= |Contents(g, a.v, a.t, f.slot)| && out == Contents(g, a.v, a.t, f.slot)[f.pos..end]
       && b == a.(files := a.files[fd - 1 := f.(pos := end)])
  }

  ghost predicate FreadDone(g: Geometry, a: Moment, b: Moment, fd: int, size: nat, nmemb: nat, res: int, out: seq<byte>)
  {
    if size == 0 || nmemb == 0 || !FileOf(a.files, fd).OnFile? then res == INVALID_ARG_ERROR && out == [] && b == a
    else ReadBy(g, a, b, fd, size, nmemb, res, out)
  }

  /** A descriptor sees a part of the file from its beginning on. */
  lemma SeesFile(g: Geometry, v: View, t: Tree, f: Open, desc: Descriptor)
    requires FsckBut(g, v, t, []) && Describes(g, v, t, f) && f.OnFile? && desc.item == f.item && desc.pos == f.pos
    ensures f.slot in t.chains && desc.Sees(g, v, t.chains[f.slot]) && FileSize(f.item) < 0x80000000
    ensures FileSize(f.item) <= |Contents(g, v, t, f.slot)|
    ensures HasClusters(v.data, t.chains[f.slot], g.ClusterBytes())
    ensures FileBytes(g, v, t.chains[f.slot], FileSize(f.item)) == Contents(g, v, t, f.slot)[..FileSize(f.item)]
  {
    hide SlotsOk, UsedOk, IsDirectory, EntryAt, FileSize, IsChain, FirstCluster, Geometry.Valid, Geometry.Limit;
    var cs := t.chains[f.slot];
    assert EntryOk(g, v, EntryAt(g, v, f.slot), cs);
    ChainClusters(g, v, cs);
    ChainLength(v.fat, g, cs);
  }

  method Fread(vol: Volume, table: array<Handle>, fd: int, size: nat, nmemb: nat, ghost m: Moment)
    returns (res: int, out: seq<byte>, ghost b: Moment)
    requires At(vol, table, m)
    modifies vol.clusterStream, Descs(table[..])
    ensures At(vol, table, b) && FreadDone(vol.g, m, b, fd, size, nmemb, res, out)
  {
    hide FlatOf, FatImage, RootImage, DataImage, Geometry.Limit, Geometry.Valid, Volume.Valid, Volume.V;
    hide RunOk, EntryAt, TreeShape, IsDirectory, FileSize, SlotPos, SlotExists, IndexIn;
    hide Describes, Contents, FsckBut, ReadUpTo;
    b := m;
    var h := GetDescriptor(table, fd);
    if size == 0 || nmemb == 0 || !h.PlainFile? {
      return INVALID_ARG_ERROR, [], b;
    }
    var desc := h.desc;
    ghost var f := m.files[fd - 1];
    OneOpen(vol.g, m, fd);
    SeesFile(vol.g, m.v, m.t, f, desc);
    res, out := Read(vol, desc, size, nmemb, m.t.chains[f.slot]);
    b := m.(files := m.files[fd - 1 := f.(pos := desc.pos)]);
    MovedOk(vol.g, m, fd, desc.pos);
    OneChanged(vol, table[..], m.files, fd - 1, b.files[fd - 1]);
    ReadPart(vol.g, m, fd, desc.pos, out);
  }

  lemma ReadPart(g: Geometry, m: Moment, fd: int, end: nat, out: seq<byte>)
    requires RunOk(g, m) && FileOf(m.files, fd).OnFile? && FsckBut(g, m.v, m.t, [])
    requires Describes(g, m.v, m.t, FileOf(m.files, fd))
    requires var f := FileOf(m.files, fd);
             && f.pos <= end <= FileSize(f.item) <= |Contents(g, m.v, m.t, f.slot)|
             && out == Contents(g, m.v, m.t, f.slot)[..FileSize(f.item)][f.pos..end]
    ensures ReadUpTo(g, m, m.(files := m.files[fd - 1 := FileOf(m.files, fd).(pos := end)]), fd, end, out)
  {
    hide RunOk, Contents, FsckBut, Describes, FileSize;
  }

  lemma OneOpen(g: Geometry, m: Moment, fd: int)
    requires RunOk(g, m) && 1 <= fd <= |m.files|
    ensures FsckBut(g, m.v, m.t, []) && Describes(g, m.v, m.t, m.files[fd - 1])
  {
    hide DirTidy, HomesOk, EndsOk, HasRoot, EntriesOk, SlotsOk, UsedOk, Describes, TreeShape;
  }

  /** A position inside the file. */
  lemma MovedOk(g: Geometry, m: Moment, fd: int, pos: nat)
    requires RunOk(g, m) && 1 <= fd <= |m.files| && m.files[fd - 1].OnFile? && pos <= FileSize(m.files[fd - 1].item)
    ensures RunOk(g, m.(files := m.files[fd - 1 := m.files[fd - 1].(pos := pos)]))
  {
    hide DirTidy, HomesOk, EndsOk, HasRoot, EntriesOk, SlotsOk, UsedOk;
    hide EntryAt, FileSize, FirstCluster, IsDirectory, TreeShape;
    assert Describes(g, m.v, m.t, m.files[fd - 1]);
  }

  /** One descriptor changed. */
  lemma OneChanged(vol: Volume, hs: seq<Handle>, files: seq<Open>, i: nat, f: Open)
    requires vol.g.Valid() && |hs| == |files| && i < |hs| && HandleIs(vol, hs[i], f) && Apart(hs)
    requires forall j :: 0 <= j < |hs| && j != i ==> HandleIs(vol, hs[j], files[j])
    ensures TableIs(vol, hs, files[i := f])
  {
    hide Geometry.Valid, SlotPos, SlotExists;
  }

  ghost predicate FseekDone(a: Moment, b: Moment, fd: int, offset: int, whence: Whence, res: int) {
    var f := FileOf(a.files, fd);
    match f
    case Shut => res == IO_ERROR && b == a
    case OnDirectory => res == INVALID_ARG_ERROR && b == a
    case OnFile(slot, item, pos, mode) =>
      var target := offset + From(whence, pos, FileSize(item));
      if 0 <= target <= FileSize(item) then res == OK && b == a.(files := a.files[fd - 1 := f.(pos := target)])
      else res == IO_ERROR && b == a
  }

  /** Where the offset counts from. */
  function From(whence: Whence, pos: nat, size: nat): nat {
    match whence
    case SeekSet => 0
    case SeekCur => pos
    case SeekEnd => size
  }

  lemma Sought(a: Moment, fd: int, offset: int, whence: Whence, res: int, pos: nat)
    requires FileOf(a.files, fd).OnFile?
    requires var f := FileOf(a.files, fd);
             var target := offset + From(whence, f.pos, FileSize(f.item));
             if 0 <= target <= FileSize(f.item) then res == OK && pos == target else res == IO_ERROR && pos == f.pos
    ensures FseekDone(a, a.(files := a.files[fd - 1 := FileOf(a.files, fd).(pos := pos)]), fd, offset, whence, res)
  {
    hide FileSize, From;
    assert pos == FileOf(a.files, fd).pos ==> a.files[fd - 1 := FileOf(a.files, fd).(pos := pos)] == a.files;
  }

  lemma ShutSeek(a: Moment, fd: int, offset: int, whence: Whence)
    ensures FileOf(a.files, fd).Shut? ==> FseekDone(a, a, fd, offset, whence, IO_ERROR)
    ensures FileOf(a.files, fd).OnDirectory? ==> FseekDone(a, a, fd, offset, whence, INVALID_ARG_ERROR)
  {}

  method Fseek(vol: Volume, table: array<Handle>, fd: int, offset: int, whence: Whence, ghost m: Moment)
    returns (res: int, ghost b: Moment)
    requires At(vol, table, m) && -0x80000000 <= offset < 0x80000000
    modifies Descs(table[..])
    ensures At(vol, table, b) && FseekDone(m, b, fd, offset, whence, res)
  {
    hide FlatOf, FatImage, RootImage, DataImage, Geometry.Limit, Geometry.Valid, Volume.Valid, Volume.V;
    hide RunOk, EntryAt, TreeShape, IsDirectory, FileSize, SlotPos, SlotExists, IndexIn;
    hide Describes, Contents, FsckBut, FseekDone;
    b := m;
    ShutSeek(m, fd, offset, whence);
    var h := GetDescriptor(table, fd);
    if !h.PlainFile? {
      return if h.NoFile? then IO_ERROR else INVALID_ARG_ERROR, b;
    }
    var desc := h.desc;
    ghost var f := m.files[fd - 1];
    OneOpen(vol.g, m, fd);
    SeesFile(vol.g, m.v, m.t, f, desc);
    res := Seek(desc, offset, whence);
    b := m.(files := m.files[fd - 1 := f.(pos := desc.pos)]);
    MovedOk(vol.g, m, fd, desc.pos);
    OneChanged(vol, table[..], m.files, fd - 1, b.files[fd - 1]);
    Sought(m, fd, offset, whence, res, desc.pos);
  }

  // ---- closing and opening ----

  ghost predicate FcloseDone(a: Moment, b: Moment, fd: int, res: int) {
    if FileOf(a.files, fd).Shut? then res == IO_ERROR && b == a
    else res == OK && b == a.(files := a.files[fd - 1 := Shut])
  }

  method Fclose(vol: Volume, table: array<Handle>, fd: int, ghost m: Moment) returns (res: int, ghost b: Moment)
    requires At(vol, table, m)
    modifies table
    ensures At(vol, table, b) && FcloseDone(m, b, fd, res)
    ensures Descs(table[..]) <= old(Descs(table[..]))
  {
    hide FlatOf, FatImage, RootImage, DataImage, Geometry.Limit, Geometry.Valid, Volume.Valid, Volume.V;
    hide EntryAt, TreeShape, IsDirectory, FileSize, SlotPos, SlotExists, Sound;
    b := m;
    var h := GetDescriptor(table, fd);
    if h.NoFile? {
      return IO_ERROR, b;
    }
    table[fd - 1] := NoFile;
    b := m.(files := m.files[fd - 1 := Shut]);
    res := OK;
  }
}
