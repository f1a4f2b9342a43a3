// `fopen` in a resolved directory: `fat16_open` and the table of descriptors (stdio.c).
module FatFopen {
  import opened FatDisk
  import opened FatLayout
  import opened FatVolume
  import opened FatItems
  import opened FatChains
  import opened FatFiles
  import opened FatFsck
  import opened FatDirs
  import opened FatOthers
  import opened FatNames
  import opened FatLongNames
  import opened FatNaming
  import opened FatOps
  import opened FatCreate
  import opened FatSound
  import opened FatOpen
  import opened FatStdio

  // ---- files that are in use ----

  /** Somebody has the file in slot `s` open: for writing, or at all. */
  ghost predicate Busy(files: seq<Open>, s: Slot, all: bool) {
    exists i :: 0 <= i < |files| && files[i].OnFile? && files[i].slot == s && (all || Writes(files[i]))
  }

  /** Entry `found` of directory `d` is that of such a file. */
  ghost predicate InTheWay(g: Geometry, m: Moment, d: Dir, items: seq<Item>, found: int, all: bool) {
    && Shaped(g, m.v) && TreeShape(g, m.t) && IsListed(g, m.v, m.t, d)
    && 0 <= found < |items| && found < |AllItems(g, m.v, m.t, d)| && !IsDirectory(items[found])
    && Busy(m.files, SlotOf(g, m.v, m.t, d, found), all)
  }

  /** Opening for writing cuts the file to nothing. */
  predicate Truncates(mode: Mode, item: Item) { mode.WriteMode? && FirstCluster(item) != 0 }

  /** Different entries are at different places of the disk. */
  lemma SlotPosOnce(g: Geometry, s: Slot, u: Slot)
    requires g.Valid() && SlotExists(g, s) && SlotExists(g, u) && SlotPos(g, s) == SlotPos(g, u)
    ensures s == u
  {
    SlotInRoot(g, s);
    SlotInRoot(g, u);
    if s.ClusterSlot? {
      hide Geometry.ClusterPos, Geometry.Limit, Geometry.Valid, Geometry.RootSector;
      if s.cluster < u.cluster { ClustersApart(g, s.cluster, u.cluster); }
      if u.cluster < s.cluster { ClustersApart(g, u.cluster, s.cluster); }
    }
  }

  method IsBusy(table: array<Handle>, at: nat, all: bool, ghost vol: Volume, ghost m: Moment, ghost s: Slot)
    returns (busy: bool)
    requires At(vol, table, m) && SlotExists(vol.g, s) && at == SlotPos(vol.g, s)
    ensures busy <==> Busy(m.files, s, all)
  {
    hide FlatOf, FatImage, RootImage, DataImage, Geometry.Limit, Geometry.Valid, Volume.Valid, Volume.V, RunOk;
    hide SlotPos, SlotExists;
    for i := 0 to table.Length
      invariant forall j :: 0 <= j < i && m.files[j].OnFile? && m.files[j].slot == s ==> !all && !Writes(m.files[j])
    {
      var h := table[i];
      assert HandleIs(vol, table[..][i], m.files[i]);
      if h.PlainFile? && h.at == at && (all || !h.desc.mode.ReadMode?) {
        SlotPosOnce(vol.g, m.files[i].slot, s);
        return true;
      }
    }
    busy := false;
  }

  // ---- the table of descriptors ----

  /** `file_new_descriptor`. */
  method Install(table: array<Handle>, h: Handle) returns (fd: int)
    modifies table
    ensures Taken(old(table[..]), table[..], NoFile, h, fd)
  {
    for i := 0 to table.Length
      invariant forall j :: 0 <= j < i ==> table[j] != NoFile
    {
      if table[i].NoFile? {
        table[i] := h;
        return i + 1;
      }
    }
    fd := 0;
  }

  lemma TableTaken(vol: Volume, was: seq<Handle>, now: seq<Handle>, files: seq<Open>, h: Handle, f: Open, fd: int)
    requires vol.g.Valid() && TableIs(vol, was, files) && HandleIs(vol, h, f) && !f.Shut? && DescOf(h) !! Descs(was)
    requires Taken(was, now, NoFile, h, fd)
    ensures TableIs(vol, now, With(files, f, fd)) && Taken(files, With(files, f, fd), Shut, f, fd)
    ensures Descs(now) <= Descs(was) + DescOf(h)
  {
    hide Geometry.Valid, SlotPos, SlotExists;
    forall i | 0 <= i < |was| ensures was[i] == NoFile <==> files[i] == Shut { assert HandleIs(vol, was[i], files[i]); }
    if fd != 0 {
      forall i | 0 <= i < |now| && i != fd - 1 ensures HandleIs(vol, now[i], files[i]) && DescOf(now[i]) <= Descs(was) {
        assert now[i] == was[i];
      }
    }
  }

  function With(files: seq<Open>, f: Open, fd: int): seq<Open> {
    if 1 <= fd <= |files| then files[fd - 1 := f] else files
  }

  /** Puts an open file into the table, if there is a place. */
  method PutHandle(vol: Volume, table: array<Handle>, h: Handle, ghost files: seq<Open>, ghost f: Open)
    returns (fd: int)
    requires vol.g.Valid() && TableIs(vol, table[..], files) && HandleIs(vol, h, f) && !f.Shut?
    requires DescOf(h) !! Descs(table[..])
    modifies table
    ensures TableIs(vol, table[..], With(files, f, fd)) && Taken(files, With(files, f, fd), Shut, f, fd)
    ensures Descs(table[..]) <= old(Descs(table[..])) + DescOf(h)
  {
    hide Geometry.Valid, SlotPos, SlotExists, Taken;
    ghost var was := table[..];
    fd := Install(table, h);
    TableTaken(vol, was, table[..], files, h, f, fd);
  }

  /** One more file is open. */
  lemma AddOpen(g: Geometry, v: View, t: Tree, was: seq<Open>, now: seq<Open>, f: Open, fd: int)
    requires Shaped(g, v) && TreeShape(g, t) && FilesOk(g, v, t, was) && Describes(g, v, t, f)
    requires Writes(f) ==> !Busy(was, f.slot, false)
    requires Taken(was, now, Shut, f, fd)
    ensures FilesOk(g, v, t, now)
  {
    hide Describes, TreeShape;
  }

  // ---- opening ----

  /** What was found, and of a file open for writing, entry `k` of the directory, its entries if it is new,
      the copy of its entry and the position; `error` is that of the driver. */
  datatype OpenHow = OpenHow(found: int, error: int, k: nat, entries: seq<Item>, item: Item, pos: nat)

  function NotFound(found: int, error: int): OpenHow { OpenHow(found, error, 0, [], seq(32, _ => 0), 0) }

  /** A file or directory that is there is open for reading from its start on. */
  ghost predicate ReadOpened(g: Geometry, a: Moment, b: Moment, d: Dir, items: seq<Item>, fd: int, found: int)
    requires Shaped(g, a.v) && TreeShape(g, a.t) && found < |items|
  {
    && b.v == a.v && b.t == a.t
    && if found < 0 then fd == 0 && b == a
       else if IsDirectory(items[found]) then Taken(a.files, b.files, Shut, OnDirectory, fd)
       else
         && FileAt(g, a.v, a.t, d, found, items[found])
         && Taken(a.files, b.files, Shut, OnFile(SlotOf(g, a.v, a.t, d, found), items[found], 0, ReadMode), fd)
  }

  /** A file is open for writing. Without a free descriptor it is closed again, whatever became of it. */
  ghost predicate WriteOpened(g: Geometry, a: Moment, b: Moment, d: Dir, items: seq<Item>, name: Name, mode: Mode,
                              date: Word, time: Word, fd: int, how: OpenHow)
  {
    && OpenedAs(g, a.v, b.v, a.t, b.t, d, items, name, mode, date, time, how.found, how.k, how.entries, how.item,
                how.pos)
    && FileAt(g, b.v, b.t, d, how.k, how.item) && how.pos <= FileSize(how.item)
    && Taken(a.files, b.files, Shut, OnFile(SlotOf(g, b.v, b.t, d, how.k), how.item, how.pos, mode), fd)
  }

  ghost predicate OpenedBy(g: Geometry, a: Moment, b: Moment, d: Dir, items: seq<Item>, name: Name, mode: Mode,
                           date: Word, time: Word, fd: int, how: OpenHow)
    requires Shaped(g, a.v) && TreeShape(g, a.t)
  {
    && IsIndexOf(items, name, how.found)
    && if mode.ReadMode? then ReadOpened(g, a, b, d, items, fd, how.found)
       else if how.error < 0 then
         fd == 0 && b.files == a.files && NotOpened(g, a.v, b.v, a.t, b.t, d, items, name, how.found, how.error)
       else WriteOpened(g, a, b, d, items, name, mode, date, time, fd, how)
  }

  /** No file that is open is cut to nothing, and none is opened for a second write. */
  ghost predicate MayOpen(g: Geometry, m: Moment, d: Dir, items: seq<Item>, mode: Mode, found: int) {
    mode.ReadMode? || found < 0 || found >= |items| || !InTheWay(g, m, d, items, found, Truncates(mode, items[found]))
  }

  /** Opens that would not leave an open file right: for writing or appending, of a file that has a writer; and for
      writing, of a file with clusters that is open at all. Every other open goes. */
  lemma MayOpenExactly(g: Geometry, m: Moment, d: Dir, items: seq<Item>, mode: Mode, found: nat)
    requires Shaped(g, m.v) && TreeShape(g, m.t) && IsListed(g, m.v, m.t, d)
    requires found < |items| && found < |AllItems(g, m.v, m.t, d)| && !IsDirectory(items[found])
    ensures mode.ReadMode? ==> MayOpen(g, m, d, items, mode, found)
    ensures mode.AppendMode? || (mode.WriteMode? && FirstCluster(items[found]) == 0) ==>
              (MayOpen(g, m, d, items, mode, found) <==>
               forall i :: 0 <= i < |m.files| && Writes(m.files[i]) ==>
                 !m.files[i].OnFile? || m.files[i].slot != SlotOf(g, m.v, m.t, d, found))
    ensures mode.WriteMode? && FirstCluster(items[found]) != 0 ==>
              (MayOpen(g, m, d, items, mode, found) <==>
               forall i :: 0 <= i < |m.files| && m.files[i].OnFile? ==>
                 m.files[i].slot != SlotOf(g, m.v, m.t, d, found))
  {
    hide SlotOf, AllItems, IsListed, TreeShape, FirstCluster, IsDirectory, Shaped;
  }

  /** Opening keeps what is open. */
  lemma OpeningKeeps(g: Geometry, a: Moment, b: Moment, d: Dir, items: seq<Item>, name: Name, mode: Mode,
                     date: Word, time: Word, fd: int, how: OpenHow)
    requires RunOk(g, a) && Sound(g, b.v, b.t) && IsListed(g, a.v, a.t, d)
    requires OpenedBy(g, a, b, d, items, name, mode, date, time, fd, how) && MayOpen(g, a, d, items, mode, how.found)
    ensures RunOk(g, b) && OpenKept(g, a, b, {})
  {
    hide DirTidy, HomesOk, EndsOk, HasRoot, EntriesOk, SlotsOk, UsedOk, TreeShape, Describes, OpenKept;
    hide ReadOpened, WriteOpened, NotOpened, InTheWay, IsListed, Matches;
    if mode.ReadMode? {
      ReadingKeeps(g, a, b, d, items, fd, how.found);
    } else if how.error < 0 {
      FailingKeeps(g, a, b, d, items, name, how.found, how.error);
    } else {
      WritingKeeps(g, a, b, d, items, name, mode, date, time, fd, how);
    }
  }

  lemma ReadingKeeps(g: Geometry, a: Moment, b: Moment, d: Dir, items: seq<Item>, fd: int, found: int)
    requires RunOk(g, a) && IsListed(g, a.v, a.t, d) && found < |items| && ReadOpened(g, a, b, d, items, fd, found)
    ensures RunOk(g, b) && OpenKept(g, a, b, {})
  {
    hide DirTidy, HomesOk, EndsOk, HasRoot, EntriesOk, SlotsOk, UsedOk, TreeShape, OpenKept, EntryAt, SlotOf;
    hide FileAt, IsListed, AllItems, Taken, IsDirectory, FileSize, FirstCluster;
    NothingTouched(g, a.v, a.t, d, {});
    OpenStays(g, a, b, d, {});
    if found >= 0 && IsDirectory(items[found]) {
      AddOpen(g, a.v, a.t, a.files, b.files, OnDirectory, fd);
    } else if found >= 0 {
      FileThere(g, a.v, a.t, d, found, items[found]);
      var f := OnFile(SlotOf(g, a.v, a.t, d, found), items[found], 0, ReadMode);
      AddOpen(g, a.v, a.t, a.files, b.files, f, fd);
    }
  }

  lemma FailingKeeps(g: Geometry, a: Moment, b: Moment, d: Dir, items: seq<Item>, name: Name, found: int, error: int)
    requires RunOk(g, a) && Sound(g, b.v, b.t) && IsListed(g, a.v, a.t, d) && b.files == a.files
    requires NotOpened(g, a.v, b.v, a.t, b.t, d, items, name, found, error)
    ensures RunOk(g, b) && OpenKept(g, a, b, {})
  {
    hide DirTidy, HomesOk, EndsOk, HasRoot, EntriesOk, SlotsOk, UsedOk, TreeShape, Describes, OpenKept, IsIndexOf;
    hide IsListed, OnlyGrew, CreateFails, FilesOk;
    if found >= 0 { NothingTouched(g, a.v, a.t, d, {}); } else { GrewKeeps(g, a.v, b.v, a.t, b.t, d, []); }
    OpenStays(g, a, b, d, {});
    AllStayOpen(g, a, b);
  }

  lemma WritingKeeps(g: Geometry, a: Moment, b: Moment, d: Dir, items: seq<Item>, name: Name, mode: Mode,
                     date: Word, time: Word, fd: int, how: OpenHow)
    requires RunOk(g, a) && Sound(g, b.v, b.t) && IsListed(g, a.v, a.t, d) && !mode.ReadMode?
    requires WriteOpened(g, a, b, d, items, name, mode, date, time, fd, how)
    requires MayOpen(g, a, d, items, mode, how.found)
    ensures RunOk(g, b) && OpenKept(g, a, b, {})
  {
    hide DirTidy, HomesOk, EndsOk, HasRoot, EntriesOk, SlotsOk, UsedOk, TreeShape, OpenKept, EntryAt, SlotOf;
    hide FileAt, IsListed, AllItems, Taken, IsDirectory, FileSize, FirstCluster, FilesOk, OpenedAs, MayOpen, Busy;
    FileThere(g, b.v, b.t, d, how.k, how.item);
    NobodyThere(g, a, b, d, items, name, mode, date, time, how);
    AllStayOpen(g, a, b);
    AddOpen(g, b.v, b.t, a.files, b.files, OnFile(SlotOf(g, b.v, b.t, d, how.k), how.item, how.pos, mode), fd);
  }

  /** Nobody writes to the file that is opened, and what is open is kept. */
  lemma NobodyThere(g: Geometry, a: Moment, b: Moment, d: Dir, items: seq<Item>, name: Name, mode: Mode,
                    date: Word, time: Word, how: OpenHow)
    requires RunOk(g, a) && IsListed(g, a.v, a.t, d) && !mode.ReadMode?
    requires OpenedAs(g, a.v, b.v, a.t, b.t, d, items, name, mode, date, time, how.found, how.k, how.entries, how.item,
                      how.pos)
    requires FileAt(g, b.v, b.t, d, how.k, how.item) && MayOpen(g, a, d, items, mode, how.found)
    ensures !Busy(a.files, SlotOf(g, b.v, b.t, d, how.k), false) && OpenKept(g, a, b, {})
  {
    hide DirTidy, HomesOk, EndsOk, HasRoot, EntriesOk, SlotsOk, UsedOk, TreeShape, EntryAt, SlotOf, Kept;
    hide FileAt, IsListed, AllItems, Taken, IsDirectory, FileSize, FirstCluster, IsIndexOf, Lists, OthersKept;
    FileThere(g, b.v, b.t, d, how.k, how.item);
    var s := SlotOf(g, b.v, b.t, d, how.k);
    if how.found >= 0 {
      FileThere(g, a.v, a.t, d, how.k, items[how.k]);
      OpenStays(g, a, b, d, {s});
      if Truncates(mode, items[how.k]) {
        assert Busy(a.files, s, false) ==> Busy(a.files, s, true);
      } else {
        NothingTouched(g, a.v, a.t, d, {});
        OpenStays(g, a, b, d, {});
      }
    } else {
      NewSlot(g, a, b, d, items, name, mode, date, time, how);
      OpenStays(g, a, b, d, {});
    }
  }

  lemma NewSlot(g: Geometry, a: Moment, b: Moment, d: Dir, items: seq<Item>, name: Name, mode: Mode,
                date: Word, time: Word, how: OpenHow)
    requires RunOk(g, a) && how.found < 0
    requires OpenedAs(g, a.v, b.v, a.t, b.t, d, items, name, mode, date, time, how.found, how.k, how.entries, how.item,
                      how.pos)
    ensures IsListed(g, b.v, b.t, d) && how.k < |AllItems(g, b.v, b.t, d)|
    ensures !Busy(a.files, SlotOf(g, b.v, b.t, d, how.k), false) && OthersKept(g, a.v, b.v, a.t, b.t, d, {})
  {
    hide DirTidy, HomesOk, EndsOk, HasRoot, EntriesOk, SlotsOk, UsedOk, TreeShape, EntryAt, SlotOf, OthersKept;
    hide FileAt, IsListed, AllItems, IsDirectory, FileSize, FirstCluster, IsIndexOf, Lists, GoodEntries, FreeAt;
    assert forall i :: 0 <= i < |a.files| ==> Describes(g, a.v, a.t, a.files[i]);
  }

  lemma IndexOnce(items: seq<Item>, name: Name, a: int, b: int)
    requires IsIndexOf(items, name, a) && IsIndexOf(items, name, b)
    ensures a == b && a < |items|
  {
    hide Matches;
  }

  /** What was found is listed, and its place on the disk can be told. */
  lemma FoundThere(vol: Volume, m: Moment, d: Dir, view: DirView, name: Name, k: nat)
    requires RunOk(vol.g, m) && Loaded(view, vol.g, m.v, m.t, d) && GoodPart(name)
    requires IsIndexOf(view.items, name, k)
    ensures TreeShape(vol.g, m.t) && IsListed(vol.g, m.v, m.t, d) && k < |AllItems(vol.g, m.v, m.t, d)|
    ensures k < |view.items| && view.first == if d.RootDir? then 0 else First(m.t.chains[d.slot])
    ensures d.SubDir? ==> IsChain(m.v.fat, vol.g.Limit(), m.t.chains[d.slot])
    ensures !IsDirectory(view.items[k]) ==> FileAt(vol.g, m.v, m.t, d, k, view.items[k])
  {
    hide DirTidy, HomesOk, EndsOk, HasRoot, EntriesOk, SlotsOk, UsedOk, AllItems, SlotOf, IsListed, Live, EntryOk;
    hide GoodPart, Matches, IsDirectory, Lists, IsChain, FilesOk, TreeShape;
    FoundListed(vol.g, m.v, m.t, d, view, name, k);
    ListedChain(vol.g, m.v, m.t, [], d);
  }

  ghost function ReadOpen(g: Geometry, m: Moment, d: Dir, items: seq<Item>, k: nat): Open
    requires Shaped(g, m.v) && TreeShape(g, m.t) && IsListed(g, m.v, m.t, d)
    requires k < |items| && k < |AllItems(g, m.v, m.t, d)|
  {
    if IsDirectory(items[k]) then OnDirectory else OnFile(SlotOf(g, m.v, m.t, d, k), items[k], 0, ReadMode)
  }

  /** A descriptor for reading what is at `idx`: a file from its start on. */
  method ReadHandle(vol: Volume, view: DirView, idx: nat, ghost m: Moment, ghost d: Dir)
    returns (h: Handle, ghost f: Open)
    requires vol.Valid() && vol.V() == m.v && TreeShape(vol.g, m.t) && IsListed(vol.g, m.v, m.t, d)
    requires idx < |view.items| && idx < |AllItems(vol.g, m.v, m.t, d)|
    requires view.first == if d.RootDir? then 0 else First(m.t.chains[d.slot])
    requires d.SubDir? ==> IsChain(m.v.fat, vol.g.Limit(), m.t.chains[d.slot])
    ensures f == ReadOpen(vol.g, m, d, view.items, idx) && HandleIs(vol, h, f) && fresh(DescOf(h))
  {
    hide FlatOf, FatImage, RootImage, DataImage, Geometry.Limit, Geometry.Valid, Volume.Valid, Volume.V;
    hide SlotOf, AllItems, TreeShape, IsDirectory, EntryAt, FileSize, IsChain, SlotPos, SlotExists, IsListed;
    h, f := DirectoryFile, OnDirectory;
    if !IsDirectory(view.items[idx]) {
      var at := DirEntryPos(vol, view, idx, m.t, d);
      var desc := new Descriptor(view.items[idx], 0, ReadMode, 0);
      f := OnFile(SlotOf(vol.g, m.v, m.t, d, idx), view.items[idx], 0, ReadMode);
      NewHandle(vol, desc, at, f);
      h := PlainFile(desc, at);
    }
  }

  /** `fat16_open` for reading, of a file or a directory. */
  method OpenToRead(vol: Volume, table: array<Handle>, view: DirView, name: Name, ghost m: Moment, ghost d: Dir)
    returns (fd: int, ghost b: Moment, ghost found: int)
    requires At(vol, table, m) && Loaded(view, vol.g, m.v, m.t, d) && GoodPart(name)
    modifies table
    ensures At(vol, table, b) && fresh(Descs(table[..]) - old(Descs(table[..])))
    ensures IsIndexOf(view.items, name, found) && found < |view.items|
    ensures ReadOpened(vol.g, m, b, d, view.items, fd, found) && OpenKept(vol.g, m, b, {})
  {
    hide FlatOf, FatImage, RootImage, DataImage, Geometry.Limit, Geometry.Valid, Volume.Valid, Volume.V;
    hide RunOk, SlotOf, AllItems, FileAt, TreeShape, IsDirectory, EntryAt, FileSize, IsIndexOf, IsChain, Lists;
    hide SlotPos, SlotExists, GoodPart, IsListed, Taken, With;
    b := m;
    var idx := FindIndex(view.items, name);
    found := idx;
    IndexOnce(view.items, name, found, found);
    if idx < 0 {
      ReadingKeeps(vol.g, m, b, d, view.items, 0, found);
      return 0, b, found;
    }
    FoundThere(vol, m, d, view, name, idx);
    var h;
    ghost var f;
    h, f := ReadHandle(vol, view, idx, m, d);
    fd := PutHandle(vol, table, h, m.files, f);
    b := m.(files := With(m.files, f, fd));
    ReadingKeeps(vol.g, m, b, d, view.items, fd, found);
  }

  lemma NewHandle(vol: Volume, desc: Descriptor, at: nat, f: Open)
    requires vol.g.Valid() && desc as object !in vol.Parts() && f.OnFile? && SlotExists(vol.g, f.slot)
    requires at == SlotPos(vol.g, f.slot) && desc.item == f.item && desc.pos == f.pos && desc.mode == f.mode
    requires Writes(f) ==> desc.entryPos == at
    ensures HandleIs(vol, PlainFile(desc, at), f)
  {
    hide SlotPos, SlotExists;
  }

  /** A descriptor of a listed file that may be written to is a place of the table. */
  lemma WriterHandle(vol: Volume, t: Tree, d: Dir, k: nat, desc: Descriptor)
    requires vol.Valid() && TreeShape(vol.g, t) && desc as object !in vol.Parts() && !desc.mode.ReadMode?
    requires DescribesFile(vol.g, vol.V(), t, d, k, desc)
    ensures IsListed(vol.g, vol.V(), t, d) && k < |AllItems(vol.g, vol.V(), t, d)|
    ensures HandleIs(vol, PlainFile(desc, desc.entryPos),
                     OnFile(SlotOf(vol.g, vol.V(), t, d, k), desc.item, desc.pos, desc.mode))
    ensures FileAt(vol.g, vol.V(), t, d, k, desc.item) && desc.pos <= FileSize(desc.item)
  {
    hide FlatOf, FatImage, RootImage, DataImage, Geometry.Limit, Geometry.Valid, AllItems, SlotOf, SlotPos;
    hide TreeShape, IsListed, IsChain, FileSize, EntryOk, Live, IsDirectory, SlotExists;
  }

  /** Looks for the file, and whether removing it, or opening it in this mode, would disturb somebody. */
  method CheckFile(vol: Volume, table: array<Handle>, view: DirView, name: Name, removing: bool, mode: Mode,
                   ghost m: Moment, ghost d: Dir)
    returns (busy: bool, ghost found: int)
    requires At(vol, table, m) && Loaded(view, vol.g, m.v, m.t, d) && GoodPart(name)
    ensures IsIndexOf(view.items, name, found) && found < |view.items|
    ensures busy <==>
              found >= 0 && InTheWay(vol.g, m, d, view.items, found, removing || Truncates(mode, view.items[found]))
  {
    hide FlatOf, FatImage, RootImage, DataImage, Geometry.Limit, Geometry.Valid, Volume.Valid, Volume.V;
    hide SlotOf, AllItems, TreeShape, IsDirectory, EntryAt, FileSize, IsIndexOf, IsChain, Lists;
    hide SlotPos, SlotExists, GoodPart, IsListed, Busy, Truncates, DirTidy, HomesOk, FsckBut, EndsOk, HasRoot;
    busy := false;
    var idx := FindIndex(view.items, name);
    found := idx;
    IndexOnce(view.items, name, found, found);
    if idx >= 0 {
      FoundThere(vol, m, d, view, name, idx);
      if !IsDirectory(view.items[idx]) {
        var at := DirEntryPos(vol, view, idx, m.t, d);
        var all := removing || Truncates(mode, view.items[idx]);
        busy := IsBusy(table, at, all, vol, m, SlotOf(vol.g, m.v, m.t, d, idx));
      }
    }
  }

  /** `fopen` for writing or appending. */
  method OpenToWrite(vol: Volume, table: array<Handle>, view: DirView, name: Name, mode: Mode, date: Word, time: Word,
                     ghost m: Moment, ghost d: Dir, ghost at: int)
    returns (fd: int, ghost b: Moment, ghost how: OpenHow)
    requires At(vol, table, m) && Loaded(view, vol.g, m.v, m.t, d) && GoodPart(name) && !mode.ReadMode?
    requires IsIndexOf(view.items, name, at) && MayOpen(vol.g, m, d, view.items, mode, at)
    modifies vol.Parts(), table
    ensures At(vol, table, b) && fresh(Descs(table[..]) - old(Descs(table[..])))
    ensures OpenedBy(vol.g, m, b, d, view.items, name, mode, date, time, fd, how) && OpenKept(vol.g, m, b, {})
  {
    hide FlatOf, FatImage, RootImage, DataImage, Geometry.Limit, Geometry.Valid, Volume.Valid, Volume.V;
    hide SlotOf, AllItems, FileAt, TreeShape, IsDirectory, EntryAt, FileSize, IsChain, Lists;
    hide SlotPos, SlotExists, GoodPart, Taken, With, DirTidy, HomesOk, FsckBut, EndsOk, HasRoot;
    hide MayOpen, InTheWay, Matches, DescribesFile, OpenedOld, OpenedNew, NotCreated;
    var res, desc;
    ghost var o, found, k, entries;
    res, desc, o, found, k, entries := OpenForWrite(vol, view, name, mode, date, time, m.t, d);
    if res < 0 {
      fd, b, how := 0, Moment(vol.V(), o, m.files), NotFound(found, res);
    } else {
      WriterHandle(vol, o, d, k, desc);
      ghost var f := OnFile(SlotOf(vol.g, vol.V(), o, d, k), desc.item, desc.pos, desc.mode);
      fd := PutHandle(vol, table, PlainFile(desc, desc.entryPos), m.files, f);
      b, how := Moment(vol.V(), o, With(m.files, f, fd)), OpenHow(found, res, k, entries, desc.item, desc.pos);
    }
    IndexOnce(view.items, name, at, found);
    OpeningKeeps(vol.g, m, b, d, view.items, name, mode, date, time, fd, how);
  }

  ghost predicate FopenDone(g: Geometry, a: Moment, b: Moment, d: Dir, items: seq<Item>, name: Name, mode: Mode,
                            date: Word, time: Word, fd: int)
  {
    && Shaped(g, a.v) && TreeShape(g, a.t)
    && exists how :: OpenedBy(g, a, b, d, items, name, mode, date, time, fd, how)
  }

  /** `fopen` in a resolved directory: 0 for any error. */
  method FopenIn(vol: Volume, table: array<Handle>, view: DirView, name: Name, mode: Mode, date: Word, time: Word,
                 ghost m: Moment, ghost d: Dir)
    returns (clash: bool, fd: int, ghost b: Moment, ghost found: int)
    requires At(vol, table, m) && Loaded(view, vol.g, m.v, m.t, d) && GoodPart(name)
    modifies vol.Parts(), table
    ensures At(vol, table, b) && fresh(Descs(table[..]) - old(Descs(table[..]))) && IsIndexOf(view.items, name, found)
    ensures clash ==> b == m && !MayOpen(vol.g, m, d, view.items, mode, found)
    ensures !clash ==> FopenDone(vol.g, m, b, d, view.items, name, mode, date, time, fd) && OpenKept(vol.g, m, b, {})
  {
    hide FlatOf, FatImage, RootImage, DataImage, Geometry.Limit, Geometry.Valid, Volume.Valid, Volume.V;
    hide EntriesOk, SlotsOk, UsedOk, EndsOk, HasRoot, DirTidy, HomesOk, TreeShape, IsDirectory, IsIndexOf, Lists;
    hide SlotPos, SlotExists, GoodPart, IsListed, InTheWay, OpenKept, ReadOpened, WriteOpened, FilesOk, Loaded;
    hide NotOpened, Truncates;
    clash, fd, b := false, 0, m;
    if mode.ReadMode? {
      fd, b, found := OpenToRead(vol, table, view, name, m, d);
      assert OpenedBy(vol.g, m, b, d, view.items, name, mode, date, time, fd, NotFound(found, 0));
      return;
    }
    clash, found := CheckFile(vol, table, view, name, false, mode, m, d);
    if !clash {
      ghost var how;
      fd, b, how := OpenToWrite(vol, table, view, name, mode, date, time, m, d, found);
    }
  }
}
