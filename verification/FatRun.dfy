// Whole runs: files opened, written, read, moved in and closed, items removed and directories made, in any
// order and with any number of files open.
module FatRun {
  import opened Bytes
  import opened FatDisk
  import opened FatLayout
  import opened FatVolume
  import opened FatItems
  import opened FatChains
  import opened FatContent
  import opened FatFiles
  import opened FatFsck
  import opened FatDirs
  import opened FatOthers
  import opened FatNames
  import opened FatLongNames
  import opened FatOps
  import opened FatCreate
  import opened FatSound
  import opened FatOpen
  import opened FatWriting
  import opened FatRemove
  import opened FatMkdir
  import opened FatPaths
  import opened FatStdio
  import opened FatFopen

  /** Bytes whose number fits 32 bits. */
  type Buffer = s: seq<byte> | |s| < 0x100000000 witness []

  datatype Command =
    | OpenFile(path: Path, mode: Mode, date: Word, time: Word)
    | WriteTo(fd: int, size: nat, nmemb: nat, bytes: Buffer, date: Word, time: Word)
    | ReadFrom(fd: int, size: nat, nmemb: nat)
    | SeekIn(fd: int, offset: int, whence: Whence)
    | CloseFile(fd: int)
    | RemoveItem(path: Path)
    | MakeDirectory(path: Path, date: Word, time: Word)

  /** As many bytes as are said to be there, and offsets of 32 bits. */
  predicate Proper(c: Command) {
    && (c.WriteTo? ==> |c.bytes| == c.size * c.nmemb)
    && (c.SeekIn? ==> -0x80000000 <= c.offset < 0x80000000)
  }

  type Request = c: Command | Proper(c) witness CloseFile(0)

  datatype Output = Output(res: int, bytes: seq<byte>)

  // ---- what a command does ----

  ghost predicate RemoveDone(g: Geometry, a: Moment, b: Moment, d: Dir, items: seq<Item>, name: Name, res: int) {
    exists found :: RemovedBy(g, a, b, d, items, name, res, found)
  }

  ghost predicate RemovedBy(g: Geometry, a: Moment, b: Moment, d: Dir, items: seq<Item>, name: Name, res: int,
                            found: int)
  {
    && Shaped(g, a.v) && TreeShape(g, a.t) && IsIndexOf(items, name, found)
    && res == (if found < 0 then NOT_FOUND_ERROR
               else if Removable(g, a.v, a.t, d, items, found) then OK
               else DIR_NOT_EMPTY_ERROR)
    && if res < 0 then b == a else b.files == a.files && Removed(g, a.v, b.v, a.t, b.t, d, items, found)
  }

  datatype MkdirHow = MkdirHow(found: int, cluster: Word, idx: nat, entries: seq<Item>, mid: View)

  ghost predicate MkdirDone(g: Geometry, a: Moment, b: Moment, d: Dir, view: DirView, name: Name, date: Word,
                            time: Word, res: int)
  {
    exists how :: MadeBy(g, a, b, d, view, name, date, time, res, how)
  }

  ghost predicate MadeBy(g: Geometry, a: Moment, b: Moment, d: Dir, view: DirView, name: Name, date: Word, time: Word,
                         res: int, how: MkdirHow)
  {
    && b.files == a.files
    && MkdirResult(g, a.v, how.mid, b.v, a.t, b.t, d, view, name, date, time, res, how.found, how.cluster, how.idx,
                   how.entries)
  }

  predicate HasPath(c: Command) { c.OpenFile? || c.RemoveItem? || c.MakeDirectory? }

  /** Nothing if the path leads nowhere, else what the command says to the directory it leads to. */
  ghost predicate PathDone(g: Geometry, a: Moment, b: Moment, c: Command, res: int)
    requires HasPath(c)
  {
    exists at, view, dirs :: PathBy(g, a, b, c, res, at, view, dirs)
  }

  ghost predicate PathBy(g: Geometry, a: Moment, b: Moment, c: Command, res: int, at: int, view: DirView,
                         dirs: seq<Dir>)
    requires HasPath(c)
  {
    && Resolved(g, a.v, a.t, c.path, at, view, dirs)
    && if at < 0 then res == (if c.OpenFile? then 0 else at) && b == a
       else PathIn(g, a, b, c, res, view, dirs[|dirs| - 1], c.path[|c.path| - 1])
  }

  ghost predicate PathIn(g: Geometry, a: Moment, b: Moment, c: Command, res: int, view: DirView, d: Dir, name: Name)
    requires HasPath(c)
  {
    match c
    case OpenFile(_, mode, date, time) => FopenDone(g, a, b, d, view.items, name, mode, date, time, res)
    case RemoveItem(_) => RemoveDone(g, a, b, d, view.items, name, res)
    case MakeDirectory(_, date, time) => MkdirDone(g, a, b, d, view, name, date, time, res)
  }

  /** The file a command writes to, if it does. */
  ghost function WrittenSlots(m: Moment, c: Command): set<Slot> {
    if c.WriteTo? && Writes(FileOf(m.files, c.fd)) then {FileOf(m.files, c.fd).slot} else {}
  }

  /** What a command does. All files open before, save the one it writes to, keep entry, chain and bytes. */
  ghost predicate Executed(g: Geometry, a: Moment, b: Moment, c: Command, out: Output) {
    && RunOk(g, a) && RunOk(g, b) && OpenKept(g, a, b, WrittenSlots(a, c))
    && (!c.ReadFrom? ==> out.bytes == [])
    && match c
       case WriteTo(fd, size, nmemb, bytes, date, time) =>
         Fwritten(g, a, b, fd, size, nmemb, bytes, date, time, out.res)
       case ReadFrom(fd, size, nmemb) => FreadDone(g, a, b, fd, size, nmemb, out.res, out.bytes)
       case SeekIn(fd, offset, whence) => FseekDone(a, b, fd, offset, whence, out.res)
       case CloseFile(fd) => FcloseDone(a, b, fd, out.res)
       case _ => PathDone(g, a, b, c, out.res)
  }

  // ---- what is not done to open files ----

  /** The command would cut or remove a file that is open, or open one for a second write. */
  ghost predicate Clashes(g: Geometry, m: Moment, c: Command) {
    HasPath(c) && exists view, dirs, found :: ClashesBy(g, m, c, view, dirs, found)
  }

  ghost predicate ClashesBy(g: Geometry, m: Moment, c: Command, view: DirView, dirs: seq<Dir>, found: int)
    requires HasPath(c)
  {
    && c.path != [] && Resolved(g, m.v, m.t, c.path, OK, view, dirs) && |dirs| == |c.path|
    && IsIndexOf(view.items, c.path[|c.path| - 1], found)
    && match c
       case OpenFile(_, mode, _, _) => !MayOpen(g, m, dirs[|dirs| - 1], view.items, mode, found)
       case RemoveItem(_) => InTheWay(g, m, dirs[|dirs| - 1], view.items, found, true)
       case MakeDirectory(_, _, _) => false
  }

  /** Done all the same, a removal leaves a descriptor of clusters that are free. */
  lemma RemovedUnderneath(g: Geometry, v: View, w: View, t: Tree, o: Tree, d: Dir, items: seq<Item>, k: nat, f: Open)
    requires Sound(g, v, t) && Describes(g, v, t, f) && f.OnFile?
    requires Removed(g, v, w, t, o, d, items, k) && SlotOf(g, v, t, d, k) == f.slot
    ensures !Describes(g, w, o, f)
    ensures forall c :: c in t.chains[f.slot] ==> c < |w.fat| && w.fat[c] == UNUSED
  {
    hide DirTidy, HomesOk, EndsOk, HasRoot, SlotsOk, UsedOk, AllItems, SlotOf, OthersKept, Lists, IsDirectory;
    assert EntryOk(g, v, EntryAt(g, v, f.slot), t.chains[f.slot]);
    hide EntryAt, FileSize, FirstCluster, EntriesOk, TreeShape;
    ChainSmall(v.fat, g, t.chains[f.slot]);
  }

  /** A file that is cut is no longer the one a writer describes. */
  lemma CutUnderneath(g: Geometry, v: View, w: View, t: Tree, o: Tree, d: Dir, items: seq<Item>, k: nat, item: Item,
                      f: Open)
    requires Sound(g, v, t) && Describes(g, v, t, f) && Writes(f) && Shaped(g, w) && TreeShape(g, o)
    requires OpenedOld(g, v, w, t, o, d, items, k, WriteMode, item, 0) && Truncates(WriteMode, items[k])
    requires FileAt(g, w, o, d, k, item) && SlotOf(g, v, t, d, k) == f.slot
    ensures !Describes(g, w, o, f)
  {
    hide DirTidy, HomesOk, EndsOk, HasRoot, EntriesOk, SlotsOk, UsedOk, AllItems, SlotOf, OthersKept, Lists;
    hide IsDirectory, EntryAt, FileSize, TreeShape, IsChain;
    FileThere(g, v, t, d, k, items[k]);
    FileThere(g, w, o, d, k, item);
    assert FirstCluster(item) == 0 by { NoBytesNoClusters(g, w, item, o.chains[f.slot]); }
  }

  /** A file that grows through one writer is no longer the one another writer describes. */
  lemma WrittenUnderneath(g: Geometry, v: View, w: View, t: Tree, o: Tree, d: Dir, items: seq<Item>, k: nat, item: Item,
                          start: nat, bytes: seq<byte>, f: Open)
    requires Sound(g, v, t) && Describes(g, v, t, f) && Writes(f)
    requires FileWritten(g, v, w, t, o, d, items, k, item, start, bytes) && SlotOf(g, v, t, d, k) == f.slot
    requires start + |bytes| > FileSize(f.item)
    ensures !Describes(g, w, o, f)
  {
    hide DirTidy, HomesOk, EndsOk, HasRoot, EntriesOk, SlotsOk, UsedOk, AllItems, SlotOf, OthersKept, Lists, FileAt;
    hide IsDirectory, EntryAt, FileSize, TreeShape, Contents, Overwritten, FirstCluster;
    SizeOf(g, v, t, f.slot);
    SizeOf(g, w, o, f.slot);
  }

  lemma NoBytesNoClusters(g: Geometry, v: View, item: Item, cs: seq<nat>)
    requires Shaped(g, v) && EntryOk(g, v, item, cs) && !IsDirectory(item) && FileSize(item) == 0
    ensures FirstCluster(item) == 0
  {
    hide FirstCluster, FileSize;
  }

  // ---- each command keeps what is open ----

  lemma SameVolume(g: Geometry, a: Moment, b: Moment, s: set<Slot>)
    requires RunOk(g, a) && b.v == a.v && b.t == a.t
    ensures OpenKept(g, a, b, s)
  {
    hide DirTidy, HomesOk, EndsOk, HasRoot, EntriesOk, SlotsOk, UsedOk, TreeShape;
    NothingTouched(g, a.v, a.t, RootDir, s);
    OpenStays(g, a, b, RootDir, s);
  }

  lemma FwriteKeeps(g: Geometry, a: Moment, b: Moment, c: Command, res: int)
    requires RunOk(g, a) && RunOk(g, b) && c.WriteTo?
    requires Fwritten(g, a, b, c.fd, c.size, c.nmemb, c.bytes, c.date, c.time, res)
    ensures OpenKept(g, a, b, WrittenSlots(a, c))
  {
    hide OpenKept, WrittenBy, FilesOk, Consistent, DirTidy, HomesOk;
    if c.size == 0 || c.nmemb == 0 || !Writes(FileOf(a.files, c.fd)) {
      SameVolume(g, a, b, WrittenSlots(a, c));
    } else {
      var how :| WrittenBy(g, a, b, c.fd, c.nmemb, c.bytes, res, how);
      FilesWritten(g, a, b, c.fd, c.nmemb, c.bytes, res, how);
    }
  }

  lemma RemovingKeeps(g: Geometry, a: Moment, b: Moment, d: Dir, items: seq<Item>, name: Name, res: int, found: int)
    requires RunOk(g, a) && Sound(g, b.v, b.t) && IsListed(g, a.v, a.t, d) && Lists(AllItems(g, a.v, a.t, d), items)
    requires RemovedBy(g, a, b, d, items, name, res, found)
    requires found >= 0 ==> !InTheWay(g, a, d, items, found, true)
    ensures RunOk(g, b) && OpenKept(g, a, b, {})
  {
    hide DirTidy, HomesOk, EndsOk, HasRoot, EntriesOk, SlotsOk, UsedOk, TreeShape, OpenKept, IsIndexOf, Removable;
    hide FilesOk;
    if res < 0 {
      SameVolume(g, a, b, {});
    } else {
      NobodyOn(g, a, b, d, items, found);
      AllStayOpen(g, a, b);
    }
  }

  lemma NobodyOn(g: Geometry, a: Moment, b: Moment, d: Dir, items: seq<Item>, k: nat)
    requires RunOk(g, a) && IsListed(g, a.v, a.t, d) && Lists(AllItems(g, a.v, a.t, d), items)
    requires Removed(g, a.v, b.v, a.t, b.t, d, items, k) && !InTheWay(g, a, d, items, k, true)
    ensures OpenKept(g, a, b, {})
  {
    hide DirTidy, HomesOk, EndsOk, HasRoot, EntriesOk, SlotsOk, UsedOk, TreeShape, Kept, EntryAt, SlotOf, AllItems;
    hide IsDirectory, OthersKept, IsListed, Freed, FileSize, FirstCluster, LfnCount;
    var s := SlotOf(g, a.v, a.t, d, k);
    OpenStays(g, a, b, d, {s});
    SlotOfEntry(g, a.v, a.t, d, k);
    forall i | 0 <= i < |a.files| && a.files[i].OnFile? ensures a.files[i].slot != s {
      assert Describes(g, a.v, a.t, a.files[i]);
    }
  }

  lemma MakingKeeps(g: Geometry, a: Moment, b: Moment, d: Dir, view: DirView, name: Name, date: Word, time: Word,
                    res: int, how: MkdirHow)
    requires RunOk(g, a) && Sound(g, b.v, b.t) && IsListed(g, a.v, a.t, d)
    requires MadeBy(g, a, b, d, view, name, date, time, res, how)
    ensures RunOk(g, b) && OpenKept(g, a, b, {})
  {
    hide DirTidy, HomesOk, EndsOk, HasRoot, EntriesOk, SlotsOk, UsedOk, TreeShape, OpenKept, IsIndexOf, NotMade;
    hide FilesOk, OthersKept, CreatedIn, FreshDirectory, DirectoryItem, Lists;
    NothingTouched(g, a.v, a.t, d, {});
    OpenStays(g, a, b, d, {});
    AllStayOpen(g, a, b);
  }

  // ---- the commands ----

  /** `remove` in a resolved directory. */
  method RemoveIn(vol: Volume, table: array<Handle>, view: DirView, name: Name, ghost m: Moment, ghost d: Dir)
    returns (clash: bool, res: int, ghost b: Moment, ghost found: int)
    requires At(vol, table, m) && Loaded(view, vol.g, m.v, m.t, d) && GoodPart(name)
    modifies vol.Parts()
    ensures At(vol, table, b) && IsIndexOf(view.items, name, found)
    ensures clash ==> b == m && InTheWay(vol.g, m, d, view.items, found, true)
    ensures !clash ==> RemovedBy(vol.g, m, b, d, view.items, name, res, found) && OpenKept(vol.g, m, b, {})
  {
    hide FlatOf, FatImage, RootImage, DataImage, Geometry.Limit, Geometry.Valid, Volume.Valid, Volume.V;
    hide SlotPos, SlotExists, GoodPart, DirTidy, HomesOk, EndsOk, HasRoot, TreeShape, AllItems, Lists;
    hide EntriesOk, SlotsOk, UsedOk, InTheWay, Matches, Removed, Removable, OpenKept, IsListed, IsDirectory;
    b, res := m, OK;
    clash, found := CheckFile(vol, table, view, name, true, ReadMode, m, d);
    if clash {
      return;
    }
    ghost var at := found;
    ghost var o;
    res, o, found := Remove(vol, view, name, m.t, d);
    IndexOnce(view.items, name, at, found);
    b := Moment(vol.V(), o, m.files);
    RemovingKeeps(vol.g, m, b, d, view.items, name, res, found);
  }

  /** `mkdir` in a resolved directory. */
  method MakeIn(vol: Volume, table: array<Handle>, view: DirView, name: Name, date: Word, time: Word,
                ghost m: Moment, ghost d: Dir)
    returns (res: int, ghost b: Moment, ghost how: MkdirHow)
    requires At(vol, table, m) && Loaded(view, vol.g, m.v, m.t, d) && GoodPart(name)
    modifies vol.Parts()
    ensures At(vol, table, b) && OpenKept(vol.g, m, b, {})
    ensures MadeBy(vol.g, m, b, d, view, name, date, time, res, how)
  {
    hide FlatOf, FatImage, RootImage, DataImage, Geometry.Limit, Geometry.Valid, Volume.Valid, Volume.V;
    hide SlotPos, SlotExists, GoodPart, DirTidy, HomesOk, FsckBut, EndsOk, HasRoot, TreeShape, AllItems, Lists;
    hide MkdirResult, OpenKept, IsListed;
    ghost var o, found, c, idx, entries, mid;
    res, o, found, c, idx, entries, mid := Mkdir(vol, view, name, date, time, m.t, d);
    b, how := Moment(vol.V(), o, m.files), MkdirHow(found, c, idx, entries, mid);
    MakingKeeps(vol.g, m, b, d, view, name, date, time, res, how);
  }

  // ---- every command ----

  lemma PathIs(g: Geometry, a: Moment, b: Moment, c: Command, res: int, view: DirView, dirs: seq<Dir>)
    requires HasPath(c) && c.path != [] && |dirs| == |c.path| && Resolved(g, a.v, a.t, c.path, OK, view, dirs)
    requires PathIn(g, a, b, c, res, view, dirs[|dirs| - 1], c.path[|c.path| - 1])
    ensures PathDone(g, a, b, c, res)
  {
    hide Resolved, PathIn;
    assert PathBy(g, a, b, c, res, OK, view, dirs);
  }

  lemma ParentLoaded(g: Geometry, v: View, t: Tree, path: Path, view: DirView, dirs: seq<Dir>)
    requires path != [] && Resolved(g, v, t, path, OK, view, dirs) && |dirs| == |path|
    ensures Shaped(g, v) && TreeShape(g, t) && Loaded(view, g, v, t, dirs[|dirs| - 1]) && GoodPart(path[|path| - 1])
  {
    hide Way, StopsAt, Loaded, TreeShape, GoodPart;
  }

  /** A command on the item its path leads to. */
  method ExecuteIn(vol: Volume, table: array<Handle>, c: Request, view: DirView, ghost m: Moment, ghost dirs: seq<Dir>)
    returns (clash: bool, res: int, ghost b: Moment)
    requires HasPath(c) && c.path != [] && |dirs| == |c.path| && At(vol, table, m)
    requires Resolved(vol.g, m.v, m.t, c.path, OK, view, dirs)
    modifies vol.Parts(), table
    ensures At(vol, table, b) && fresh(Descs(table[..]) - old(Descs(table[..])))
    ensures clash ==> b == m && Clashes(vol.g, m, c)
    ensures !clash ==> PathDone(vol.g, m, b, c, res) && OpenKept(vol.g, m, b, {})
  {
    hide FlatOf, FatImage, RootImage, DataImage, Geometry.Limit, Geometry.Valid, Volume.Valid, Volume.V;
    hide RunOk, TreeShape, IsIndexOf, TableIs, FopenDone, RemovedBy, MadeBy, MayOpen, InTheWay, OpenKept, Loaded;
    hide GoodPart, Resolved, PathDone;
    var name := c.path[|c.path| - 1];
    ghost var d, found := dirs[|dirs| - 1], 0;
    ParentLoaded(vol.g, m.v, m.t, c.path, view, dirs);
    clash := false;
    match c {
      case OpenFile(_, mode, date, time) =>
        clash, res, b, found := FopenIn(vol, table, view, name, mode, date, time, m, d);
      case RemoveItem(_) =>
        clash, res, b, found := RemoveIn(vol, table, view, name, m, d);
      case MakeDirectory(_, date, time) =>
        ghost var how;
        res, b, how := MakeIn(vol, table, view, name, date, time, m, d);
    }
    if clash {
      assert ClashesBy(vol.g, m, c, view, dirs, found);
    } else {
      PathIs(vol.g, m, b, c, res, view, dirs);
    }
  }

  /** Reading, seeking and closing leave the volume as it is. */
  lemma OthersSame(g: Geometry, a: Moment, b: Moment, c: Command, out: Output)
    requires RunOk(g, a) && !HasPath(c) && !c.WriteTo?
    requires match c
             case ReadFrom(fd, size, nmemb) => FreadDone(g, a, b, fd, size, nmemb, out.res, out.bytes)
             case SeekIn(fd, offset, whence) => FseekDone(a, b, fd, offset, whence, out.res)
             case CloseFile(fd) => FcloseDone(a, b, fd, out.res)
    ensures b.v == a.v && b.t == a.t && OpenKept(g, a, b, {})
  {
    hide RunOk, OpenKept, FsckBut, Describes, Contents, FileSize, IndexIn;
    SameVolume(g, a, b, {});
  }

  /** Finds the directory of the item, and does the command in it. */
  method ExecutePath(vol: Volume, table: array<Handle>, c: Request, ghost m: Moment)
    returns (clash: bool, res: int, ghost b: Moment)
    requires HasPath(c) && At(vol, table, m)
    modifies vol.Parts(), table
    ensures At(vol, table, b) && fresh(Descs(table[..]) - old(Descs(table[..])))
    ensures clash ==> b == m && Clashes(vol.g, m, c)
    ensures !clash ==> PathDone(vol.g, m, b, c, res) && OpenKept(vol.g, m, b, {})
  {
    hide FlatOf, FatImage, RootImage, DataImage, Geometry.Limit, Geometry.Valid, Volume.Valid, Volume.V;
    hide FilesOk, Sound, TreeShape, OpenKept, Resolved, Clashes;
    var view;
    ghost var dirs;
    res, view, dirs := GetParent(vol, c.path, m.t);
    StopsBelow(vol.g, m.v, m.t, c.path, res, view, dirs);
    clash, b := false, m;
    if res == OK {
      clash, res, b := ExecuteIn(vol, table, c, view, m, dirs);
    } else {
      ghost var at := res;
      if c.OpenFile? {
        res := 0;
      }
      assert PathBy(vol.g, m, b, c, res, at, view, dirs);
      SameVolume(vol.g, m, b, {});
    }
  }

  /** One command, unless it clashes with a file that is open. */
  method Execute(vol: Volume, table: array<Handle>, c: Request, ghost m: Moment)
    returns (clash: bool, out: Output, ghost b: Moment)
    requires At(vol, table, m)
    modifies vol.Parts(), table, Descs(table[..])
    ensures At(vol, table, b) && fresh(Descs(table[..]) - old(Descs(table[..])))
    ensures if clash then b == m && Clashes(vol.g, m, c) else Executed(vol.g, m, b, c, out)
  {
    hide FlatOf, FatImage, RootImage, DataImage, Geometry.Limit, Geometry.Valid, Volume.Valid, Volume.V;
    hide RunOk, TreeShape, TableIs, OpenKept, Resolved, PathDone, Fwritten, FreadDone, FseekDone, FcloseDone, Clashes;
    var res, bytes: seq<byte> := 0, [];
    clash := false;
    match c {
      case WriteTo(fd, size, nmemb, input, date, time) =>
        res, b := Fwrite(vol, table, fd, size, nmemb, input, date, time, m);
        FwriteKeeps(vol.g, m, b, c, res);
      case ReadFrom(fd, size, nmemb) =>
        res, bytes, b := Fread(vol, table, fd, size, nmemb, m);
      case SeekIn(fd, offset, whence) =>
        res, b := Fseek(vol, table, fd, offset, whence, m);
      case CloseFile(fd) =>
        res, b := Fclose(vol, table, fd, m);
      case _ =>
        clash, res, b := ExecutePath(vol, table, c, m);
    }
    out := Output(res, bytes);
    if !HasPath(c) && !c.WriteTo? { OthersSame(vol.g, m, b, c, out); }
  }

  // ---- runs ----

  /** Each command does what it says, from one moment to the next. */
  ghost predicate IsRun(g: Geometry, commands: seq<Request>, outs: seq<Output>, seen: seq<Moment>) {
    && |outs| == |commands| && |seen| == |commands| + 1
    && forall i :: 0 <= i < |commands| ==> Executed(g, seen[i], seen[i + 1], commands[i], outs[i])
  }

  /** Over every run, whatever is open, succeeds or fails, each command does what it says, and the volume
      stays sound with every open file described, up to the first command that clashes with an open file. */
  method Run(vol: Volume, table: array<Handle>, commands: seq<Request>, ghost m: Moment)
    returns (n: nat, outs: seq<Output>, ghost seen: seq<Moment>)
    requires At(vol, table, m)
    modifies vol.Parts(), table, Descs(table[..])
    ensures n <= |commands| && IsRun(vol.g, commands[..n], outs, seen) && seen[0] == m && At(vol, table, seen[n])
    ensures n < |commands| ==> Clashes(vol.g, seen[n], commands[n])
  {
    hide FlatOf, FatImage, RootImage, DataImage, Geometry.Limit, Geometry.Valid, Volume.Valid, Volume.V;
    hide RunOk, Executed, Clashes, TableIs;
    n, outs, seen := 0, [], [m];
    while n < |commands|
      invariant n <= |commands| && IsRun(vol.g, commands[..n], outs, seen) && seen[0] == m && At(vol, table, seen[n])
      invariant fresh(Descs(table[..]) - old(Descs(table[..])))
    {
      var clash, out;
      ghost var b;
      clash, out, b := Execute(vol, table, commands[n], seen[n]);
      if clash {
        return;
      }
      RunMore(vol.g, commands[..n], outs, seen, commands[n], out, b);
      assert commands[..n + 1] == commands[..n] + [commands[n]];
      outs, seen, n := outs + [out], seen + [b], n + 1;
    }
  }

  lemma RunMore(g: Geometry, commands: seq<Request>, outs: seq<Output>, seen: seq<Moment>, c: Request, out: Output,
                b: Moment)
    requires IsRun(g, commands, outs, seen) && Executed(g, seen[|commands|], b, c, out)
    ensures IsRun(g, commands + [c], outs + [out], seen + [b])
  {
    hide Executed;
  }

  // ---- what a file holds over a run ----

  /** Some descriptor is open on the file in slot `s`. */
  ghost predicate IsOpen(files: seq<Open>, s: Slot) {
    exists i :: 0 <= i < |files| && files[i].OnFile? && files[i].slot == s
  }

  /** The bytes of the file after a command: overwritten at the position of its writer if it is written to,
      as far as that position moved, and else the same. */
  ghost function After(was: seq<byte>, s: Slot, a: Moment, b: Moment, c: Request): seq<byte> {
    if s !in WrittenSlots(a, c) then was
    else
      var from, to := FileOf(a.files, c.fd).pos, Position(b, c.fd);
      if from <= |was| && from <= to <= from + |c.bytes| then Overwritten(was, from, c.bytes[..to - from]) else was
  }

  ghost function Position(m: Moment, fd: int): nat {
    if FileOf(m.files, fd).OnFile? then FileOf(m.files, fd).pos else 0
  }

  ghost function AfterAll(was: seq<byte>, s: Slot, commands: seq<Request>, seen: seq<Moment>): seq<byte>
    requires |seen| == |commands| + 1
  {
    if commands == [] then was
    else After(AfterAll(was, s, commands[..|commands| - 1], seen[..|commands|]), s, seen[|commands| - 1],
               seen[|commands|], commands[|commands| - 1])
  }

  ghost predicate HasBytes(g: Geometry, m: Moment, s: Slot, bytes: seq<byte>) {
    && FsckBut(g, m.v, m.t, []) && s in m.t.chains && !IsDirectory(EntryAt(g, m.v, s))
    && Contents(g, m.v, m.t, s) == bytes
  }

  lemma WrittenBytes(g: Geometry, a: Moment, b: Moment, c: Request, res: int, s: Slot, bytes: seq<byte>)
    requires c.WriteTo? && Fwritten(g, a, b, c.fd, c.size, c.nmemb, c.bytes, c.date, c.time, res)
    requires Writes(FileOf(a.files, c.fd))
    requires s == FileOf(a.files, c.fd).slot && HasBytes(g, a, s, bytes) && RunOk(g, a)
    ensures HasBytes(g, b, s, After(bytes, s, a, b, c))
  {
    hide FilesOk, Consistent, DirTidy, HomesOk, Contents, Overwritten, FileAt, IsDirectory, EntryAt, TreeShape;
    hide EntriesOk, SlotsOk, UsedOk, SlotOf, AllItems, OthersKept, Lists;
    if c.size == 0 || c.nmemb == 0 {
      if FileOf(a.files, c.fd).pos <= |bytes| { OverwrittenNothing(bytes, FileOf(a.files, c.fd).pos); }
    } else {
      var how :| WrittenBy(g, a, b, c.fd, c.nmemb, c.bytes, res, how);
    }
  }

  lemma StepBytes(g: Geometry, a: Moment, b: Moment, c: Request, out: Output, s: Slot, bytes: seq<byte>)
    requires Executed(g, a, b, c, out) && IsOpen(a.files, s) && HasBytes(g, a, s, bytes)
    ensures HasBytes(g, b, s, After(bytes, s, a, b, c))
  {
    hide FilesOk, EndsOk, HasRoot, DirTidy, HomesOk, Contents, Fwritten, PathDone, FreadDone, FseekDone, FcloseDone;
    hide IsDirectory, EntryAt, TreeShape, EntriesOk, SlotsOk, UsedOk;
    if s in WrittenSlots(a, c) {
      WrittenBytes(g, a, b, c, out.res, s, bytes);
    } else {
      assert Kept(g, a.v, b.v, a.t, b.t, s);
      ContentsKept(g, a.v, b.v, a.t, b.t, s);
    }
  }

  /** The bytes of a file that is open all the time are those it had, overwritten by what was written through
      its writer, in that order, whatever else was done on the volume. */
  lemma {:induction false} BytesOver(g: Geometry, commands: seq<Request>, outs: seq<Output>, seen: seq<Moment>, s: Slot,
                                     bytes: seq<byte>)
    requires IsRun(g, commands, outs, seen) && HasBytes(g, seen[0], s, bytes)
    requires forall i :: 0 <= i < |commands| ==> IsOpen(seen[i].files, s)
    ensures HasBytes(g, seen[|commands|], s, AfterAll(bytes, s, commands, seen))
  {
    hide Executed, HasBytes, IsOpen, After;
    if commands != [] {
      var n := |commands| - 1;
      BytesOver(g, commands[..n], outs[..n], seen[..n + 1], s, bytes);
      StepBytes(g, seen[n], seen[n + 1], commands[n], outs[n], s, AfterAll(bytes, s, commands[..n], seen[..n + 1]));
    }
  }
}
