// Making a directory: `fat16_mkdir` in a resolved parent directory.
module FatMkdir {
  import opened Bytes
  import opened FatDisk
  import opened FatLayout
  import opened FatVolume
  import opened FatItems
  import opened FatChains
  import opened FatContent
  import opened FatFsck
  import opened FatDirs
  import opened FatOthers
  import opened FatNames
  import opened FatLongNames
  import opened FatNaming
  import opened FatOps
  import opened FatCreate
  import opened FatSound
  import opened FatOpen

  /** The entry "." (`n` is 1), "..", (2), or of a new directory before it gets its name (0). */
  function DirectoryName(n: nat): Item
    requires n <= 2
  {
    (if n == 0 then seq(32, _ => 0) else SetName(seq(32, _ => 0), DotName(n), 0))[11 := ATTR_SUBDIRECTORY]
  }

  /** Such an entry with a first cluster. */
  function DirectoryItem(n: nat, cluster: Word, date: Word, time: Word): (it: Item)
    requires n <= 2
    ensures it[0] == if n > 0 then DOT else 0
    ensures n > 0 ==> it[..11] == DotName(n)
    ensures Attr(it) == ATTR_SUBDIRECTORY && FirstCluster(it) == cluster && FileSize(it) == 0
  {
    DirectoryParts(n, cluster, date, time);
    SetFirstCluster(Stamp(DirectoryName(n), date, time), cluster)
  }

  lemma DirectoryNameParts(n: nat)
    requires n <= 2
    ensures var it := DirectoryName(n);
            && it[0] == (if n > 0 then DOT else 0) && (n > 0 ==> it[..11] == DotName(n))
            && Attr(it) == ATTR_SUBDIRECTORY && FileSize(it) == 0
  {
    assert n > 0 ==> DirectoryName(n)[..11] == DotName(n);
  }

  lemma DirectoryParts(n: nat, cluster: Word, date: Word, time: Word)
    requires n <= 2
    ensures var it := SetFirstCluster(Stamp(DirectoryName(n), date, time), cluster);
            && it[0] == (if n > 0 then DOT else 0) && (n > 0 ==> it[..11] == DotName(n))
            && Attr(it) == ATTR_SUBDIRECTORY && FirstCluster(it) == cluster && FileSize(it) == 0
  {
    hide FirstCluster, DirectoryName, DotName;
    DirectoryNameParts(n);
    StampKeeps(DirectoryName(n), date, time);
    SetFirstClusterGet(Stamp(DirectoryName(n), date, time), cluster);
    ClusterKeeps(Stamp(DirectoryName(n), date, time), cluster);
    hide Stamp, SetFirstCluster, FileSize;
  }

  lemma StampKeeps(it: Item, date: Word, time: Word)
    ensures Stamp(it, date, time)[..11] == it[..11] && Stamp(it, date, time)[0] == it[0]
    ensures Attr(Stamp(it, date, time)) == Attr(it)
    ensures FileSize(Stamp(it, date, time)) == FileSize(it)
  {}

  lemma ClusterKeeps(it: Item, cluster: Word)
    ensures SetFirstCluster(it, cluster)[..11] == it[..11] && SetFirstCluster(it, cluster)[0] == it[0]
    ensures Attr(SetFirstCluster(it, cluster)) == Attr(it)
  {}

  lemma DirectoryItemKind(n: nat, cluster: Word, date: Word, time: Word)
    requires n <= 2
    ensures var it := DirectoryItem(n, cluster, date, time);
            IsDirectory(it) && !IsLongName(it) && !IsVolumeLabel(it) && !Live(it)
  {}

  lemma DirectoryDots(c: Word, first: Word, date: Word, time: Word)
    ensures AreDots(DirectoryItem(1, c, date, time), DirectoryItem(2, first, date, time))
  {
    DirectoryItemKind(1, c, date, time);
    DirectoryItemKind(2, first, date, time);
    hide DotName, DirectoryItem, Live;
  }

  /** Changes to clusters of no file or directory change no directory. */
  lemma UnownedData(g: Geometry, v: View, w: View, t: Tree)
    requires Shaped(g, v) && Shaped(g, w) && w.root == v.root && TreeShape(g, t) && SlotsOk(g, v, t) && EndsOk(g, v, t)
    requires forall c :: c in t.owner ==> w.data[c] == v.data[c]
    ensures EndsOk(g, w, t) && forall d :: OthersKept(g, v, w, t, t, d, {})
    ensures forall d :: IsListed(g, v, t, d) ==> IsListed(g, w, t, d) && AllItems(g, w, t, d) == AllItems(g, v, t, d)
  {
    hide IsDirectory, Live, SlotsOk, EntryAt, SlotExists, ChainInRange, DirItems, EndsOnce, Kept;
    forall d ensures OthersKept(g, v, w, t, t, d, {}) { DataKeeps(g, v, w, t, t, d, {}); }
    forall s | s in t.chains ensures Kept(g, v, w, t, t, s) {
      assert OthersKept(g, v, w, t, t, RootDir, {});
    }
    forall s | s in t.chains && IsListed(g, v, t, SubDir(s))
      ensures IsListed(g, w, t, SubDir(s)) && AllItems(g, w, t, SubDir(s)) == AllItems(g, v, t, SubDir(s))
    {
      DirKept(g, v, w, t, t, s);
    }
    forall s | s in t.chains && IsDirectory(EntryAt(g, w, s))
      ensures ChainInRange(g, t.chains[s]) && EndsOnce(DirItems(g, w, t.chains[s]))
    {
      EntryKept(g, v, w, t, s);
      assert IsListed(g, v, t, SubDir(s));
    }
  }

  lemma EntryKept(g: Geometry, v: View, w: View, t: Tree, s: Slot)
    requires Shaped(g, v) && Shaped(g, w) && Kept(g, v, w, t, t, s)
    ensures SlotExists(g, s) && EntryAt(g, w, s) == EntryAt(g, v, s)
  {}

  /** A directory as it is made: its two entries, and end markers in the rest of its cluster. */
  ghost predicate FreshDirectory(g: Geometry, v: View, c: nat, dot: Item, dotdot: Item)
    requires Shaped(g, v)
  {
    && 2 <= c < g.Limit() && g.perCluster > 0 && ChainInRange(g, [c])
    && DirItems(g, v, [c]) == [dot, dotdot] + EndItems(g.PerCluster() - 2)
  }

  lemma DotsWritten(g: Geometry, v: View, c: nat, dot: Item, dotdot: Item)
    requires Shaped(g, v) && 2 <= c < g.Limit() && v.data[c] == Zeros(g.ClusterBytes())
    ensures g.ClusterBytes() >= 64
    ensures var w := v.(data := v.data[c := Splice(v.data[c], 0, dot + dotdot)]);
            Shaped(g, w) && FreshDirectory(g, w, c, dot, dotdot)
  {
    var w := v.(data := v.data[c := Splice(v.data[c], 0, dot + dotdot)]);
    var per := g.PerCluster();
    StartNext(0, per);
    forall k | 0 <= k < per
      ensures DirItems(g, w, [c])[k] == ([dot, dotdot] + EndItems(per - 2))[k]
    {
      IndexUnique(k, per, 0, k);
      DotsAt(v.data[c], dot, dotdot, k);
    }
  }

  lemma DotsAt(b: seq<byte>, dot: Item, dotdot: Item, k: nat)
    requires b == Zeros(|b|) && |b| >= 64 && 32 * k + 32 <= |b|
    ensures Splice(b, 0, dot + dotdot)[32 * k..32 * k + 32]
            == if k == 0 then dot else if k == 1 then dotdot else seq(32, _ => 0)
  {
    var r := Splice(b, 0, dot + dotdot);
    assert r == dot + dotdot + b[64..];
    if k == 0 {
      assert r[..32] == dot;
    } else if k == 1 {
      assert r[32..64] == dotdot;
    } else {
      assert r[32 * k..32 * k + 32] == b[64..][32 * k - 64..32 * k - 32];
    }
  }

  lemma FreshIsNew(g: Geometry, v: View, c: nat, dot: Item, dotdot: Item)
    requires Shaped(g, v) && FreshDirectory(g, v, c, dot, dotdot)
    requires dot[0] != 0 && dotdot[0] != 0 && !Live(dot) && !Live(dotdot)
    ensures NewDirectory(g, v, [c])
  {
    hide DirItems, ChainInRange, Live;
    EndNotLive();
    var all := DirItems(g, v, [c]);
    forall k | 0 <= k < |all| ensures k >= 2 ==> all[k] == seq(32, _ => 0) {}
  }

  lemma EndNotLive()
    ensures !Live(seq(32, _ => 0))
  {}

  /** The names `.` and `..` are proper names for a directory that has no others. */
  lemma DotsTidy(dot: Item, dotdot: Item)
    requires dot[..11] == DotName(1) && dotdot[..11] == DotName(2)
    requires Attr(dot) == ATTR_SUBDIRECTORY && Attr(dotdot) == ATTR_SUBDIRECTORY
    ensures Tidy([dot, dotdot])
  {
    var items := [dot, dotdot];
    DotsDisplay(dot, 1);
    DotsDisplay(dotdot, 2);
    hide ShortDisplay, FullShortName, Checksum, LongName;
    assert LfnCount(items, 0) == 0 && LfnCount(items, 1) == 0;
    assert dot[..11][1] == SPACE && dotdot[..11][1] == DOT;
    assert |ItemName(items, 0, PATH_MAX)| == 1 && |ItemName(items, 1, PATH_MAX)| == 2;
    hide LfnScan, ItemName, DotName;
    NotSameLength(ItemName(items, 0, PATH_MAX), ItemName(items, 1, PATH_MAX));
  }

  lemma NotSameLength(a: seq<byte>, b: seq<byte>)
    requires |a| != |b|
    ensures !SameName(a, b) && !SameName(b, a)
  {
    assert |Lower(a)| != |Lower(b)|;
  }

  lemma FreshTidy(g: Geometry, v: View, c: nat, dot: Item, dotdot: Item)
    requires Shaped(g, v) && FreshDirectory(g, v, c, dot, dotdot) && Tidy([dot, dotdot]) && dot[0] != 0
    requires dotdot[0] != 0
    ensures DirTidy(DirItems(g, v, [c]))
  {
    hide Tidy, DirItems, ChainInRange;
    assert Lists(DirItems(g, v, [c]), [dot, dotdot]);
    TidyDir(DirItems(g, v, [c]), [dot, dotdot]);
  }

  // ---- the operation ----

  /** A new directory is listed under `name`: found under it, and empty but for `.` and `..`. */
  ghost predicate MadeDirectory(g: Geometry, v: View, w: View, t: Tree, o: Tree, d: Dir, items: seq<Item>, name: Name,
                                c: Word, item: Item, dot: Item, dotdot: Item, idx: nat, entries: seq<Item>)
  {
    && CreatedIn(g, w, t, o, d, [c], items, name, item, idx, entries)
    && OthersKept(g, v, w, t, o, d, {})
    && IsIndexOf(Placed(items, idx, entries), name, idx + |entries| - 1)
    && c < |v.fat| && v.fat[c] == UNUSED
    && FreshDirectory(g, w, c, dot, dotdot)
  }

  ghost predicate AreDots(dot: Item, dotdot: Item) {
    && dot[0] == DOT && dot[..11] == DotName(1) && Attr(dot) == ATTR_SUBDIRECTORY && !Live(dot)
    && dotdot[0] == DOT && dotdot[..11] == DotName(2) && Attr(dotdot) == ATTR_SUBDIRECTORY && !Live(dotdot)
  }

  /** A cluster with the two entries of a new directory is pending. */
  ghost predicate Prepared(g: Geometry, v: View, w: View, t: Tree, d: Dir, c: Word, dot: Item, dotdot: Item)
    requires Shaped(g, v) && TreeShape(g, t) && IsListed(g, v, t, d)
  {
    && Consistent(g, w, t, [c]) && IsListed(g, w, t, d) && AllItems(g, w, t, d) == AllItems(g, v, t, d)
    && OthersKept(g, v, w, t, t, d, {})
    && c < |v.fat| && v.fat[c] == UNUSED && FreshDirectory(g, w, c, dot, dotdot)
  }

  lemma PreparedBy(g: Geometry, v: View, t: Tree, d: Dir, c: Word, dot: Item, dotdot: Item)
    requires Consistent(g, v, t, []) && IsListed(g, v, t, d) && 2 <= c < g.Limit() && v.fat[c] == UNUSED
    ensures g.ClusterBytes() >= 64
    ensures var mid := Allocated(g, v, c);
            Prepared(g, v, mid.(data := mid.data[c := Splice(mid.data[c], 0, dot + dotdot)]), t, d, c, dot, dotdot)
  {
    hide EntriesOk, SlotsOk, EndsOk, HasRoot, AllItems, IsListed, FreshDirectory, IsChain;
    var mid := Allocated(g, v, c);
    KeepAllocated(g, v, t, c);
    UsedAllocated(g, v, t, c);
    DotsWritten(g, mid, c, dot, dotdot);
    KeepPendingData(g, mid, t, [c], c, Splice(mid.data[c], 0, dot + dotdot));
    UnownedData(g, v, mid.(data := mid.data[c := Splice(mid.data[c], 0, dot + dotdot)]), t);
  }

  lemma NewDirectoryUnborn(g: Geometry, w: View, t: Tree, c: Word, item: Item, dot: Item, dotdot: Item)
    requires Consistent(g, w, t, [c]) && FreshDirectory(g, w, c, dot, dotdot) && FirstCluster(item) == c
    requires AreDots(dot, dotdot)
    ensures IsDirectory(item) ==> Unborn(g, w, item, [c])
  {
    FreshIsNew(g, w, c, dot, dotdot);
    hide EntriesOk, SlotsOk, EndsOk, HasRoot, TreeShape, FreshDirectory, IsChain, NewDirectory, FirstCluster;
  }

  lemma FreshKept(g: Geometry, v: View, w: View, c: nat, dot: Item, dotdot: Item)
    requires Shaped(g, v) && Shaped(g, w) && FreshDirectory(g, v, c, dot, dotdot) && SameData(v, w, [c])
    ensures FreshDirectory(g, w, c, dot, dotdot)
  {
    SameDirItems(g, v, w, [c]);
  }

  lemma MadeSound(g: Geometry, v: View, x: View, w: View, t: Tree, o: Tree, d: Dir, items: seq<Item>, name: Name,
                  c: Word, item: Item, dot: Item, dotdot: Item, idx: nat, entries: seq<Item>)
    requires Sound(g, v, t) && IsListed(g, v, t, d) && Lists(AllItems(g, v, t, d), items)
    requires GoodPart(name) && IsIndexOf(items, name, -1)
    requires Prepared(g, v, x, t, d, c, dot, dotdot) && AreDots(dot, dotdot)
    requires FirstCluster(dot) == c && FirstCluster(dotdot) == DirFirst(t, d)
    requires Created(g, x, w, t, o, d, [c], items, name, item, idx, entries)
    ensures Sound(g, w, o)
    ensures MadeDirectory(g, v, w, t, o, d, items, name, c, item, dot, dotdot, idx, entries)
  {
    hide EntriesOk, SlotsOk, UsedOk, EndsOk, HasRoot, AllItems, TreeShape, FreshDirectory, SlotOf, Placed, GoodEntries;
    hide FreeAt, IsIndexOf, DirTidy, OthersKept, SameData, DirItems, EntryAt, ChainInRange, Lists, Shaped;
    KeptAfter(g, v, x, w, t, t, o, d, {}, {});
    FreshKept(g, x, w, c, dot, dotdot);
    DotsTidy(dot, dotdot);
    FreshTidy(g, w, c, dot, dotdot);
    assert {} + {} == (var none: set<Slot> := {}; none);
    SubdirectoryItems(g, w, o, SlotOf(g, w, o, d, idx + |entries| - 1));
    MadeHome(g, v, w, t, o, d, idx + |entries| - 1, c, dot, dotdot);
    CreatedSound(g, v, w, t, o, d, [c], items, name, item, idx, entries);
  }

  /** The two entries of the new directory name it and the one it is in. */
  lemma MadeHome(g: Geometry, v: View, w: View, t: Tree, o: Tree, d: Dir, k: nat, c: Word, dot: Item, dotdot: Item)
    requires FsckBut(g, v, t, []) && IsListed(g, v, t, d) && OthersKept(g, v, w, t, o, d, {})
    requires Shaped(g, w) && TreeShape(g, o) && IsListed(g, w, o, d) && k < |AllItems(g, w, o, d)|
    requires SlotOf(g, w, o, d, k) in o.chains && o.chains[SlotOf(g, w, o, d, k)] == [c]
    requires FreshDirectory(g, w, c, dot, dotdot) && AreDots(dot, dotdot)
    requires FirstCluster(dot) == c && FirstCluster(dotdot) == DirFirst(t, d)
    ensures Home(g, w, o, SlotOf(g, w, o, d, k))
  {
    hide EntriesOk, SlotsOk, UsedOk, EntryAt, Kept, FirstCluster, DirItems, IsDirectory, Live;
    var s := SlotOf(g, w, o, d, k);
    if d.SubDir? {
      DirSlotExists(g, o.chains[d.slot], k);
      var i :| 0 <= i < |o.chains[d.slot]| && o.chains[d.slot][i] == s.cluster;
      assert o.owner[s.cluster] == d.slot;
      HasFirst(g, v, t, d.slot);
    }
    SubdirectoryItems(g, w, o, s);
    var all := [dot, dotdot] + EndItems(g.PerCluster() - 2);
    assert all[0] == dot && all[1] == dotdot;
  }

  lemma MadeListed(g: Geometry, v: View, w: View, t: Tree, o: Tree, d: Dir, items: seq<Item>, name: Name,
                   c: Word, item: Item, dot: Item, dotdot: Item, idx: nat, entries: seq<Item>)
    requires MadeDirectory(g, v, w, t, o, d, items, name, c, item, dot, dotdot, idx, entries)
    ensures Shaped(g, w) && TreeShape(g, o) && IsListed(g, w, o, d)
  {
    hide EntriesOk, SlotsOk, UsedOk, EndsOk, HasRoot, FreshDirectory, IsIndexOf;
  }

  lemma SubdirectoryItems(g: Geometry, v: View, t: Tree, s: Slot)
    requires Shaped(g, v) && TreeShape(g, t)
    ensures IsListed(g, v, t, SubDir(s)) ==>
              s in t.chains && AllItems(g, v, t, SubDir(s)) == DirItems(g, v, t.chains[s])
  {}

  /** Directory `d` lists what it did, and all other files and directories are kept. */
  ghost predicate AsBefore(g: Geometry, v: View, w: View, t: Tree, o: Tree, d: Dir, items: seq<Item>) {
    OthersKept(g, v, w, t, o, d, {}) && TreeShape(g, o) && IsListed(g, w, o, d) && Lists(AllItems(g, w, o, d), items)
  }

  /** When it cannot be listed, the cluster is freed again. */
  lemma UndoneSound(g: Geometry, v: View, x: View, w: View, t: Tree, o: Tree, d: Dir, view: DirView,
                    c: Word, dot: Item, dotdot: Item)
    requires SoundView(g, v, t, d, view)
    requires Prepared(g, v, x, t, d, c, dot, dotdot)
    requires Consistent(g, w, o, [c])
    requires MoreRoom(g, x, w, t, o, d)
    ensures SoundWith(g, w.(fat := Freed(w.fat, [c])), o, d)
    ensures AsBefore(g, v, w.(fat := Freed(w.fat, [c])), t, o, d, view.items)
  {
    hide EntriesOk, SlotsOk, UsedOk, EndsOk, HasRoot, AllItems, TreeShape, FreshDirectory, DirTidy, OthersKept;
    hide IsListed, Lists;
    hide Freed, Tidy;
    var u := w.(fat := Freed(w.fat, [c]));
    KeepFreed(g, w, o, [c]);
    FatAlone(g, w, u, o, d);
    GrewKeeps(g, x, w, t, o, d, [c]);
    KeptAfter(g, v, x, w, t, t, o, d, {}, {});
    assert {} + {} == (var none: set<Slot> := {}; none);
    FatIgnored(g, v, w, u, t, o, d, {});
    GrewLists(view.items, AllItems(g, v, t, d), AllItems(g, w, o, d));
    TidyOfView(g, v, t, d, view);
    TidyDir(AllItems(g, u, o, d), view.items);
    UndoneDir(g, v, x, w, u, t, o, d, c, dot, dotdot);
    RootSlotTidy(g, v, u, t, o, d);
  }

  lemma UndoneDir(g: Geometry, v: View, x: View, w: View, u: View, t: Tree, o: Tree, d: Dir, c: Word, dot: Item,
                  dotdot: Item)
    requires Shaped(g, v) && TreeShape(g, t) && IsListed(g, v, t, d) && Prepared(g, v, x, t, d, c, dot, dotdot)
    requires Shaped(g, w) && TreeShape(g, o) && IsListed(g, w, o, d) && OnlyGrew(g, x, w, t, o, d)
    requires Shaped(g, u) && IsListed(g, u, o, d) && AllItems(g, u, o, d) == AllItems(g, w, o, d)
    ensures SameDir(g, v, u, t, o, d)
  {
    hide EntriesOk, SlotsOk, UsedOk, EndsOk, HasRoot, AllItems, TreeShape, FreshDirectory, OthersKept, EntryAt;
  }

  lemma TidyOfView(g: Geometry, v: View, t: Tree, d: Dir, view: DirView)
    requires Sound(g, v, t) && Loaded(view, g, v, t, d)
    ensures Tidy(view.items)
  {
    hide Tidy, Lists, Consistent, AllItems;
  }

  lemma FirstOfView(g: Geometry, v: View, t: Tree, d: Dir, view: DirView)
    requires Shaped(g, v) && TreeShape(g, t) && Loaded(view, g, v, t, d)
    ensures view.first == DirFirst(t, d)
  {
    hide AllItems, Lists, TreeShape;
  }

  lemma FirstWord(g: Geometry, v: View, t: Tree, d: Dir, view: DirView)
    requires Consistent(g, v, t, []) && Loaded(view, g, v, t, d)
    ensures view.first < 0x10000
  {
    ListedChain(g, v, t, [], d);
    hide FsckBut, EndsOk, HasRoot, Lists;
    if d.SubDir? { ChainSmall(v.fat, g, t.chains[d.slot]); }
  }

  lemma PendingChain(g: Geometry, v: View, t: Tree, pending: seq<nat>)
    requires FsckBut(g, v, t, pending)
    ensures IsChain(v.fat, g.Limit(), pending)
  {}

  /** A cluster for the new directory, with its first two entries. */
  method PrepareDirectory(vol: Volume, first: Word, date: Word, time: Word, ghost t: Tree, ghost d: Dir)
    returns (cluster: int)
    requires vol.Valid() && Consistent(vol.g, vol.V(), t, []) && IsListed(vol.g, vol.V(), t, d)
    modifies vol.Parts()
    ensures vol.Valid()
    ensures cluster < 0 <==> NoFreeCluster(old(vol.V()).fat, vol.g.Limit())
    ensures cluster < 0 ==> cluster == NO_MEMORY_ERROR && vol.V() == old(vol.V())
    ensures cluster >= 0 ==>
              && cluster < 0x10000
              && Prepared(vol.g, old(vol.V()), vol.V(), t, d, cluster,
                          DirectoryItem(1, cluster, date, time), DirectoryItem(2, first, date, time))
  {
    hide FlatOf, FatImage, RootImage, DataImage, Geometry.Limit, Geometry.Valid, Volume.Valid, Volume.V;
    hide EntriesOk, SlotsOk, UsedOk, EndsOk, HasRoot, AllItems, OthersKept, TreeShape, IsChain, EntryAt;
    hide DirItems, ChainInRange, NoFreeCluster, DirectoryItem, FirstFree, FreshDirectory, Splice, Allocated;
    ghost var v := vol.V();
    cluster := AllocCluster(vol);
    if cluster >= 0 {
      Numbered(vol.g, v, t, []);
      var dot, dotdot := DirectoryItem(1, cluster, date, time), DirectoryItem(2, first, date, time);
      PreparedBy(vol.g, v, t, d, cluster, dot, dotdot);
      var dots: seq<byte> := dot;
      dots := dots + dotdot;
      vol.WriteData(cluster, 0, dots);
    }
  }

  /** Lists the prepared directory, or frees its cluster again. */
  method ListDirectory(vol: Volume, view: DirView, name: Name, c: Word, item: Item, ghost dot: Item, ghost dotdot: Item,
                       ghost v: View, ghost t: Tree, ghost d: Dir)
    returns (res: int, ghost o: Tree, ghost idx: nat, ghost entries: seq<Item>, ghost mid: View)
    requires vol.Valid() && SoundView(vol.g, v, t, d, view) && GoodPart(name) && IsIndexOf(view.items, name, -1)
    requires Prepared(vol.g, v, vol.V(), t, d, c, dot, dotdot) && AreDots(dot, dotdot)
    requires FirstCluster(dot) == c && FirstCluster(dotdot) == view.first
    requires IsDirectory(item) && !IsLongName(item) && !IsVolumeLabel(item) && FirstCluster(item) == c
    modifies vol.Parts()
    ensures vol.Valid() && SoundWith(vol.g, vol.V(), o, d)
    ensures res >= 0 ==>
              && res == OK
              && MadeDirectory(vol.g, v, vol.V(), t, o, d, view.items, name, c, item, dot, dotdot, idx, entries)
    ensures res < 0 ==> AsBefore(vol.g, v, vol.V(), t, o, d, view.items)
    ensures res < 0 ==> CreateFails(vol.g, mid, d, view.items, name, res) && vol.V() == mid.(fat := Freed(mid.fat, [c]))
  {
    hide FlatOf, FatImage, RootImage, DataImage, Geometry.Limit, Geometry.Valid, Volume.Valid, Volume.V;
    hide EntriesOk, SlotsOk, UsedOk, EndsOk, HasRoot, AllItems, SlotOf, Live, OthersKept, TreeShape, IsChain, EntryAt;
    hide Lists, DirItems, ChainInRange, IsDirectory, FirstCluster, Tidy, DirTidy, NewDirectory, GoodPart;
    hide EntryOk, IsListed, CreateFails, Freed, MadeDirectory, DirectoryItem, Unborn, OnlyGrew;
    hide FreshDirectory, IsIndexOf, Created, IsLongName, IsVolumeLabel;
    ghost var x := vol.V();
    NewDirectoryUnborn(vol.g, x, t, c, item, dot, dotdot);
    var pos, entry;
    pos, entry, o, idx, entries := CreateItem(vol, view, name, item, t, d, [c]);
    mid := vol.V();
    if pos < 0 {
      UndoneSound(vol.g, v, x, mid, t, o, d, view, c, dot, dotdot);
      PendingChain(vol.g, mid, o, [c]);
      FreeChain(vol, c, [c]);
      res := pos;
    } else {
      FirstOfView(vol.g, v, t, d, view);
      MadeSound(vol.g, v, x, mid, t, o, d, view.items, name, c, item, dot, dotdot, idx, entries);
      MadeListed(vol.g, v, mid, t, o, d, view.items, name, c, item, dot, dotdot, idx, entries);
      res := OK;
    }
  }

  /** A directory was not made: for lack of a cluster, or because it could not be listed, as it
      turned out in state `mid`; its cluster `c` is free again then. */
  ghost predicate NotMade(g: Geometry, v: View, mid: View, w: View, t: Tree, o: Tree, d: Dir, items: seq<Item>,
                          name: Name,
                          c: Word, res: int)
  {
    if NoFreeCluster(v.fat, g.Limit()) then res == NO_MEMORY_ERROR && w == v && o == t
    else CreateFails(g, mid, d, items, name, res) && w == mid.(fat := Freed(mid.fat, [c]))
  }

  /** The name is there already, or nothing was made, or a directory is listed under it. */
  ghost predicate MkdirResult(g: Geometry, v: View, mid: View, w: View, t: Tree, o: Tree, d: Dir, view: DirView,
                              name: Name, date: Word, time: Word, res: int, found: int, c: Word, idx: nat,
                              entries: seq<Item>)
  {
    && IsIndexOf(view.items, name, found)
    && if found >= 0 then res == FILE_EXISTS_ERROR && w == v && o == t
       else if res < 0 then
         && NotMade(g, v, mid, w, t, o, d, view.items, name, c, res)
         && AsBefore(g, v, w, t, o, d, view.items)
       else
         && res == OK && view.first < 0x10000
         && MadeDirectory(g, v, w, t, o, d, view.items, name, c, DirectoryItem(0, c, date, time),
                          DirectoryItem(1, c, date, time), DirectoryItem(2, view.first, date, time), idx, entries)
  }

  /** `fat16_mkdir`: the new directory's `.` names its own cluster, its `..` the first one of its parent. */
  method Mkdir(vol: Volume, view: DirView, name: Name, date: Word, time: Word, ghost t: Tree, ghost d: Dir)
    returns (res: int, ghost o: Tree, ghost found: int, ghost c: Word, ghost idx: nat, ghost entries: seq<Item>,
             ghost mid: View)
    requires vol.Valid() && SoundView(vol.g, vol.V(), t, d, view) && GoodPart(name)
    modifies vol.Parts()
    ensures vol.Valid() && SoundWith(vol.g, vol.V(), o, d)
    ensures MkdirResult(vol.g, old(vol.V()), mid, vol.V(), t, o, d, view, name, date, time, res, found, c, idx, entries)
  {
    hide FlatOf, FatImage, RootImage, DataImage, Geometry.Limit, Geometry.Valid, Volume.Valid, Volume.V;
    hide EntriesOk, SlotsOk, UsedOk, EndsOk, HasRoot, AllItems, OthersKept, TreeShape, IsChain, EntryAt;
    hide Lists, DirItems, ChainInRange, Tidy, DirTidy, Matches, GoodPart, Prepared, DirectoryItem, AreDots;
    hide FirstCluster;
    hide IsDirectory, IsLongName, IsVolumeLabel, IsListed, NoFreeCluster, CreateFails, Freed, MadeDirectory, IsIndexOf;
    ghost var v := vol.V();
    o, c, idx, entries, mid := t, 0, 0, [], v;
    NothingTouched(vol.g, v, t, d, {});
    var index := FindIndex(view.items, name);
    found := index;
    IndexSign(view.items, name, index);
    if index >= 0 {
      res := FILE_EXISTS_ERROR;
      return;
    }
    FirstWord(vol.g, v, t, d, view);
    var cluster := PrepareDirectory(vol, view.first, date, time, t, d);
    if cluster < 0 {
      res := cluster;
      return;
    }
    c := cluster;
    var item := DirectoryItem(0, cluster, date, time);
    ghost var dot, dotdot := DirectoryItem(1, c, date, time), DirectoryItem(2, view.first, date, time);
    DirectoryItemKind(0, cluster, date, time);
    DirectoryDots(c, view.first, date, time);
    res, o, idx, entries, mid := ListDirectory(vol, view, name, cluster, item, dot, dotdot, v, t, d);
  }

  lemma IndexSign(items: seq<Item>, name: seq<byte>, r: int)
    requires IsIndexOf(items, name, r)
    ensures r >= -1
  {}
}
