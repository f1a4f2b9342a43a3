// Opening a file for writing: `fat16_open_for_write` on a resolved parent directory.
module FatOpen {
  import opened FatDisk
  import opened FatLayout
  import opened FatVolume
  import opened FatItems
  import opened FatChains
  import opened FatFiles
  import opened FatFsck
  import opened FatDirs
  import opened FatOthers
  import opened FatNames
  import opened FatLongNames
  import opened FatNaming
  import opened FatOps
  import opened FatCreate
  import opened FatSound

  /** Entry `k` of directory `d` is that of a listed file. */
  ghost predicate FileAt(g: Geometry, v: View, t: Tree, d: Dir, k: nat, item: Item)
    requires Shaped(g, v) && TreeShape(g, t)
  {
    && IsListed(g, v, t, d) && k < |AllItems(g, v, t, d)|
    && AllItems(g, v, t, d)[k] == item && Live(item) && !IsDirectory(item)
    && SlotOf(g, v, t, d, k) in t.chains && EntryOk(g, v, item, t.chains[SlotOf(g, v, t, d, k)])
  }

  lemma FileListed(g: Geometry, v: View, t: Tree, d: Dir, k: nat, item: Item)
    requires FsckBut(g, v, t, []) && IsListed(g, v, t, d) && k < |AllItems(g, v, t, d)|
    requires AllItems(g, v, t, d)[k] == item && Live(item)
    ensures SlotOf(g, v, t, d, k) in t.chains
    ensures EntryOk(g, v, item, t.chains[SlotOf(g, v, t, d, k)])
  {
    ListedIff(g, v, t, [], d, k);
    SlotOfEntry(g, v, t, d, k);
    hide SlotsOk, UsedOk, AllItems, SlotOf, EntryOk, Live, IsListed;
  }

  lemma FoundListed(g: Geometry, v: View, t: Tree, d: Dir, view: DirView, name: Name, k: nat)
    requires Sound(g, v, t) && Loaded(view, g, v, t, d) && GoodPart(name) && k < |view.items|
    requires Matches(view.items, k, name)
    ensures k < |AllItems(g, v, t, d)| && AllItems(g, v, t, d)[k] == view.items[k] && Live(view.items[k])
    ensures SlotOf(g, v, t, d, k) in t.chains
    ensures EntryOk(g, v, view.items[k], t.chains[SlotOf(g, v, t, d, k)])
  {
    hide EntriesOk, SlotsOk, UsedOk, EndsOk, HasRoot, AllItems, IsListed, Live, SlotOf, EntryOk, Tidy, Matches;
    hide TreeShape, Lists;
    assert Tidy(view.items);
    FoundIsLive(AllItems(g, v, t, d), view.items, name, k);
    FileListed(g, v, t, d, k, view.items[k]);
  }

  /** An item `k` of `d` got another entry with the same name: names stay proper everywhere. */
  lemma UpdatedSound(g: Geometry, v: View, w: View, t: Tree, o: Tree, d: Dir, view: DirView, k: nat, item: Item)
    requires Sound(g, v, t) && Consistent(g, w, o, []) && Loaded(view, g, v, t, d) && k < |view.items|
    requires Live(view.items[k]) && !IsDirectory(view.items[k]) && item[..13] == view.items[k][..13]
    requires IsListed(g, w, o, d) && k < |AllItems(g, v, t, d)|
    requires AllItems(g, w, o, d) == AllItems(g, v, t, d)[k := item]
    requires var s := SlotOf(g, v, t, d, k);
             OthersKept(g, v, w, t, o, d, {s}) && o.chains.Keys == t.chains.Keys && EntryAt(g, w, s) == item
    ensures Sound(g, w, o)
    ensures Lists(AllItems(g, w, o, d), view.items[k := item])
  {
    hide EntriesOk, SlotsOk, UsedOk, EndsOk, HasRoot, AllItems, SlotOf, TreeShape, HasBit, EntryAt, DirItems;
    hide Kept, OthersKept, Tidy, IsDirectory, ChainInRange, Shaped;
    SameKind(view.items[k], item);
    assert Tidy(view.items);
    UpdateTidy(view.items, k, item);
    ListsSet(AllItems(g, v, t, d), view.items, k, item);
    TidyDir(AllItems(g, w, o, d), view.items[k := item]);
    UpdatedDir(g, v, w, t, o, d, k, item);
    SoundBy(g, v, w, t, o, d, SlotOf(g, v, t, d, k));
  }

  /** A file that is updated is none of the first two entries of its directory. */
  lemma UpdatedDir(g: Geometry, v: View, w: View, t: Tree, o: Tree, d: Dir, k: nat, item: Item)
    requires Sound(g, v, t) && IsListed(g, v, t, d) && k < |AllItems(g, v, t, d)|
    requires Live(AllItems(g, v, t, d)[k]) && !IsDirectory(AllItems(g, v, t, d)[k]) && !IsDirectory(item)
    requires Shaped(g, w) && TreeShape(g, o) && IsListed(g, w, o, d)
    requires AllItems(g, w, o, d) == AllItems(g, v, t, d)[k := item]
    requires SlotExists(g, SlotOf(g, v, t, d, k)) && EntryAt(g, w, SlotOf(g, v, t, d, k)) == item
    requires OthersKept(g, v, w, t, o, d, {SlotOf(g, v, t, d, k)})
    ensures SameDir(g, v, w, t, o, d) && NobodyIn(g, v, t, SlotOf(g, v, t, d, k))
    ensures Home(g, w, o, SlotOf(g, v, t, d, k))
  {
    hide EntriesOk, SlotsOk, UsedOk, EndsOk, HasRoot, DirTidy, AllItems, SlotOf, TreeShape, EntryAt, Kept, Live;
    hide IsDirectory, DotsHome, SameTop;
    SlotOfEntry(g, v, t, d, k);
    NotOwnSlot(g, v, t, d, k);
    if d.SubDir? {
      TopOf(g, v, t, d);
      SetTop(AllItems(g, v, t, d), First(t.chains[d.slot]), ParentFirst(t, d.slot), k, item);
    }
  }

  lemma ListsSet(all: seq<Item>, items: seq<Item>, k: nat, item: Item)
    requires Lists(all, items) && k < |items| && item[0] != 0
    ensures k < |all| && Lists(all[k := item], items[k := item])
  {}

  lemma FatIgnored(g: Geometry, v: View, w: View, x: View, t: Tree, o: Tree, d: Dir, touched: set<Slot>)
    requires OthersKept(g, v, w, t, o, d, touched) && Shaped(g, x) && x.root == w.root && x.data == w.data
    ensures OthersKept(g, v, x, t, o, d, touched)
  {
    forall s | s in t.chains && s !in Self(d) && s !in touched ensures Kept(g, v, x, t, o, s) {
      assert Kept(g, v, w, t, o, s);
    }
  }

  lemma EmptiedSound(g: Geometry, v: View, t: Tree, d: Dir, view: DirView, k: nat, item: Item)
    requires Sound(g, v, t) && Loaded(view, g, v, t, d) && k < |view.items| && k < |AllItems(g, v, t, d)|
    requires AllItems(g, v, t, d)[k] == view.items[k] && Live(view.items[k]) && !IsDirectory(view.items[k])
    requires SlotOf(g, v, t, d, k) in t.chains
    requires item[..13] == view.items[k][..13] && FirstCluster(item) == 0 && FileSize(item) == 0
    ensures var s := SlotOf(g, v, t, d, k);
            var w := SetEntry(g, v.(fat := Freed(v.fat, t.chains[s])), s, item);
            var o := Owned(Disowned(t, s), s, []);
            && Sound(g, w, o) && FileAt(g, w, o, d, k, item) && SlotOf(g, w, o, d, k) == s
            && Lists(AllItems(g, w, o, d), view.items[k := item])
            && OthersKept(g, v, w, t, o, d, {s})
  {
    hide EntriesOk, SlotsOk, UsedOk, EndsOk, HasRoot, AllItems, SlotOf, TreeShape, HasBit, EntryAt, DirItems, SetEntry;
    hide Kept, OthersKept, Tidy, IsDirectory, ChainInRange, Owned, Disowned, Freed, Live, FirstCluster, FileSize;
    hide IsListed, DirTidy, Lists;
    var s := SlotOf(g, v, t, d, k);
    var w := SetEntry(g, v.(fat := Freed(v.fat, t.chains[s])), s, item);
    var o := Owned(Disowned(t, s), s, []);
    Empty(g, v, t, d, k, item);
    EmptiedKeeps(g, v, t, d, k, item);
    SetEntryGet(g, v.(fat := Freed(v.fat, t.chains[s])), s, item, s);
    UpdatedSound(g, v, w, t, o, d, view, k, item);
    SameKind(view.items[k], item);
    Numbered(g, v, t, []);
    EmptyEntryOk(g, w, item);
    NotOwnSlot(g, v, t, d, k);
    SlotSame(g, v, w, t, o, d, k);
  }

  lemma NotOwnSlot(g: Geometry, v: View, t: Tree, d: Dir, k: nat)
    requires Shaped(g, v) && TreeShape(g, t) && IsListed(g, v, t, d) && k < |AllItems(g, v, t, d)|
    requires !IsDirectory(AllItems(g, v, t, d)[k])
    ensures d.SubDir? ==> d.slot in t.chains && SlotOf(g, v, t, d, k) != d.slot
  {
    SlotOfEntry(g, v, t, d, k);
  }

  lemma EmptiedKeeps(g: Geometry, v: View, t: Tree, d: Dir, k: nat, item: Item)
    requires Shaped(g, v) && TreeShape(g, t) && SlotsOk(g, v, t) && IsListed(g, v, t, d) && k < |AllItems(g, v, t, d)|
    requires SlotOf(g, v, t, d, k) in t.chains && HasRoot(t) && !IsDirectory(AllItems(g, v, t, d)[k])
    ensures var s := SlotOf(g, v, t, d, k);
            var o := Owned(Disowned(t, s), s, []);
            && OthersKept(g, v, SetEntry(g, v.(fat := Freed(v.fat, t.chains[s])), s, item), t, o, d, {s})
            && o.chains == t.chains[s := []]
  {
    var s := SlotOf(g, v, t, d, k);
    var o := Owned(Disowned(t, s), s, []);
    SlotOfEntry(g, v, t, d, k);
    EmptiedTree(g, v, t, s);
    hide SlotsOk, AllItems, IsListed, Owned, Disowned, Freed, SlotOf, EntryAt, Kept, IsDirectory;
    SetKeeps(g, v, t, o, d, k, item);
    var fat := Freed(v.fat, t.chains[s]);
    FatIgnored(g, v, SetEntry(g, v, s, item), SetEntry(g, v.(fat := fat), s, item), t, o, d, {s});
  }

  // ---- the operation ----

  /** The descriptor is of the file with entry `k` of directory `d`. */
  ghost predicate DescribesFile(g: Geometry, v: View, t: Tree, d: Dir, k: nat, desc: Descriptor)
    requires Shaped(g, v) && TreeShape(g, t)
    reads desc
  {
    && FileAt(g, v, t, d, k, desc.item)
    && desc.Opens(g, v, t.chains[SlotOf(g, v, t, d, k)])
    && desc.entryPos == SlotPos(g, SlotOf(g, v, t, d, k))
  }

  /** A file that exists is open: appending leaves it as it is, writing starts with it empty. */
  ghost predicate OpenedOld(g: Geometry, v: View, w: View, t: Tree, o: Tree, d: Dir, items: seq<Item>, k: nat,
                            mode: Mode, item: Item, pos: nat)
    requires Shaped(g, v) && TreeShape(g, t) && Shaped(g, w) && TreeShape(g, o)
  {
    && k < |items| && FileAt(g, v, t, d, k, items[k]) && IsListed(g, w, o, d) && k < |AllItems(g, w, o, d)|
    && SlotOf(g, w, o, d, k) == SlotOf(g, v, t, d, k)
    && item[..13] == items[k][..13] && Lists(AllItems(g, w, o, d), items[k := item])
    && item[13..20] == items[k][13..20] && item[22..26] == items[k][22..26]
    && (mode.WriteMode? ==> FileSize(item) == 0 && pos == 0)
    && (mode.AppendMode? ==> pos == FileSize(item))
    && (mode.AppendMode? || FirstCluster(items[k]) == 0 ==> w == v && o == t && item == items[k])
    && OthersKept(g, v, w, t, o, d, {SlotOf(g, v, t, d, k)})
  }

  lemma OpensFile(g: Geometry, v: View, t: Tree, d: Dir, k: nat, desc: Descriptor)
    requires Shaped(g, v) && TreeShape(g, t) && FileAt(g, v, t, d, k, desc.item) && desc.pos <= FileSize(desc.item)
    requires desc.entryPos == SlotPos(g, SlotOf(g, v, t, d, k))
    ensures DescribesFile(g, v, t, d, k, desc)
  {
    hide AllItems, SlotOf, IsDirectory, Live, FirstCluster, FileSize, SlotPos, IsListed, TreeShape;
  }

  /** Opening a file that is cut to nothing. */
  lemma EmptiedOpen(g: Geometry, v: View, t: Tree, d: Dir, view: DirView, k: nat, item: Item)
    requires Sound(g, v, t) && Loaded(view, g, v, t, d) && k < |view.items| && FileAt(g, v, t, d, k, view.items[k])
    requires FirstCluster(view.items[k]) != 0 && item == SetFileSize(SetFirstCluster(view.items[k], 0), 0)
    ensures var s := SlotOf(g, v, t, d, k);
            var w := SetEntry(g, v.(fat := Freed(v.fat, t.chains[s])), s, item);
            var o := Owned(Disowned(t, s), s, []);
            && SoundWith(g, w, o, d) && FileAt(g, w, o, d, k, item) && SlotOf(g, w, o, d, k) == s
            && OpenedOld(g, v, w, t, o, d, view.items, k, WriteMode, item, 0)
    ensures item[0] != 0 && FileSize(item) == 0
  {
    hide EntriesOk, SlotsOk, UsedOk, EndsOk, HasRoot, AllItems, SlotOf, TreeShape, EntryAt, SetEntry, OthersKept;
    hide Owned, Disowned, Freed, Live, FirstCluster, FileSize, IsListed, DirTidy, Lists, SetFileSize, SetFirstCluster;
    hide IsDirectory, EntryOk;
    EmptyItem(view.items[k]);
    EmptiedSound(g, v, t, d, view, k, item);
    NotEnd(item);
  }

  /** Opening a file that is left as it is. */
  lemma LeftOpen(g: Geometry, v: View, t: Tree, d: Dir, view: DirView, k: nat, mode: Mode)
    requires Sound(g, v, t) && Loaded(view, g, v, t, d) && k < |view.items| && FileAt(g, v, t, d, k, view.items[k])
    requires mode.WriteMode? ==> FirstCluster(view.items[k]) == 0
    ensures SoundWith(g, v, t, d)
    ensures mode.WriteMode? ==> FileSize(view.items[k]) == 0
    ensures var item := view.items[k];
            OpenedOld(g, v, v, t, t, d, view.items, k, mode, item, if mode.AppendMode? then FileSize(item) else 0)
  {
    hide EntriesOk, SlotsOk, UsedOk, EndsOk, HasRoot, AllItems, SlotOf, TreeShape, OthersKept, Live, FirstCluster;
    hide IsDirectory, EntryOk, FileSize, IsListed, DirTidy, Lists;
    NothingTouched(g, v, t, d, {SlotOf(g, v, t, d, k)});
    assert view.items[k := view.items[k]] == view.items;
    if mode.WriteMode? { NoClustersNoBytes(g, v, view.items[k], t.chains[SlotOf(g, v, t, d, k)]); }
  }

  method OpenExisting(vol: Volume, view: DirView, k: nat, mode: Mode, ghost t: Tree, ghost d: Dir)
    returns (desc: Descriptor, ghost o: Tree)
    requires vol.Valid() && Sound(vol.g, vol.V(), t) && Loaded(view, vol.g, vol.V(), t, d) && !mode.ReadMode?
    requires k < |view.items| && FileAt(vol.g, vol.V(), t, d, k, view.items[k])
    modifies vol.Parts()
    ensures vol.Valid() && SoundWith(vol.g, vol.V(), o, d) && fresh(desc) && desc.mode == mode
    ensures DescribesFile(vol.g, vol.V(), o, d, k, desc)
    ensures OpenedOld(vol.g, old(vol.V()), vol.V(), t, o, d, view.items, k, mode, desc.item, desc.pos)
  {
    hide FlatOf, FatImage, RootImage, DataImage, Geometry.Limit, Geometry.Valid, Volume.Valid, Volume.V;
    hide EntriesOk, SlotsOk, UsedOk, EndsOk, HasRoot, AllItems, SlotOf, Live, OthersKept, TreeShape, IsChain, SetEntry;
    hide SlotPos, Lists, DirItems, ChainInRange, IsDirectory, FirstCluster, FileSize, Owned, Disowned, Tidy, DirTidy;
    hide OpenedOld, DescribesFile, SetFileSize, SetFirstCluster;
    ghost var v := vol.V();
    ghost var s := SlotOf(vol.g, v, t, d, k);
    var item := view.items[k];
    ListedChain(vol.g, v, t, [], d);
    BelowTotal(vol, view, t, d, k);
    var pos := DirEntryPos(vol, view, k, t, d);
    o := t;
    if mode.WriteMode? && FirstCluster(item) != 0 {
      ChainNumbers(vol.V().fat, vol.g.Limit(), t.chains[s]);
      FreeChain(vol, FirstCluster(item), t.chains[s]);
      item := SetFileSize(SetFirstCluster(item, 0), 0);
      EmptiedOpen(vol.g, v, t, d, view, k, item);
      vol.WriteDirEntry(pos, item, s);
      o := Owned(Disowned(t, s), s, []);
    } else {
      LeftOpen(vol.g, v, t, d, view, k, mode);
    }
    desc := new Descriptor(item, if mode.AppendMode? then FileSize(item) else 0, mode, pos);
    OpensFile(vol.g, vol.V(), o, d, k, desc);
  }

  /** Entry `k` of the root directory is one its count includes. */
  lemma BelowTotal(vol: Volume, view: DirView, t: Tree, d: Dir, k: nat)
    requires vol.Valid() && TreeShape(vol.g, t) && Loaded(view, vol.g, vol.V(), t, d) && k < |view.items|
    ensures k < |AllItems(vol.g, vol.V(), t, d)|
    ensures SlotOf(vol.g, vol.V(), t, d, k).RootSlot? ==> SlotOf(vol.g, vol.V(), t, d, k).idx < vol.total
  {
    hide FlatOf, FatImage, RootImage, DataImage, Geometry.Limit, Geometry.Valid, DirItems, TreeShape;
    if d.RootDir? {
      assert Lists(vol.root, vol.root[..vol.total]);
      ListsOnce(vol.root, view.items, vol.root[..vol.total]);
    }
  }

  lemma NoClustersNoBytes(g: Geometry, v: View, item: Item, cs: seq<nat>)
    requires Shaped(g, v) && EntryOk(g, v, item, cs) && !IsDirectory(item) && FirstCluster(item) == 0
    ensures FileSize(item) == 0
  {
    assert cs == [] by { hide FileSize; }
  }

  lemma EmptyItem(item: Item)
    ensures var r := SetFileSize(SetFirstCluster(item, 0), 0);
            && r[..13] == item[..13] && FirstCluster(r) == 0 && FileSize(r) == 0
            && r[13..20] == item[13..20] && r[22..26] == item[22..26]
  {
    var r := SetFileSize(SetFirstCluster(item, 0), 0);
    assert r[13..20] == item[13..20] && r[22..26] == item[22..26];
    SetFirstClusterGet(item, 0);
    SetFileSizeGet(SetFirstCluster(item, 0), 0);
    hide SetFirstCluster, SetFileSize, FirstCluster, FileSize;
  }

  // ---- a new file ----

  /** The entry of an item just created is the last of its entries. */
  lemma CreatedEntry(g: Geometry, w: View, t: Tree, o: Tree, d: Dir, pending: seq<nat>,
                     items: seq<Item>, name: Name, item: Item, idx: nat, entries: seq<Item>)
    requires CreatedIn(g, w, t, o, d, pending, items, name, item, idx, entries)
    ensures var k := idx + |entries| - 1;
            && k < |AllItems(g, w, o, d)| && AllItems(g, w, o, d)[k] == entries[|entries| - 1]
            && EntryAt(g, w, SlotOf(g, w, o, d, k)) == entries[|entries| - 1]
  {
    hide EntriesOk, SlotsOk, UsedOk, EndsOk, HasRoot, AllItems, SlotOf, GoodEntries, OthersKept, IsTotal, TreeShape;
    hide EntryAt;
    var k := idx + |entries| - 1;
    SlotOfEntry(g, w, o, d, k);
    assert Placed(items, idx, entries)[idx + (|entries| - 1)] == entries[|entries| - 1];
  }

  /** A new item keeps the volume sound, is found under its name, and no other name changes. */
  lemma CreatedSound(g: Geometry, v: View, w: View, t: Tree, o: Tree, d: Dir, pending: seq<nat>,
                     items: seq<Item>, name: Name, item: Item, idx: nat, entries: seq<Item>)
    requires Sound(g, v, t) && IsListed(g, v, t, d) && Lists(AllItems(g, v, t, d), items)
    requires CreatedIn(g, w, t, o, d, pending, items, name, item, idx, entries) && OthersKept(g, v, w, t, o, d, {})
    requires IsIndexOf(items, name, -1) && |name| <= PATH_MAX
    requires var s := SlotOf(g, w, o, d, idx + |entries| - 1);
             (IsListed(g, w, o, SubDir(s)) ==> DirTidy(AllItems(g, w, o, SubDir(s)))) && Home(g, w, o, s)
    ensures Sound(g, w, o)
    ensures IsIndexOf(Placed(items, idx, entries), name, idx + |entries| - 1)
  {
    hide EntriesOk, SlotsOk, UsedOk, EndsOk, HasRoot, AllItems, SlotOf, GoodEntries, OthersKept, IsTotal, TreeShape;
    hide EntryAt;
    hide NamesOk, ItemName, DotsOk, Placed, Matches, IsIndexOf, IsListed, Kept;
    var s := SlotOf(g, w, o, d, idx + |entries| - 1);
    assert DirTidy(AllItems(g, v, t, d)) && Tidy(items);
    CreateNames(items, idx, name, item, entries);
    CreateTidy(items, idx, name, item, entries);
    TidyDir(AllItems(g, w, o, d), Placed(items, idx, entries));
    CreatedDir(g, v, w, t, o, d, pending, items, name, item, idx, entries);
    KeptMore(g, v, w, t, o, d, {}, {s});
    SoundBy(g, v, w, t, o, d, s);
  }

  lemma CreatedDir(g: Geometry, v: View, w: View, t: Tree, o: Tree, d: Dir, pending: seq<nat>,
                   items: seq<Item>, name: Name, item: Item, idx: nat, entries: seq<Item>)
    requires Sound(g, v, t) && IsListed(g, v, t, d) && Lists(AllItems(g, v, t, d), items)
    requires CreatedIn(g, w, t, o, d, pending, items, name, item, idx, entries) && OthersKept(g, v, w, t, o, d, {})
    ensures SameDir(g, v, w, t, o, d) && NobodyIn(g, v, t, SlotOf(g, w, o, d, idx + |entries| - 1))
  {
    hide EntriesOk, SlotsOk, UsedOk, EndsOk, HasRoot, DirTidy, AllItems, SlotOf, TreeShape, EntryAt, Kept, DotsHome;
    hide SameTop, GoodEntries;
    hide Lists, FreeAt, Placed, ChainInRange;
    if d.SubDir? {
      TopOf(g, v, t, d);
      PlacedTop(AllItems(g, v, t, d), items, AllItems(g, w, o, d), First(t.chains[d.slot]), ParentFirst(t, d.slot), idx,
                entries);
    }
  }

  /** A directory that only got more room keeps its names. */
  lemma GrewSound(g: Geometry, v: View, w: View, t: Tree, o: Tree, d: Dir, view: DirView)
    requires Sound(g, v, t) && Loaded(view, g, v, t, d) && Consistent(g, w, o, []) && IsListed(g, w, o, d)
    requires OnlyGrew(g, v, w, t, o, d)
    ensures Sound(g, w, o) && Lists(AllItems(g, w, o, d), view.items) && OthersKept(g, v, w, t, o, d, {})
  {
    hide EntriesOk, SlotsOk, UsedOk, EndsOk, HasRoot, AllItems, OthersKept, IsTotal, TreeShape, EntryAt, NamesOk;
    hide DotsOk;
    hide IsListed, Kept;
    assert DirTidy(AllItems(g, v, t, d)) && Tidy(view.items);
    GrewLists(view.items, AllItems(g, v, t, d), AllItems(g, w, o, d));
    TidyDir(AllItems(g, w, o, d), view.items);
    GrewKeeps(g, v, w, t, o, d, []);
    GrewDir(g, v, w, t, o, d);
    RootSlotTidy(g, v, w, t, o, d);
  }

  lemma GrewDir(g: Geometry, v: View, w: View, t: Tree, o: Tree, d: Dir)
    requires Shaped(g, v) && Shaped(g, w) && TreeShape(g, t) && TreeShape(g, o) && IsListed(g, v, t, d)
    requires IsListed(g, w, o, d)
    requires OnlyGrew(g, v, w, t, o, d)
    ensures SameDir(g, v, w, t, o, d)
  {
    hide AllItems, TreeShape;
  }

  lemma RootSlotTidy(g: Geometry, v: View, w: View, t: Tree, o: Tree, d: Dir)
    requires Sound(g, v, t) && Consistent(g, w, o, []) && IsListed(g, w, o, d) && DirTidy(AllItems(g, w, o, d))
    requires SameDir(g, v, w, t, o, d)
    requires OthersKept(g, v, w, t, o, d, {}) && o.chains.Keys == t.chains.Keys
    ensures Sound(g, w, o)
  {
    hide EntriesOk, SlotsOk, UsedOk, EndsOk, HasRoot, AllItems, TreeShape, EntryAt, DirTidy, Kept, ChainInRange;
    hide SameDir, Home, HomesOk;
    if d.SubDir? {
      KeptMore(g, v, w, t, o, d, {}, {d.slot});
      SoundBy(g, v, w, t, o, d, d.slot);
    } else {
      var none := RootSlot(g.rootEntries);
      NoSuchSlot(g, v, w, t, o, none);
      KeptMore(g, v, w, t, o, d, {}, {none});
      HomesBy(g, v, w, t, o, d, none);
      forall e | IsListed(g, w, o, e) ensures DirTidy(AllItems(g, w, o, e)) {
        if e.SubDir? {
          assert Kept(g, v, w, t, o, e.slot);
          ListedBefore(g, v, w, t, o, e.slot);
          DirKept(g, v, w, t, o, e.slot);
        }
      }
    }
  }

  lemma NoSuchSlot(g: Geometry, v: View, w: View, t: Tree, o: Tree, s: Slot)
    requires Shaped(g, v) && Shaped(g, w) && TreeShape(g, t) && TreeShape(g, o) && !SlotExists(g, s)
    ensures NobodyIn(g, v, t, s) && Home(g, w, o, s)
  {}

  function NewFile(date: Word, time: Word): (it: Item)
    ensures FirstCluster(it) == 0 && FileSize(it) == 0 && Attr(it) == ATTR_ARCHIVED
    ensures !IsDirectory(it) && !IsLongName(it) && !IsVolumeLabel(it)
  {
    Stamp(seq(32, _ => 0)[11 := ATTR_ARCHIVED], date, time)
  }

  method OpenNew(vol: Volume, view: DirView, name: Name, mode: Mode, date: Word, time: Word, ghost t: Tree,
                 ghost d: Dir)
    returns (res: int, desc: Descriptor?, ghost o: Tree, ghost idx: nat, ghost entries: seq<Item>)
    requires vol.Valid() && SoundView(vol.g, vol.V(), t, d, view)
    requires GoodPart(name) && IsIndexOf(view.items, name, -1)
    modifies vol.Parts()
    ensures vol.Valid() && SoundWith(vol.g, vol.V(), o, d)
    ensures if res < 0 then
              desc == null && NotCreated(vol.g, old(vol.V()), vol.V(), t, o, d, view.items, name, res)
            else
              && desc != null && fresh(desc) && desc.mode == mode && desc.pos == 0
              && OpenedNew(vol.g, old(vol.V()), vol.V(), t, o, d, view.items, name, NewFile(date, time), idx, entries)
              && DescribesFile(vol.g, vol.V(), o, d, idx + |entries| - 1, desc)
  {
    hide FlatOf, FatImage, RootImage, DataImage, Geometry.Limit, Geometry.Valid, Volume.Valid, Volume.V;
    hide EntriesOk, SlotsOk, UsedOk, EndsOk, HasRoot, AllItems, SlotOf, Live, OthersKept, TreeShape, IsChain, EntryAt;
    hide SlotPos, Lists, DirItems, ChainInRange, FirstCluster, FileSize, Tidy, DirTidy, OnlyGrew, IsIndexOf, Unborn;
    hide EntryOk;
    hide CreateFails, Created, HasBit;
    ghost var v := vol.V();
    var item := NewFile(date, time);
    NoClusters(vol.g, v, t, item);
    var pos, entry;
    pos, entry, o, idx, entries := CreateItem(vol, view, name, item, t, d, []);
    if pos < 0 {
      GrewSound(vol.g, v, vol.V(), t, o, d, view);
      return pos, null, o, idx, entries;
    }
    NewFileSound(vol.g, v, vol.V(), t, o, d, view, name, item, idx, entries);
    desc := new Descriptor(entry, if mode.AppendMode? then FileSize(entry) else 0, mode, pos);
    OpensFile(vol.g, vol.V(), o, d, idx + |entries| - 1, desc);
    res := OK;
  }

  lemma NoClusters(g: Geometry, v: View, t: Tree, item: Item)
    requires Sound(g, v, t) && FirstCluster(item) == 0 && FileSize(item) == 0 && !IsDirectory(item)
    ensures Unborn(g, v, item, [])
  {
    hide EntryOk, NewDirectory, IsDirectory, EntriesOk, SlotsOk, UsedOk, EndsOk, HasRoot, DirTidy, TreeShape;
    Numbered(g, v, t, []);
    EmptyEntryOk(g, v, item);
  }

  /** A file could not be made, and its directory has at most got more room. */
  ghost predicate NotCreated(g: Geometry, v: View, w: View, t: Tree, o: Tree, d: Dir, items: seq<Item>, name: Name,
                             res: int)
  {
    CreateFails(g, w, d, items, name, res) && MoreRoom(g, v, w, t, o, d)
  }

  /** A new, empty file is listed under `name`, and found under it. */
  ghost predicate OpenedNew(g: Geometry, v: View, w: View, t: Tree, o: Tree, d: Dir, items: seq<Item>, name: Name,
                            item: Item, idx: nat, entries: seq<Item>)
  {
    && Created(g, v, w, t, o, d, [], items, name, item, idx, entries)
    && IsIndexOf(Placed(items, idx, entries), name, idx + |entries| - 1)
    && FileSize(entries[|entries| - 1]) == 0
  }

  /** A directory was refused, or the file could not be made. */
  ghost predicate NotOpened(g: Geometry, v: View, w: View, t: Tree, o: Tree, d: Dir, items: seq<Item>, name: Name,
                            found: int, res: int)
  {
    && IsIndexOf(items, name, found)
    && if found >= 0 then IsDirectory(items[found]) && res == INVALID_ARG_ERROR && w == v && o == t
       else NotCreated(g, v, w, t, o, d, items, name, res)
  }

  /** A file is open for writing: one that existed or a new one. */
  ghost predicate OpenedAs(g: Geometry, v: View, w: View, t: Tree, o: Tree, d: Dir, items: seq<Item>, name: Name,
                           mode: Mode, date: Word, time: Word, found: int, k: nat, entries: seq<Item>, item: Item,
                           pos: nat)
  {
    && Shaped(g, v) && TreeShape(g, t) && Shaped(g, w) && TreeShape(g, o) && IsIndexOf(items, name, found)
    && if found >= 0 then
         k == found && !IsDirectory(items[found]) && OpenedOld(g, v, w, t, o, d, items, k, mode, item, pos)
       else
         && pos == 0 && entries != [] && |entries| <= k + 1
         && OpenedNew(g, v, w, t, o, d, items, name, NewFile(date, time), k + 1 - |entries|, entries)
  }

  lemma NewFileSound(g: Geometry, v: View, w: View, t: Tree, o: Tree, d: Dir, view: DirView, name: Name,
                     item: Item, idx: nat, entries: seq<Item>)
    requires Sound(g, v, t) && Loaded(view, g, v, t, d) && GoodPart(name) && IsIndexOf(view.items, name, -1)
    requires Created(g, v, w, t, o, d, [], view.items, name, item, idx, entries)
    requires !IsDirectory(item) && FileSize(item) == 0
    ensures entries != [] && Sound(g, w, o) && OpenedNew(g, v, w, t, o, d, view.items, name, item, idx, entries)
    ensures FileAt(g, w, o, d, idx + |entries| - 1, entries[|entries| - 1])
  {
    hide EntriesOk, SlotsOk, UsedOk, EndsOk, HasRoot, AllItems, SlotOf, GoodEntries, OthersKept, TreeShape, EntryAt;
    hide Lists;
    hide DirTidy, EntryOk, IsIndexOf, ChainInRange, DirItems, FreeAt, Placed, Live, FirstCluster, FileSize, HasBit;
    CreatedEntry(g, w, t, o, d, [], view.items, name, item, idx, entries);
    EntriesOneLive(view.items, name, item, entries);
    FileHome(g, w, o, SlotOf(g, w, o, d, idx + |entries| - 1));
    CreatedSound(g, v, w, t, o, d, [], view.items, name, item, idx, entries);
    LastIsLive(entries);
    FileListed(g, w, o, d, idx + |entries| - 1, entries[|entries| - 1]);
  }

  lemma FileHome(g: Geometry, w: View, o: Tree, s: Slot)
    requires Shaped(g, w) && TreeShape(g, o) && SlotExists(g, s) && !IsDirectory(EntryAt(g, w, s))
    ensures Home(g, w, o, s)
  {}

  lemma LastIsLive(entries: seq<Item>)
    requires OneLive(entries)
    ensures entries != [] && Live(entries[|entries| - 1])
  {}

  /** `fat16_open_for_write` in a resolved parent directory; `found` is the file if it exists. */
  method OpenForWrite(vol: Volume, view: DirView, name: Name, mode: Mode, date: Word, time: Word, ghost t: Tree,
                      ghost d: Dir)
    returns (res: int, desc: Descriptor?, ghost o: Tree, ghost found: int, ghost k: nat, ghost entries: seq<Item>)
    requires vol.Valid() && SoundView(vol.g, vol.V(), t, d, view) && GoodPart(name) && !mode.ReadMode?
    modifies vol.Parts()
    ensures vol.Valid() && SoundWith(vol.g, vol.V(), o, d)
    ensures if res < 0 then
              desc == null && NotOpened(vol.g, old(vol.V()), vol.V(), t, o, d, view.items, name, found, res)
            else
              && desc != null && fresh(desc) && desc.mode == mode && DescribesFile(vol.g, vol.V(), o, d, k, desc)
              && OpenedAs(vol.g, old(vol.V()), vol.V(), t, o, d, view.items, name, mode, date, time, found, k, entries,
                          desc.item, desc.pos)
  {
    hide FlatOf, FatImage, RootImage, DataImage, Geometry.Limit, Geometry.Valid, Volume.Valid, Volume.V;
    hide EntriesOk, SlotsOk, UsedOk, EndsOk, HasRoot, AllItems, SlotOf, Live, OthersKept, TreeShape, IsChain, EntryAt;
    hide SlotPos, Lists, DirItems, ChainInRange, FirstCluster, FileSize, Tidy, DirTidy, OnlyGrew, Unborn, EntryOk;
    hide IsListed;
    hide CreateFails, HasBit, Matches, GoodPart, Placed, FreeAt, GoodEntries;
    o, entries, k := t, [], 0;
    var idx := FindIndex(view.items, name);
    found := idx;
    if idx >= 0 {
      k := idx;
      FoundListed(vol.g, vol.V(), t, d, view, name, idx);
      if IsDirectory(view.items[idx]) {
        return INVALID_ARG_ERROR, null, o, found, k, entries;
      }
      desc, o := OpenExisting(vol, view, idx, mode, t, d);
      res := OK;
    } else {
      ghost var at;
      res, desc, o, at, entries := OpenNew(vol, view, name, mode, date, time, t, d);
      k := if res < 0 then 0 else at + |entries| - 1;
    }
  }
}
