// Removing a file or an empty directory: `fat16_remove` in a resolved parent directory.
module FatRemove {
  import opened FatDisk
  import opened FatLayout
  import opened FatVolume
  import opened FatItems
  import opened FatChains
  import opened FatFsck
  import opened FatDirs
  import opened FatOthers
  import opened FatNames
  import opened FatLongNames
  import opened FatNaming
  import opened FatOps
  import opened FatCreate
  import opened FatSound
  import opened FatOpen

  /** An entry that keeps a directory from being empty. */
  predicate Occupies(it: Item) { it[0] != ENTRY_DELETED && it[0] != DOT && !IsLongName(it) }

  /** `fat16_directory_is_empty`. */
  method DirectoryIsEmpty(vol: Volume, item: Item, ghost cs: seq<nat>) returns (empty: bool)
    requires vol.Valid() && IsChain(vol.V().fat, vol.g.Limit(), cs) && cs != [] && FirstCluster(item) == First(cs)
    requires ChainInRange(vol.g, cs) && EndsOnce(DirItems(vol.g, vol.V(), cs))
    modifies vol.clusterStream
    ensures vol.Valid() && vol.V() == old(vol.V())
    ensures empty <==>
              forall items, i :: Lists(DirItems(vol.g, vol.V(), cs), items) && 0 <= i < |items| ==> !Occupies(items[i])
  {
    hide IsChain, DirItems, ChainInRange, EndsOnce, FirstCluster, Volume.Valid, Volume.V, Lists, Occupies;
    var directory := LoadDirectory(vol, FirstCluster(item), cs);
    ghost var v := vol.V();
    empty := true;
    for i := 0 to |directory.items|
      invariant vol.Valid() && vol.V() == v
      invariant empty <==> forall j :: 0 <= j < i ==> !Occupies(directory.items[j])
    {
      if Occupies(directory.items[i]) {
        empty := false;
      }
    }
    forall items | Lists(DirItems(vol.g, v, cs), items) ensures items == directory.items {
      ListsOnce(DirItems(vol.g, v, cs), items, directory.items);
    }
  }

  lemma EmptyListsNothing(g: Geometry, v: View, t: Tree, s: Slot)
    requires Shaped(g, v) && TreeShape(g, t) && EndsOk(g, v, t) && s in t.chains && IsDirectory(EntryAt(g, v, s))
    requires forall items, i :: Lists(DirItems(g, v, t.chains[s]), items) && 0 <= i < |items| ==> !Occupies(items[i])
    ensures NewDirectory(g, v, t.chains[s])
  {
    hide IsDirectory, EntryAt, IsLongName, IsVolumeLabel, TreeShape, DirItems, ChainInRange;
    var all := DirItems(g, v, t.chains[s]);
    var n := TotalOf(all, 0);
    assert Lists(all, all[..n]);
    forall k | 0 <= k < |all| ensures !Live(all[k]) {
      if k < n { assert !Occupies(all[..n][k]); }
    }
  }

  lemma TotalOf(all: seq<Item>, from: nat) returns (n: nat)
    requires EndsOnce(all) && from <= |all| && forall i :: 0 <= i < from ==> all[i][0] != 0
    ensures IsTotal(all, n)
    decreases |all| - from
  {
    if from == |all| || all[from][0] == 0 { n := from; } else { n := TotalOf(all, from + 1); }
  }

  /** Every way up ends at the root, so no directory is in itself. */
  lemma NotInItself(g: Geometry, v: View, t: Tree, d: Dir, k: nat)
    requires Shaped(g, v) && TreeShape(g, t) && HasRoot(t) && IsListed(g, v, t, d) && k < |AllItems(g, v, t, d)|
    requires SlotOf(g, v, t, d, k) in t.chains
    ensures SlotOf(g, v, t, d, k) !in Self(d)
  {
    var depth :| Rooted(t, depth);
    if d.SubDir? {
      var s := SlotOf(g, v, t, d, k);
      DirSlotExists(g, t.chains[d.slot], k);
      var i :| 0 <= i < |t.chains[d.slot]| && t.chains[d.slot][i] == s.cluster;
      assert t.owner[s.cluster] == d.slot;
    }
  }

  /** The state while the parts of the long name are deleted, those before entry `i` already. */
  ghost predicate Deleting(g: Geometry, v: View, w: View, t: Tree, d: Dir, lo: nat, i: nat)
    requires Shaped(g, v) && TreeShape(g, t) && IsListed(g, v, t, d)
  {
    && Consistent(g, w, t, []) && IsListed(g, w, t, d) && w.fat == v.fat
    && lo <= i <= |AllItems(g, v, t, d)| && AllItems(g, w, t, d) == Deleted(AllItems(g, v, t, d), lo, i)
    && OthersKept(g, v, w, t, t, d, {})
  }

  lemma DeletingNext(g: Geometry, v: View, w: View, t: Tree, d: Dir, lo: nat, i: nat, items: seq<Item>)
    requires Shaped(g, v) && TreeShape(g, t) && IsListed(g, v, t, d)
    requires Deleting(g, v, w, t, d, lo, i) && Lists(AllItems(g, v, t, d), items) && i < |items| && LfnInUse(items[i])
    ensures i < |AllItems(g, w, t, d)| && NoEndBefore(AllItems(g, w, t, d), i)
    ensures Deleting(g, v, SetEntry(g, w, SlotOf(g, w, t, d, i), DeletedItem(items[i])), t, d, lo, i + 1)
  {
    hide EntriesOk, SlotsOk, UsedOk, EndsOk, HasRoot, AllItems, IsListed, SlotOf, SetEntry, Live, OthersKept, TreeShape;
    hide Shaped;
    var all := AllItems(g, v, t, d);
    DeletedNext(all, lo, i, items);
    SetIdle(g, w, t, [], d, i, DeletedItem(items[i]));
    IdleKeeps(g, v, w, t, t, [], d, i, DeletedItem(items[i]));
  }

  lemma DeletedNext(all: seq<Item>, lo: nat, i: nat, items: seq<Item>)
    requires lo <= i < |items| && Lists(all, items) && LfnInUse(items[i])
    ensures i < |all| && Deleted(all, lo, i + 1) == Deleted(all, lo, i)[i := DeletedItem(items[i])]
    ensures NoEndBefore(Deleted(all, lo, i), i) && DeletedItem(items[i])[0] != 0
    ensures !Live(DeletedItem(items[i])) && !Live(Deleted(all, lo, i)[i])
  {}

  lemma DeletedListed(all: seq<Item>, items: seq<Item>, lo: nat, hi: nat)
    requires Lists(all, items) && lo <= hi <= |items|
    ensures hi <= |all| && Lists(Deleted(all, lo, hi), Deleted(items, lo, hi))
  {}

  /** What is gone after a removal: the item's entries with its long name, and its clusters. */
  ghost predicate Removed(g: Geometry, v: View, w: View, t: Tree, o: Tree, d: Dir, items: seq<Item>, k: nat)
    requires Shaped(g, v) && TreeShape(g, t)
  {
    && Shaped(g, w) && TreeShape(g, o) && k < |items|
    && IsListed(g, v, t, d) && k < |AllItems(g, v, t, d)| && SlotOf(g, v, t, d, k) in t.chains
    && var s := SlotOf(g, v, t, d, k);
       && IsListed(g, w, o, d) && Lists(AllItems(g, w, o, d), Deleted(items, k - LfnCount(items, k), k + 1))
       && o.chains == t.chains - {s} && w.fat == Freed(v.fat, t.chains[s])
       && OthersKept(g, v, w, t, o, d, {s})
  }

  lemma RemovedSound(g: Geometry, v: View, w: View, t: Tree, d: Dir, view: DirView, k: nat)
    requires Sound(g, v, t) && Loaded(view, g, v, t, d) && k < |view.items| && Live(view.items[k])
    requires k < |AllItems(g, v, t, d)| && SlotOf(g, v, t, d, k) in t.chains
    requires IsDirectory(view.items[k]) ==> NewDirectory(g, v, t.chains[SlotOf(g, v, t, d, k)])
    requires Deleting(g, v, w, t, d, k - LfnCount(view.items, k), k)
    ensures var s := SlotOf(g, v, t, d, k);
            var x := SetEntry(g, w.(fat := Freed(w.fat, t.chains[s])), s, DeletedItem(view.items[k]));
            Sound(g, x, Disowned(t, s)) && Removed(g, v, x, t, Disowned(t, s), d, view.items, k)
  {
    hide EntriesOk, SlotsOk, UsedOk, EndsOk, HasRoot, AllItems, SlotOf, SetEntry, OthersKept, TreeShape, Tidy, DirTidy;
    hide IsDirectory, LfnCount, Freed, Disowned, NewDirectory, Lists, Live, ChainInRange, DirItems, EntryAt;
    var s, item := SlotOf(g, v, t, d, k), DeletedItem(view.items[k]);
    var fat := Freed(w.fat, t.chains[s]);
    var x := SetEntry(g, w.(fat := fat), s, item);
    var lo := k - LfnCount(view.items, k);
    SlotSame(g, v, w, t, t, d, k);
    AtDeleted(AllItems(g, v, t, d), view.items, lo, k);
    if IsDirectory(view.items[k]) { EmptyStays(g, v, w, t, d, k); }
    Unlist(g, w, t, d, k, item);
    DisownedFacts(t, s);
    RemovedKeeps(g, v, w, t, d, k, item);
    DeletedListed(AllItems(g, v, t, d), view.items, lo, k + 1);
    LiveNamed(view.items[k]);
    TidyOf(g, v, t, d, view);
    RemoveTidy(view.items, k);
    TidyDir(AllItems(g, x, Disowned(t, s), d), Deleted(view.items, lo, k + 1));
    RemovedDir(g, v, x, t, Disowned(t, s), d, view, k);
    SoundBy(g, v, x, t, Disowned(t, s), d, s);
  }

  /** What is removed is none of the first two entries of its directory, and lists nothing itself. */
  lemma RemovedDir(g: Geometry, v: View, x: View, t: Tree, o: Tree, d: Dir, view: DirView, k: nat)
    requires Sound(g, v, t) && Loaded(view, g, v, t, d) && k < |view.items| && Live(view.items[k])
    requires k < |AllItems(g, v, t, d)| && SlotOf(g, v, t, d, k) in t.chains
    requires IsDirectory(view.items[k]) ==> NewDirectory(g, v, t.chains[SlotOf(g, v, t, d, k)])
    requires Shaped(g, x) && TreeShape(g, o) && o.chains == t.chains - {SlotOf(g, v, t, d, k)}
    requires IsListed(g, x, o, d)
    requires Lists(AllItems(g, x, o, d), Deleted(view.items, k - LfnCount(view.items, k), k + 1))
    requires OthersKept(g, v, x, t, o, d, {SlotOf(g, v, t, d, k)})
    ensures var s := SlotOf(g, v, t, d, k);
            SameDir(g, v, x, t, o, d) && NobodyIn(g, v, t, s) && Home(g, x, o, s)
  {
    hide EntriesOk, SlotsOk, UsedOk, EndsOk, HasRoot, DirTidy, AllItems, SlotOf, TreeShape, EntryAt, Kept, Live;
    hide DotsHome, SameTop;
    hide IsDirectory, NewDirectory, LfnCount, Deleted, Lists, ChainInRange;
    var s := SlotOf(g, v, t, d, k);
    SlotOfEntry(g, v, t, d, k);
    AllListed(AllItems(g, v, t, d), view.items, k);
    NothingInside(g, v, t, s);
    NotInItself(g, v, t, d, k);
    if d.SubDir? {
      TopOf(g, v, t, d);
      DeletedTop(AllItems(g, v, t, d), view.items, AllItems(g, x, o, d), First(t.chains[d.slot]),
                 ParentFirst(t, d.slot), k);
    }
  }

  lemma AllListed(all: seq<Item>, items: seq<Item>, k: nat)
    requires Lists(all, items) && k < |items|
    ensures k < |all| && all[k] == items[k]
  {}

  lemma TidyOf(g: Geometry, v: View, t: Tree, d: Dir, view: DirView)
    requires Sound(g, v, t) && Loaded(view, g, v, t, d)
    ensures Tidy(view.items)
  {
    hide Tidy, Lists, Consistent, AllItems;
  }

  lemma LiveNamed(it: Item)
    requires Live(it)
    ensures Named(it) && it[0] != 0
  {}

  lemma AtDeleted(all: seq<Item>, items: seq<Item>, lo: nat, k: nat)
    requires Lists(all, items) && lo <= k < |items|
    ensures k < |all| && Deleted(all, lo, k)[k] == all[k] == items[k] && DeletedItem(items[k])[0] == ENTRY_DELETED
    ensures Deleted(all, lo, k + 1) == Deleted(all, lo, k)[k := DeletedItem(items[k])]
  {}

  lemma EmptyStays(g: Geometry, v: View, w: View, t: Tree, d: Dir, k: nat)
    requires Consistent(g, v, t, []) && IsListed(g, v, t, d) && k < |AllItems(g, v, t, d)|
    requires SlotOf(g, v, t, d, k) in t.chains && NewDirectory(g, v, t.chains[SlotOf(g, v, t, d, k)])
    requires OthersKept(g, v, w, t, t, d, {})
    ensures NewDirectory(g, w, t.chains[SlotOf(g, v, t, d, k)])
  {
    hide EntriesOk, SlotsOk, UsedOk, EndsOk, HasRoot, AllItems, SlotOf, NewDirectory, EntryAt, TreeShape, IsListed;
    NotInItself(g, v, t, d, k);
    var s := SlotOf(g, v, t, d, k);
    assert Kept(g, v, w, t, t, s);
    NewDirectoryKept(g, v, w, t.chains[s]);
  }

  lemma RemovedKeeps(g: Geometry, v: View, w: View, t: Tree, d: Dir, k: nat, item: Item)
    requires Shaped(g, v) && TreeShape(g, t) && IsListed(g, v, t, d) && k < |AllItems(g, v, t, d)|
    requires SlotOf(g, v, t, d, k) in t.chains && Shaped(g, w) && IsListed(g, w, t, d) && k < |AllItems(g, w, t, d)|
    requires OthersKept(g, v, w, t, t, d, {})
    ensures var s := SlotOf(g, v, t, d, k);
            OthersKept(g, v, SetEntry(g, w.(fat := Freed(w.fat, t.chains[s])), s, item), t, Disowned(t, s), d, {s})
  {
    hide AllItems, SlotOf, EntryAt, TreeShape, IsListed, Freed, Disowned, Kept;
    var s := SlotOf(g, v, t, d, k);
    SlotSame(g, v, w, t, t, d, k);
    DisownedFacts(t, s);
    SetKeeps(g, w, t, Disowned(t, s), d, k, item);
    FatIgnored(g, w, SetEntry(g, w, s, item), SetEntry(g, w.(fat := Freed(w.fat, t.chains[s])), s, item), t,
               Disowned(t, s), d, {s});
    KeptAfter(g, v, w, SetEntry(g, w.(fat := Freed(w.fat, t.chains[s])), s, item), t, t, Disowned(t, s), d, {}, {s});
    assert {} + {s} == {s};
  }

  /** The entries of the item: those of its long name, its clusters, then its own. */
  method RemoveAt(vol: Volume, view: DirView, idx: nat, ghost t: Tree, ghost d: Dir)
    returns (ghost o: Tree)
    requires vol.Valid() && Sound(vol.g, vol.V(), t) && Loaded(view, vol.g, vol.V(), t, d)
    requires idx < |view.items| && idx < |AllItems(vol.g, vol.V(), t, d)| && Live(view.items[idx])
    requires SlotOf(vol.g, vol.V(), t, d, idx) in t.chains
    requires EntryOk(vol.g, vol.V(), view.items[idx], t.chains[SlotOf(vol.g, vol.V(), t, d, idx)])
    requires IsDirectory(view.items[idx]) ==> NewDirectory(vol.g, vol.V(), t.chains[SlotOf(vol.g, vol.V(), t, d, idx)])
    modifies vol.Parts()
    ensures vol.Valid() && Sound(vol.g, vol.V(), o)
    ensures Removed(vol.g, old(vol.V()), vol.V(), t, o, d, view.items, idx)
  {
    hide FlatOf, FatImage, RootImage, DataImage, Geometry.Limit, Geometry.Valid, Volume.Valid, Volume.V;
    hide EntriesOk, SlotsOk, UsedOk, EndsOk, HasRoot, AllItems, SlotOf, Live, OthersKept, TreeShape, IsChain, SetEntry;
    hide SlotPos, Lists, DirItems, ChainInRange, IsDirectory, FirstCluster, Disowned, Tidy, DirTidy, LfnCount;
    hide NewDirectory;
    hide Freed, Removed;
    ghost var v := vol.V();
    ghost var s := SlotOf(vol.g, v, t, d, idx);
    var item := view.items[idx];
    ListedChain(vol.g, v, t, [], d);
    var pos := DirEntryPos(vol, view, idx, t, d);
    var count := CountParts(view.items, idx);
    NothingDeleted(vol.g, v, t, d, idx - count, view);
    for i := idx - count to idx
      invariant vol.Valid() && Deleting(vol.g, v, vol.V(), t, d, idx - count, i)
    {
      ghost var w := vol.V();
      ScanInUseAt(view.items, idx, i);
      DeletingNext(vol.g, v, w, t, d, idx - count, i, view.items);
      var _ := WriteEntry(vol, view, i, DeletedItem(view.items[i]), t, d);
    }
    ghost var w := vol.V();
    SlotSame(vol.g, v, w, t, t, d, idx);
    AtDeleted(AllItems(vol.g, v, t, d), view.items, idx - count, idx);
    LiveNamed(item);
    BelowCount(vol, t, d, idx);
    RemovedSound(vol.g, v, w, t, d, view, idx);
    ChainNumbers(vol.V().fat, vol.g.Limit(), t.chains[s]);
    FreeChain(vol, FirstCluster(item), t.chains[s]);
    vol.WriteDirEntry(pos, DeletedItem(item), s);
    o := Disowned(t, s);
  }

  lemma NothingDeleted(g: Geometry, v: View, t: Tree, d: Dir, lo: nat, view: DirView)
    requires Consistent(g, v, t, []) && Loaded(view, g, v, t, d) && lo <= |view.items|
    ensures Deleting(g, v, v, t, d, lo, lo)
  {
    hide EntriesOk, SlotsOk, UsedOk, EndsOk, HasRoot, AllItems;
    NothingTouched(g, v, t, d, {});
    assert Deleted(AllItems(g, v, t, d), lo, lo) == AllItems(g, v, t, d);
  }

  /** An entry in use of the root directory is one its count includes. */
  lemma BelowCount(vol: Volume, t: Tree, d: Dir, k: nat)
    requires vol.Valid() && TreeShape(vol.g, t) && IsListed(vol.g, vol.V(), t, d)
    requires k < |AllItems(vol.g, vol.V(), t, d)|
    requires AllItems(vol.g, vol.V(), t, d)[k][0] != 0
    ensures SlotOf(vol.g, vol.V(), t, d, k).RootSlot? ==> SlotOf(vol.g, vol.V(), t, d, k).idx < vol.total
  {
    hide FlatOf, FatImage, RootImage, DataImage, Geometry.Limit, Geometry.Valid, DirItems, TreeShape;
  }

  /** `fat16_remove`; `found` is the item. */
  method Remove(vol: Volume, view: DirView, name: Name, ghost t: Tree, ghost d: Dir)
    returns (res: int, ghost o: Tree, ghost found: int)
    requires vol.Valid() && Sound(vol.g, vol.V(), t) && Loaded(view, vol.g, vol.V(), t, d) && GoodPart(name)
    modifies vol.Parts()
    ensures vol.Valid() && Sound(vol.g, vol.V(), o) && IsIndexOf(view.items, name, found)
    ensures res == if found < 0 then NOT_FOUND_ERROR
                   else if Removable(vol.g, old(vol.V()), t, d, view.items, found) then OK
                   else DIR_NOT_EMPTY_ERROR
    ensures res < 0 ==> vol.V() == old(vol.V()) && o == t
    ensures res >= 0 ==> Removed(vol.g, old(vol.V()), vol.V(), t, o, d, view.items, found)
  {
    hide FlatOf, FatImage, RootImage, DataImage, Geometry.Limit, Geometry.Valid, Volume.Valid, Volume.V;
    hide EntriesOk, SlotsOk, UsedOk, EndsOk, HasRoot, AllItems, SlotOf, Live, OthersKept, TreeShape, IsChain, EntryAt;
    hide Lists, DirItems, ChainInRange, IsDirectory, FirstCluster, Tidy, DirTidy, NewDirectory, Removed, Matches;
    hide GoodPart;
    hide Removable, EntryOk, IsListed;
    o := t;
    ghost var v := vol.V();
    var idx := FindIndex(view.items, name);
    found := idx;
    if idx < 0 {
      return NOT_FOUND_ERROR, o, found;
    }
    FoundListed(vol.g, v, t, d, view, name, idx);
    ghost var cs := t.chains[SlotOf(vol.g, v, t, d, idx)];
    var item := view.items[idx];
    if IsDirectory(item) {
      SubdirectoryChain(vol.g, v, t, d, idx);
      var empty := DirectoryIsEmpty(vol, item, cs);
      RemovableIf(vol.g, v, t, d, view.items, idx, empty);
      if !empty {
        return DIR_NOT_EMPTY_ERROR, o, found;
      }
    } else {
      RemovableFile(vol.g, v, t, d, view.items, idx);
    }
    o := RemoveAt(vol, view, idx, t, d);
    res := OK;
  }

  /** A file, or a directory with nothing in it but `.`, `..`, deleted entries and parts of names. */
  ghost predicate Removable(g: Geometry, v: View, t: Tree, d: Dir, items: seq<Item>, k: nat) {
    && k < |items|
    && (IsDirectory(items[k]) ==>
          && Consistent(g, v, t, []) && IsListed(g, v, t, d) && k < |AllItems(g, v, t, d)|
          && SlotOf(g, v, t, d, k) in t.chains && ChainInRange(g, t.chains[SlotOf(g, v, t, d, k)])
          && forall inside, i :: Lists(DirItems(g, v, t.chains[SlotOf(g, v, t, d, k)]), inside) && 0 <= i < |inside| ==>
               !Occupies(inside[i]))
  }

  lemma SubdirectoryChain(g: Geometry, v: View, t: Tree, d: Dir, k: nat)
    requires Consistent(g, v, t, []) && IsListed(g, v, t, d) && k < |AllItems(g, v, t, d)|
    requires SlotOf(g, v, t, d, k) in t.chains && IsDirectory(AllItems(g, v, t, d)[k])
    ensures var cs := t.chains[SlotOf(g, v, t, d, k)];
            && IsDirectory(EntryAt(g, v, SlotOf(g, v, t, d, k)))
            && IsChain(v.fat, g.Limit(), cs) && cs != [] && FirstCluster(AllItems(g, v, t, d)[k]) == First(cs)
            && ChainInRange(g, cs) && EndsOnce(DirItems(g, v, cs))
  {
    hide SlotsOk, UsedOk, HasRoot, AllItems, SlotOf, EntryAt, IsDirectory, FirstCluster, IsListed;
    SlotOfEntry(g, v, t, d, k);
    assert EntryOk(g, v, EntryAt(g, v, SlotOf(g, v, t, d, k)), t.chains[SlotOf(g, v, t, d, k)]);
  }

  lemma RemovableIf(g: Geometry, v: View, t: Tree, d: Dir, items: seq<Item>, k: nat, empty: bool)
    requires Consistent(g, v, t, []) && IsListed(g, v, t, d) && k < |AllItems(g, v, t, d)| && k < |items|
    requires AllItems(g, v, t, d)[k] == items[k] && SlotOf(g, v, t, d, k) in t.chains && IsDirectory(items[k])
    requires ChainInRange(g, t.chains[SlotOf(g, v, t, d, k)])
    requires empty <==>
               forall inside, i :: Lists(DirItems(g, v, t.chains[SlotOf(g, v, t, d, k)]),
                                         inside) && 0 <= i < |inside| ==>
                          !Occupies(inside[i])
    ensures empty <==> Removable(g, v, t, d, items, k)
    ensures empty ==> NewDirectory(g, v, t.chains[SlotOf(g, v, t, d, k)])
  {
    hide EntriesOk, SlotsOk, UsedOk, HasRoot, AllItems, SlotOf, EntryAt, IsDirectory, IsListed, EndsOk, Occupies;
    hide NewDirectory;
    hide ChainInRange, DirItems, Lists, TreeShape;
    SlotOfEntry(g, v, t, d, k);
    if empty { EmptyListsNothing(g, v, t, SlotOf(g, v, t, d, k)); }
  }

  lemma RemovableFile(g: Geometry, v: View, t: Tree, d: Dir, items: seq<Item>, k: nat)
    requires k < |items| && !IsDirectory(items[k])
    ensures Removable(g, v, t, d, items, k)
  {}
}
