// Operations on directories: loading one, finding room in it, and creating an item.
module FatOps {
  import opened Bytes
  import opened FatDisk
  import opened FatLayout
  import opened FatVolume
  import opened FatItems
  import opened FatChains
  import opened FatContent
  import opened FatFiles
  import opened FatFsck
  import opened FatDirs
  import opened FatNaming

  const INVALID_PATH_ERROR := -4
  const NOT_DIRECTORY_ERROR := -10
  const NOT_FOUND_ERROR := -11
  const DIR_NOT_EMPTY_ERROR := -12
  const FILE_EXISTS_ERROR := -13

  /** A loaded directory (`struct fat_directory`): its items up to the end marker, and its first
      cluster, 0 for the root directory. */
  datatype DirView = DirView(items: seq<Item>, first: nat)

  /** `items` are the entries of `all` up to the end marker. */
  ghost predicate Lists(all: seq<Item>, items: seq<Item>) { IsTotal(all, |items|) && items == all[..|items|] }

  /** `view` is what is in directory `d` now. */
  ghost predicate Loaded(view: DirView, g: Geometry, v: View, t: Tree, d: Dir)
    requires Shaped(g, v) && TreeShape(g, t)
  {
    && IsListed(g, v, t, d)
    && Lists(AllItems(g, v, t, d), view.items)
    && view.first == if d.RootDir? then 0 else First(t.chains[d.slot])
  }

  method LoadRoot(vol: Volume) returns (view: DirView)
    requires vol.Valid()
    ensures vol.Valid() && vol.V() == old(vol.V())
    ensures forall t :: TreeShape(vol.g, t) ==> Loaded(view, vol.g, vol.V(), t, RootDir)
  {
    view := DirView(vol.root[..vol.total], 0);
  }

  /** `fat16_load_fat_directory`: counts the items up to the end marker or the end of the chain,
      then reads them. */
  method LoadDirectory(vol: Volume, first: nat, ghost cs: seq<nat>) returns (view: DirView)
    requires vol.Valid() && IsChain(vol.V().fat, vol.g.Limit(), cs) && cs != [] && first == First(cs)
    requires ChainInRange(vol.g, cs) && EndsOnce(DirItems(vol.g, vol.V(), cs))
    modifies vol.clusterStream
    ensures vol.Valid() && vol.V() == old(vol.V())
    ensures Lists(DirItems(vol.g, vol.V(), cs), view.items) && view.first == first
  {
    hide FlatOf, FatImage, RootImage, DataImage, Geometry.Limit, Geometry.Valid, IsChain, Start, Flatten, DirItems;
    hide Volume.Valid, Volume.V, ChainInRange;
    ghost var v := vol.V();
    ghost var all := DirItems(vol.g, v, cs);
    ChainClusters(vol.g, v, cs);
    PositiveCluster(vol.g, v);
    var total := 0;
    while true
      invariant vol.Valid() && vol.V() == v
      invariant 0 <= total <= |all|
      invariant forall i :: 0 <= i < total ==> all[i][0] != 0
      decreases |all| - total
    {
      SlicesOfItems(vol.g, v, cs, total);
      var res, bytes := ReadChain(vol, first, 32 * total, 32, cs);
      if res < 0 || bytes[0] == 0 {
        break;
      }
      total := total + 1;
    }
    SlicesOfItems(vol.g, v, cs, total);
    AllSlices(vol.g, v, cs, total);
    var res, bytes := ReadChain(vol, first, 0, 32 * total, cs);
    if res < 0 {
      assert false;
    }
    view := DirView(seq(total, k requires 0 <= k < total => bytes[32 * k..32 * k + 32]), first);
  }

  lemma AllSlices(g: Geometry, v: View, cs: seq<nat>, n: nat)
    requires Shaped(g, v) && ChainInRange(g, cs) && n <= Start(|cs|, g.PerCluster())
    requires HasClusters(v.data, cs, g.ClusterBytes())
    ensures 32 * n <= Start(|cs|, g.ClusterBytes())
    ensures var b := Flatten(v.data, cs, g.ClusterBytes())[0..32 * n];
            forall k :: 0 <= k < n ==> b[32 * k..32 * k + 32] == DirItems(g, v, cs)[k]
  {
    hide Start, Flatten, Shaped, ChainInRange, HasClusters, DirSlot, SlotExists;
    SameScale(g, |cs|);
    var f := Flatten(v.data, cs, g.ClusterBytes());
    forall k | 0 <= k < n ensures f[0..32 * n][32 * k..32 * k + 32] == DirItems(g, v, cs)[k] {
      ItemOfBytes(g, v, cs, k);
      SliceOfSlice(f, 0, 32 * n, 32 * k, 32);
    }
  }

  /** Reading 32 bytes at entry `k` reads that entry, or fails if there is none. */
  lemma SlicesOfItems(g: Geometry, v: View, cs: seq<nat>, k: nat)
    requires Shaped(g, v) && ChainInRange(g, cs) && k <= Start(|cs|, g.PerCluster())
    requires HasClusters(v.data, cs, g.ClusterBytes())
    ensures 32 * k + 32 <= Start(|cs|, g.ClusterBytes()) <==> k < Start(|cs|, g.PerCluster())
    ensures k < Start(|cs|, g.PerCluster()) ==>
              Flatten(v.data, cs, g.ClusterBytes())[32 * k..32 * k + 32] == DirItems(g, v, cs)[k]
  {
    SameScale(g, |cs|);
    hide Start;
    if k < Start(|cs|, g.PerCluster()) { ItemOfBytes(g, v, cs, k); }
  }

  /** `fat16_dir_entry_pos`: where entry `idx` of a directory is on the disk. */
  method DirEntryPos(vol: Volume, view: DirView, idx: nat, ghost t: Tree, ghost d: Dir) returns (pos: int)
    requires vol.Valid() && TreeShape(vol.g, t) && IsListed(vol.g, vol.V(), t, d)
    requires idx < |AllItems(vol.g, vol.V(), t, d)|
    requires view.first == if d.RootDir? then 0 else First(t.chains[d.slot])
    requires d.SubDir? ==> IsChain(vol.V().fat, vol.g.Limit(), t.chains[d.slot])
    ensures pos == SlotPos(vol.g, SlotOf(vol.g, vol.V(), t, d, idx))
  {
    hide FlatOf, FatImage, RootImage, DataImage, Geometry.Limit, Geometry.Valid, IsChain, IsLine, Start, ClusterIndex;
    hide Reached;
    ghost var v := vol.V();
    if d.RootDir? { assert view.first == 0; } else {
      FirstInChain(v.fat, vol.g.Limit(), t.chains[d.slot]);
      SubDirPos(vol.g, v, t, d, idx);
    }
    if view.first == 0 {
      return vol.g.RootPos(idx);
    }
    ghost var cs := t.chains[d.slot];
    PositiveCluster(vol.g, v);
    ChainNumbers(v.fat, vol.g.Limit(), cs);
    var cluster := ClusterForOffset(vol, view.first, 32 * idx, cs);
    if cluster < 0 {
      return cluster;
    }
    pos := vol.g.ClusterPos(cluster) + 32 * idx % vol.g.ClusterBytes();
  }

  lemma SubDirPos(g: Geometry, v: View, t: Tree, d: Dir, k: nat)
    requires Shaped(g, v) && TreeShape(g, t) && IsListed(g, v, t, d) && d.SubDir? && k < |AllItems(g, v, t, d)|
    ensures var cs, i := t.chains[d.slot], ClusterIndex(g, 32 * k);
            && cs != [] && i < |cs| && cs[i] >= 2
            && SlotPos(g, SlotOf(g, v, t, d, k)) == g.ClusterPos(cs[i]) + 32 * k % g.ClusterBytes()
  {
    var cs, per := t.chains[d.slot], g.PerCluster();
    hide AllItems, IsListed, Geometry.ClusterPos;
    IndexSplit(k, per);
    IndexBelow(k, |cs|, per);
    DirSlotExists(g, cs, k);
    SameScale(g, IndexIn(k, per));
    IndexUnique(32 * k, g.ClusterBytes(), IndexIn(k, per), 32 * (k % per));
  }

  ghost predicate FreeRun(items: seq<Item>, idx: nat, n: nat) {
    idx + n <= |items| && forall k :: idx <= k < idx + n ==> items[k][0] == ENTRY_DELETED
  }

  /** Just the `run` entries before `i` are deleted in a row; there were never `count` of them. */
  ghost predicate DeletedRun(items: seq<Item>, i: nat, run: nat, count: nat) {
    && run <= i <= |items| && run < count
    && FreeRun(items, i - run, run) && (run < i ==> items[i - run - 1][0] != ENTRY_DELETED)
    && forall s: nat :: s + count <= i ==> !FreeRun(items, s, count)
  }

  lemma DeletedRunNext(items: seq<Item>, i: nat, run: nat, count: nat)
    requires i < |items| && DeletedRun(items, i, run, count)
    ensures var next := if items[i][0] == ENTRY_DELETED then run + 1 else 0;
            if next == count then FreeRun(items, i + 1 - count, count) else DeletedRun(items, i + 1, next, count)
  {}

  /** The root directory is full, or the disk is and the directory cannot grow. */
  ghost predicate NoPlace(g: Geometry, v: View, d: Dir, items: seq<Item>, count: nat) {
    && (forall s: nat :: !FreeRun(items, s, count))
    && if d.RootDir? then |items| + count >= g.rootEntries else NoFreeCluster(v.fat, g.Limit())
  }

  /** `fat16_find_free_slot`: `count` deleted entries in a row, or the end of the directory with room
      for them and an end marker. A subdirectory grows for that, the root directory does not. */
  method FindFreeSlot(vol: Volume, view: DirView, count: nat, ghost t: Tree, ghost d: Dir, ghost pending: seq<nat>)
    returns (idx: int, ghost o: Tree)
    requires vol.Valid() && Consistent(vol.g, vol.V(), t, pending) && Loaded(view, vol.g, vol.V(), t, d) && count > 0
    modifies vol.Parts()
    ensures vol.Valid() && Consistent(vol.g, vol.V(), o, pending) && IsListed(vol.g, vol.V(), o, d)
    ensures OnlyGrew(vol.g, old(vol.V()), vol.V(), t, o, d)
    ensures idx < 0 ==> idx == NO_MEMORY_ERROR && NoPlace(vol.g, vol.V(), d, view.items, count)
    ensures idx >= 0 ==> idx <= |view.items| && FreeAt(view.items, idx, count)
                         && idx + count <= |AllItems(vol.g, vol.V(), o, d)|
                         && (idx == |view.items| ==> idx + count < |AllItems(vol.g, vol.V(), o, d)|)
  {
    hide FlatOf, FatImage, RootImage, DataImage, Geometry.Limit, Geometry.Valid, IsChain, Start;
    hide Volume.Valid, Volume.V, EndsOk, HasRoot, Owned, TreeShape, EntryAt, Grown, OnlyGrew;
    hide EntriesOk, SlotsOk, UsedOk, DirItems, ChainInRange, IndexIn, NoFreeCluster;
    o := t;
    ghost var v := vol.V();
    GrewNothing(vol.g, v, t, d);
    ghost var all := AllItems(vol.g, v, t, d);
    var run := 0;
    for i := 0 to |view.items|
      invariant DeletedRun(view.items, i, run, count)
      invariant vol.Valid() && vol.V() == v
    {
      DeletedRunNext(view.items, i, run, count);
      run := if view.items[i][0] == ENTRY_DELETED then run + 1 else 0;
      if run == count {
        return i - count + 1, o;
      }
    }
    var end := |view.items|;
    if d.SubDir? { FirstNonZero(vol.g, v, t, pending, d.slot); }
    if view.first == 0 {
      RootCount(vol.g, v);
      return if end + count < vol.g.rootEntries then end else NO_MEMORY_ERROR, o;
    }
    PositiveCluster(vol.g, v);
    var perCluster := vol.g.PerCluster();
    ghost var cs := t.chains[d.slot];
    var res, first;
    ghost var ds;
    res, first, ds := ClusterAt(vol, view.first, IndexIn(end + count, perCluster), true, cs);
    o := Owned(t, d.slot, ds);
    Grow(vol.g, v, vol.V(), t, pending, d, ds);
    GrewBy(vol.g, v, vol.V(), t, d, ds, Start(|ds|, perCluster) - |AllItems(vol.g, v, t, d)|);
    RoomAfter(vol.g, end + count, |ds|);
    idx := if res < 0 then res else end;
  }

  /** From `v` to `w` only directory `d` changed: it may have got more room. */
  ghost predicate OnlyGrew(g: Geometry, v: View, w: View, t: Tree, o: Tree, d: Dir)
    requires Shaped(g, v) && Shaped(g, w) && TreeShape(g, t) && TreeShape(g, o) && IsListed(g, v, t, d)
    requires IsListed(g, w, o, d)
  {
    && AllItems(g, v, t, d) <= AllItems(g, w, o, d)
    && (forall k :: |AllItems(g, v, t, d)| <= k < |AllItems(g, w, o, d)| ==> AllItems(g, w, o, d)[k] == seq(32, _ => 0))
    && w.root == v.root && o.chains.Keys == t.chains.Keys
    && (forall s :: s in t.chains && d != SubDir(s) ==> o.chains[s] == t.chains[s])
    && (d.SubDir? ==> t.chains[d.slot] <= o.chains[d.slot])
    && (forall c :: 2 <= c < g.Limit() && v.fat[c] != UNUSED ==> w.data[c] == v.data[c])
  }

  /** Directory `d`, listed before and after, may have got more room, and that is all. */
  ghost predicate MoreRoom(g: Geometry, v: View, w: View, t: Tree, o: Tree, d: Dir) {
    && Shaped(g, v) && Shaped(g, w) && TreeShape(g, t) && TreeShape(g, o)
    && IsListed(g, v, t, d) && IsListed(g, w, o, d) && OnlyGrew(g, v, w, t, o, d)
  }

  lemma GrewNothing(g: Geometry, v: View, t: Tree, d: Dir)
    requires Shaped(g, v) && TreeShape(g, t) && IsListed(g, v, t, d)
    ensures OnlyGrew(g, v, v, t, t, d)
  {}

  lemma GrewBy(g: Geometry, v: View, w: View, t: Tree, d: Dir, ds: seq<nat>, n: nat)
    requires Shaped(g, v) && TreeShape(g, t) && IsListed(g, v, t, d) && d.SubDir?
    requires Grown(g, v, w, t.chains[d.slot], ds)
    requires TreeShape(g, Owned(t, d.slot, ds)) && IsListed(g, w, Owned(t, d.slot, ds), d)
    requires AllItems(g, w, Owned(t, d.slot, ds), d) == AllItems(g, v, t, d) + EndItems(n)
    ensures OnlyGrew(g, v, w, t, Owned(t, d.slot, ds), d)
  {
    hide IsChain, TreeShape, AllItems, Owned, ChainInRange;
    OwnedFacts(t, d.slot, ds);
    GrewData(g, v, w, t.chains[d.slot], ds);
  }

  lemma GrewData(g: Geometry, v: View, w: View, cs: seq<nat>, ds: seq<nat>)
    requires Grown(g, v, w, cs, ds)
    ensures forall c :: 2 <= c < g.Limit() && v.fat[c] != UNUSED ==> w.data[c] == v.data[c]
  {
    hide IsChain;
    forall c | 2 <= c < g.Limit() && v.fat[c] != UNUSED ensures w.data[c] == v.data[c] {
      if c in ds {
        var i :| 0 <= i < |ds| && ds[i] == c;
        assert i < |cs| && cs[i] == c;
      }
    }
  }

  lemma RootCount(g: Geometry, v: View)
    requires Shaped(g, v)
    ensures |v.root| == g.rootEntries
  {}

  lemma FirstNonZero(g: Geometry, v: View, t: Tree, pending: seq<nat>, s: Slot)
    requires FsckBut(g, v, t, pending) && s in t.chains && IsDirectory(EntryAt(g, v, s))
    ensures IsChain(v.fat, g.Limit(), t.chains[s]) && t.chains[s] != [] && First(t.chains[s]) >= 2
  {
    hide SlotsOk, UsedOk;
    assert EntryOk(g, v, EntryAt(g, v, s), t.chains[s]);
  }

  lemma RoomAfter(g: Geometry, k: nat, n: nat)
    requires g.perCluster > 0
    ensures IndexIn(k, g.PerCluster()) < n ==> k < Start(n, g.PerCluster())
  {
    IndexBelow(k, n, g.PerCluster());
  }
}
