// Paths: going down from the root directory.
module FatPaths {
  import opened FatDisk
  import opened FatLayout
  import opened FatVolume
  import opened FatItems
  import opened FatChains
  import opened FatFsck
  import opened FatDirs
  import opened FatNames
  import opened FatLongNames
  import opened FatOps
  import opened FatSound
  import opened FatOpen
  import opened FatRemove

  /** Directory `d` lists directory `e` under `name`. */
  ghost predicate Step(g: Geometry, v: View, t: Tree, d: Dir, name: Name, e: Dir)
    requires Shaped(g, v) && TreeShape(g, t)
  {
    && IsListed(g, v, t, d) && IsListed(g, v, t, e) && e.SubDir?
    && exists items, k :: StepAt(g, v, t, d, name, e, items, k)
  }

  ghost predicate StepAt(g: Geometry, v: View, t: Tree, d: Dir, name: Name, e: Dir, items: seq<Item>, k: nat)
    requires Shaped(g, v) && TreeShape(g, t) && IsListed(g, v, t, d)
  {
    && e.SubDir? && Lists(AllItems(g, v, t, d), items) && IsIndexOf(items, name, k) && k < |AllItems(g, v, t, d)|
    && SlotOf(g, v, t, d, k) == e.slot
  }

  /** The directories on the way down a path from the root. */
  ghost predicate Way(g: Geometry, v: View, t: Tree, parts: seq<Name>, dirs: seq<Dir>)
    requires Shaped(g, v) && TreeShape(g, t)
  {
    && |dirs| == |parts| + 1 && dirs[0] == RootDir
    && forall i :: 0 <= i < |parts| ==> Step(g, v, t, dirs[i], parts[i], dirs[i + 1])
  }

  type Path = p: seq<Name> | forall i :: 0 <= i < |p| ==> GoodPart(p[i]) witness []

  /** Why a path leads no further: nothing has that name, or no directory. A file in place of the parent
      itself is told apart from one further up. */
  ghost predicate StopsAt(items: seq<Item>, name: Name, parent: bool, res: int) {
    exists k :: StopsBy(items, name, parent, res, k)
  }

  ghost predicate StopsBy(items: seq<Item>, name: Name, parent: bool, res: int, k: int) {
    && IsIndexOf(items, name, k)
    && res == (if k >= 0 && parent then NOT_DIRECTORY_ERROR else NOT_FOUND_ERROR)
    && (k >= 0 ==> !IsDirectory(items[k]))
  }

  /** How far down a path leads: to the parent of its last part, or to where it stops. */
  ghost predicate Resolved(g: Geometry, v: View, t: Tree, path: seq<Name>, res: int, view: DirView, dirs: seq<Dir>) {
    && Shaped(g, v) && TreeShape(g, t)
    && (path == [] <==> res == INVALID_PATH_ERROR)
    && (path != [] ==>
          && 1 <= |dirs| <= |path| && Way(g, v, t, path[..|dirs| - 1], dirs) && Loaded(view, g, v, t, dirs[|dirs| - 1])
          && (if |dirs| == |path| then res == OK else StopsAt(view.items, path[|dirs| - 1], |dirs| == |path| - 1, res)))
  }

  /** `fat16_get_parent`: the directory the last part of a path is in, found by going down from the
      root as `fat16_get_directory_entry` does. */
  method GetParent(vol: Volume, path: Path, ghost t: Tree) returns (res: int, view: DirView, ghost dirs: seq<Dir>)
    requires vol.Valid() && Sound(vol.g, vol.V(), t)
    modifies vol.clusterStream
    ensures vol.Valid() && vol.V() == old(vol.V())
    ensures Resolved(vol.g, vol.V(), t, path, res, view, dirs)
  {
    hide FlatOf, FatImage, RootImage, DataImage, Geometry.Limit, Geometry.Valid;
    hide EntriesOk, SlotsOk, UsedOk, EndsOk, HasRoot, AllItems, SlotOf, TreeShape, IsChain, EntryAt, IsListed;
    hide Lists, DirItems, ChainInRange, FirstCluster, DirTidy, IsDirectory, Live, EntryOk, Matches, GoodPart, Step;
    hide EndsOnce;
    ghost var v := vol.V();
    view := LoadRoot(vol);
    dirs := [RootDir];
    if |path| == 0 {
      return INVALID_PATH_ERROR, view, dirs;
    }
    for i := 0 to |path| - 1
      invariant vol.Valid() && vol.V() == v && |dirs| == i + 1
      invariant Way(vol.g, v, t, path[..i], dirs) && Loaded(view, vol.g, v, t, dirs[i])
    {
      var idx := FindIndex(view.items, path[i]);
      if idx < 0 {
        assert StopsBy(view.items, path[i], i == |path| - 2, NOT_FOUND_ERROR, idx);
        return NOT_FOUND_ERROR, view, dirs;
      }
      FoundListed(vol.g, v, t, dirs[i], view, path[i], idx);
      if !IsDirectory(view.items[idx]) {
        assert StopsBy(view.items, path[i], i == |path| - 2,
                       if i == |path| - 2 then NOT_DIRECTORY_ERROR else NOT_FOUND_ERROR, idx);
        return if i == |path| - 2 then NOT_DIRECTORY_ERROR else NOT_FOUND_ERROR, view, dirs;
      }
      ghost var s := SlotOf(vol.g, v, t, dirs[i], idx);
      SubdirectoryChain(vol.g, v, t, dirs[i], idx);
      StepDown(vol.g, v, t, dirs[i], path[i], view, idx);
      view := LoadDirectory(vol, FirstCluster(view.items[idx]), t.chains[s]);
      LoadedSub(vol.g, v, t, s, view);
      assert path[..i + 1] == path[..i] + [path[i]];
      dirs := dirs + [SubDir(s)];
    }
    res := OK;
  }

  lemma StepDown(g: Geometry, v: View, t: Tree, d: Dir, name: Name, view: DirView, k: nat)
    requires Consistent(g, v, t, []) && Loaded(view, g, v, t, d) && IsIndexOf(view.items, name, k)
    requires k < |view.items| && k < |AllItems(g, v, t, d)| && AllItems(g, v, t, d)[k] == view.items[k]
    requires IsDirectory(view.items[k])
    requires SlotOf(g, v, t, d, k) in t.chains && ChainInRange(g, t.chains[SlotOf(g, v, t, d, k)])
    ensures Step(g, v, t, d, name, SubDir(SlotOf(g, v, t, d, k)))
  {
    hide EntriesOk, SlotsOk, UsedOk, EndsOk, HasRoot, AllItems, SlotOf, TreeShape, EntryAt, IsDirectory, ChainInRange;
    hide IsIndexOf;
    SlotOfEntry(g, v, t, d, k);
    assert StepAt(g, v, t, d, name, SubDir(SlotOf(g, v, t, d, k)), view.items, k);
  }

  lemma LoadedSub(g: Geometry, v: View, t: Tree, s: Slot, view: DirView)
    requires Shaped(g, v) && TreeShape(g, t) && s in t.chains && IsDirectory(EntryAt(g, v, s))
    requires ChainInRange(g, t.chains[s])
    requires Lists(DirItems(g, v, t.chains[s]), view.items) && view.first == First(t.chains[s])
    ensures Loaded(view, g, v, t, SubDir(s))
  {}

  lemma StopsBelow(g: Geometry, v: View, t: Tree, path: seq<Name>, res: int, view: DirView, dirs: seq<Dir>)
    requires Resolved(g, v, t, path, res, view, dirs)
    ensures res == OK || res < 0
    ensures res == OK <==> path != [] && |dirs| == |path|
  {
    hide IsIndexOf, IsDirectory, Way, Loaded;
  }
}
