// Writing to an open file, as an operation on the whole volume.
module FatWriting {
  import opened Bytes
  import opened FatDisk
  import opened FatLayout
  import opened FatVolume
  import opened FatItems
  import opened FatChains
  import opened FatContent
  import opened FatFiles
  import opened FatFsck
  import opened FatDirs
  import opened FatOthers
  import opened FatOps
  import opened FatCreate
  import opened FatSound
  import opened FatOpen

  /** Clusters of a file that is written to, and free ones, are all that changes. */
  lemma TouchedKeeps(g: Geometry, v: View, mid: View, t: Tree, d: Dir, s: Slot, ds: seq<nat>)
    requires FsckBut(g, v, t, []) && s in t.chains && !IsDirectory(EntryAt(g, v, s))
    requires Touched(g, v, mid, t.chains[s], ds)
    ensures OthersKept(g, v, mid, t, t, d, {s})
  {
    hide IsChain, EntriesOk, EntryAt, IsDirectory, Kept;
    GrownFresh(g, v, mid, t, [], s, ds);
    hide UsedOk;
    forall c | c in t.owner && t.owner[c] != s ensures mid.data[c] == v.data[c] {
      assert c !in ds;
    }
    DataKeeps(g, v, mid, t, t, d, {s});
  }

  lemma SetWrittenKeeps(g: Geometry, v: View, mid: View, t: Tree, d: Dir, k: nat, ds: seq<nat>, item: Item)
    requires FsckBut(g, v, t, []) && EndsOk(g, v, t) && HasRoot(t) && IsListed(g, v, t, d) && k < |AllItems(g, v, t, d)|
    requires SlotOf(g, v, t, d, k) in t.chains && !IsDirectory(AllItems(g, v, t, d)[k])
    requires Touched(g, v, mid, t.chains[SlotOf(g, v, t, d, k)], ds)
    ensures var s := SlotOf(g, v, t, d, k);
            OthersKept(g, v, SetEntry(g, mid, s, item), t, Owned(t, s, ds), d, {s})
  {
    hide EntriesOk, SlotsOk, UsedOk, EndsOk, HasRoot, SlotOf, AllItems, Touched, SetEntry, Owned, Kept, OthersKept;
    hide IsDirectory, EntryAt, IsListed;
    var s := SlotOf(g, v, t, d, k);
    SlotOfEntry(g, v, t, d, k);
    TouchedKeeps(g, v, mid, t, d, s, ds);
    TouchedTree(g, v, mid, t, s, ds, d);
    TouchedShape(g, v, mid, t.chains[s], ds);
    SameSlot(g, v, mid, t, d, k);
    OwnedFacts(t, s, ds);
    SetKeeps(g, mid, t, Owned(t, s, ds), d, k, item);
    KeptAfter(g, v, mid, SetEntry(g, mid, s, item), t, t, Owned(t, s, ds), d, {s}, {s});
    assert {s} + {s} == {s};
  }

  lemma TouchedShape(g: Geometry, v: View, mid: View, cs: seq<nat>, ds: seq<nat>)
    requires Touched(g, v, mid, cs, ds)
    ensures Shaped(g, mid)
  {}

  /** From `v` to `w`, `bytes` were written at `start` to file `k` of directory `d`, and nothing else
      changed but its entry. */
  ghost predicate FileWritten(g: Geometry, v: View, w: View, t: Tree, o: Tree, d: Dir, items: seq<Item>, k: nat,
                              item: Item, start: nat, bytes: seq<byte>)
  {
    && FsckBut(g, v, t, []) && FsckBut(g, w, o, []) && k < |items|
    && FileAt(g, v, t, d, k, items[k]) && FileAt(g, w, o, d, k, item)
    && IsFileSlot(g, v, t, SlotOf(g, v, t, d, k)) && IsFileSlot(g, w, o, SlotOf(g, v, t, d, k))
    && SlotOf(g, w, o, d, k) == SlotOf(g, v, t, d, k)
    && item[..13] == items[k][..13] && Lists(AllItems(g, w, o, d), items[k := item])
    && OthersKept(g, v, w, t, o, d, {SlotOf(g, v, t, d, k)}) && ChainGrew(t, o, SlotOf(g, v, t, d, k))
    && start <= |Contents(g, v, t, SlotOf(g, v, t, d, k))|
    && Contents(g, w, o, SlotOf(g, v, t, d, k)) == Overwritten(Contents(g, v, t, SlotOf(g, v, t, d, k)), start, bytes)
  }

  ghost predicate IsFileSlot(g: Geometry, v: View, t: Tree, s: Slot)
    requires Shaped(g, v) && TreeShape(g, t)
  {
    s in t.chains && !IsDirectory(EntryAt(g, v, s))
  }

  /** The entry of a file is in none of its clusters. */
  lemma EntryApart(g: Geometry, v: View, mid: View, t: Tree, d: Dir, k: nat, ds: seq<nat>, item: Item)
    requires FsckBut(g, v, t, []) && IsListed(g, v, t, d) && k < |AllItems(g, v, t, d)|
    requires SlotOf(g, v, t, d, k) in t.chains && !IsDirectory(AllItems(g, v, t, d)[k])
    requires Touched(g, v, mid, t.chains[SlotOf(g, v, t, d, k)], ds)
    ensures SameData(mid, SetEntry(g, mid, SlotOf(g, v, t, d, k), item), ds)
  {
    hide EntriesOk, IsChain, AllItems, SlotOf, IsListed, IsDirectory, EntryAt;
    var s := SlotOf(g, v, t, d, k);
    SlotOfEntry(g, v, t, d, k);
    GrownFresh(g, v, mid, t, [], s, ds);
    ChainSmall(mid.fat, g, ds);
    hide UsedOk, SlotsOk;
    forall i | 0 <= i < |ds| ensures s.ClusterSlot? ==> s.cluster != ds[i] { assert ds[i] in ds; }
  }

  lemma ContentsIs(g: Geometry, v: View, t: Tree, s: Slot, cs: seq<nat>, item: Item)
    requires FsckBut(g, v, t, []) && IsFileSlot(g, v, t, s) && t.chains[s] == cs && EntryAt(g, v, s) == item
    ensures HasClusters(v.data, cs, g.ClusterBytes()) && FileSize(item) <= Start(|cs|, g.ClusterBytes())
    ensures Contents(g, v, t, s) == FileBytes(g, v, cs, FileSize(item))
  {
    hide SlotsOk, UsedOk, IsDirectory, EntryAt, FileSize;
    assert EntryOk(g, v, EntryAt(g, v, s), t.chains[s]);
    ChainClusters(g, v, t.chains[s]);
  }

  lemma WroteContents(g: Geometry, v: View, mid: View, w: View, t: Tree, o: Tree, s: Slot, cs: seq<nat>, ds: seq<nat>,
                      was: Item, item: Item, start: nat, pos: nat, input: seq<byte>, res: int, nmemb: nat)
    requires FsckBut(g, v, t, []) && FsckBut(g, w, o, []) && IsFileSlot(g, v, t, s) && IsFileSlot(g, w, o, s)
    requires t.chains[s] == cs && o.chains[s] == ds && EntryAt(g, v, s) == was && EntryAt(g, w, s) == item
    requires Wrote(g, v, mid, w, cs, ds, s, was, item, start, pos, input, res, nmemb) && SameData(mid, w, ds)
    ensures start <= |Contents(g, v, t, s)|
    ensures Contents(g, w, o, s) == Overwritten(Contents(g, v, t, s), start, input[..pos - start])
  {
    hide SlotsOk, UsedOk, EntriesOk, IsDirectory, EntryAt, FileSize, Touched, TreeShape, FirstCluster, SetEntry;
    hide SameData;
    ContentsIs(g, v, t, s, cs, was);
    ContentsIs(g, w, o, s, ds, item);
    SameDataFlatten(g, mid, w, ds);
  }

  lemma WroteParts(g: Geometry, v: View, mid: View, w: View, cs: seq<nat>, ds: seq<nat>, slot: Slot,
                   was: Item, item: Item, start: nat, pos: nat, input: seq<byte>, res: int, nmemb: nat)
    requires Wrote(g, v, mid, w, cs, ds, slot, was, item, start, pos, input, res, nmemb)
    ensures Touched(g, v, mid, cs, ds) && Shaped(g, mid) && SlotExists(g, slot) && w == SetEntry(g, mid, slot, item)
    ensures item[..13] == was[..13] && FirstCluster(item) == First(ds)
    ensures ChainFits(|ds|, FileSize(item), g.ClusterBytes()) && cs <= ds
  {
    hide FirstCluster, FileSize, SetEntry, IsChain;
  }

  /** A write keeps the volume sound and all other files and directories as they are; the file now
      has the bytes written. */
  lemma WroteSound(g: Geometry, v: View, mid: View, w: View, t: Tree, d: Dir, view: DirView, k: nat, ds: seq<nat>,
                   item: Item, start: nat, pos: nat, input: seq<byte>, res: int, nmemb: nat)
    requires Sound(g, v, t) && Loaded(view, g, v, t, d) && k < |view.items| && FileAt(g, v, t, d, k, view.items[k])
    requires var s := SlotOf(g, v, t, d, k);
             Wrote(g, v, mid, w, t.chains[s], ds, s, view.items[k], item, start, pos, input, res, nmemb)
    ensures Sound(g, w, Owned(t, SlotOf(g, v, t, d, k), ds))
    ensures Owned(t, SlotOf(g, v, t, d, k), ds).chains == t.chains[SlotOf(g, v, t, d, k) := ds]
    ensures FileWritten(g, v, w, t, Owned(t, SlotOf(g, v, t, d, k), ds), d, view.items, k, item, start,
                        input[..pos - start])
  {
    hide EntriesOk, SlotsOk, UsedOk, EndsOk, HasRoot, SlotOf, AllItems, Touched, SetEntry, Owned, Kept, OthersKept;
    hide Wrote;
    hide IsDirectory, EntryAt, Live, FirstCluster, FileSize, Tidy, ChainInRange, DirItems, TreeShape, Lists, EntryOk;
    hide DirTidy;
    var s, was := SlotOf(g, v, t, d, k), view.items[k];
    var o := Owned(t, s, ds);
    WroteParts(g, v, mid, w, t.chains[s], ds, s, was, item, start, pos, input, res, nmemb);
    Written(g, v, mid, t, d, k, ds, item);
    SetWrittenKeeps(g, v, mid, t, d, k, ds, item);
    SetEntryGet(g, mid, s, item, s);
    OwnedFacts(t, s, ds);
    UpdatedSound(g, v, w, t, o, d, view, k, item);
    SameKind(was, item);
    NotOwnSlot(g, v, t, d, k);
    SlotSame(g, v, w, t, o, d, k);
    FileListed(g, w, o, d, k, item);
    SlotOfEntry(g, v, t, d, k);
    EntryApart(g, v, mid, t, d, k, ds, item);
    WroteContents(g, v, mid, w, t, o, s, t.chains[s], ds, was, item, start, pos, input, res, nmemb);
  }

  /** `fat16_write` on a file of a sound volume. */
  method WriteFile(vol: Volume, desc: Descriptor, size: nat, nmemb: nat, input: seq<byte>, date: Word, time: Word,
                   ghost view: DirView, ghost t: Tree, ghost d: Dir, ghost k: nat)
    returns (res: int, ghost o: Tree)
    requires vol.Valid() && desc as object !in vol.Parts() && !desc.mode.ReadMode?
    requires Sound(vol.g, vol.V(), t) && Loaded(view, vol.g, vol.V(), t, d) && k < |view.items|
    requires DescribesFile(vol.g, vol.V(), t, d, k, desc) && view.items[k] == desc.item
    requires |input| == size * nmemb < 0x100000000
    modifies vol.Parts(), desc
    ensures vol.Valid() && Sound(vol.g, vol.V(), o) && DescribesFile(vol.g, vol.V(), o, d, k, desc)
    ensures old(desc.pos) <= desc.pos <= old(desc.pos) + |input|
    ensures FileWritten(vol.g, old(vol.V()), vol.V(), t, o, d, view.items, k, desc.item,
                        old(desc.pos), input[..desc.pos - old(desc.pos)])
    ensures Modified(old(desc.item), desc.item, date, time)
    ensures if res >= 0 then res == nmemb && desc.pos == old(desc.pos) + |input|
            else
              && res == NO_MEMORY_ERROR && desc.pos < old(desc.pos) + |input|
              && NoFreeCluster(vol.V().fat, vol.g.Limit())
  {
    hide FlatOf, FatImage, RootImage, DataImage, Geometry.Limit, Geometry.Valid, Volume.Valid, Volume.V;
    hide EntriesOk, SlotsOk, UsedOk, EndsOk, HasRoot, SlotOf, AllItems, Owned, OthersKept, Wrote, FileWritten;
    hide NoFreeCluster, Modified;
    hide IsDirectory, EntryAt, Live, FirstCluster, FileSize, ChainInRange, DirItems, TreeShape, Lists, EntryOk, DirTidy;
    hide IsChain;
    hide ChainFits, SlotPos;
    ghost var v := vol.V();
    ghost var s, start := SlotOf(vol.g, v, t, d, k), desc.pos;
    BelowTotal(vol, view, t, d, k);
    NotEnd(desc.item);
    ghost var ds, mid;
    res, ds, mid := Write(vol, desc, size, nmemb, input, date, time, t.chains[s], s);
    o := Owned(t, s, ds);
    WroteSound(vol.g, v, mid, vol.V(), t, d, view, k, ds, desc.item, start, desc.pos, input, res, nmemb);
    WroteResult(vol.g, v, mid, vol.V(), t.chains[s], ds, s, view.items[k], desc.item, start, desc.pos, input, res,
                nmemb);
    WrittenFacts(vol.g, v, vol.V(), t, o, d, view.items, k, desc.item, start, input[..desc.pos - start]);
    OpensFile(vol.g, vol.V(), o, d, k, desc);
  }

  lemma WroteResult(g: Geometry, v: View, mid: View, w: View, cs: seq<nat>, ds: seq<nat>, slot: Slot,
                    was: Item, item: Item, start: nat, pos: nat, input: seq<byte>, res: int, nmemb: nat)
    requires Wrote(g, v, mid, w, cs, ds, slot, was, item, start, pos, input, res, nmemb)
    ensures start <= pos <= start + |input| && pos <= FileSize(item)
    ensures if res >= 0 then res == nmemb && pos == start + |input|
            else res == NO_MEMORY_ERROR && pos < start + |input| && NoFreeCluster(w.fat, g.Limit())
  {
    hide FirstCluster, FileSize, SetEntry, IsChain, NoFreeCluster, Touched;
  }

  lemma WrittenFacts(g: Geometry, v: View, w: View, t: Tree, o: Tree, d: Dir, items: seq<Item>, k: nat,
                     item: Item, start: nat, bytes: seq<byte>)
    requires FileWritten(g, v, w, t, o, d, items, k, item, start, bytes)
    ensures FsckBut(g, w, o, []) && FileAt(g, w, o, d, k, item) && SlotOf(g, w, o, d, k) == SlotOf(g, v, t, d, k)
  {
    hide Contents, EntriesOk, SlotsOk, UsedOk, IsDirectory, EntryAt, Live, FileAt, OthersKept, Overwritten;
  }
}
