// A mounted FAT16 volume: the private data of the driver and its smallest reads and writes.
module FatVolume {
  import opened Bytes
  import opened FatDisk
  import opened FatLayout

  /** What is on the volume: the FAT, the root directory and the data clusters. */
  datatype View = View(fat: seq<Word>, root: seq<Item>, data: seq<seq<byte>>)

  /** Where a directory entry is kept. */
  datatype Slot = RootSlot(idx: nat) | ClusterSlot(cluster: nat, idx: nat)

  ghost predicate SlotExists(g: Geometry, s: Slot)
    requires g.Valid()
  {
    match s
    case RootSlot(i) => i < g.rootEntries
    case ClusterSlot(c, i) => 2 <= c < g.Limit() && i < g.PerCluster()
  }

  ghost predicate Shaped(g: Geometry, v: View) {
    && g.Valid() && |v.fat| == g.FatEntries() && |v.root| == g.rootEntries && |v.data| == g.Limit()
    && forall c :: 2 <= c < g.Limit() ==> |v.data[c]| == g.ClusterBytes()
  }

  ghost function EntryAt(g: Geometry, v: View, s: Slot): Item
    requires Shaped(g, v) && SlotExists(g, s)
  {
    match s
    case RootSlot(i) => v.root[i]
    case ClusterSlot(c, i) => v.data[c][32 * i..32 * i + 32]
  }

  ghost function SetEntry(g: Geometry, v: View, s: Slot, item: Item): (r: View)
    requires Shaped(g, v) && SlotExists(g, s)
    ensures Shaped(g, r) && r.fat == v.fat
  {
    match s
    case RootSlot(i) => v.(root := v.root[i := item])
    case ClusterSlot(c, i) => v.(data := v.data[c := Splice(v.data[c], 32 * i, item)])
  }

  /** A directory entry that is written is read back, and no other entry changes. */
  lemma SetEntryGet(g: Geometry, v: View, s: Slot, item: Item, t: Slot)
    requires Shaped(g, v) && SlotExists(g, s) && SlotExists(g, t)
    ensures EntryAt(g, SetEntry(g, v, s, item), t) == if t == s then item else EntryAt(g, v, t)
  {
    if s.ClusterSlot? && t.ClusterSlot? && s.cluster == t.cluster {
      var b := v.data[s.cluster];
      if t.idx == s.idx {
        SpliceInside(b, 32 * s.idx, item, 32 * t.idx, 32 * t.idx + 32);
        SpliceAll(b[32 * s.idx..32 * s.idx + 32], item);
      } else {
        SpliceOutside(b, 32 * s.idx, item, 32 * t.idx, 32 * t.idx + 32);
      }
    }
  }

  function SlotPos(g: Geometry, s: Slot): nat
    requires s.ClusterSlot? ==> s.cluster >= 2
  {
    match s
    case RootSlot(i) => g.RootPos(i)
    case ClusterSlot(c, i) => g.ClusterPos(c) + 32 * i
  }

  /** The first `total` items are in use or deleted, all others are end markers. */
  ghost predicate IsTotal(items: seq<Item>, total: nat) {
    && total <= |items|
    && (forall i :: 0 <= i < total ==> items[i][0] != 0)
    && (forall i :: total <= i < |items| ==> items[i][0] == 0)
  }

  /** Nothing follows the first end marker. */
  ghost predicate EndsOnce(items: seq<Item>) {
    forall i, j :: 0 <= i < j < |items| && items[i][0] == 0 ==> items[j][0] == 0
  }

  lemma TotalAfter(items: seq<Item>, total: nat, idx: nat, item: Item)
    requires IsTotal(items, total) && idx < |items| && idx <= total && item[0] != 0
    ensures IsTotal(items[idx := item], if idx == total then total + 1 else total)
  {}

  lemma RootFits(g: Geometry, flat: seq<byte>)
    requires FitsDisk(g, flat)
    ensures g.RootPos(g.rootEntries) <= |flat|
  {
    DataAfterRoot(g);
  }

  lemma RootItem(g: Geometry, flat: seq<byte>, i: nat)
    requires FitsDisk(g, flat) && i < g.rootEntries
    ensures g.RootPos(i) + 32 == g.RootPos(i + 1) <= |flat|
    ensures RootImage(g, flat)[i] == flat[g.RootPos(i)..g.RootPos(i) + 32]
  {
    RootFits(g, flat);
  }

  lemma FirstFatEntry(g: Geometry, flat: seq<byte>, bytes: seq<byte>, c: nat)
    requires FitsDisk(g, flat) && c < g.FatEntries()
    requires g.reserved * 512 + g.perFat * 512 <= |flat|
    requires bytes == flat[g.reserved * 512..g.reserved * 512 + g.perFat * 512]
    ensures From16(bytes[2 * c..2 * c + 2]) == FatImage(g, flat, 0)[c]
  {
    SliceOfSlice(flat, g.reserved * 512, g.perFat * 512, 2 * c, 2);
  }

  /** Whether byte `pos` is in the root directory, and of which entry. */
  lemma SlotInRoot(g: Geometry, slot: Slot)
    requires g.Valid() && SlotExists(g, slot)
    ensures slot.RootSlot? <==> g.RootSector() * 512 <= SlotPos(g, slot) < g.RootSector() * 512 + g.rootEntries * 32
    ensures slot.RootSlot? ==> (SlotPos(g, slot) - g.RootSector() * 512) / 32 == slot.idx
  {
    DataAfterRoot(g);
    if slot.ClusterSlot? { ClusterFits(g, slot.cluster); }
  }

  class Volume {
    const g: Geometry
    const disk: Disk
    const clusterStream: DiskStream
    const fatStream: DiskStream
    const dirStream: DiskStream
    const fat: array<Word>
    var root: seq<Item>
    var total: nat
    var nextFree: nat

    ghost function Parts(): set<object> { {this, disk, clusterStream, fatStream, dirStream, fat} }

    /** The caches agree with the disk: the FAT with each of its copies, the root directory with
        its region, `total` with the first end marker in it. */
    ghost predicate Valid()
      reads Parts()
    {
      && clusterStream.disk == fatStream.disk == dirStream.disk == disk
      && clusterStream != fatStream && clusterStream != dirStream && fatStream != dirStream
      && FitsDisk(g, disk.Flat())
      && fat.Length == g.FatEntries()
      && (forall k :: 0 <= k < g.copies ==> FatImage(g, disk.Flat(), k) == fat[..])
      && root == RootImage(g, disk.Flat())
      && IsTotal(root, total)
    }

    ghost function V(): (v: View)
      requires Valid()
      reads Parts()
      ensures Shaped(g, v)
    {
      View(fat[..], root, DataImage(g, disk.Flat()))
    }

    /** `fat16_resolve`: reads the first FAT and the root directory, and counts its items. */
    constructor Mount(g: Geometry, disk: Disk)
      requires FitsDisk(g, disk.Flat())
      requires forall k :: 0 <= k < g.copies ==> FatImage(g, disk.Flat(), k) == FatImage(g, disk.Flat(), 0)
      requires EndsOnce(RootImage(g, disk.Flat()))
      ensures this.g == g && this.disk == disk && fresh(Parts() - {disk})
      ensures Valid() && nextFree == 0
      ensures V() == View(FatImage(g, disk.Flat(), 0), RootImage(g, disk.Flat()), DataImage(g, disk.Flat()))
    {
      this.g := g;
      this.disk := disk;
      clusterStream := new DiskStream(disk);
      fatStream := new DiskStream(disk);
      dirStream := new DiskStream(disk);
      fat := new Word[g.FatEntries()];
      root := [];
      total := 0;
      nextFree := 0;
      new;
      ReadRoot();
      ReadFat();
    }

    method ReadFat()
      requires fatStream.disk == disk && FitsDisk(g, disk.Flat()) && fat.Length == g.FatEntries()
      modifies fat, fatStream
      ensures fat[..] == FatImage(g, disk.Flat(), 0)
    {
      ghost var flat := disk.Flat();
      FatFits(g, 0);
      DataAfterRoot(g);
      assert g.reserved * 512 + g.perFat * 512 <= |flat|;
      hide FlatOf, FatImage, Geometry.Valid, Geometry.RootSector, Geometry.DataSector;
      fatStream.Seek(g.reserved * 512);
      var bytes := fatStream.Read(g.perFat * 512);
      for c := 0 to g.FatEntries()
        invariant disk.Flat() == flat
        invariant forall i :: 0 <= i < c ==> fat[i] == FatImage(g, flat, 0)[i]
      {
        FirstFatEntry(g, flat, bytes, c);
        fat[c] := From16(bytes[2 * c..2 * c + 2]);
      }
    }

    /** `fat16_get_root_directory`. */
    method ReadRoot()
      requires dirStream.disk == disk && FitsDisk(g, disk.Flat()) && EndsOnce(RootImage(g, disk.Flat()))
      modifies this`root, this`total, dirStream
      ensures root == RootImage(g, disk.Flat()) && IsTotal(root, total)
    {
      ghost var flat := disk.Flat();
      ghost var items := RootImage(g, flat);
      RootFits(g, flat);
      hide FlatOf, RootImage, Geometry.Valid, Geometry.RootSector, Geometry.DataSector, Geometry.RootPos;
      CountItems();
      dirStream.Seek(g.RootPos(0));
      root := [];
      for k := 0 to g.rootEntries
        invariant dirStream.pos == g.RootPos(k)
        invariant root == items[..k] && IsTotal(items, total)
      {
        RootItem(g, flat, k);
        var item := dirStream.Read(32);
        root := root + [item];
      }
    }

    /** `fat16_get_total_items_for_directory`: counts the items up to the end marker. */
    method CountItems()
      requires dirStream.disk == disk && FitsDisk(g, disk.Flat()) && EndsOnce(RootImage(g, disk.Flat()))
      modifies this`total, dirStream
      ensures IsTotal(RootImage(g, disk.Flat()), total)
    {
      ghost var flat := disk.Flat();
      ghost var items := RootImage(g, flat);
      hide FlatOf, RootImage, Geometry.Valid, Geometry.RootSector, Geometry.DataSector, Geometry.RootPos;
      dirStream.Seek(g.RootPos(0));
      total := 0;
      while total < g.rootEntries
        invariant total <= g.rootEntries && dirStream.pos == g.RootPos(total)
        invariant forall j :: 0 <= j < total ==> items[j][0] != 0
      {
        RootItem(g, flat, total);
        var item := dirStream.Read(32);
        if item[0] == 0 {
          break;
        }
        total := total + 1;
      }
    }

    /** `fat16_set_fat_entry`: the entry in the cache and in every copy of the FAT. */
    method SetFatEntry(cluster: nat, value: Word)
      requires Valid() && cluster < g.FatEntries()
      modifies Parts()
      ensures Valid() && V() == old(V()).(fat := old(V()).fat[cluster := value])
      ensures total == old(total) && nextFree == old(nextFree)
    {
      hide FlatOf, Splice, FatImage, RootImage, DataImage, Geometry.FatPos, Geometry.Valid;
      fat[cluster] := value;
      ghost var data := DataImage(g, disk.Flat());
      for copy := 0 to g.copies
        invariant FitsDisk(g, disk.Flat())
        invariant forall k :: 0 <= k < copy ==> FatImage(g, disk.Flat(), k) == fat[..]
        invariant forall k :: copy <= k < g.copies ==> FatImage(g, disk.Flat(), k) == old(fat[..])
        invariant root == RootImage(g, disk.Flat()) && data == DataImage(g, disk.Flat())
        invariant fat[..] == old(fat[..])[cluster := value]
        invariant root == old(root) && total == old(total) && nextFree == old(nextFree)
      {
        WriteFat(g, disk.Flat(), copy, cluster, value);
        fatStream.Seek(g.FatPos(copy, cluster));
        fatStream.Write(Le16(value));
      }
    }

    /** Writes inside one data cluster. */
    method WriteData(cluster: nat, offset: nat, bytes: seq<byte>)
      requires Valid() && 2 <= cluster < g.Limit() && offset + |bytes| <= g.ClusterBytes()
      modifies Parts() - {fat}
      ensures Valid()
      ensures V() == old(V()).(data := old(V()).data[cluster := Splice(old(V()).data[cluster], offset, bytes)])
      ensures total == old(total) && nextFree == old(nextFree)
    {
      hide FlatOf, Splice, FatImage, RootImage, DataImage, Geometry.ClusterSector, Geometry.Valid;
      WriteCluster(g, disk.Flat(), cluster, offset, bytes);
      clusterStream.Seek(g.ClusterSector(cluster) * 512 + offset);
      clusterStream.Write(bytes);
    }

    method ReadData(cluster: nat, offset: nat, len: nat) returns (bytes: seq<byte>)
      requires Valid() && 2 <= cluster < g.Limit() && offset + len <= g.ClusterBytes()
      modifies clusterStream
      ensures Valid() && V() == old(V())
      ensures bytes == V().data[cluster][offset..offset + len]
    {
      ClusterFits(g, cluster);
      assert ClusterImage(g, disk.Flat(), cluster)[offset..offset + len]
             == disk.Flat()[g.ClusterPos(cluster) + offset..g.ClusterPos(cluster) + offset + len];
      clusterStream.Seek(g.ClusterSector(cluster) * 512 + offset);
      bytes := clusterStream.Read(len);
    }

    /** `fat16_write_dir_entry`: the entry at byte `pos` of the disk, and in the cache if it is
        one of the root directory. */
    method WriteDirEntry(pos: nat, item: Item, ghost slot: Slot)
      requires Valid() && SlotExists(g, slot) && pos == SlotPos(g, slot)
      requires item[0] != 0 && (slot.RootSlot? ==> slot.idx <= total)
      modifies Parts() - {fat}
      ensures Valid() && V() == SetEntry(g, old(V()), slot, item)
      ensures total == if slot == RootSlot(old(total)) then old(total) + 1 else old(total)
      ensures nextFree == old(nextFree)
    {
      SlotInRoot(g, slot);
      ghost var flat := disk.Flat();
      if slot.RootSlot? {
        WriteRoot(g, flat, slot.idx, item);
      } else {
        WriteCluster(g, flat, slot.cluster, 32 * slot.idx, item);
      }
      hide FlatOf, Splice, FatImage, RootImage, DataImage, Geometry.Valid, Geometry.RootSector, SlotPos, IsTotal;
      dirStream.Seek(pos);
      dirStream.Write(item);
      var rootStart := g.RootSector() * 512;
      if rootStart <= pos < rootStart + g.rootEntries * 32 {
        var idx := (pos - rootStart) / 32;
        TotalAfter(root, total, idx, item);
        root := root[idx := item];
        if item[0] != 0 && idx >= total {
          total := idx + 1;
        }
      }
    }
  }
}
