// Where the bytes of a volume are, by the FAT specification: byte positions from the fields of the boot sector
// alone, and the numbers of the FAT as pairs of bytes.
module FatSectors {
  import opened Bytes
  import opened FatDisk
  import opened FatLayout
  import opened FatVolume
  import opened FatChains
  import opened FatFsck

  // ---- the regions tile the volume ----

  /** The copies of the FAT begin behind the reserved sectors, each where the one before ends, with two bytes an
      entry. */
  lemma CopiesTile(g: Geometry, k: nat, c: nat)
    ensures g.FatPos(0, 0) == 512 * g.reserved
    ensures g.FatPos(k, c + 1) == g.FatPos(k, c) + 2
    ensures g.FatPos(k, g.FatEntries()) == g.FatPos(k + 1, 0) == g.FatPos(k, 0) + 512 * g.perFat
  {
    assert (k + 1) * g.perFat == k * g.perFat + g.perFat;
  }

  /** The root directory begins where the last copy ends, with 32 bytes an entry; the clusters at the first
      border of a sector behind it, one after the other. */
  lemma DataTiles(g: Geometry, i: nat, c: nat)
    requires g.Valid() && c >= 2
    ensures g.RootPos(0) == g.FatPos(g.copies, 0) && g.RootPos(i + 1) == g.RootPos(i) + 32
    ensures g.ClusterPos(2) % 512 == 0 && g.RootPos(g.rootEntries) <= g.ClusterPos(2) < g.RootPos(g.rootEntries) + 512
    ensures g.ClusterPos(c + 1) == g.ClusterPos(c) + 512 * g.perCluster == g.ClusterPos(c) + g.ClusterBytes()
  {
    assert (c + 1 - 2) * g.perCluster == (c - 2) * g.perCluster + g.perCluster;
  }

  /** All clusters end on the volume, and there is no room for one more. */
  lemma LastCluster(g: Geometry)
    requires g.Valid()
    ensures g.ClusterPos(g.Limit()) <= 512 * g.sectors < g.ClusterPos(g.Limit()) + 512 * g.perCluster
  {
    DivTimes(g.sectors - g.DataSector(), g.perCluster);
    var n := (g.sectors - g.DataSector()) / g.perCluster;
    assert (n + 1) * g.perCluster == n * g.perCluster + g.perCluster;
    hide Geometry.DataSector;
  }

  /** An entry of a cluster directory is 32 bytes behind the one before, the first one where the cluster begins. */
  lemma EntriesTile(g: Geometry, c: nat, i: nat)
    requires c >= 2
    ensures SlotPos(g, ClusterSlot(c, 0)) == g.ClusterPos(c)
    ensures SlotPos(g, ClusterSlot(c, i + 1)) == SlotPos(g, ClusterSlot(c, i)) + 32
    ensures SlotPos(g, RootSlot(i)) == g.RootPos(i)
    ensures g.PerCluster() * 32 == g.ClusterBytes()
  {}

  /** What the driver has of entry `i` of the root directory is what is there on the disk. */
  lemma RootBytes(vol: Volume, i: nat, j: nat)
    requires vol.Valid() && i < vol.g.rootEntries && j < 32
    ensures var p := 512 * (vol.g.reserved + vol.g.copies * vol.g.perFat) + 32 * i + j;
            p < |vol.disk.Flat()| && vol.V().root[i][j] == vol.disk.Flat()[p]
  {
    hide FlatOf, IsTotal, FatImage, DataImage;
    RootItem(vol.g, vol.disk.Flat(), i);
  }

  /** The same of byte `b` of cluster `c`. */
  lemma DataBytes(vol: Volume, c: nat, b: nat)
    requires vol.Valid() && 2 <= c < vol.g.Limit() && b < 512 * vol.g.perCluster
    ensures vol.g.ClusterPos(c) + b < |vol.disk.Flat()|
    ensures vol.V().data[c][b] == vol.disk.Flat()[vol.g.ClusterPos(c) + b]
  {
    hide FlatOf, IsTotal, FatImage, RootImage, Geometry.ClusterPos;
    ClusterFits(vol.g, c);
  }

  // ---- the FAT ----

  /** At byte `p` of the disk is the number `n`, in two bytes. */
  ghost predicate IsNumber(flat: seq<byte>, p: nat, n: nat) { p + 2 <= |flat| && Pair(flat, p) == n }

  /** Where the number of cluster `c` is in copy `k` of the FAT. */
  ghost function NumberPos(g: Geometry, k: nat, c: nat): nat { 512 * (g.reserved + k * g.perFat) + 2 * c }

  /** In every copy of the FAT the numbers of a chain lead from cluster to cluster, up to a number from 0xFFF8 on. */
  lemma ChainBytes(vol: Volume, cs: seq<nat>, k: nat, i: nat)
    requires vol.Valid() && IsChain(vol.V().fat, vol.g.Limit(), cs) && k < vol.g.copies && i < |cs|
    ensures 2 <= cs[i] < 0xFFF0
    ensures exists n :: IsNumber(vol.disk.Flat(), NumberPos(vol.g, k, cs[i]), n)
                        && if i + 1 < |cs| then n == cs[i + 1] else n >= 0xFFF8
  {
    hide Volume.Valid, Volume.V, IsNumber, NumberPos;
    FatBytes(vol, k, cs[i]);
  }

  lemma FatBytes(vol: Volume, k: nat, c: nat)
    requires vol.Valid() && k < vol.g.copies && c < 256 * vol.g.perFat
    ensures IsNumber(vol.disk.Flat(), NumberPos(vol.g, k, c), vol.V().fat[c])
  {
    hide FlatOf, IsTotal;
    var flat, g := vol.disk.Flat(), vol.g;
    FatFits(g, k);
    var p := g.FatPos(k, c);
    assert p == 512 * (g.reserved + k * g.perFat) + 2 * c;
    assert FatImage(g, flat, k)[c] == From16(flat[p..p + 2]);
  }

  /** A cluster is in use by a file or directory unless its number in the FAT is 0, for a free one, or 0xFFF7, for
      a bad one. */
  lemma UsedBytes(vol: Volume, t: Tree, k: nat, c: nat)
    requires vol.Valid() && Fsck(vol.g, vol.V(), t) && k < vol.g.copies && 2 <= c < vol.g.Limit()
    ensures exists n :: IsNumber(vol.disk.Flat(), NumberPos(vol.g, k, c), n)
                        && (c in t.owner <==> n != 0 && n != 0xFFF7)
  {
    hide Volume.Valid, Volume.V, EntriesOk, SlotsOk, TreeShape, IsNumber, NumberPos;
    FatBytes(vol, k, c);
  }
}
