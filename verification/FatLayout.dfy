// Where a FAT16 volume keeps what: the copies of the FAT, the root directory and the data
// clusters, and what writing to one of them does to all.
module FatLayout {
  import opened Bytes

  /** A 32 byte directory entry. */
  type Item = s: seq<byte> | |s| == 32 witness seq(32, _ => 0)

  /** The boot sector fields the driver uses. */
  datatype Geometry = Geometry(perCluster: nat, reserved: nat, copies: nat, perFat: nat, rootEntries: nat,
                               sectors: nat) {

    /** First sector of the root directory. */
    function RootSector(): nat { copies * perFat + reserved }

    /** `ending_sector_pos`: first sector of cluster 2. */
    function DataSector(): nat { RootSector() + (rootEntries * 32 + 511) / 512 }

    function ClusterBytes(): nat { perCluster * 512 }

    /** Directory entries in a cluster. */
    function PerCluster(): nat { perCluster * 16 }

    /** `fat16_cluster_limit`: number of the last data cluster + 1 (2, for none, where the driver
        would divide by zero or wrap around). */
    function Limit(): nat {
      if perCluster == 0 || sectors < DataSector() then 2 else (sectors - DataSector()) / perCluster + 2
    }

    function FatEntries(): nat { perFat * 256 }

    /** A mounted volume: its FAT has an entry for every cluster, and byte positions fit the 32 bit
        signed ones of the disk streams. */
    ghost predicate Valid() {
      && perCluster > 0 && copies > 0 && rootEntries > 0
      && DataSector() <= sectors < 0x400000
      && Limit() <= FatEntries()
    }

    /** `fat16_cluster_to_sector`. */
    function ClusterSector(cluster: nat): nat
      requires cluster >= 2
    {
      DataSector() + (cluster - 2) * perCluster
    }

    function ClusterPos(cluster: nat): nat requires cluster >= 2 { ClusterSector(cluster) * 512 }

    function FatPos(copy: nat, cluster: nat): nat { (reserved + copy * perFat) * 512 + cluster * 2 }

    function RootPos(idx: nat): nat { RootSector() * 512 + idx * 32 }
  }

  type Word = x: int | 0 <= x < 0x10000

  function Le16(v: Word): (r: seq<byte>)
    ensures |r| == 2
  {
    [v % 256, v / 256]
  }

  function From16(b: seq<byte>): Word requires |b| == 2 { b[0] as int + 256 * b[1] as int }

  lemma Le16RoundTrip(v: Word)
    ensures From16(Le16(v)) == v
  {}

  // ---- the three regions of the flat disk ----

  ghost predicate FitsDisk(g: Geometry, flat: seq<byte>) { g.Valid() && g.sectors * 512 <= |flat| }

  /** Copy `copy` of the FAT. */
  ghost function FatImage(g: Geometry, flat: seq<byte>, copy: nat): (r: seq<Word>)
    requires FitsDisk(g, flat) && copy < g.copies
    ensures |r| == g.FatEntries()
  {
    FatFits(g, copy);
    seq(g.FatEntries(), c requires 0 <= c < g.FatEntries() => From16(flat[g.FatPos(copy, c)..g.FatPos(copy, c) + 2]))
  }

  ghost function RootImage(g: Geometry, flat: seq<byte>): (r: seq<Item>)
    requires FitsDisk(g, flat)
    ensures |r| == g.rootEntries
  {
    seq(g.rootEntries, i requires 0 <= i < g.rootEntries => flat[g.RootPos(i)..g.RootPos(i) + 32])
  }

  /** The data clusters by number; 0 and 1 are none. */
  ghost function DataImage(g: Geometry, flat: seq<byte>): (r: seq<seq<byte>>)
    requires FitsDisk(g, flat)
    ensures |r| == g.Limit() && forall c :: 2 <= c < |r| ==> |r[c]| == g.ClusterBytes()
  {
    seq(g.Limit(), c requires 0 <= c < g.Limit() => if c < 2 then [] else ClusterImage(g, flat, c))
  }

  ghost function ClusterImage(g: Geometry, flat: seq<byte>, c: nat): (r: seq<byte>)
    requires FitsDisk(g, flat) && 2 <= c < g.Limit()
    ensures |r| == g.ClusterBytes()
  {
    ClusterFits(g, c);
    flat[g.ClusterPos(c)..g.ClusterPos(c) + g.ClusterBytes()]
  }

  lemma FatFits(g: Geometry, copy: nat)
    requires copy < g.copies
    ensures (g.reserved + copy * g.perFat) * 512 + g.FatEntries() * 2 <= g.RootSector() * 512
  {
    MulLe(copy + 1, g.copies, g.perFat);
    assert (copy + 1) * g.perFat == copy * g.perFat + g.perFat;
  }

  lemma MulLe(a: nat, b: nat, p: nat)
    requires a <= b
    ensures a * p <= b * p
  {}

  lemma DivTimes(a: nat, p: nat)
    requires p > 0
    ensures a / p * p <= a < (a / p + 1) * p
  {}

  lemma CopiesApart(g: Geometry, j: nat, k: nat)
    requires j < k
    ensures (g.reserved + j * g.perFat) * 512 + g.FatEntries() * 2 <= (g.reserved + k * g.perFat) * 512
  {
    MulLe(j + 1, k, g.perFat);
    assert (j + 1) * g.perFat == j * g.perFat + g.perFat;
  }

  lemma ClusterFits(g: Geometry, c: nat)
    requires g.Valid() && 2 <= c < g.Limit()
    ensures g.DataSector() * 512 <= g.ClusterPos(c) && g.ClusterPos(c) + g.ClusterBytes() <= g.sectors * 512
  {
    hide Geometry.DataSector;
    ClusterBound(g.sectors - g.DataSector(), g.perCluster, c);
  }

  lemma ClusterBound(span: nat, p: nat, c: nat)
    requires p > 0 && 2 <= c < span / p + 2
    ensures (c - 2) * p + p <= span
  {
    DivTimes(span, p);
    MulLe(c - 1, span / p, p);
    assert (c - 1) * p == (c - 2) * p + p;
  }

  lemma ClustersApart(g: Geometry, c: nat, d: nat)
    requires 2 <= c < d
    ensures g.ClusterPos(c) + g.ClusterBytes() <= g.ClusterPos(d)
  {
    MulLe(c - 1, d - 2, g.perCluster);
    assert (c - 1) * g.perCluster == (c - 2) * g.perCluster + g.perCluster;
  }

  // ---- writes ----

  /** Setting entry `c` of one copy of the FAT changes that entry and nothing else. */
  lemma WriteFat(g: Geometry, flat: seq<byte>, copy: nat, c: nat, v: Word)
    requires FitsDisk(g, flat) && copy < g.copies && c < g.FatEntries()
    ensures g.FatPos(copy, c) + 2 <= |flat|
    ensures var after := Splice(flat, g.FatPos(copy, c), Le16(v));
            && FatImage(g, after, copy) == FatImage(g, flat, copy)[c := v]
            && (forall k :: 0 <= k < g.copies && k != copy ==> FatImage(g, after, k) == FatImage(g, flat, k))
            && RootImage(g, after) == RootImage(g, flat)
            && DataImage(g, after) == DataImage(g, flat)
  {
    FatFits(g, copy);
    var pos := g.FatPos(copy, c);
    var after := Splice(flat, pos, Le16(v));
    SameOutside(flat, pos, Le16(v));
    FatEntryWritten(g, flat, copy, c, v);
    forall k | 0 <= k < g.copies && k != copy ensures FatImage(g, after, k) == FatImage(g, flat, k) {
      if k < copy { CopiesApart(g, k, copy); } else { CopiesApart(g, copy, k); FatFits(g, k); }
      forall i | 0 <= i < g.FatEntries() ensures FatImage(g, after, k)[i] == FatImage(g, flat, k)[i] {
        SpliceOutside(flat, pos, Le16(v), g.FatPos(k, i), g.FatPos(k, i) + 2);
      }
    }
    RootUntouched(g, flat, pos, Le16(v));
    DataUntouched(g, flat, pos, Le16(v));
  }

  lemma SameOutside(flat: seq<byte>, pos: nat, data: seq<byte>)
    requires pos + |data| <= |flat|
    ensures forall i :: 0 <= i < |flat| && !(pos <= i < pos + |data|) ==> Splice(flat, pos, data)[i] == flat[i]
  {}

  lemma FatEntryWritten(g: Geometry, flat: seq<byte>, copy: nat, c: nat, v: Word)
    requires FitsDisk(g, flat) && copy < g.copies && c < g.FatEntries()
    requires g.FatPos(copy, c) + 2 <= |flat|
    ensures FatImage(g, Splice(flat, g.FatPos(copy, c), Le16(v)), copy) == FatImage(g, flat, copy)[c := v]
  {
    FatFits(g, copy);
    var pos := g.FatPos(copy, c);
    var after := Splice(flat, pos, Le16(v));
    forall i | 0 <= i < g.FatEntries()
      ensures FatImage(g, after, copy)[i] == if i == c then v else FatImage(g, flat, copy)[i]
    {
      if i == c {
        SpliceInside(flat, pos, Le16(v), pos, pos + 2);
        SpliceAll(flat[pos..pos + 2], Le16(v));
        Le16RoundTrip(v);
      } else {
        SpliceOutside(flat, pos, Le16(v), g.FatPos(copy, i), g.FatPos(copy, i) + 2);
      }
    }
  }

  lemma RootUntouched(g: Geometry, flat: seq<byte>, pos: nat, data: seq<byte>)
    requires FitsDisk(g, flat) && pos + |data| <= |flat|
    requires pos + |data| <= g.RootSector() * 512 || g.RootPos(g.rootEntries) <= pos
    ensures RootImage(g, Splice(flat, pos, data)) == RootImage(g, flat)
  {
    forall i | 0 <= i < g.rootEntries
      ensures RootImage(g, Splice(flat, pos, data))[i] == RootImage(g, flat)[i]
    {
      SpliceOutside(flat, pos, data, g.RootPos(i), g.RootPos(i) + 32);
    }
  }

  lemma DataUntouched(g: Geometry, flat: seq<byte>, pos: nat, data: seq<byte>)
    requires FitsDisk(g, flat) && pos + |data| <= g.DataSector() * 512
    ensures DataImage(g, Splice(flat, pos, data)) == DataImage(g, flat)
  {
    forall c | 2 <= c < g.Limit()
      ensures DataImage(g, Splice(flat, pos, data))[c] == DataImage(g, flat)[c]
    {
      ClusterFits(g, c);
      SpliceOutside(flat, pos, data, g.ClusterPos(c), g.ClusterPos(c) + g.ClusterBytes());
    }
  }

  lemma FatUntouched(g: Geometry, flat: seq<byte>, pos: nat, data: seq<byte>, copy: nat)
    requires FitsDisk(g, flat) && g.RootSector() * 512 <= pos && pos + |data| <= |flat| && copy < g.copies
    ensures FatImage(g, Splice(flat, pos, data), copy) == FatImage(g, flat, copy)
  {
    FatFits(g, copy);
    forall i | 0 <= i < g.FatEntries()
      ensures FatImage(g, Splice(flat, pos, data), copy)[i] == FatImage(g, flat, copy)[i]
    {
      SpliceOutside(flat, pos, data, g.FatPos(copy, i), g.FatPos(copy, i) + 2);
    }
  }

  /** Writing a root directory entry changes that entry and nothing else. */
  lemma WriteRoot(g: Geometry, flat: seq<byte>, idx: nat, item: Item)
    requires FitsDisk(g, flat) && idx < g.rootEntries
    ensures g.RootPos(idx) + 32 <= |flat|
    ensures var after := Splice(flat, g.RootPos(idx), item);
            && (forall k :: 0 <= k < g.copies ==> FatImage(g, after, k) == FatImage(g, flat, k))
            && RootImage(g, after) == RootImage(g, flat)[idx := item]
            && DataImage(g, after) == DataImage(g, flat)
  {
    var pos := g.RootPos(idx);
    forall k | 0 <= k < g.copies ensures FatImage(g, Splice(flat, pos, item), k) == FatImage(g, flat, k) {
      FatUntouched(g, flat, pos, item, k);
    }
    DataUntouched(g, flat, pos, item);
    forall i | 0 <= i < g.rootEntries
      ensures RootImage(g, Splice(flat, pos, item))[i] == if i == idx then item else RootImage(g, flat)[i]
    {
      if i == idx {
        SpliceInside(flat, pos, item, pos, pos + 32);
        SpliceAll(flat[pos..pos + 32], item);
      } else {
        SpliceOutside(flat, pos, item, g.RootPos(i), g.RootPos(i) + 32);
      }
    }
  }

  /** Writing inside cluster `c` changes those bytes of it and nothing else. */
  lemma WriteCluster(g: Geometry, flat: seq<byte>, c: nat, offset: nat, data: seq<byte>)
    requires FitsDisk(g, flat) && 2 <= c < g.Limit() && offset + |data| <= g.ClusterBytes()
    ensures g.ClusterPos(c) + offset + |data| <= |flat|
    ensures var after := Splice(flat, g.ClusterPos(c) + offset, data);
            && (forall k :: 0 <= k < g.copies ==> FatImage(g, after, k) == FatImage(g, flat, k))
            && RootImage(g, after) == RootImage(g, flat)
            && DataImage(g, after) == DataImage(g, flat)[c := Splice(DataImage(g, flat)[c], offset, data)]
  {
    ClusterFits(g, c);
    DataAfterRoot(g);
    hide Geometry.ClusterPos, Geometry.RootPos;
    var pos := g.ClusterPos(c) + offset;
    forall k | 0 <= k < g.copies ensures FatImage(g, Splice(flat, pos, data), k) == FatImage(g, flat, k) {
      FatUntouched(g, flat, pos, data, k);
    }
    RootUntouched(g, flat, pos, data);
    forall d | 2 <= d < g.Limit()
      ensures DataImage(g, Splice(flat, pos, data))[d]
              == if d == c then Splice(DataImage(g, flat)[c], offset, data) else DataImage(g, flat)[d]
    {
      ClusterWritten(g, flat, c, offset, data, d);
    }
  }

  lemma DataAfterRoot(g: Geometry)
    ensures g.RootSector() <= g.DataSector() && g.RootPos(g.rootEntries) <= g.DataSector() * 512
  {}

  lemma ClusterWritten(g: Geometry, flat: seq<byte>, c: nat, offset: nat, data: seq<byte>, d: nat)
    requires FitsDisk(g, flat) && 2 <= c < g.Limit() && 2 <= d < g.Limit() && offset + |data| <= g.ClusterBytes()
    requires g.ClusterPos(c) + offset + |data| <= |flat|
    ensures ClusterImage(g, Splice(flat, g.ClusterPos(c) + offset, data), d)
            == if d == c then Splice(ClusterImage(g, flat, c), offset, data) else ClusterImage(g, flat, d)
  {
    ClusterFits(g, c);
    ClusterFits(g, d);
    if d < c { ClustersApart(g, d, c); } else if c < d { ClustersApart(g, c, d); }
    hide Geometry.ClusterPos;
    var pos := g.ClusterPos(c) + offset;
    if d == c {
      SpliceInside(flat, pos, data, g.ClusterPos(c), g.ClusterPos(c) + g.ClusterBytes());
    } else {
      SpliceOutside(flat, pos, data, g.ClusterPos(d), g.ClusterPos(d) + g.ClusterBytes());
    }
  }
}
