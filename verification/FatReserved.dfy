// Volumes with more clusters than chains can hold: from number 0xFFF0 on, a cluster that is allocated is
// taken for a reserved value when its chain is followed.
module FatReserved {
  import opened FatDisk
  import opened FatLayout
  import opened FatVolume
  import opened FatChains

  /** Freeing a chain frees the clusters in front of the first one with a reserved number: all of them if
      and only if there is none. */
  lemma FreedExactly(fat: seq<Word>, limit: nat, cs: seq<nat>)
    requires IsLine(fat, limit, cs)
    ensures var after := Freed(fat, cs[..Usable(cs)]);
            && (forall i :: 0 <= i < |cs| ==> (after[cs[i]] == UNUSED <==> i < Usable(cs)))
            && ((forall i :: 0 <= i < |cs| ==> after[cs[i]] == UNUSED) <==> forall i :: 0 <= i < |cs| ==>
                    cs[i] < RESERVED_START)
  {
    var n := Usable(cs);
    var after := Freed(fat, cs[..n]);
    forall i | 0 <= i < |cs| ensures after[cs[i]] == UNUSED <==> i < n {
      LineNext(fat, limit, cs, i);
      if i < n { assert cs[..n][i] == cs[i]; } else { assert cs[i] !in cs[..n]; }
    }
    if n < |cs| { assert after[cs[n]] != UNUSED; }
  }

  /** All clusters of a chain are found from its first one if and only if none behind it has a reserved
      number. */
  lemma ReachedExactly(fat: seq<Word>, limit: nat, cs: seq<nat>)
    requires IsLine(fat, limit, cs)
    ensures (forall k :: 0 <= k < |cs| ==> Reached(cs, k)) <==> forall i :: 1 <= i < |cs| ==> cs[i] < RESERVED_START
  {
    if |cs| > 0 && forall k :: 0 <= k < |cs| ==> Reached(cs, k) { assert Reached(cs, |cs| - 1); }
  }

  // A volume of 65519 clusters, with all of them in use but number 0xFFF0.

  const HIGH := 0xFFF0

  function HighGeometry(): Geometry { Geometry(1, 1, 2, 256, 512, 66064) }

  function HighFat(): (fat: seq<Word>)
    ensures |fat| == 65536 && forall c :: 0 <= c < |fat| ==> fat[c] == if c == HIGH then UNUSED else 0xFFFF
  {
    seq(65536, c requires 0 <= c < 65536 => if c == HIGH then UNUSED else 0xFFFF)
  }

  lemma HighLimit()
    ensures var g := HighGeometry();
            g.Valid() && g.Limit() == HIGH + 1 && g.FatEntries() == 65536 && g.ClusterBytes() == 512
  {}

  /** The chain of cluster 2 that has grown by the only free cluster. */
  lemma HighLine()
    ensures var fat := HighFat()[HIGH := 0xFFFF][2 := HIGH];
            && IsLine(HighFat(), HighGeometry().Limit(), [2]) && IsLine(fat, HighGeometry().Limit(), [2, HIGH])
    ensures Usable([2, HIGH]) == 1 && !Reached([2, HIGH], 1)
  {
    HighLimit();
    assert [2, HIGH][1..] == [HIGH];
  }

  /** There are such volumes: the file system accepts them, allocates the cluster, and then neither finds
      it nor frees it. */
  lemma HighVolume()
    ensures exists v: View ::
              && Shaped(HighGeometry(), v) && v.fat == HighFat() && IsLine(v.fat, HighGeometry().Limit(), [2])
              && (forall c :: 2 <= c < HighGeometry().Limit() ==> (v.fat[c] == UNUSED <==> c == HIGH))
              && IsLine(v.fat[HIGH := 0xFFFF][2 := HIGH], HighGeometry().Limit(), [2, HIGH])
              && Freed(v.fat[HIGH := 0xFFFF][2 := HIGH], [2, HIGH][..Usable([2, HIGH])])[HIGH] != UNUSED
  {
    HighLimit();
    HighLine();
    var v := View(HighFat(), seq(512, _ => seq(32, _ => 0)), seq(HIGH + 1, _ => Zeros(512)));
    assert Shaped(HighGeometry(), v);
    FreedExactly(v.fat[HIGH := 0xFFFF][2 := HIGH], HighGeometry().Limit(), [2, HIGH]);
  }

  /** Growing the file in cluster 2, reading it and removing it on such a volume: the cluster is lost. */
  method LoseCluster(vol: Volume) returns (cluster: int, found: int)
    requires vol.Valid() && vol.g == HighGeometry() && vol.V().fat == HighFat()
    modifies vol.Parts()
    ensures vol.Valid() && cluster == HIGH && found == IO_ERROR
    ensures vol.V().fat == HighFat()[HIGH := 0xFFFF][2 := UNUSED]
  {
    hide FlatOf, FatImage, RootImage, DataImage, Geometry.Limit, Geometry.Valid, IsLine, Usable, Reached, FirstFree;
    hide HighFat;
    HighLimit();
    HighLine();
    cluster := AllocCluster(vol);
    assert vol.V().fat == HighFat()[HIGH := 0xFFFF];
    vol.SetFatEntry(2, cluster);
    ghost var fat := vol.V().fat;
    SecondCluster(vol.g);
    found := ClusterForOffset(vol, 2, 512, [2, HIGH]);
    FreeChain(vol, 2, [2, HIGH]);
    assert [2, HIGH][..1] == [2];
    assert Freed(fat, [2]) == fat[2 := UNUSED];
  }

  lemma SecondCluster(g: Geometry)
    requires g == HighGeometry()
    ensures g.perCluster > 0 && ClusterIndex(g, 512) == 1
  {}
}
