// The bytes of a chain, and what growing it or writing to one of its clusters does to them.
module FatContent {
  import opened Bytes
  import opened FatLayout
  import opened FatVolume
  import opened FatChains

  /** Each cluster of `cs` is there and `size` bytes long. */
  ghost predicate HasClusters(data: seq<seq<byte>>, cs: seq<nat>, size: nat) {
    forall i :: 0 <= i < |cs| ==> cs[i] < |data| && |data[cs[i]]| == size
  }

  /** Where cluster number `k` of a chain starts. */
  ghost function Start(k: nat, size: nat): nat { k * size }

  lemma StartNext(k: nat, size: nat)
    ensures Start(0, size) == 0 && Start(k + 1, size) == Start(k, size) + size
  {
    assert (k + 1) * size == k * size + size;
  }

  lemma StartMono(j: nat, k: nat, size: nat)
    requires j <= k
    ensures Start(j, size) <= Start(k, size)
  {
    MulLe(j, k, size);
  }

  /** All bytes of the clusters `cs`, in order. */
  ghost function Flatten(data: seq<seq<byte>>, cs: seq<nat>, size: nat): (b: seq<byte>)
    requires HasClusters(data, cs, size)
    ensures |b| == Start(|cs|, size)
    decreases |cs|
  {
    if cs == [] then []
    else
      var n := |cs| - 1;
      StartNext(n, size);
      Flatten(data, cs[..n], size) + data[cs[n]]
  }

  lemma {:induction false} FlattenSame(data: seq<seq<byte>>, after: seq<seq<byte>>, cs: seq<nat>, size: nat)
    requires HasClusters(data, cs, size) && HasClusters(after, cs, size)
    requires forall i :: 0 <= i < |cs| ==> data[cs[i]] == after[cs[i]]
    ensures Flatten(data, cs, size) == Flatten(after, cs, size)
    decreases |cs|
  {
    if cs != [] { FlattenSame(data, after, cs[..|cs| - 1], size); }
  }

  /** A longer chain continues the bytes of a shorter one. */
  lemma {:induction false} FlattenPrefix(data: seq<seq<byte>>, cs: seq<nat>, k: nat, size: nat)
    requires HasClusters(data, cs, size) && k <= |cs|
    ensures Start(k, size) <= Start(|cs|, size)
    ensures Flatten(data, cs, size)[..Start(k, size)] == Flatten(data, cs[..k], size)
    decreases |cs|
  {
    hide Start;
    if k < |cs| {
      var n := |cs| - 1;
      FlattenPrefix(data, cs[..n], k, size);
      StartNext(n, size);
      assert cs[..n][..k] == cs[..k];
    } else {
      assert cs[..k] == cs;
    }
  }

  /** Byte `offset` of the `k`-th cluster is byte Start(k) + offset of the chain. */
  lemma {:induction false} FlattenSlice(data: seq<seq<byte>>, cs: seq<nat>, k: nat, offset: nat, len: nat, size: nat)
    requires HasClusters(data, cs, size) && k < |cs| && offset + len <= size
    ensures Start(k, size) + offset + len <= Start(|cs|, size)
    ensures Flatten(data, cs, size)[Start(k, size) + offset..Start(k, size) + offset + len]
            == data[cs[k]][offset..offset + len]
    decreases |cs|
  {
    hide Start;
    var n := |cs| - 1;
    StartNext(n, size);
    if k < n {
      FlattenSlice(data, cs[..n], k, offset, len, size);
      SliceLeft(Flatten(data, cs[..n], size), data[cs[n]], Start(k, size) + offset, len);
    } else {
      SliceRight(Flatten(data, cs[..n], size), data[cs[n]], offset, len);
    }
  }

  lemma SliceLeft(a: seq<byte>, b: seq<byte>, pos: nat, len: nat)
    requires pos + len <= |a|
    ensures (a + b)[pos..pos + len] == a[pos..pos + len]
  {}

  lemma SliceRight(a: seq<byte>, b: seq<byte>, pos: nat, len: nat)
    requires pos + len <= |b|
    ensures (a + b)[|a| + pos..|a| + pos + len] == b[pos..pos + len]
  {}

  /** Writing to the `k`-th cluster writes over those bytes of the chain. */
  lemma {:induction false} FlattenWrite(data: seq<seq<byte>>, cs: seq<nat>, k: nat, offset: nat, bytes: seq<byte>,
                                        size: nat)
    requires HasClusters(data, cs, size) && k < |cs| && offset + |bytes| <= size
    requires forall i, j :: 0 <= i < j < |cs| ==> cs[i] != cs[j]
    ensures var after := data[cs[k] := Splice(data[cs[k]], offset, bytes)];
            && HasClusters(after, cs, size)
            && Start(k, size) + offset + |bytes| <= Start(|cs|, size)
            && Flatten(after, cs, size) == Splice(Flatten(data, cs, size), Start(k, size) + offset, bytes)
    decreases |cs|
  {
    hide Start, Flatten, Splice;
    var after := data[cs[k] := Splice(data[cs[k]], offset, bytes)];
    var n := |cs| - 1;
    StartNext(n, size);
    FlattenLast(data, cs, size);
    FlattenLast(after, cs, size);
    if k < n {
      FlattenWrite(data, cs[..n], k, offset, bytes, size);
      SplicePrefix(Flatten(data, cs[..n], size), data[cs[n]], Start(k, size) + offset, bytes);
    } else {
      FlattenSame(data, after, cs[..n], size);
      SpliceSuffix(Flatten(data, cs[..n], size), data[cs[n]], offset, bytes);
    }
  }

  lemma FlattenLast(data: seq<seq<byte>>, cs: seq<nat>, size: nat)
    requires HasClusters(data, cs, size) && cs != []
    ensures var n := |cs| - 1;
            HasClusters(data, cs[..n], size) && Flatten(data, cs, size) == Flatten(data, cs[..n], size) + data[cs[n]]
  {
    hide Start;
  }

  lemma SplicePrefix(a: seq<byte>, b: seq<byte>, pos: nat, bytes: seq<byte>)
    requires pos + |bytes| <= |a|
    ensures Splice(a, pos, bytes) + b == Splice(a + b, pos, bytes)
  {}

  lemma SpliceSuffix(a: seq<byte>, b: seq<byte>, pos: nat, bytes: seq<byte>)
    requires pos + |bytes| <= |b|
    ensures a + Splice(b, pos, bytes) == Splice(a + b, |a| + pos, bytes)
  {}

  // ---- file contents ----

  /** A chain of `n` clusters is what a file of `size` bytes needs, no more and no less. */
  ghost predicate ChainFits(n: nat, size: nat, cluster: nat) {
    size <= Start(n, cluster) && (n > 0 ==> Start(n - 1, cluster) < size)
  }

  /** That is the size in clusters, rounded up. */
  lemma ChainFitsIsCeil(n: nat, size: nat, cluster: nat)
    requires cluster > 0
    ensures ChainFits(n, size, cluster) <==> n == (size + cluster - 1) / cluster
  {
    DivTimes(size + cluster - 1, cluster);
    var q := (size + cluster - 1) / cluster;
    assert q * cluster <= size + cluster - 1 < q * cluster + cluster;
    assert q > 0 ==> (q - 1) * cluster == q * cluster - cluster;
    if n < q {
      MulLe(n, q - 1, cluster);
    } else if q < n {
      MulLe(q, n - 1, cluster);
    }
  }

  /** The first `size` bytes of a chain. */
  ghost function FileBytes(g: Geometry, v: View, cs: seq<nat>, size: nat): (b: seq<byte>)
    requires HasClusters(v.data, cs, g.ClusterBytes()) && size <= Start(|cs|, g.ClusterBytes())
    ensures |b| == size
  {
    Flatten(v.data, cs, g.ClusterBytes())[..size]
  }

  /** `was` with `bytes` written at `pos`, longer if they go past its end. */
  ghost function Overwritten(was: seq<byte>, pos: nat, bytes: seq<byte>): (b: seq<byte>)
    requires pos <= |was|
    ensures |b| == if pos + |bytes| > |was| then pos + |bytes| else |was|
  {
    was[..pos] + bytes + (if pos + |bytes| < |was| then was[pos + |bytes|..] else [])
  }

  lemma OverwrittenMore(was: seq<byte>, pos: nat, first: seq<byte>, second: seq<byte>)
    requires pos <= |was|
    ensures Overwritten(Overwritten(was, pos, first), pos + |first|, second) == Overwritten(was, pos, first + second)
  {}

  lemma OverwrittenNothing(was: seq<byte>, pos: nat)
    requires pos <= |was|
    ensures Overwritten(was, pos, []) == was
  {}

  /** Splicing into all bytes of the chain overwrites the part that is the file. */
  lemma SpliceOverwrites(all: seq<byte>, size: nat, pos: nat, bytes: seq<byte>)
    requires pos <= size <= |all| && pos + |bytes| <= |all|
    ensures Splice(all, pos, bytes)[..if pos + |bytes| > size then pos + |bytes| else size]
            == Overwritten(all[..size], pos, bytes)
  {}

  /** No chain is longer than the volume: file positions stay far below 2^32. */
  lemma ChainLength(fat: seq<Word>, g: Geometry, cs: seq<nat>)
    requires g.Valid() && IsChain(fat, g.Limit(), cs)
    ensures |cs| <= g.Limit() - 2 && Start(|cs|, g.ClusterBytes()) < 0x80000000
  {
    hide Geometry.DataSector, Geometry.Limit;
    VolumeBytes(g);
    DistinctCount(cs, g.Limit());
    StartMono(|cs|, g.Limit() - 2, g.ClusterBytes());
  }

  /** All clusters of a volume together. */
  lemma VolumeBytes(g: Geometry)
    requires g.Valid()
    ensures g.Limit() >= 2 && Start(g.Limit() - 2, g.ClusterBytes()) < 0x80000000
  {
    hide Geometry.DataSector, Start;
    ClustersBytes(g.sectors - g.DataSector(), g.perCluster);
  }

  lemma ClustersBytes(n: nat, p: nat)
    requires p > 0
    ensures Start(n / p, p * 512) <= n * 512
  {
    DivTimes(n, p);
    assert n / p * (p * 512) == n / p * p * 512;
  }

  lemma {:induction false} DistinctCount(cs: seq<nat>, limit: nat)
    requires limit >= 2
    requires forall i :: 0 <= i < |cs| ==> 2 <= cs[i] < limit
    requires forall i, j :: 0 <= i < j < |cs| ==> cs[i] != cs[j]
    ensures |cs| <= limit - 2
    decreases limit
  {
    if cs == [] {
    } else if exists k :: 0 <= k < |cs| && cs[k] == limit - 1 {
      var k :| 0 <= k < |cs| && cs[k] == limit - 1;
      assert 2 <= cs[k];
      DistinctCount(cs[..k] + cs[k + 1..], limit - 1);
    } else {
      assert 2 <= cs[0];
      DistinctCount(cs, limit - 1);
    }
  }
}
