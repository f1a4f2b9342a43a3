// Cluster chains: allocating, following, growing and freeing them.
module FatChains {
  import opened Bytes
  import opened FatDisk
  import opened FatLayout
  import opened FatVolume

  const OK := 0
  const IO_ERROR := -1
  const NO_MEMORY_ERROR := -2

  const UNUSED: Word := 0
  const RESERVED_START: Word := 0xFFF0
  const BAD_SECTOR: Word := 0xFFF7
  const END_OF_CHAIN: Word := 0xFFF8

  /** The clusters `cs` in this order: every entry names the next one, the last one ends it. */
  ghost predicate IsLine(fat: seq<Word>, limit: nat, cs: seq<nat>) {
    && limit <= |fat|
    && (forall i :: 0 <= i < |cs| ==> 2 <= cs[i] < limit)
    && (forall i :: 0 <= i < |cs| - 1 ==> fat[cs[i]] == cs[i + 1])
    && (|cs| > 0 ==> fat[cs[|cs| - 1]] >= END_OF_CHAIN)
    && (forall i, j :: 0 <= i < j < |cs| ==> cs[i] != cs[j])
  }

  /** `cs` is a whole chain, of a volume all of whose cluster numbers a chain may hold. */
  ghost predicate IsChain(fat: seq<Word>, limit: nat, cs: seq<nat>) {
    IsLine(fat, limit, cs) && limit <= RESERVED_START
  }

  lemma ChainNumbers(fat: seq<Word>, limit: nat, cs: seq<nat>)
    requires IsChain(fat, limit, cs)
    ensures IsLine(fat, limit, cs) && limit <= |fat| && limit <= RESERVED_START
  {}

  function First(cs: seq<nat>): nat { if cs == [] then 0 else cs[0] }

  ghost function Zeros(n: nat): (z: seq<byte>)
    ensures |z| == n
  {
    seq(n, _ => 0)
  }

  ghost predicate NoFreeCluster(fat: seq<Word>, limit: nat) {
    limit <= |fat| && forall c :: 2 <= c < limit ==> fat[c] != UNUSED
  }

  // ---- allocation ----

  /** Where the circular search for a free cluster starts. */
  function SearchStart(next: nat, limit: nat): nat { if next < 2 || next >= limit then 2 else next }

  /** How many clusters the search looks at before `c`. */
  function SearchDistance(start: nat, c: nat, limit: nat): int {
    if c >= start then c - start else c - start + limit - 2
  }

  /** `fat16_alloc_cluster`: the first free cluster in circular order, as a zeroed chain of one. */
  method AllocCluster(vol: Volume) returns (r: int)
    requires vol.Valid()
    modifies vol.Parts()
    ensures vol.Valid() && vol.total == old(vol.total)
    ensures r == NO_MEMORY_ERROR || 2 <= r < vol.g.Limit()
    ensures r < 0 <==> NoFreeCluster(old(vol.V()).fat, vol.g.Limit())
    ensures r < 0 ==> vol.V() == old(vol.V())
    ensures r >= 0 ==>
              && old(vol.V()).fat[r] == UNUSED
              && vol.V() == Allocated(vol.g, old(vol.V()), r)
              && vol.nextFree == r + 1
    ensures r >= 0 ==> FirstFree(old(vol.V()).fat, SearchStart(old(vol.nextFree), vol.g.Limit()), r, vol.g.Limit())
  {
    hide FlatOf, FatImage, RootImage, DataImage, Geometry.Limit;
    var limit := vol.g.Limit();
    LimitBounds(vol.g);
    var start := SearchStart(vol.nextFree, limit);
    for n := 0 to limit - 2
      invariant vol.V() == old(vol.V()) && vol.Valid() && vol.total == old(vol.total)
      invariant forall c :: 2 <= c < limit && SearchDistance(start, c, limit) < n ==> vol.fat[c] != UNUSED
    {
      var cluster := start + n;
      if cluster >= limit {
        cluster := cluster - (limit - 2);
      }
      if vol.fat[cluster] == UNUSED {
        vol.SetFatEntry(cluster, 0xFFFF);
        ZeroCluster(vol, cluster);
        vol.nextFree := cluster + 1;
        return cluster;
      }
    }
    assert forall c :: 2 <= c < limit ==> SearchDistance(start, c, limit) < limit - 2;
    return NO_MEMORY_ERROR;
  }

  ghost predicate FirstFree(fat: seq<Word>, start: nat, r: nat, limit: nat) {
    limit <= |fat| &&
    forall c :: 2 <= c < limit && SearchDistance(start, c, limit) < SearchDistance(start, r, limit) ==> fat[c] != UNUSED
  }

  ghost function Allocated(g: Geometry, v: View, c: nat): (r: View)
    requires Shaped(g, v) && 2 <= c < g.Limit()
    ensures Shaped(g, r)
  {
    v.(fat := v.fat[c := 0xFFFF], data := v.data[c := Zeros(g.ClusterBytes())])
  }

  lemma LimitBounds(g: Geometry)
    requires g.Valid()
    ensures 2 <= g.Limit() <= g.FatEntries() && g.perCluster > 0
  {}

  method ZeroCluster(vol: Volume, cluster: nat)
    requires vol.Valid() && 2 <= cluster < vol.g.Limit()
    modifies vol.Parts() - {vol.fat}
    ensures vol.Valid() && vol.total == old(vol.total) && vol.nextFree == old(vol.nextFree)
    ensures vol.V() == old(vol.V()).(data := old(vol.V()).data[cluster := Zeros(vol.g.ClusterBytes())])
  {
    hide FlatOf, FatImage, RootImage, DataImage, Geometry.Limit, Geometry.Valid;
    var done := 0;
    ghost var before := vol.V();
    assert Zeros(0) + before.data[cluster][0..] == before.data[cluster];
    assert before.data[cluster := before.data[cluster]] == before.data;
    while done < vol.g.perCluster
      invariant 0 <= done <= vol.g.perCluster
      invariant vol.Valid() && vol.total == old(vol.total) && vol.nextFree == old(vol.nextFree)
      invariant var bytes := Zeros(done * 512) + before.data[cluster][done * 512..];
                vol.V() == before.(data := before.data[cluster := bytes])
    {
      ZeroMore(before.data[cluster], done);
      vol.WriteData(cluster, done * 512, seq(512, _ => 0));
      done := done + 1;
    }
    assert Zeros(done * 512) + before.data[cluster][done * 512..] == Zeros(vol.g.ClusterBytes());
  }

  lemma ZeroMore(b: seq<byte>, done: nat)
    requires (done + 1) * 512 <= |b|
    ensures Splice(Zeros(done * 512) + b[done * 512..], done * 512, seq(512, _ => 0))
            == Zeros((done + 1) * 512) + b[(done + 1) * 512..]
  {}

  // ---- freeing ----

  ghost function Freed(fat: seq<Word>, cs: seq<nat>): (r: seq<Word>)
    ensures |r| == |fat|
  {
    seq(|fat|, c requires 0 <= c < |fat| => if c in cs then UNUSED else fat[c])
  }

  /** How many clusters from the first one on have a number below the reserved ones. */
  function Usable(cs: seq<nat>): (n: nat)
    ensures n <= |cs| && (forall i :: 0 <= i < n ==> cs[i] < RESERVED_START) && (n < |cs| ==> cs[n] >= RESERVED_START)
  {
    if cs == [] || cs[0] >= RESERVED_START then 0 else 1 + Usable(cs[1..])
  }

  /** `fat16_free_chain`: frees the clusters of the chain in front of the first one with a reserved
      number, and no other; that is the whole chain if the volume has no such cluster. */
  method FreeChain(vol: Volume, first: nat, ghost cs: seq<nat>)
    requires vol.Valid() && IsLine(vol.V().fat, vol.g.Limit(), cs) && first == First(cs)
    modifies vol.Parts()
    ensures vol.Valid() && vol.total == old(vol.total) && vol.nextFree == old(vol.nextFree)
    ensures vol.V() == old(vol.V()).(fat := Freed(old(vol.V()).fat, cs[..Usable(cs)]))
    ensures vol.g.Limit() <= RESERVED_START ==> vol.V() == old(vol.V()).(fat := Freed(old(vol.V()).fat, cs))
  {
    hide FlatOf, FatImage, RootImage, DataImage, Geometry.Limit, Geometry.Valid, Usable;
    var cluster := first;
    ghost var k := 0;
    ghost var before := vol.V();
    assert before.fat == Freed(before.fat, cs[..0]);
    while cluster >= 2 && cluster < RESERVED_START
      invariant 0 <= k <= Usable(cs)
      invariant cluster == if k < |cs| then cs[k] else if k == 0 then 0 else before.fat[cs[k - 1]]
      invariant vol.Valid() && vol.total == old(vol.total) && vol.nextFree == old(vol.nextFree)
      invariant vol.V() == before.(fat := Freed(before.fat, cs[..k]))
      decreases |cs| - k
    {
      assert cs[k] !in cs[..k];
      var next := vol.fat[cluster];
      vol.SetFatEntry(cluster, UNUSED);
      assert cs[..k + 1] == cs[..k] + [cs[k]];
      assert Freed(before.fat, cs[..k + 1]) == Freed(before.fat, cs[..k])[cs[k] := UNUSED];
      cluster := next;
      k := k + 1;
    }
    assert k == Usable(cs);
    assert vol.g.Limit() <= RESERVED_START ==> k == |cs| && cs[..k] == cs;
  }

  // ---- following and growing ----

  /** Index in its chain of the cluster with byte `offset` of a file. */
  function ClusterIndex(g: Geometry, offset: nat): nat
    requires g.perCluster > 0
  {
    IndexIn(offset, g.ClusterBytes())
  }

  function IndexIn(offset: nat, size: nat): nat
    requires size > 0
  {
    offset / size
  }

  lemma ChainNext(fat: seq<Word>, limit: nat, cs: seq<nat>, i: nat)
    requires IsChain(fat, limit, cs) && i < |cs|
    ensures 2 <= cs[i] < limit <= |fat|
    ensures if i == |cs| - 1 then fat[cs[i]] >= END_OF_CHAIN
            else fat[cs[i]] == cs[i + 1] && 2 <= cs[i + 1] < RESERVED_START
  {}

  lemma LineNext(fat: seq<Word>, limit: nat, cs: seq<nat>, i: nat)
    requires IsLine(fat, limit, cs) && i < |cs|
    ensures 2 <= cs[i] < limit <= |fat|
    ensures if i == |cs| - 1 then fat[cs[i]] >= END_OF_CHAIN else fat[cs[i]] == cs[i + 1] >= 2
  {}

  lemma LineNumbers(fat: seq<Word>, limit: nat, cs: seq<nat>)
    requires IsLine(fat, limit, cs)
    ensures limit <= |fat| && forall i :: 0 <= i < |cs| ==> 2 <= cs[i] < limit
  {}

  lemma FirstInChain(fat: seq<Word>, limit: nat, cs: seq<nat>)
    requires IsChain(fat, limit, cs)
    ensures cs == [] <==> First(cs) == 0
    ensures cs != [] ==> 2 <= First(cs) < limit <= |fat|
  {}

  /** Every cluster behind the first one up to number `k` of the chain has a number below the reserved ones. */
  ghost predicate Reached(cs: seq<nat>, k: nat) { k < |cs| && forall i :: 1 <= i <= k ==> cs[i] < RESERVED_START }

  /** `fat16_get_cluster_for_offset`: the cluster of a chain that holds byte `offset`, unless one on the
      way there has a reserved number. */
  method ClusterForOffset(vol: Volume, first: nat, offset: nat, ghost cs: seq<nat>) returns (r: int)
    requires vol.Valid() && IsLine(vol.V().fat, vol.g.Limit(), cs) && cs != [] && first == First(cs)
    requires vol.g.perCluster > 0
    ensures r == if Reached(cs, ClusterIndex(vol.g, offset)) then cs[ClusterIndex(vol.g, offset)] else IO_ERROR
    ensures vol.g.Limit() <= RESERVED_START ==>
              r == if ClusterIndex(vol.g, offset) < |cs| then cs[ClusterIndex(vol.g, offset)] else IO_ERROR
  {
    hide FlatOf, FatImage, RootImage, DataImage, Geometry.Limit, Geometry.Valid, IsLine, ClusterIndex;
    var ahead := ClusterIndex(vol.g, offset);
    LineNumbers(vol.V().fat, vol.g.Limit(), cs);
    r := first;
    for i := 0 to ahead
      invariant Reached(cs, i) && r == cs[i]
    {
      LineNext(vol.V().fat, vol.g.Limit(), cs, i);
      var entry := vol.fat[r];
      if entry >= END_OF_CHAIN || entry == BAD_SECTOR
         || RESERVED_START <= entry < BAD_SECTOR || entry == UNUSED {
        return IO_ERROR;
      }
      r := entry;
    }
  }

  /** `w` is `v` with chain `cs` grown to `ds` by zeroed clusters that were free. */
  ghost predicate Grown(g: Geometry, v: View, w: View, cs: seq<nat>, ds: seq<nat>) {
    && Shaped(g, v) && Shaped(g, w) && w.root == v.root
    && cs <= ds && IsChain(w.fat, g.Limit(), ds)
    && (forall c :: 0 <= c < |v.fat| && c !in ds ==> w.fat[c] == v.fat[c])
    && (forall c :: 2 <= c < g.Limit() && (c !in ds || c in cs) ==> w.data[c] == v.data[c])
    && (forall i :: |cs| <= i < |ds| ==> v.fat[ds[i]] == UNUSED && w.data[ds[i]] == Zeros(g.ClusterBytes()))
  }

  lemma GrownRefl(g: Geometry, v: View, cs: seq<nat>)
    requires Shaped(g, v) && IsChain(v.fat, g.Limit(), cs)
    ensures Grown(g, v, v, cs, cs)
  {}

  ghost function Linked(fat: seq<Word>, ds: seq<nat>, c: Word): (r: seq<Word>)
    requires c < |fat| && (ds != [] ==> ds[|ds| - 1] < |fat|)
    ensures |r| == |fat|
  {
    if ds == [] then fat[c := 0xFFFF] else fat[c := 0xFFFF][ds[|ds| - 1] := c]
  }

  lemma ChainAppend(fat: seq<Word>, limit: nat, ds: seq<nat>, c: nat)
    requires IsChain(fat, limit, ds) && 2 <= c < limit && fat[c] == UNUSED
    ensures c !in ds && IsChain(Linked(fat, ds, c), limit, ds + [c])
  {
    forall i | 0 <= i < |ds| ensures ds[i] != c {
      if i < |ds| - 1 { assert fat[ds[i]] == ds[i + 1]; }
    }
  }

  /** Appending one more cluster, as `fat16_cluster_at` does. */
  lemma GrownStep(g: Geometry, v: View, w: View, cs: seq<nat>, ds: seq<nat>, c: nat)
    requires Grown(g, v, w, cs, ds) && 2 <= c < g.Limit() && w.fat[c] == UNUSED
    ensures var a := Allocated(g, w, c);
            var x := if ds == [] then a else a.(fat := a.fat[ds[|ds| - 1] := c]);
            Grown(g, v, x, cs, ds + [c])
  {
    var a := Allocated(g, w, c);
    var x := if ds == [] then a else a.(fat := a.fat[ds[|ds| - 1] := c]);
    ChainAppend(w.fat, g.Limit(), ds, c);
    hide IsChain;
    assert c !in cs by { assert forall i :: 0 <= i < |cs| ==> cs[i] == ds[i]; }
  }

  /** `fat16_cluster_at`: the `index`-th cluster of a chain. With `allocate` set, missing clusters
      are appended until the disk is full. */
  method ClusterAt(vol: Volume, first: nat, index: nat, allocate: bool, ghost cs: seq<nat>)
    returns (r: int, first': nat, ghost ds: seq<nat>)
    requires vol.Valid() && IsChain(vol.V().fat, vol.g.Limit(), cs) && first == First(cs)
    modifies vol.Parts()
    ensures vol.Valid() && vol.total == old(vol.total)
    ensures Grown(vol.g, old(vol.V()), vol.V(), cs, ds) && first' == First(ds)
    ensures !allocate ==> vol.V() == old(vol.V()) && ds == cs && (r < 0 <==> index >= |cs|)
    ensures r >= 0 ==> |ds| == (if index < |cs| then |cs| else index + 1) && r == ds[index]
    ensures r < 0 ==> |ds| <= index && r == if allocate then NO_MEMORY_ERROR else IO_ERROR
    ensures r < 0 && allocate ==> NoFreeCluster(vol.V().fat, vol.g.Limit())
    ensures index < |cs| ==> r >= 0 && vol.V() == old(vol.V())
  {
    hide FlatOf, FatImage, RootImage, DataImage, Geometry.Limit, Geometry.Valid, Grown, Allocated, FirstFree, IsChain;
    ghost var before := vol.V();
    GrownRefl(vol.g, before, cs);
    FirstInChain(before.fat, vol.g.Limit(), cs);
    first' := first;
    ds := cs;
    if first' == 0 {
      if !allocate {
        return IO_ERROR, first', ds;
      }
      var cluster := AllocCluster(vol);
      if cluster < 0 {
        return cluster, first', ds;
      }
      GrownStep(vol.g, before, before, cs, ds, cluster);
      ds := ds + [cluster];
      first' := cluster;
    }
    var cluster := first';
    for i := 0 to index
      invariant vol.Valid() && vol.total == old(vol.total)
      invariant Grown(vol.g, before, vol.V(), cs, ds) && ds != [] && first' == First(ds)
      invariant i < |ds| && cluster == ds[i]
      invariant |ds| == if i < |cs| then |cs| else i + 1
      invariant ds == cs ==> vol.V() == before
      invariant !allocate ==> ds == cs
    {
      GrownChain(vol.g, before, vol.V(), cs, ds);
      ChainNext(vol.V().fat, vol.g.Limit(), ds, i);
      var next: int := vol.fat[cluster];
      if next >= END_OF_CHAIN {
        if !allocate {
          return IO_ERROR, first', ds;
        }
        ghost var mid := vol.V();
        next := AllocCluster(vol);
        if next < 0 {
          return next, first', ds;
        }
        GrownStep(vol.g, before, mid, cs, ds, next);
        AllocatedIs(vol.g, mid, next);
        vol.SetFatEntry(cluster, next);
        ds := ds + [next];
      } else if next < 2 || next >= RESERVED_START {
        return IO_ERROR, first', ds;
      }
      cluster := next;
    }
    GrownChain(vol.g, before, vol.V(), cs, ds);
    r := cluster;
  }

  lemma GrownChain(g: Geometry, v: View, w: View, cs: seq<nat>, ds: seq<nat>)
    requires Grown(g, v, w, cs, ds)
    ensures IsChain(w.fat, g.Limit(), ds) && cs <= ds && (|cs| == |ds| ==> cs == ds)
  {}

  lemma AllocatedIs(g: Geometry, v: View, c: nat)
    requires Shaped(g, v) && 2 <= c < g.Limit()
    ensures Allocated(g, v, c).fat == v.fat[c := 0xFFFF] && Allocated(g, v, c).root == v.root
  {}
}
