// Open files: `fat16_read`, `fat16_seek` and `fat16_write` on a descriptor.
module FatFiles {
  import opened Bytes
  import opened FatDisk
  import opened FatLayout
  import opened FatVolume
  import opened FatItems
  import opened FatChains
  import opened FatContent

  const INVALID_ARG_ERROR := -3

  datatype Mode = ReadMode | WriteMode | AppendMode
  datatype Whence = SeekSet | SeekCur | SeekEnd

  /** An open file, with its own copy of the directory entry and where that is stored. */
  class Descriptor {
    var item: Item
    var pos: nat
    const mode: Mode
    const entryPos: nat

    constructor (item: Item, pos: nat, mode: Mode, entryPos: nat)
      ensures this.item == item && this.pos == pos && this.mode == mode && this.entryPos == entryPos
    {
      this.item := item;
      this.pos := pos;
      this.mode := mode;
      this.entryPos := entryPos;
    }

    /** The descriptor is of the file kept in chain `cs`. */
    ghost predicate Opens(g: Geometry, v: View, cs: seq<nat>)
      reads this
    {
      && Shaped(g, v) && IsChain(v.fat, g.Limit(), cs)
      && FirstCluster(item) == First(cs)
      && ChainFits(|cs|, FileSize(item), g.ClusterBytes())
      && pos <= FileSize(item)
    }

    /** The file was there when the descriptor was opened for reading, and has at most got longer. */
    ghost predicate Sees(g: Geometry, v: View, cs: seq<nat>)
      reads this
    {
      && Shaped(g, v) && IsChain(v.fat, g.Limit(), cs)
      && (FileSize(item) > 0 ==> FirstCluster(item) == First(cs))
      && FileSize(item) <= Start(|cs|, g.ClusterBytes())
      && pos <= FileSize(item)
    }
  }

  lemma OpensSees(g: Geometry, v: View, cs: seq<nat>, desc: Descriptor)
    requires desc.Opens(g, v, cs)
    ensures desc.Sees(g, v, cs)
  {}

  lemma ChainClusters(g: Geometry, v: View, cs: seq<nat>)
    requires Shaped(g, v) && IsChain(v.fat, g.Limit(), cs)
    ensures HasClusters(v.data, cs, g.ClusterBytes())
  {}

  // ---- reading ----

  /** `fat16_read_internal_from_stream`: `total` bytes of the chain from `offset` on, hopping from
      cluster to cluster; an error if the chain ends before them. */
  method ReadChain(vol: Volume, first: nat, offset: nat, total: nat, ghost cs: seq<nat>)
    returns (res: int, out: seq<byte>)
    requires vol.Valid() && IsChain(vol.V().fat, vol.g.Limit(), cs) && cs != [] && first == First(cs)
    requires HasClusters(vol.V().data, cs, vol.g.ClusterBytes()) && vol.g.perCluster > 0
    modifies vol.clusterStream
    ensures vol.Valid() && vol.V() == old(vol.V())
    ensures offset + total <= Start(|cs|, vol.g.ClusterBytes()) ==>
              res == OK && out == Flatten(vol.V().data, cs, vol.g.ClusterBytes())[offset..offset + total]
    ensures total > 0 && offset + total > Start(|cs|, vol.g.ClusterBytes()) ==> res < 0
  {
    hide FlatOf, FatImage, RootImage, DataImage, Geometry.Limit, Geometry.Valid, IsChain, IsLine, Start, Flatten;
    hide ClusterIndex, Reached;
    out := [];
    ghost var v := vol.V();
    ghost var all := Flatten(v.data, cs, vol.g.ClusterBytes());
    ChainNumbers(v.fat, vol.g.Limit(), cs);
    var at, left := offset, total;
    while left > 0
      invariant 0 <= left <= total && at == offset + total - left
      invariant vol.Valid() && vol.V() == v
      invariant at <= |all| ==> out == all[offset..at]
      invariant at <= |all| || left == total
    {
      ghost var k := ClusterIndex(vol.g, at);
      PosSplit(vol.g, at, |cs|);
      var cluster := ClusterForOffset(vol, first, at, cs);
      if cluster < 0 {
        return cluster, out;
      }
      var inside := at % vol.g.ClusterBytes();
      var chunk := vol.g.ClusterBytes() - inside;
      if chunk > left {
        chunk := left;
      }
      FlattenSlice(v.data, cs, k, inside, chunk, vol.g.ClusterBytes());
      ChainNext(v.fat, vol.g.Limit(), cs, k);
      var bytes := vol.ReadData(cluster, inside, chunk);
      SliceMore(all, offset, at, chunk);
      out := out + bytes;
      left := left - chunk;
      at := at + chunk;
    }
    res := OK;
  }

  lemma SliceMore(all: seq<byte>, offset: nat, at: nat, chunk: nat)
    requires offset <= at && at + chunk <= |all|
    ensures all[offset..at] + all[at..at + chunk] == all[offset..at + chunk]
  {}

  /** Cluster and offset in it of byte `pos`. */
  lemma PosSplit(g: Geometry, pos: nat, n: nat)
    requires g.perCluster > 0
    ensures pos == Start(ClusterIndex(g, pos), g.ClusterBytes()) + pos % g.ClusterBytes()
    ensures 0 <= pos % g.ClusterBytes() < g.ClusterBytes()
    ensures pos < Start(n, g.ClusterBytes()) <==> ClusterIndex(g, pos) < n
  {
    var size := g.ClusterBytes();
    IndexSplit(pos, size);
    hide Start;
    if ClusterIndex(g, pos) >= n {
      StartMono(n, ClusterIndex(g, pos), size);
    } else {
      StartNext(ClusterIndex(g, pos), size);
      StartMono(ClusterIndex(g, pos) + 1, n, size);
    }
  }

  lemma IndexSplit(pos: nat, size: nat)
    requires size > 0
    ensures pos == Start(IndexIn(pos, size), size) + pos % size && 0 <= pos % size < size
  {
    assert pos / size * size + pos % size == pos;
  }

  function MinOf(a: nat, b: nat): nat { if a < b then a else b }

  /** Whole members of `size` bytes in `left` bytes. */
  lemma MembersBound(left: nat, size: nat, nmemb: nat)
    requires size > 0
    ensures MinOf(IndexIn(left, size), nmemb) * size <= left
    ensures left < (IndexIn(left, size) + 1) * size
  {
    DivTimes(left, size);
    MulLe(MinOf(IndexIn(left, size), nmemb), IndexIn(left, size), size);
  }

  /** `fat16_read`: as many whole members as are left before the end of the file, at most `nmemb`. */
  method Read(vol: Volume, desc: Descriptor, size: nat, nmemb: nat, ghost cs: seq<nat>)
    returns (res: int, out: seq<byte>)
    requires vol.Valid() && desc.Sees(vol.g, vol.V(), cs) && size > 0 && desc as object !in vol.Parts()
    modifies vol.clusterStream, desc`pos
    ensures vol.Valid() && vol.V() == old(vol.V()) && desc.Sees(vol.g, vol.V(), cs)
    ensures old(desc.pos) <= desc.pos <= FileSize(desc.item)
    ensures res == MinOf(IndexIn(FileSize(desc.item) - old(desc.pos), size), nmemb)
    ensures desc.pos == old(desc.pos) + res * size
    ensures HasClusters(vol.V().data, cs, vol.g.ClusterBytes())
    ensures out == FileBytes(vol.g, vol.V(), cs, FileSize(desc.item))[old(desc.pos)..desc.pos]
  {
    hide FlatOf, FatImage, RootImage, DataImage, Geometry.Limit, Geometry.Valid, IsChain, Start, Flatten, FirstCluster;
    hide FileSize, IndexIn, Volume.Valid, Volume.V;
    ChainClusters(vol.g, vol.V(), cs);
    var left := FileSize(desc.item) - desc.pos;
    MembersBound(left, size, nmemb);
    var members := IndexIn(left, size);
    if members > nmemb {
      members := nmemb;
    }
    if members == 0 {
      return 0, [];
    }
    assert left > 0 by { if left == 0 { NoMembers(size); } }
    PositiveCluster(vol.g, vol.V());
    var total := members * size;
    NotEmpty(cs, desc.item, vol.g, left);
    res, out := ReadChain(vol, FirstCluster(desc.item), desc.pos, total, cs);
    if res < 0 {
      return res, [];
    }
    desc.pos := desc.pos + total;
    res := members;
  }

  lemma NoMembers(size: nat)
    requires size > 0
    ensures IndexIn(0, size) == 0
  {}

  lemma NotEmpty(cs: seq<nat>, item: Item, g: Geometry, left: nat)
    requires FileSize(item) <= Start(|cs|, g.ClusterBytes()) && 0 < left <= FileSize(item)
    ensures cs != []
  {}

  lemma PositiveCluster(g: Geometry, v: View)
    requires Shaped(g, v)
    ensures g.perCluster > 0
  {}

  /** `fat16_seek`: never past the end of the file. */
  method Seek(desc: Descriptor, offset: int, whence: Whence) returns (res: int)
    requires -0x80000000 <= offset < 0x80000000
    requires desc.pos <= FileSize(desc.item) < 0x80000000
    modifies desc`pos
    ensures desc.pos <= FileSize(desc.item)
    ensures var from := match whence
                        case SeekSet => 0
                        case SeekCur => old(desc.pos)
                        case SeekEnd => FileSize(desc.item);
            var target := offset + from;
            if 0 <= target <= FileSize(desc.item) then res == OK && desc.pos == target
            else res == IO_ERROR && desc.pos == old(desc.pos)
  {
    hide FileSize;
    var newPos := 0;
    match whence {
      case SeekSet => newPos := offset;
      case SeekEnd => newPos := ToInt32(FileSize(desc.item) + offset);
      case SeekCur => newPos := ToInt32(desc.pos + offset);
    }
    if newPos < 0 || newPos > FileSize(desc.item) {
      return IO_ERROR;
    }
    desc.pos := newPos;
    res := OK;
  }

  /** A 32 bit signed result, wrapped around. */
  function ToInt32(x: int): int {
    var m := x % 0x100000000;
    if m >= 0x80000000 then m - 0x100000000 else m
  }

  // ---- writing ----

  /** `w` is `v` with chain `cs` grown to `ds` and bytes in its clusters changed, all else kept. */
  ghost predicate Touched(g: Geometry, v: View, w: View, cs: seq<nat>, ds: seq<nat>) {
    && Shaped(g, v) && Shaped(g, w) && w.root == v.root
    && cs <= ds && IsChain(w.fat, g.Limit(), ds)
    && (forall c :: 0 <= c < |v.fat| && c !in ds ==> w.fat[c] == v.fat[c])
    && (forall c :: 2 <= c < g.Limit() && c !in ds ==> w.data[c] == v.data[c])
    && (forall i :: |cs| <= i < |ds| ==> v.fat[ds[i]] == UNUSED)
  }

  ghost function WroteAt(v: View, c: nat, offset: nat, bytes: seq<byte>): View
    requires c < |v.data| && offset + |bytes| <= |v.data[c]|
  {
    v.(data := v.data[c := Splice(v.data[c], offset, bytes)])
  }

  lemma TouchedRefl(g: Geometry, v: View, cs: seq<nat>)
    requires Shaped(g, v) && IsChain(v.fat, g.Limit(), cs)
    ensures Touched(g, v, v, cs, cs)
  {}

  /** Growing on and then writing to a cluster of the chain. */
  lemma TouchedStep(g: Geometry, v: View, w: View, x: View, cs: seq<nat>, ds: seq<nat>, es: seq<nat>,
                    k: nat, offset: nat, bytes: seq<byte>)
    requires Touched(g, v, w, cs, ds) && Grown(g, w, x, ds, es)
    requires k < |es| && es[k] < |x.data| && offset + |bytes| <= |x.data[es[k]]|
    ensures Touched(g, v, WroteAt(x, es[k], offset, bytes), cs, es)
  {
    TouchedGrown(g, v, w, x, cs, ds, es);
  }

  lemma TouchedGrown(g: Geometry, v: View, w: View, x: View, cs: seq<nat>, ds: seq<nat>, es: seq<nat>)
    requires Touched(g, v, w, cs, ds) && Grown(g, w, x, ds, es)
    ensures Touched(g, v, x, cs, es)
  {
    assert forall i :: 0 <= i < |es| ==> 2 <= es[i] < g.Limit();
    hide IsChain;
    assert es[..|ds|] == ds;
    assert forall c :: c in es[..|ds|] ==> c in es;
    forall i | |cs| <= i < |es| ensures v.fat[es[i]] == UNUSED {
      if i < |ds| {
        assert es[i] == ds[i];
      } else {
        EarlierDiffers(x.fat, g.Limit(), es, |ds|, i);
        assert w.fat[es[i]] == UNUSED;
      }
    }
  }

  lemma EarlierDiffers(fat: seq<Word>, limit: nat, es: seq<nat>, n: nat, i: nat)
    requires IsChain(fat, limit, es) && n <= i < |es|
    ensures es[i] !in es[..n]
  {}

  /** One round of the write loop: the chunk lands in the file's bytes. */
  lemma WriteStep(g: Geometry, v: View, w: View, ds: seq<nat>, es: seq<nat>, size: nat, pos: nat,
                  k: nat, offset: nat, bytes: seq<byte>)
    requires Grown(g, v, w, ds, es) && IsChain(v.fat, g.Limit(), ds)
    requires ChainFits(|ds|, size, g.ClusterBytes()) && pos <= size && |bytes| > 0
    requires pos == Start(k, g.ClusterBytes()) + offset && offset + |bytes| <= g.ClusterBytes()
    requires k < |es| && |es| == if k < |ds| then |ds| else k + 1
    requires HasClusters(v.data, ds, g.ClusterBytes()) && HasClusters(w.data, es, g.ClusterBytes())
    ensures var size' := if pos + |bytes| > size then pos + |bytes| else size;
            var x := WroteAt(w, es[k], offset, bytes);
            && HasClusters(x.data, es, g.ClusterBytes())
            && ChainFits(|es|, size', g.ClusterBytes())
            && FileBytes(g, x, es, size') == Overwritten(FileBytes(g, v, ds, size), pos, bytes)
  {
    var cb := g.ClusterBytes();
    var all := Flatten(w.data, es, cb);
    GrownBytes(g, v, w, ds, es, size);
    assert forall i, j :: 0 <= i < j < |es| ==> es[i] != es[j];
    FlattenWrite(w.data, es, k, offset, bytes, cb);
    hide Flatten, Grown, IsChain, HasClusters;
    StartNext(k, cb);
    StartMono(k + 1, |es|, cb);
    if k < |ds| { StartMono(k, |ds| - 1, cb); }
    hide Start;
    SpliceOverwrites(all, size, pos, bytes);
  }

  /** Growing a chain keeps the bytes of the file in it. */
  lemma GrownBytes(g: Geometry, v: View, w: View, ds: seq<nat>, es: seq<nat>, size: nat)
    requires Grown(g, v, w, ds, es) && size <= Start(|ds|, g.ClusterBytes()) && IsChain(v.fat, g.Limit(), ds)
    requires HasClusters(v.data, ds, g.ClusterBytes()) && HasClusters(w.data, es, g.ClusterBytes())
    ensures size <= Start(|es|, g.ClusterBytes())
    ensures FileBytes(g, w, es, size) == FileBytes(g, v, ds, size)
  {
    var cb := g.ClusterBytes();
    FlattenPrefix(w.data, es, |ds|, cb);
    assert es[..|ds|] == ds;
    forall i | 0 <= i < |ds| ensures v.data[ds[i]] == w.data[ds[i]] {}
    FlattenSame(v.data, w.data, ds, cb);
    hide Start;
    assert Flatten(w.data, es, cb)[..size] == Flatten(w.data, es, cb)[..Start(|ds|, cb)][..size];
  }

  function MaxOf(a: nat, b: nat): nat { if a > b then a else b }

  /** The state of a write in progress: `size` bytes of `was` with `done` written at `start`. */
  ghost predicate Writing(g: Geometry, before: View, v: View, cs: seq<nat>, ds: seq<nat>,
                          was: seq<byte>, start: nat, done: seq<byte>)
  {
    && Touched(g, before, v, cs, ds)
    && HasClusters(v.data, ds, g.ClusterBytes())
    && start <= |was|
    && ChainFits(|ds|, MaxOf(|was|, start + |done|), g.ClusterBytes())
    && FileBytes(g, v, ds, MaxOf(|was|, start + |done|)) == Overwritten(was, start, done)
  }

  lemma WritingStart(g: Geometry, v: View, cs: seq<nat>, size: nat, start: nat)
    requires Shaped(g, v) && IsChain(v.fat, g.Limit(), cs) && ChainFits(|cs|, size, g.ClusterBytes()) && start <= size
    ensures HasClusters(v.data, cs, g.ClusterBytes()) && size <= Start(|cs|, g.ClusterBytes())
    ensures Writing(g, v, v, cs, cs, FileBytes(g, v, cs, size), start, [])
  {
    TouchedRefl(g, v, cs);
    OverwrittenNothing(FileBytes(g, v, cs, size), start);
  }

  lemma WritingStep(g: Geometry, before: View, v: View, w: View, cs: seq<nat>, ds: seq<nat>, es: seq<nat>,
                    was: seq<byte>, start: nat, done: seq<byte>, k: nat, offset: nat, bytes: seq<byte>)
    requires Writing(g, before, v, cs, ds, was, start, done) && Grown(g, v, w, ds, es) && |bytes| > 0
    requires start + |done| == Start(k, g.ClusterBytes()) + offset && offset + |bytes| <= g.ClusterBytes()
    requires k < |es| && |es| == if k < |ds| then |ds| else k + 1
    ensures es[k] < |w.data| && |w.data[es[k]]| == g.ClusterBytes()
    ensures Writing(g, before, WroteAt(w, es[k], offset, bytes), cs, es, was, start, done + bytes)
  {
    assert HasClusters(w.data, es, g.ClusterBytes()) by { ChainClusters(g, w, es); }
    TouchedStep(g, before, v, w, cs, ds, es, k, offset, bytes);
    WriteStep(g, v, w, ds, es, MaxOf(|was|, start + |done|), start + |done|, k, offset, bytes);
    OverwrittenMore(was, start, done, bytes);
  }

  lemma WritingFull(g: Geometry, before: View, v: View, w: View, cs: seq<nat>, ds: seq<nat>,
                    was: seq<byte>, start: nat, done: seq<byte>)
    requires Writing(g, before, v, cs, ds, was, start, done) && Grown(g, v, w, ds, ds)
    ensures Writing(g, before, w, cs, ds, was, start, done)
  {
    assert HasClusters(w.data, ds, g.ClusterBytes()) by { ChainClusters(g, w, ds); }
    TouchedGrown(g, before, v, w, cs, ds, ds);
    GrownBytes(g, v, w, ds, ds, MaxOf(|was|, start + |done|));
  }

  /** One round of the write loop: up to the end of a cluster. Without room it writes nothing. */
  method WriteRound(vol: Volume, desc: Descriptor, rest: seq<byte>,
                    ghost before: View, ghost cs: seq<nat>, ghost ds: seq<nat>,
                    ghost was: seq<byte>, ghost start: nat, ghost done: seq<byte>)
    returns (res: int, chunk: nat, ghost es: seq<nat>)
    requires vol.Valid() && desc as object !in vol.Parts() && vol.g.perCluster > 0
    requires Writing(vol.g, before, vol.V(), cs, ds, was, start, done)
    requires desc.pos == start + |done| && FirstCluster(desc.item) == First(ds) && rest != []
    modifies vol.Parts(), desc
    ensures vol.Valid() && vol.total == old(vol.total)
    ensures FirstCluster(desc.item) == First(es) && FileSize(desc.item) == old(FileSize(desc.item))
    ensures desc.item[..13] == old(desc.item[..13]) && desc.item[..18] == old(desc.item[..18])
    ensures res >= 0 ==> 0 < chunk <= |rest|
    ensures res < 0 ==> res == NO_MEMORY_ERROR && chunk == 0 && NoFreeCluster(vol.V().fat, vol.g.Limit())
                        && desc.pos == Start(|es|, vol.g.ClusterBytes())
    ensures desc.pos == start + |done| + chunk
    ensures Writing(vol.g, before, vol.V(), cs, es, was, start, done + rest[..chunk])
  {
    hide FlatOf, FatImage, RootImage, DataImage, Geometry.Limit, Geometry.Valid, IsChain, Grown;
    hide Start, Flatten, ClusterIndex, Touched, HasClusters, FirstCluster, FileSize, FileBytes;
    var cb := vol.g.ClusterBytes();
    ghost var v := vol.V();
    PosSplit(vol.g, desc.pos, |ds|);
    WritingChain(vol.g, before, v, cs, ds, was, start, done);
    var k := ClusterIndex(vol.g, desc.pos);
    var cluster, first;
    cluster, first, es := ClusterAt(vol, FirstCluster(desc.item), k, true, ds);
    ghost var w := vol.V();
    FirstSmall(vol.g, v, w, ds, es);
    SetFirstClusterGet(desc.item, first);
    desc.item := SetFirstCluster(desc.item, first);
    assert rest[..0] == [] && done + [] == done;
    if cluster < 0 {
      NoRoom(vol.g, v, w, ds, es, MaxOf(|was|, start + |done|), desc.pos, k);
      WritingFull(vol.g, before, v, w, cs, ds, was, start, done);
      return cluster, 0, es;
    }
    var offset := desc.pos % cb;
    chunk := cb - offset;
    if chunk > |rest| {
      chunk := |rest|;
    }
    WritingStep(vol.g, before, v, w, cs, ds, es, was, start, done, k, offset, rest[..chunk]);
    ClusterInRange(vol.g, v, w, ds, es, k);
    vol.WriteData(cluster, offset, rest[..chunk]);
    desc.pos := desc.pos + chunk;
    res := OK;
  }

  lemma WritingChain(g: Geometry, before: View, v: View, cs: seq<nat>, ds: seq<nat>, was: seq<byte>, start: nat,
                     done: seq<byte>)
    requires Writing(g, before, v, cs, ds, was, start, done)
    ensures IsChain(v.fat, g.Limit(), ds)
  {}

  lemma FirstSmall(g: Geometry, v: View, w: View, ds: seq<nat>, es: seq<nat>)
    requires Grown(g, v, w, ds, es)
    ensures First(es) < 0x10000
  {}

  lemma ClusterInRange(g: Geometry, v: View, w: View, ds: seq<nat>, es: seq<nat>, k: nat)
    requires Grown(g, v, w, ds, es) && k < |es|
    ensures 2 <= es[k] < g.Limit()
  {}

  /** When the disk is full, the position is at the end of the chain, which did not grow. */
  lemma NoRoom(g: Geometry, v: View, w: View, ds: seq<nat>, es: seq<nat>, size: nat, pos: nat, k: nat)
    requires g.perCluster > 0 && Grown(g, v, w, ds, es) && |es| <= k && k == ClusterIndex(g, pos)
    requires ChainFits(|ds|, size, g.ClusterBytes()) && pos <= size
    ensures es == ds && pos == Start(|ds|, g.ClusterBytes())
  {
    PosSplit(g, pos, |ds|);
    GrownChain(g, v, w, ds, es);
    hide Grown, Start, ClusterIndex;
    StartMono(|ds|, k, g.ClusterBytes());
    if |ds| < k {
      StartNext(|ds|, g.ClusterBytes());
      StartMono(|ds| + 1, k, g.ClusterBytes());
    }
  }

  /** The file with entry `item` is kept in chain `ds`, just long enough for it, and has these bytes. */
  ghost predicate Holds(g: Geometry, v: View, ds: seq<nat>, item: Item, bytes: seq<byte>) {
    && FirstCluster(item) == First(ds)
    && HasClusters(v.data, ds, g.ClusterBytes())
    && ChainFits(|ds|, FileSize(item), g.ClusterBytes())
    && FileBytes(g, v, ds, FileSize(item)) == bytes
  }

  lemma HoldsIntro(g: Geometry, before: View, v: View, cs: seq<nat>, ds: seq<nat>, was: seq<byte>, start: nat,
                   done: seq<byte>, item: Item)
    requires Writing(g, before, v, cs, ds, was, start, done)
    requires FirstCluster(item) == First(ds) && FileSize(item) == MaxOf(|was|, start + |done|)
    ensures Holds(g, v, ds, item, Overwritten(was, start, done))
  {}

  /** The rounds of `fat16_write`, until all is written or the disk is full. */
  method WriteRounds(vol: Volume, desc: Descriptor, input: seq<byte>,
                     ghost before: View, ghost cs: seq<nat>, ghost was: seq<byte>)
    returns (res: int, ghost ds: seq<nat>)
    requires vol.Valid() && desc as object !in vol.Parts() && vol.g.perCluster > 0
    requires Writing(vol.g, before, vol.V(), cs, cs, was, desc.pos, []) && FirstCluster(desc.item) == First(cs)
    modifies vol.Parts(), desc
    ensures vol.Valid() && vol.total == old(vol.total)
    ensures FirstCluster(desc.item) == First(ds) && FileSize(desc.item) == old(FileSize(desc.item))
    ensures desc.item[..13] == old(desc.item[..13]) && desc.item[..18] == old(desc.item[..18])
    ensures old(desc.pos) <= desc.pos <= old(desc.pos) + |input|
    ensures Writing(vol.g, before, vol.V(), cs, ds, was, old(desc.pos), input[..desc.pos - old(desc.pos)])
    ensures res >= 0 ==> desc.pos == old(desc.pos) + |input|
    ensures res < 0 ==> res == NO_MEMORY_ERROR && NoFreeCluster(vol.V().fat, vol.g.Limit())
                        && desc.pos < old(desc.pos) + |input| && desc.pos == Start(|ds|, vol.g.ClusterBytes())
  {
    hide FlatOf, FatImage, RootImage, DataImage, Geometry.Limit, Geometry.Valid;
    hide Start, FirstCluster, FileSize, Writing, NoFreeCluster, Volume.Valid, Volume.V;
    ds := cs;
    var written := 0;
    res := OK;
    assert input[..0] == [];
    while written < |input|
      invariant 0 <= written <= |input| && desc.pos == old(desc.pos) + written && res >= 0
      invariant vol.Valid() && vol.total == old(vol.total)
      invariant FirstCluster(desc.item) == First(ds) && FileSize(desc.item) == old(FileSize(desc.item))
      invariant desc.item[..13] == old(desc.item[..13]) && desc.item[..18] == old(desc.item[..18])
      invariant Writing(vol.g, before, vol.V(), cs, ds, was, old(desc.pos), input[..written])
      decreases |input| - written
    {
      var chunk;
      res, chunk, ds := WriteRound(vol, desc, input[written..], before, cs, ds, was, old(desc.pos), input[..written]);
      assert input[..written] + input[written..][..chunk] == input[..written + chunk];
      if res < 0 {
        return;
      }
      written := written + chunk;
    }
  }

  lemma ModifiedSince(a: Item, b: Item, c: Item, date: Word, time: Word)
    requires b[..18] == a[..18] && Modified(b, c, date, time)
    ensures Modified(a, c, date, time)
  {}

  /** The directory entry after a write: the new size if the file grew, and the time. */
  method UpdateEntry(vol: Volume, desc: Descriptor, date: Word, time: Word, ghost slot: Slot)
    requires vol.Valid() && desc as object !in vol.Parts() && desc.pos < 0x80000000
    requires SlotExists(vol.g, slot) && desc.entryPos == SlotPos(vol.g, slot) && desc.item[0] != 0
    requires slot.RootSlot? ==> slot.idx < vol.total
    modifies vol.Parts() - {vol.fat}, desc`item
    ensures vol.Valid() && vol.total == old(vol.total) && vol.V() == SetEntry(vol.g, old(vol.V()), slot, desc.item)
    ensures FirstCluster(desc.item) == old(FirstCluster(desc.item))
    ensures FileSize(desc.item) == MaxOf(old(FileSize(desc.item)), desc.pos)
    ensures desc.item[..13] == old(desc.item[..13]) && Modified(old(desc.item), desc.item, date, time)
  {
    hide FlatOf, FatImage, RootImage, DataImage, Geometry.Limit, Geometry.Valid, Modified;
    hide FirstCluster, FileSize, SetFileSize, StampModified, SetEntry, SlotPos, SlotExists;
    if desc.pos > FileSize(desc.item) {
      SetFileSizeGet(desc.item, desc.pos);
      desc.item := SetFileSize(desc.item, desc.pos);
    }
    StampGet(desc.item, date, time);
    ModifiedSince(old(desc.item), desc.item, StampModified(desc.item, date, time), date, time);
    desc.item := StampModified(desc.item, date, time);
    assert desc.item[0] == desc.item[..13][0] == old(desc.item[..13])[0] == old(desc.item[0]);
    vol.WriteDirEntry(desc.entryPos, desc.item, slot);
  }

  /** The outcome of `fat16_write` from `v` to `w`, with `mid` before the directory entry is written:
      the bytes of `input` up to the new position overwrite the file from the old one on, growing
      its chain `cs` to `ds`; all of them if `res` is not an error, and otherwise up to the end of
      the last cluster with no cluster left on the disk. */
  ghost predicate Wrote(g: Geometry, v: View, mid: View, w: View, cs: seq<nat>, ds: seq<nat>, slot: Slot,
                        was: Item, item: Item, start: nat, pos: nat, input: seq<byte>, res: int, nmemb: nat)
  {
    && Touched(g, v, mid, cs, ds) && SlotExists(g, slot) && w == SetEntry(g, mid, slot, item)
    && item[..13] == was[..13]
    && start <= pos <= start + |input| && start <= FileSize(was)
    && HasClusters(v.data, cs, g.ClusterBytes()) && FileSize(was) <= Start(|cs|, g.ClusterBytes())
    && Holds(g, mid, ds, item, Overwritten(FileBytes(g, v, cs, FileSize(was)), start, input[..pos - start]))
    && (res >= 0 ==> res == nmemb && pos == start + |input|)
    && (res < 0 ==> res == NO_MEMORY_ERROR && NoFreeCluster(mid.fat, g.Limit())
                    && pos < start + |input| && pos == Start(|ds|, g.ClusterBytes()))
  }

  method WriteOpen(vol: Volume, desc: Descriptor, nmemb: nat, input: seq<byte>, date: Word, time: Word,
                   ghost cs: seq<nat>, ghost slot: Slot)
    returns (res: int, ghost ds: seq<nat>, ghost mid: View)
    requires vol.Valid() && desc as object !in vol.Parts() && desc.Opens(vol.g, vol.V(), cs)
    requires SlotExists(vol.g, slot) && desc.entryPos == SlotPos(vol.g, slot) && desc.item[0] != 0
    requires slot.RootSlot? ==> slot.idx < vol.total
    modifies vol.Parts(), desc
    ensures vol.Valid() && vol.total == old(vol.total)
    ensures Wrote(vol.g, old(vol.V()), mid, vol.V(), cs, ds, slot, old(desc.item), desc.item,
                  old(desc.pos), desc.pos, input, res, nmemb)
    ensures Modified(old(desc.item), desc.item, date, time)
  {
    hide FlatOf, FatImage, RootImage, DataImage, Geometry.Limit, Geometry.Valid, IsChain, NoFreeCluster;
    hide Start, Flatten, Touched, HasClusters, FirstCluster, FileSize, FileBytes, Writing, SetEntry, SlotPos;
    hide SlotExists;
    hide ChainFits, Overwritten, Holds, Volume.Valid, Volume.V, Shaped, Modified;
    ghost var before := vol.V();
    ghost var start, item := desc.pos, desc.item;
    PositiveCluster(vol.g, before);
    WritingStart(vol.g, before, cs, FileSize(desc.item), start);
    ghost var was := FileBytes(vol.g, before, cs, FileSize(desc.item));
    res, ds := WriteRounds(vol, desc, input, before, cs, was);
    mid := vol.V();
    WritingDone(vol.g, before, mid, cs, ds, was, start, input[..desc.pos - start]);
    NameKept(desc.item, item);
    ghost var grown := desc.item;
    UpdateEntry(vol, desc, date, time, slot);
    ModifiedSince(item, grown, desc.item, date, time);
    HoldsIntro(vol.g, before, mid, cs, ds, was, start, input[..desc.pos - start], desc.item);
    if res >= 0 {
      res := nmemb;
    }
  }

  /** `fat16_write`: refused on a file open for reading. */
  method Write(vol: Volume, desc: Descriptor, size: nat, nmemb: nat, input: seq<byte>, date: Word, time: Word,
               ghost cs: seq<nat>, ghost slot: Slot)
    returns (res: int, ghost ds: seq<nat>, ghost mid: View)
    requires vol.Valid() && desc as object !in vol.Parts() && desc.Opens(vol.g, vol.V(), cs)
    requires |input| == size * nmemb < 0x100000000
    requires SlotExists(vol.g, slot) && desc.entryPos == SlotPos(vol.g, slot) && desc.item[0] != 0
    requires slot.RootSlot? ==> slot.idx < vol.total
    modifies vol.Parts(), desc
    ensures vol.Valid() && vol.total == old(vol.total)
    ensures desc.mode.ReadMode? ==> res == INVALID_ARG_ERROR && vol.V() == old(vol.V()) && desc.pos == old(desc.pos)
    ensures !desc.mode.ReadMode? ==>
              Wrote(vol.g, old(vol.V()), mid, vol.V(), cs, ds, slot, old(desc.item), desc.item,
                    old(desc.pos), desc.pos, input, res, nmemb)
              && Modified(old(desc.item), desc.item, date, time)
  {
    hide Wrote, Modified, Volume.Valid, Volume.V, SlotExists, SlotPos;
    if desc.mode.ReadMode? {
      res, ds, mid := INVALID_ARG_ERROR, cs, vol.V();
    } else {
      res, ds, mid := WriteOpen(vol, desc, nmemb, input, date, time, cs, slot);
    }
  }

  lemma NameKept(a: Item, b: Item)
    requires a[..13] == b[..13]
    ensures a[0] == b[0]
  {
    assert a[0] == a[..13][0];
  }

  lemma WritingDone(g: Geometry, before: View, v: View, cs: seq<nat>, ds: seq<nat>, was: seq<byte>, start: nat,
                    done: seq<byte>)
    requires Writing(g, before, v, cs, ds, was, start, done)
    ensures Touched(g, before, v, cs, ds) && MaxOf(|was|, start + |done|) < 0x80000000
  {
    ChainLength(v.fat, g, ds);
  }
}
