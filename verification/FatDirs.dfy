// Directories as sequences of entries: the root directory and the chains of subdirectories.
module FatDirs {
  import opened FatLayout
  import opened FatVolume
  import opened FatItems
  import opened FatChains
  import opened FatContent
  import opened FatFiles
  import opened FatFsck

  datatype Dir = RootDir | SubDir(slot: Slot)

  /** Entry `k` of a directory kept in chain `cs`. */
  ghost function DirSlot(g: Geometry, cs: seq<nat>, k: nat): Slot
    requires g.perCluster > 0 && k < Start(|cs|, g.PerCluster())
  {
    IndexSplit(k, g.PerCluster());
    IndexBelow(k, |cs|, g.PerCluster());
    ClusterSlot(cs[IndexIn(k, g.PerCluster())], k % g.PerCluster())
  }

  lemma IndexBelow(k: nat, n: nat, size: nat)
    requires size > 0
    ensures k < Start(n, size) <==> IndexIn(k, size) < n
  {
    IndexSplit(k, size);
    hide Start;
    if IndexIn(k, size) >= n {
      StartMono(n, IndexIn(k, size), size);
    } else {
      StartNext(IndexIn(k, size), size);
      StartMono(IndexIn(k, size) + 1, n, size);
    }
  }

  ghost predicate ChainInRange(g: Geometry, cs: seq<nat>) {
    && (forall i :: 0 <= i < |cs| ==> 2 <= cs[i] < g.Limit())
    && (forall i, j :: 0 <= i < j < |cs| ==> cs[i] != cs[j])
  }

  lemma DirSlotExists(g: Geometry, cs: seq<nat>, k: nat)
    requires g.Valid() && ChainInRange(g, cs) && k < Start(|cs|, g.PerCluster())
    ensures SlotExists(g, DirSlot(g, cs, k)) && DirSlot(g, cs, k).ClusterSlot? && DirSlot(g, cs, k).cluster in cs
  {
    IndexSplit(k, g.PerCluster());
    IndexBelow(k, |cs|, g.PerCluster());
  }

  /** Different indices are different slots. */
  lemma DirSlotInjective(g: Geometry, cs: seq<nat>, j: nat, k: nat)
    requires g.perCluster > 0 && ChainInRange(g, cs) && j < Start(|cs|, g.PerCluster())
    requires k < Start(|cs|, g.PerCluster())
    requires DirSlot(g, cs, j) == DirSlot(g, cs, k)
    ensures j == k
  {
    IndexSplit(j, g.PerCluster());
    IndexSplit(k, g.PerCluster());
    IndexBelow(j, |cs|, g.PerCluster());
    IndexBelow(k, |cs|, g.PerCluster());
  }

  /** Every slot of a cluster of the chain has an index. */
  lemma DirSlotIndex(g: Geometry, cs: seq<nat>, s: Slot) returns (k: nat)
    requires g.Valid() && s.ClusterSlot? && s.cluster in cs && s.idx < g.PerCluster()
    requires ChainInRange(g, cs)
    ensures k < Start(|cs|, g.PerCluster()) && DirSlot(g, cs, k) == s
  {
    var per := g.PerCluster();
    var i :| 0 <= i < |cs| && cs[i] == s.cluster;
    k := Start(i, per) + s.idx;
    StartNext(i, per);
    StartMono(i + 1, |cs|, per);
    IndexSplit(k, per);
    IndexUnique(k, per, i, s.idx);
  }

  lemma IndexUnique(k: nat, size: nat, q: nat, r: nat)
    requires size > 0 && k == Start(q, size) + r && r < size
    ensures IndexIn(k, size) == q && k % size == r
  {
    IndexSplit(k, size);
    var p := IndexIn(k, size);
    hide Start;
    if p < q {
      StartNext(p, size);
      StartMono(p + 1, q, size);
    } else if q < p {
      StartNext(q, size);
      StartMono(q + 1, p, size);
    }
  }

  /** All entries of a directory kept in chain `cs`. */
  ghost function DirItems(g: Geometry, v: View, cs: seq<nat>): (r: seq<Item>)
    requires Shaped(g, v) && ChainInRange(g, cs)
    ensures |r| == Start(|cs|, g.PerCluster())
  {
    seq(Start(|cs|, g.PerCluster()), k requires 0 <= k < Start(|cs|, g.PerCluster()) =>
      (DirSlotExists(g, cs, k); EntryAt(g, v, DirSlot(g, cs, k))))
  }

  lemma ChainIsInRange(g: Geometry, fat: seq<Word>, cs: seq<nat>)
    requires IsChain(fat, g.Limit(), cs)
    ensures ChainInRange(g, cs)
  {}

  /** Entry `k` is bytes 32 k to 32 k + 31 of the chain. */
  lemma ItemOfBytes(g: Geometry, v: View, cs: seq<nat>, k: nat)
    requires Shaped(g, v) && ChainInRange(g, cs) && k < Start(|cs|, g.PerCluster())
    requires HasClusters(v.data, cs, g.ClusterBytes())
    ensures 32 * k + 32 <= Start(|cs|, g.ClusterBytes())
    ensures Flatten(v.data, cs, g.ClusterBytes())[32 * k..32 * k + 32] == DirItems(g, v, cs)[k]
  {
    IndexSplit(k, g.PerCluster());
    IndexBelow(k, |cs|, g.PerCluster());
    ItemOfParts(g, v, cs, k, IndexIn(k, g.PerCluster()), k % g.PerCluster());
  }

  lemma ItemOfParts(g: Geometry, v: View, cs: seq<nat>, k: nat, q: nat, r: nat)
    requires Shaped(g, v) && ChainInRange(g, cs) && k < Start(|cs|, g.PerCluster())
    requires HasClusters(v.data, cs, g.ClusterBytes())
    requires q < |cs| && r < g.PerCluster() && k == Start(q, g.PerCluster()) + r
    requires DirSlot(g, cs, k) == ClusterSlot(cs[q], r)
    ensures 32 * k + 32 <= Start(|cs|, g.ClusterBytes())
    ensures Flatten(v.data, cs, g.ClusterBytes())[32 * k..32 * k + 32] == DirItems(g, v, cs)[k]
  {
    hide Start, IndexIn, Flatten, DirSlot, ChainInRange;
    DirSlotExists(g, cs, k);
    SameScale(g, q);
    FlattenSlice(v.data, cs, q, 32 * r, 32, g.ClusterBytes());
  }

  lemma SameScale(g: Geometry, q: nat)
    ensures Start(q, g.ClusterBytes()) == 32 * Start(q, g.PerCluster())
  {}

  // ---- how entries change ----

  /** Setting entry `k` of a directory is an update of its entries. */
  lemma SetDirItem(g: Geometry, v: View, cs: seq<nat>, k: nat, item: Item)
    requires Shaped(g, v) && ChainInRange(g, cs) && k < Start(|cs|, g.PerCluster())
    ensures SlotExists(g, DirSlot(g, cs, k))
    ensures DirItems(g, SetEntry(g, v, DirSlot(g, cs, k), item), cs) == DirItems(g, v, cs)[k := item]
  {
    DirSlotExists(g, cs, k);
    var s := DirSlot(g, cs, k);
    var w := SetEntry(g, v, s, item);
    hide EntryAt, SetEntry, Start;
    forall j | 0 <= j < Start(|cs|, g.PerCluster())
      ensures DirItems(g, w, cs)[j] == if j == k then item else DirItems(g, v, cs)[j]
    {
      DirSlotExists(g, cs, j);
      SetEntryGet(g, v, s, item, DirSlot(g, cs, j));
      if DirSlot(g, cs, j) == s { DirSlotInjective(g, cs, j, k); }
    }
  }

  /** A slot outside the chain is no entry of it. */
  lemma SetOtherDir(g: Geometry, v: View, cs: seq<nat>, s: Slot, item: Item)
    requires Shaped(g, v) && ChainInRange(g, cs) && SlotExists(g, s)
    requires s.ClusterSlot? ==> s.cluster !in cs
    ensures DirItems(g, SetEntry(g, v, s, item), cs) == DirItems(g, v, cs)
  {
    var w := SetEntry(g, v, s, item);
    hide EntryAt, SetEntry, Start;
    forall j | 0 <= j < Start(|cs|, g.PerCluster()) ensures DirItems(g, w, cs)[j] == DirItems(g, v, cs)[j] {
      DirSlotExists(g, cs, j);
      SetEntryGet(g, v, s, item, DirSlot(g, cs, j));
    }
  }

  lemma SameDirItems(g: Geometry, v: View, w: View, cs: seq<nat>)
    requires Shaped(g, v) && Shaped(g, w) && ChainInRange(g, cs)
    requires forall i :: 0 <= i < |cs| ==> w.data[cs[i]] == v.data[cs[i]]
    ensures DirItems(g, w, cs) == DirItems(g, v, cs)
  {
    hide Start;
    forall j | 0 <= j < Start(|cs|, g.PerCluster()) ensures DirItems(g, w, cs)[j] == DirItems(g, v, cs)[j] {
      DirSlotExists(g, cs, j);
    }
  }

  ghost function EndItems(n: nat): (r: seq<Item>)
    ensures |r| == n
  {
    seq(n, _ => seq(32, _ => 0))
  }

  /** A directory that grows gets end markers after its entries. */
  lemma GrownDirItems(g: Geometry, v: View, w: View, cs: seq<nat>, ds: seq<nat>)
    requires Grown(g, v, w, cs, ds) && ChainInRange(g, cs) && ChainInRange(g, ds)
    ensures Start(|cs|, g.PerCluster()) <= Start(|ds|, g.PerCluster())
    ensures DirItems(g, w, ds) == DirItems(g, v, cs)
            + EndItems(Start(|ds|, g.PerCluster()) - Start(|cs|, g.PerCluster()))
  {
    var per := g.PerCluster();
    StartMono(|cs|, |ds|, per);
    forall k | 0 <= k < Start(|ds|, per)
      ensures DirItems(g, w, ds)[k] == if k < Start(|cs|, per) then DirItems(g, v, cs)[k] else seq(32, _ => 0)
    {
      GrownDirItem(g, v, w, cs, ds, k);
    }
  }

  lemma GrownDirItem(g: Geometry, v: View, w: View, cs: seq<nat>, ds: seq<nat>, k: nat)
    requires Grown(g, v, w, cs, ds) && ChainInRange(g, cs) && ChainInRange(g, ds) && k < Start(|ds|, g.PerCluster())
    ensures DirItems(g, w, ds)[k] == if k < Start(|cs|, g.PerCluster()) then DirItems(g, v, cs)[k] else seq(32, _ => 0)
  {
    var per := g.PerCluster();
    IndexSplit(k, per);
    IndexBelow(k, |ds|, per);
    IndexBelow(k, |cs|, per);
    DirSlotExists(g, ds, k);
    hide Start, IsChain;
    var i := IndexIn(k, per);
    if i < |cs| {
      assert ds[i] == cs[i] && cs[i] in cs;
    } else {
      assert w.data[ds[i]] == Zeros(g.ClusterBytes());
    }
  }

  // ---- directories of a consistent volume ----

  ghost predicate IsListed(g: Geometry, v: View, t: Tree, d: Dir)
    requires Shaped(g, v) && TreeShape(g, t)
  {
    d.SubDir? ==> d.slot in t.chains && IsDirectory(EntryAt(g, v, d.slot)) && ChainInRange(g, t.chains[d.slot])
  }

  /** All entries of directory `d`, up to the end of its room. */
  ghost function AllItems(g: Geometry, v: View, t: Tree, d: Dir): seq<Item>
    requires Shaped(g, v) && TreeShape(g, t) && IsListed(g, v, t, d)
  {
    if d.RootDir? then v.root else DirItems(g, v, t.chains[d.slot])
  }

  ghost function SlotOf(g: Geometry, v: View, t: Tree, d: Dir, k: nat): (s: Slot)
    requires Shaped(g, v) && TreeShape(g, t) && IsListed(g, v, t, d) && k < |AllItems(g, v, t, d)|
    ensures SlotExists(g, s)
  {
    if d.RootDir? then RootSlot(k) else (DirSlotExists(g, t.chains[d.slot], k); DirSlot(g, t.chains[d.slot], k))
  }

  /** In every directory nothing follows the first end marker. */
  ghost predicate EndsOk(g: Geometry, v: View, t: Tree)
    requires Shaped(g, v) && TreeShape(g, t)
  {
    && EndsOnce(v.root)
    && forall s :: s in t.chains && IsDirectory(EntryAt(g, v, s)) ==>
         ChainInRange(g, t.chains[s]) && EndsOnce(DirItems(g, v, t.chains[s]))
  }

  /** `depth` falls on the way from an entry to the directory it is in: there are no directories
      that only list each other. */
  ghost predicate Rooted(t: Tree, depth: map<Slot, nat>) {
    forall s :: s in t.chains ==>
      && s in depth
      && (s.ClusterSlot? ==> s.cluster in t.owner && t.owner[s.cluster] in t.chains && t.owner[s.cluster] in depth
                             && depth[t.owner[s.cluster]] < depth[s])
  }

  ghost predicate HasRoot(t: Tree) { exists depth :: Rooted(t, depth) }

  /** The directory that lists an entry, that lists this directory, and so on. */
  ghost function Ancestor(t: Tree, s: Slot, n: nat): Slot
    decreases n
  {
    if n == 0 || s.RootSlot? || s.cluster !in t.owner then s else Ancestor(t, t.owner[s.cluster], n - 1)
  }

  /** Every listed file and directory is reached from the root directory. */
  lemma {:induction false} ReachesRoot(t: Tree, depth: map<Slot, nat>, s: Slot)
    requires Rooted(t, depth) && s in t.chains
    ensures Ancestor(t, s, depth[s]).RootSlot?
    decreases depth[s]
  {
    if s.ClusterSlot? {
      var p := t.owner[s.cluster];
      ReachesRoot(t, depth, p);
      AncestorAtRoot(t, p, depth[p], depth[s] - 1);
    }
  }

  lemma {:induction false} AncestorAtRoot(t: Tree, s: Slot, m: nat, n: nat)
    requires Ancestor(t, s, m).RootSlot? && m <= n
    ensures Ancestor(t, s, n).RootSlot?
    decreases n
  {
    if s.ClusterSlot? && s.cluster in t.owner && m > 0 {
      AncestorAtRoot(t, t.owner[s.cluster], m - 1, n - 1);
    }
  }

  lemma RootedOwned(t: Tree, s: Slot, cs: seq<nat>)
    requires HasRoot(t)
    requires forall c :: c in cs && c in t.owner ==> t.owner[c] == s
    requires s.ClusterSlot? ==> s.cluster in t.owner && t.owner[s.cluster] in t.chains
    requires s.ClusterSlot? && s !in t.chains ==> s.cluster !in cs
    requires forall c :: c in t.owner ==> t.owner[c] in t.chains
    ensures HasRoot(Owned(t, s, cs))
  {
    var depth :| Rooted(t, depth);
    OwnedFacts(t, s, cs);
    hide Owned;
    var deeper := if s in t.chains then depth
                  else depth[s := if s.ClusterSlot? then depth[t.owner[s.cluster]] + 1 else 0];
    assert Rooted(Owned(t, s, cs), deeper);
  }

  lemma RootedDisowned(t: Tree, s: Slot)
    requires HasRoot(t) && s in t.chains
    requires forall u :: u in t.chains && u != s && u.ClusterSlot? && u.cluster in t.owner ==> t.owner[u.cluster] != s
    ensures HasRoot(Disowned(t, s))
  {
    var depth :| Rooted(t, depth);
    DisownedFacts(t, s);
    hide Disowned;
    assert Rooted(Disowned(t, s), depth);
  }

  /** The volume passes the check, save for the chain `pending`: every cluster in use is accounted
      for, every listed item is reached from the root, and directories end properly. */
  ghost predicate Consistent(g: Geometry, v: View, t: Tree, pending: seq<nat>) {
    FsckBut(g, v, t, pending) && EndsOk(g, v, t) && HasRoot(t)
  }

  lemma SlotOfEntry(g: Geometry, v: View, t: Tree, d: Dir, k: nat)
    requires Shaped(g, v) && TreeShape(g, t) && IsListed(g, v, t, d) && k < |AllItems(g, v, t, d)|
    ensures EntryAt(g, v, SlotOf(g, v, t, d, k)) == AllItems(g, v, t, d)[k]
    ensures InDirectory(g, v, t, SlotOf(g, v, t, d, k))
  {
    if d.SubDir? {
      DirSlotExists(g, t.chains[d.slot], k);
      var c := DirSlot(g, t.chains[d.slot], k).cluster;
      var i :| 0 <= i < |t.chains[d.slot]| && t.chains[d.slot][i] == c;
    }
  }

  /** The live entries of a directory are just those the tree lists in it. */
  lemma ListedIff(g: Geometry, v: View, t: Tree, pending: seq<nat>, d: Dir, k: nat)
    requires FsckBut(g, v, t, pending) && IsListed(g, v, t, d) && k < |AllItems(g, v, t, d)|
    ensures SlotOf(g, v, t, d, k) in t.chains <==> Live(AllItems(g, v, t, d)[k])
  {
    SlotOfEntry(g, v, t, d, k);
    hide IsChain, EntriesOk, UsedOk, Live, SlotOf, AllItems, EntryAt;
  }

  lemma EndsOnceSet(items: seq<Item>, k: nat, item: Item)
    requires EndsOnce(items) && k < |items| && item[0] != 0
    requires forall j :: 0 <= j < k ==> items[j][0] != 0
    ensures EndsOnce(items[k := item])
  {}

  ghost predicate NoEndBefore(items: seq<Item>, k: nat) {
    k <= |items| && forall j :: 0 <= j < k ==> items[j][0] != 0
  }

  /** Setting an entry not past the end marker keeps all directories ending properly, and changes
      the entries of just this one. */
  lemma SetEndsOk(g: Geometry, v: View, t: Tree, o: Tree, d: Dir, k: nat, item: Item)
    requires Shaped(g, v) && TreeShape(g, t) && TreeShape(g, o) && EndsOk(g, v, t) && IsListed(g, v, t, d)
    requires k < |AllItems(g, v, t, d)| && NoEndBefore(AllItems(g, v, t, d), k) && item[0] != 0
    requires var s := SlotOf(g, v, t, d, k);
             && (forall u :: u in o.chains && u != s ==> u in t.chains && o.chains[u] == t.chains[u])
             && (s in o.chains && IsDirectory(item) ==>
                   && ChainInRange(g, o.chains[s]) && EndsOnce(DirItems(g, v, o.chains[s]))
                   && (s.ClusterSlot? ==> s.cluster !in o.chains[s]))
    ensures EndsOk(g, SetEntry(g, v, SlotOf(g, v, t, d, k), item), o)
  {
    var s := SlotOf(g, v, t, d, k);
    var w := SetEntry(g, v, s, item);
    SlotOfEntry(g, v, t, d, k);
    OtherEntries(g, v, s, item);
    if d.RootDir? { EndsOnceSet(v.root, k, item); }
    forall u | u in o.chains && IsDirectory(EntryAt(g, w, u))
      ensures ChainInRange(g, o.chains[u]) && EndsOnce(DirItems(g, w, o.chains[u]))
    {
      SetEndsDir(g, v, t, o, d, k, item, u);
    }
  }

  lemma SetEndsDir(g: Geometry, v: View, t: Tree, o: Tree, d: Dir, k: nat, item: Item, u: Slot)
    requires Shaped(g, v) && TreeShape(g, t) && TreeShape(g, o) && EndsOk(g, v, t) && IsListed(g, v, t, d)
    requires k < |AllItems(g, v, t, d)| && NoEndBefore(AllItems(g, v, t, d), k) && item[0] != 0
    requires u in o.chains && IsDirectory(EntryAt(g, SetEntry(g, v, SlotOf(g, v, t, d, k), item), u))
    requires var s := SlotOf(g, v, t, d, k);
             if u != s then u in t.chains && o.chains[u] == t.chains[u]
             else
               && ChainInRange(g, o.chains[s]) && EndsOnce(DirItems(g, v, o.chains[s]))
               && (s.ClusterSlot? ==> s.cluster !in o.chains[s])
    ensures ChainInRange(g, o.chains[u])
    ensures EndsOnce(DirItems(g, SetEntry(g, v, SlotOf(g, v, t, d, k), item), o.chains[u]))
  {
    hide IsDirectory, SlotExists, EndsOnce, EntryAt, SetEntry, DirItems, DirSlot, ChainInRange;
    var s := SlotOf(g, v, t, d, k);
    OtherEntries(g, v, s, item);
    if u == s {
      SetOtherDir(g, v, o.chains[s], s, item);
    } else if d == SubDir(u) {
      SetDirItem(g, v, t.chains[u], k, item);
      EndsOnceSet(DirItems(g, v, t.chains[u]), k, item);
    } else {
      NotOf(g, v, t, d, k, u);
      SetOtherDir(g, v, t.chains[u], s, item);
    }
  }

  /** A slot of one directory is in no cluster of another entry. */
  lemma NotOf(g: Geometry, v: View, t: Tree, d: Dir, k: nat, u: Slot)
    requires Shaped(g, v) && TreeShape(g, t) && IsListed(g, v, t, d) && k < |AllItems(g, v, t, d)|
    requires u in t.chains && d != SubDir(u)
    ensures SlotOf(g, v, t, d, k).ClusterSlot? ==> SlotOf(g, v, t, d, k).cluster !in t.chains[u]
  {
    if d.SubDir? {
      DirSlotExists(g, t.chains[d.slot], k);
      var c := DirSlot(g, t.chains[d.slot], k).cluster;
      var i :| 0 <= i < |t.chains[d.slot]| && t.chains[d.slot][i] == c;
      assert t.owner[c] == d.slot;
    }
  }

  /** The directory's own view after entry `k` is set. */
  lemma SetAllItems(g: Geometry, v: View, t: Tree, d: Dir, k: nat, item: Item)
    requires Shaped(g, v) && TreeShape(g, t) && IsListed(g, v, t, d) && k < |AllItems(g, v, t, d)|
    requires d.SubDir? ==> SlotOf(g, v, t, d, k) != d.slot
    ensures var w := SetEntry(g, v, SlotOf(g, v, t, d, k), item);
            IsListed(g, w, t, d) && AllItems(g, w, t, d) == AllItems(g, v, t, d)[k := item]
  {
    OtherEntries(g, v, SlotOf(g, v, t, d, k), item);
    if d.SubDir? { SetDirItem(g, v, t.chains[d.slot], k, item); }
  }

  /** No directory lists itself. */
  lemma NotItsOwn(g: Geometry, v: View, t: Tree, pending: seq<nat>, d: Dir, k: nat, item: Item)
    requires FsckBut(g, v, t, pending) && IsListed(g, v, t, d) && k < |AllItems(g, v, t, d)|
    requires !Live(AllItems(g, v, t, d)[k])
    ensures d.SubDir? ==> SlotOf(g, v, t, d, k) != d.slot
  {
    ListedIff(g, v, t, pending, d, k);
  }

  /** A part of a long name, or a deleted item, in a free entry. */
  lemma SetIdle(g: Geometry, v: View, t: Tree, pending: seq<nat>, d: Dir, k: nat, item: Item)
    requires Consistent(g, v, t, pending) && IsListed(g, v, t, d) && k < |AllItems(g, v, t, d)|
    requires NoEndBefore(AllItems(g, v, t, d), k) && item[0] != 0
    requires !Live(item) && !Live(AllItems(g, v, t, d)[k])
    ensures var w := SetEntry(g, v, SlotOf(g, v, t, d, k), item);
            && Consistent(g, w, t, pending) && IsListed(g, w, t, d)
            && AllItems(g, w, t, d) == AllItems(g, v, t, d)[k := item]
  {
    hide SlotsOk, EntriesOk, UsedOk, EndsOk, IsChain, SlotOf, AllItems, Live, SetEntry, IsListed, EntryAt, TreeShape;
    var s := SlotOf(g, v, t, d, k);
    ListedIff(g, v, t, pending, d, k);
    NotItsOwn(g, v, t, pending, d, k, item);
    KeepIdleEntry(g, v, t, pending, s, item);
    SetEndsOk(g, v, t, t, d, k, item);
    SetAllItems(g, v, t, d, k, item);
  }

  ghost predicate NewDirectory(g: Geometry, v: View, cs: seq<nat>)
    requires Shaped(g, v)
  {
    && ChainInRange(g, cs) && EndsOnce(DirItems(g, v, cs))
    && forall k :: 0 <= k < |DirItems(g, v, cs)| ==> !Live(DirItems(g, v, cs)[k])
  }

  /** A new file or directory in a free entry, kept in the pending chain. */
  lemma SetListed(g: Geometry, v: View, t: Tree, pending: seq<nat>, d: Dir, k: nat, item: Item)
    requires Consistent(g, v, t, pending) && IsListed(g, v, t, d) && k < |AllItems(g, v, t, d)|
    requires NoEndBefore(AllItems(g, v, t, d), k)
    requires Live(item) && EntryOk(g, v, item, pending) && !Live(AllItems(g, v, t, d)[k])
    requires IsDirectory(item) ==> NewDirectory(g, v, pending)
    ensures var s := SlotOf(g, v, t, d, k);
            var w, o := SetEntry(g, v, s, item), Owned(t, s, pending);
            && s !in t.chains && Consistent(g, w, o, []) && IsListed(g, w, o, d)
            && AllItems(g, w, o, d) == AllItems(g, v, t, d)[k := item]
  {
    hide SlotsOk, EntriesOk, UsedOk, EndsOk, IsChain, SlotOf, AllItems, SetEntry, IsListed, EntryAt, TreeShape;
    hide Owned, InDirectory, SlotExists, EntryOk, HasRoot;
    var s := SlotOf(g, v, t, d, k);
    var o := Owned(t, s, pending);
    ListedIff(g, v, t, pending, d, k);
    NotItsOwn(g, v, t, pending, d, k, item);
    SlotOfEntry(g, v, t, d, k);
    SlotNotPending(g, v, t, pending, s);
    if IsDirectory(item) { NothingListed(g, v, pending); }
    KeepListed(g, v, t, pending, s, item);
    OwnedFacts(t, s, pending);
    ListedRoot(g, v, t, pending, s);
    SetEndsOk(g, v, t, o, d, k, item);
    SetAllItems(g, v, t, d, k, item);
    SameListing(g, SetEntry(g, v, s, item), t, o, d);
  }

  lemma ListedRoot(g: Geometry, v: View, t: Tree, pending: seq<nat>, s: Slot)
    requires Shaped(g, v) && TreeShape(g, t) && UsedOk(g, v, t, pending) && HasRoot(t)
    requires InDirectory(g, v, t, s) && s !in t.chains
    ensures HasRoot(Owned(t, s, pending))
  {
    hide IsChain, HasRoot;
    RootedOwned(t, s, pending);
  }

  lemma SameListing(g: Geometry, w: View, t: Tree, o: Tree, d: Dir)
    requires Shaped(g, w) && TreeShape(g, t) && TreeShape(g, o) && IsListed(g, w, t, d)
    requires d.SubDir? ==> d.slot in o.chains && o.chains[d.slot] == t.chains[d.slot]
    ensures IsListed(g, w, o, d) && AllItems(g, w, o, d) == AllItems(g, w, t, d)
  {}

  lemma SlotNotPending(g: Geometry, v: View, t: Tree, pending: seq<nat>, s: Slot)
    requires Shaped(g, v) && TreeShape(g, t) && UsedOk(g, v, t, pending) && InDirectory(g, v, t, s)
    ensures s.ClusterSlot? ==> s.cluster !in pending
  {}

  lemma NothingListed(g: Geometry, v: View, cs: seq<nat>)
    requires Shaped(g, v) && NewDirectory(g, v, cs)
    ensures forall u :: SlotExists(g, u) && u.ClusterSlot? && u.cluster in cs ==> !Live(EntryAt(g, v, u))
  {
    forall u | SlotExists(g, u) && u.ClusterSlot? && u.cluster in cs ensures !Live(EntryAt(g, v, u)) {
      var k := DirSlotIndex(g, cs, u);
      assert DirItems(g, v, cs)[k] == EntryAt(g, v, u);
    }
  }

  /** Taking an item off a directory and freeing its clusters. A directory must be empty. */
  lemma Unlist(g: Geometry, v: View, t: Tree, d: Dir, k: nat, item: Item)
    requires Consistent(g, v, t, []) && IsListed(g, v, t, d) && k < |AllItems(g, v, t, d)|
    requires Live(AllItems(g, v, t, d)[k]) && item[0] == ENTRY_DELETED
    requires var s := SlotOf(g, v, t, d, k);
             s in t.chains && (IsDirectory(AllItems(g, v, t, d)[k]) ==> NewDirectory(g, v, t.chains[s]))
    ensures var s := SlotOf(g, v, t, d, k);
            var w := SetEntry(g, v.(fat := Freed(v.fat, t.chains[s])), s, item);
            && Consistent(g, w, Disowned(t, s), []) && IsListed(g, w, Disowned(t, s), d)
            && AllItems(g, w, Disowned(t, s), d) == AllItems(g, v, t, d)[k := item]
  {
    hide SlotsOk, EntriesOk, UsedOk, EndsOk, IsChain, SlotOf, AllItems, SetEntry, IsListed, EntryAt, TreeShape;
    hide Disowned, InDirectory, SlotExists, EntryOk, HasRoot, Freed, NewDirectory;
    var s := SlotOf(g, v, t, d, k);
    var o := Disowned(t, s);
    var w := SetEntry(g, v, s, item);
    SlotOfEntry(g, v, t, d, k);
    NothingInside(g, v, t, s);
    NotItsOwnLive(g, v, t, d, k);
    KeepUnlisted(g, v, t, s, item);
    DisownedFacts(t, s);
    RootedDisowned(t, s);
    EndsBefore(g, v, t, d, k);
    SetEndsOk(g, v, t, o, d, k, item);
    SetAllItems(g, v, t, d, k, item);
    SameListing(g, w, t, o, d);
    FreeAfter(g, v, w, o, d, s, t.chains[s], item);
  }

  /** Entries of other items stay where they are when the pending chain is freed. */
  lemma FreeAfter(g: Geometry, v: View, w: View, o: Tree, d: Dir, s: Slot, cs: seq<nat>, item: Item)
    requires Shaped(g, v) && SlotExists(g, s) && w == SetEntry(g, v, s, item)
    requires Consistent(g, w, o, cs) && IsListed(g, w, o, d)
    ensures var x := SetEntry(g, v.(fat := Freed(v.fat, cs)), s, item);
            Consistent(g, x, o, []) && IsListed(g, x, o, d) && AllItems(g, x, o, d) == AllItems(g, w, o, d)
  {
    hide SlotsOk, EntriesOk, UsedOk, IsChain, Freed, HasRoot;
    KeepFreed(g, w, o, cs);
    var x := w.(fat := Freed(w.fat, cs));
    assert x == SetEntry(g, v.(fat := Freed(v.fat, cs)), s, item);
    FatAlone(g, w, x, o, d);
  }

  /** Directories do not depend on the FAT but through their chains. */
  lemma FatAlone(g: Geometry, v: View, w: View, t: Tree, d: Dir)
    requires Shaped(g, v) && Shaped(g, w) && w.data == v.data && w.root == v.root && TreeShape(g, t)
    requires EndsOk(g, v, t) && IsListed(g, v, t, d)
    ensures EndsOk(g, w, t) && IsListed(g, w, t, d) && AllItems(g, w, t, d) == AllItems(g, v, t, d)
  {
    if d.SubDir? { SameDirItems(g, v, w, t.chains[d.slot]); }
    forall s | s in t.chains && IsDirectory(EntryAt(g, w, s))
      ensures ChainInRange(g, t.chains[s]) && EndsOnce(DirItems(g, w, t.chains[s]))
    {
      assert EntryAt(g, v, s) == EntryAt(g, w, s);
      SameDirItems(g, v, w, t.chains[s]);
    }
  }

  lemma EndsBefore(g: Geometry, v: View, t: Tree, d: Dir, k: nat)
    requires Shaped(g, v) && TreeShape(g, t) && EndsOk(g, v, t) && IsListed(g, v, t, d) && k < |AllItems(g, v, t, d)|
    requires AllItems(g, v, t, d)[k][0] != 0
    ensures NoEndBefore(AllItems(g, v, t, d), k)
  {}

  lemma NothingInside(g: Geometry, v: View, t: Tree, s: Slot)
    requires Shaped(g, v) && TreeShape(g, t) && EntriesOk(g, v, t) && SlotsOk(g, v, t) && s in t.chains
    requires IsDirectory(EntryAt(g, v, s)) ==> NewDirectory(g, v, t.chains[s])
    ensures IsDirectory(EntryAt(g, v, s)) ==>
              forall u :: u in t.chains && u.ClusterSlot? ==> u.cluster !in t.chains[s]
    ensures forall u :: u in t.chains && u.ClusterSlot? && u.cluster in t.owner ==> t.owner[u.cluster] != s
  {
    hide IsChain, EntryOk, NewDirectory;
    if IsDirectory(EntryAt(g, v, s)) { NothingListed(g, v, t.chains[s]); }
    forall u | u in t.chains && u.ClusterSlot? ensures t.owner[u.cluster] != s {
      assert InDirectory(g, v, t, u) && Live(EntryAt(g, v, u));
    }
  }

  lemma NotItsOwnLive(g: Geometry, v: View, t: Tree, d: Dir, k: nat)
    requires Shaped(g, v) && TreeShape(g, t) && IsListed(g, v, t, d) && k < |AllItems(g, v, t, d)|
    requires SlotOf(g, v, t, d, k) in t.chains
    requires forall u :: u in t.chains && u.ClusterSlot? && u.cluster in t.owner ==>
               t.owner[u.cluster] != SlotOf(g, v, t, d, k)
    ensures d.SubDir? ==> SlotOf(g, v, t, d, k) != d.slot
  {
    SlotOfEntry(g, v, t, d, k);
    if d.SubDir? {
      DirSlotExists(g, t.chains[d.slot], k);
      var c := DirSlot(g, t.chains[d.slot], k).cluster;
      var i :| 0 <= i < |t.chains[d.slot]| && t.chains[d.slot][i] == c;
      assert t.owner[c] == d.slot;
    }
  }

  /** Cutting a file to nothing: its clusters are freed and its entry names none. */
  lemma Empty(g: Geometry, v: View, t: Tree, d: Dir, k: nat, item: Item)
    requires Consistent(g, v, t, []) && IsListed(g, v, t, d) && k < |AllItems(g, v, t, d)|
    requires Live(AllItems(g, v, t, d)[k]) && !IsDirectory(AllItems(g, v, t, d)[k])
    requires SlotOf(g, v, t, d, k) in t.chains
    requires item[..13] == AllItems(g, v, t, d)[k][..13] && FirstCluster(item) == 0 && FileSize(item) == 0
    ensures var s := SlotOf(g, v, t, d, k);
            var w := SetEntry(g, v.(fat := Freed(v.fat, t.chains[s])), s, item);
            var o := Owned(Disowned(t, s), s, []);
            && Consistent(g, w, o, []) && IsListed(g, w, o, d)
            && AllItems(g, w, o, d) == AllItems(g, v, t, d)[k := item]
  {
    hide SlotsOk, EntriesOk, UsedOk, EndsOk, IsChain, SlotOf, AllItems, SetEntry, IsListed, EntryAt, TreeShape;
    hide Disowned, Owned, InDirectory, SlotExists, EntryOk, HasRoot, Freed, IsDirectory, Live, FirstCluster, FileSize;
    var s := SlotOf(g, v, t, d, k);
    var o := Owned(Disowned(t, s), s, []);
    var w := SetEntry(g, v, s, item);
    SlotOfEntry(g, v, t, d, k);
    SameKind(AllItems(g, v, t, d)[k], item);
    NotDirectoryNotOwn(g, v, t, d, s);
    KeepEmptied(g, v, t, s, item);
    EmptiedTree(g, v, t, s);
    NotEnd(item);
    EndsBefore(g, v, t, d, k);
    SetEndsOk(g, v, t, o, d, k, item);
    SetAllItems(g, v, t, d, k, item);
    SameListing(g, w, t, o, d);
    FreeAfter(g, v, w, o, d, s, t.chains[s], item);
  }

  lemma NotEnd(item: Item)
    requires Live(item)
    ensures item[0] != 0
  {}

  lemma NotDirectoryNotOwn(g: Geometry, v: View, t: Tree, d: Dir, s: Slot)
    requires Shaped(g, v) && TreeShape(g, t) && IsListed(g, v, t, d) && SlotExists(g, s)
    requires !IsDirectory(EntryAt(g, v, s))
    ensures d.SubDir? ==> s != d.slot
  {}

  lemma EmptiedTree(g: Geometry, v: View, t: Tree, s: Slot)
    requires Shaped(g, v) && TreeShape(g, t) && SlotsOk(g, v, t) && s in t.chains && HasRoot(t)
    requires !IsDirectory(EntryAt(g, v, s))
    ensures var o := Owned(Disowned(t, s), s, []);
            && HasRoot(o) && o.chains == t.chains[s := []]
  {
    hide EntryAt, IsDirectory, Live, TreeShape, SlotExists, Owned, Disowned, SlotsOk;
    forall u | u in t.chains && u.ClusterSlot? ensures u.cluster in t.owner && t.owner[u.cluster] != s {
      FilesListNothing(g, v, t, s, u);
    }
    EmptiedRoot(t, s);
  }

  lemma EmptiedRoot(t: Tree, s: Slot)
    requires HasRoot(t) && s in t.chains
    requires forall u :: u in t.chains && u.ClusterSlot? ==> u.cluster in t.owner && t.owner[u.cluster] != s
    ensures var o := Owned(Disowned(t, s), s, []);
            && HasRoot(o) && o.chains == t.chains[s := []]
  {
    var depth :| Rooted(t, depth);
    DisownedFacts(t, s);
    OwnedFacts(Disowned(t, s), s, []);
    hide Disowned, Owned;
    assert Rooted(Owned(Disowned(t, s), s, []), depth);
  }

  lemma FilesListNothing(g: Geometry, v: View, t: Tree, s: Slot, u: Slot)
    requires Shaped(g, v) && TreeShape(g, t) && SlotsOk(g, v, t) && s in t.chains && u in t.chains && u.ClusterSlot?
    requires !IsDirectory(EntryAt(g, v, s))
    ensures u.cluster in t.owner && t.owner[u.cluster] != s
  {
    assert InDirectory(g, v, t, u);
  }

  /** A subdirectory grows: end markers follow its entries. */
  lemma Grow(g: Geometry, v: View, w: View, t: Tree, pending: seq<nat>, d: Dir, ds: seq<nat>)
    requires Consistent(g, v, t, pending) && IsListed(g, v, t, d) && d.SubDir?
    requires Grown(g, v, w, t.chains[d.slot], ds)
    ensures var o := Owned(t, d.slot, ds);
            && Consistent(g, w, o, pending) && IsListed(g, w, o, d)
            && o.chains == t.chains[d.slot := ds]
            && Start(|ds|, g.PerCluster()) >= |AllItems(g, v, t, d)|
            && AllItems(g, w, o, d) == AllItems(g, v, t, d)
               + EndItems(Start(|ds|, g.PerCluster()) - |AllItems(g, v, t, d)|)
  {
    hide SlotsOk, EntriesOk, UsedOk, IsChain, EntryAt, TreeShape, Owned, SlotExists, HasRoot, IsDirectory, Start;
    hide EndsOk, DirItems, ChainInRange, Grown;
    var s := d.slot;
    var cs, o := t.chains[s], Owned(t, s, ds);
    KeepGrownDirectory(g, v, w, t, pending, s, ds);
    OwnedFacts(t, s, ds);
    GrownTree(g, v, w, t, pending, s, ds);
    GrownChain(g, v, w, cs, ds);
    ChainIsInRange(g, w.fat, ds);
    GrownDirItems(g, v, w, cs, ds);
    GrownEnds(g, v, w, t, pending, s, ds);
    GrownStays(g, v, w, t, pending, s, ds);
  }

  lemma GrownStays(g: Geometry, v: View, w: View, t: Tree, pending: seq<nat>, s: Slot, ds: seq<nat>)
    requires FsckBut(g, v, t, pending) && s in t.chains && Grown(g, v, w, t.chains[s], ds)
    ensures EntryAt(g, w, s) == EntryAt(g, v, s)
  {
    hide IsChain, EntriesOk, SlotsOk, EntryAt;
    GrownFresh(g, v, w, t, pending, s, ds);
    GrownEntries(g, v, w, t, pending, s, ds);
  }

  lemma GrownTree(g: Geometry, v: View, w: View, t: Tree, pending: seq<nat>, s: Slot, ds: seq<nat>)
    requires FsckBut(g, v, t, pending) && s in t.chains && HasRoot(t)
    requires Grown(g, v, w, t.chains[s], ds)
    ensures HasRoot(Owned(t, s, ds))
  {
    hide IsChain, EntriesOk, HasRoot, EntryAt, IsDirectory, Live;
    GrownFresh(g, v, w, t, pending, s, ds);
    assert InDirectory(g, v, t, s);
    RootedOwned(t, s, ds);
  }

  lemma GrownEnds(g: Geometry, v: View, w: View, t: Tree, pending: seq<nat>, s: Slot, ds: seq<nat>)
    requires FsckBut(g, v, t, pending) && EndsOk(g, v, t) && s in t.chains && IsDirectory(EntryAt(g, v, s))
    requires Grown(g, v, w, t.chains[s], ds) && TreeShape(g, Owned(t, s, ds))
    ensures EndsOk(g, w, Owned(t, s, ds))
  {
    hide IsChain, EntriesOk, EntryAt, IsDirectory, Owned, EndsOnce, SlotsOk, UsedOk, SlotExists;
    var o := Owned(t, s, ds);
    GrownFresh(g, v, w, t, pending, s, ds);
    GrownEntries(g, v, w, t, pending, s, ds);
    OwnedFacts(t, s, ds);
    ChainIsInRange(g, w.fat, ds);
    forall u | u in o.chains && IsDirectory(EntryAt(g, w, u))
      ensures ChainInRange(g, o.chains[u]) && EndsOnce(DirItems(g, w, o.chains[u]))
    {
      if u == s {
        GrownDirItems(g, v, w, t.chains[s], ds);
        EndsOnceMore(DirItems(g, v, t.chains[s]), |DirItems(g, w, ds)| - |DirItems(g, v, t.chains[s])|);
      } else {
        assert ChainInRange(g, t.chains[u]);
        SameDirItems(g, v, w, t.chains[u]);
      }
    }
  }

  lemma EndsOnceMore(items: seq<Item>, n: nat)
    requires EndsOnce(items)
    ensures EndsOnce(items + EndItems(n))
  {}

  /** `fat16_write` on a listed file leaves the directories but for its entry. */
  lemma Written(g: Geometry, v: View, mid: View, t: Tree, d: Dir, k: nat, ds: seq<nat>, item: Item)
    requires Consistent(g, v, t, []) && IsListed(g, v, t, d) && k < |AllItems(g, v, t, d)|
    requires SlotOf(g, v, t, d, k) in t.chains && !IsDirectory(AllItems(g, v, t, d)[k])
    requires Touched(g, v, mid, t.chains[SlotOf(g, v, t, d, k)], ds)
    requires item[..13] == AllItems(g, v, t, d)[k][..13] && FirstCluster(item) == First(ds)
    requires ChainFits(|ds|, FileSize(item), g.ClusterBytes())
    ensures var s := SlotOf(g, v, t, d, k);
            var w, o := SetEntry(g, mid, s, item), Owned(t, s, ds);
            && Consistent(g, w, o, []) && IsListed(g, w, o, d)
            && AllItems(g, w, o, d) == AllItems(g, v, t, d)[k := item]
  {
    hide SlotsOk, EntriesOk, UsedOk, EndsOk, IsChain, SlotOf, AllItems, SetEntry, IsListed, EntryAt, TreeShape;
    hide Owned, InDirectory, SlotExists, EntryOk, HasRoot, IsDirectory, Live, FirstCluster, FileSize, ChainFits;
    var s := SlotOf(g, v, t, d, k);
    var o := Owned(t, s, ds);
    SlotOfEntry(g, v, t, d, k);
    ListedIff(g, v, t, [], d, k);
    SameKind(AllItems(g, v, t, d)[k], item);
    NotEnd(item);
    NotDirectoryNotOwn(g, v, t, d, s);
    KeepWritten(g, v, mid, t, [], s, ds, item);
    OwnedFacts(t, s, ds);
    TouchedTree(g, v, mid, t, s, ds, d);
    EndsBefore(g, mid, t, d, k);
    SameSlot(g, v, mid, t, d, k);
    SetEndsOk(g, mid, t, o, d, k, item);
    SetAllItems(g, mid, t, d, k, item);
    SameListing(g, SetEntry(g, mid, s, item), t, o, d);
  }

  lemma SameSlot(g: Geometry, v: View, w: View, t: Tree, d: Dir, k: nat)
    requires Shaped(g, v) && Shaped(g, w) && TreeShape(g, t) && IsListed(g, v, t, d) && IsListed(g, w, t, d)
    requires AllItems(g, v, t, d) == AllItems(g, w, t, d) && k < |AllItems(g, v, t, d)|
    ensures SlotOf(g, v, t, d, k) == SlotOf(g, w, t, d, k)
  {}

  /** Bytes of a file are no directory entries. */
  lemma TouchedTree(g: Geometry, v: View, mid: View, t: Tree, s: Slot, ds: seq<nat>, d: Dir)
    requires FsckBut(g, v, t, []) && EndsOk(g, v, t) && HasRoot(t) && s in t.chains && !IsDirectory(EntryAt(g, v, s))
    requires Touched(g, v, mid, t.chains[s], ds) && IsListed(g, v, t, d)
    ensures HasRoot(Owned(t, s, ds)) && EndsOk(g, mid, t)
    ensures IsListed(g, mid, t, d) && AllItems(g, mid, t, d) == AllItems(g, v, t, d)
  {
    hide IsChain, EntriesOk, HasRoot, EntryAt, IsDirectory, Live, EndsOnce;
    GrownFresh(g, v, mid, t, [], s, ds);
    assert InDirectory(g, v, t, s);
    RootedOwned(t, s, ds);
    SameEntries(g, v, mid, t, ds);
    if d.SubDir? { SameDirItems(g, v, mid, t.chains[d.slot]); }
    forall u | u in t.chains && IsDirectory(EntryAt(g, mid, u))
      ensures ChainInRange(g, t.chains[u]) && EndsOnce(DirItems(g, mid, t.chains[u]))
    {
      assert ChainInRange(g, t.chains[u]);
      SameDirItems(g, v, mid, t.chains[u]);
    }
  }
}
