// The invariant a file system check tests: every cluster in use belongs to exactly one file or
// directory that is listed in a directory, and each of these is kept in one proper chain.
module FatFsck {
  import opened Bytes
  import opened FatLayout
  import opened FatVolume
  import opened FatItems
  import opened FatChains
  import opened FatContent
  import opened FatFiles

  /** Which chain each listed file or directory is kept in, and whose each cluster is. */
  datatype Tree = Tree(chains: map<Slot, seq<nat>>, owner: map<nat, Slot>)

  /** An entry that stands for a file or a directory of the volume, not for part of a long name,
      the volume label or the `.` and `..` of a directory. */
  ghost predicate Live(it: Item) {
    it[0] != ENTRY_END && it[0] != ENTRY_DELETED && !IsLongName(it) && !IsVolumeLabel(it) && it[0] != '.' as int
  }

  ghost predicate TreeShape(g: Geometry, t: Tree)
    requires g.Valid()
  {
    && (forall s :: s in t.chains ==> SlotExists(g, s))
    && (forall c :: c in t.owner ==> 2 <= c < g.Limit() && t.owner[c] in t.chains && c in t.chains[t.owner[c]])
    && (forall s, i :: s in t.chains && 0 <= i < |t.chains[s]| ==>
          t.chains[s][i] in t.owner && t.owner[t.chains[s][i]] == s)
  }

  /** Slot `s` is in the root directory or in a cluster of a listed directory. */
  ghost predicate InDirectory(g: Geometry, v: View, t: Tree, s: Slot)
    requires Shaped(g, v) && TreeShape(g, t)
  {
    && SlotExists(g, s)
    && (s.ClusterSlot? ==> s.cluster in t.owner && IsDirectory(EntryAt(g, v, t.owner[s.cluster])))
  }

  ghost predicate EntryOk(g: Geometry, v: View, it: Item, cs: seq<nat>)
    requires Shaped(g, v)
  {
    && IsChain(v.fat, g.Limit(), cs) && FirstCluster(it) == First(cs)
    && if IsDirectory(it) then cs != [] else ChainFits(|cs|, FileSize(it), g.ClusterBytes())
  }

  ghost predicate EntriesOk(g: Geometry, v: View, t: Tree)
    requires Shaped(g, v) && TreeShape(g, t)
  {
    forall s :: s in t.chains ==> EntryOk(g, v, EntryAt(g, v, s), t.chains[s])
  }

  /** The chains are those of the live entries of all directories. */
  ghost predicate SlotsOk(g: Geometry, v: View, t: Tree)
    requires Shaped(g, v) && TreeShape(g, t)
  {
    forall s :: SlotExists(g, s) ==> (s in t.chains <==> InDirectory(g, v, t, s) && Live(EntryAt(g, v, s)))
  }

  /** Nothing is lost: a cluster is in use exactly if it is owned or in the chain `pending`. */
  ghost predicate UsedOk(g: Geometry, v: View, t: Tree, pending: seq<nat>)
    requires Shaped(g, v)
  {
    && IsChain(v.fat, g.Limit(), pending)
    && (forall c :: c in pending ==> c !in t.owner)
    && (forall c :: 2 <= c < g.Limit() ==>
          (c in t.owner || c in pending <==> v.fat[c] != UNUSED && v.fat[c] != BAD_SECTOR))
  }

  /** The volume is consistent, save for a chain `pending` that no entry names yet or any more. */
  ghost predicate FsckBut(g: Geometry, v: View, t: Tree, pending: seq<nat>) {
    && Shaped(g, v) && TreeShape(g, t)
    && EntriesOk(g, v, t) && SlotsOk(g, v, t) && UsedOk(g, v, t, pending)
  }

  ghost predicate Fsck(g: Geometry, v: View, t: Tree) { FsckBut(g, v, t, []) }

  // ---- what the invariant says ----

  /** Chains of different files and directories have no cluster in common. */
  lemma NoCrossLinks(g: Geometry, v: View, t: Tree, pending: seq<nat>, s: Slot, u: Slot, i: nat, j: nat)
    requires FsckBut(g, v, t, pending) && s in t.chains && u in t.chains
    requires i < |t.chains[s]| && j < |t.chains[u]| && t.chains[s][i] == t.chains[u][j]
    ensures s == u && i == j
  {
    assert EntryOk(g, v, EntryAt(g, v, s), t.chains[s]);
  }

  /** Every data cluster that is neither free nor bad is in the chain of exactly one listed entry. */
  lemma NoLostClusters(g: Geometry, v: View, t: Tree, c: nat) returns (s: Slot)
    requires Fsck(g, v, t) && 2 <= c < g.Limit() && v.fat[c] != UNUSED && v.fat[c] != BAD_SECTOR
    ensures InDirectory(g, v, t, s) && Live(EntryAt(g, v, s)) && s in t.chains && c in t.chains[s]
    ensures forall u :: u in t.chains && c in t.chains[u] ==> u == s
  {
    s := t.owner[c];
    hide IsChain, EntriesOk, Live, EntryAt;
    forall u | u in t.chains && c in t.chains[u] ensures u == s {
      var i :| 0 <= i < |t.chains[u]| && t.chains[u][i] == c;
      assert t.owner[t.chains[u][i]] == u;
    }
  }

  // ---- steps that keep it ----

  /** A fresh cluster becomes the pending chain. */
  lemma KeepAllocated(g: Geometry, v: View, t: Tree, c: nat)
    requires FsckBut(g, v, t, []) && 2 <= c < g.Limit() && v.fat[c] == UNUSED
    ensures FsckBut(g, Allocated(g, v, c), t, [c])
  {
    var w := Allocated(g, v, c);
    UsedAllocated(g, v, t, c);
    SameEntries(g, v, w, t, [c]);
    hide SlotsOk, UsedOk, IsDirectory, Live, EntryAt, SlotExists;
    forall s | s in t.chains ensures EntryOk(g, w, EntryAt(g, w, s), t.chains[s]) {
      assert EntryOk(g, v, EntryAt(g, v, s), t.chains[s]);
      NotInChain(v.fat, g.Limit(), t.chains[s], c);
      ChainKept(v.fat, w.fat, g.Limit(), t.chains[s], [c]);
    }
  }

  lemma NotInChain(fat: seq<Word>, limit: nat, cs: seq<nat>, c: nat)
    requires IsChain(fat, limit, cs) && c < |fat| && fat[c] == UNUSED
    ensures forall i :: 0 <= i < |cs| ==> cs[i] != c
  {
    InUse(fat, limit, cs);
    hide IsChain;
    forall i | 0 <= i < |cs| ensures cs[i] != c { assert cs[i] in cs; }
  }

  lemma UsedAllocated(g: Geometry, v: View, t: Tree, c: nat)
    requires Shaped(g, v) && TreeShape(g, t) && UsedOk(g, v, t, []) && 2 <= c < g.Limit() && v.fat[c] == UNUSED
    ensures UsedOk(g, Allocated(g, v, c), t, [c]) && c !in t.owner
  {}

  /** A chain none of whose links change stays a chain. */
  lemma ChainKept(fat: seq<Word>, after: seq<Word>, limit: nat, cs: seq<nat>, changed: seq<nat>)
    requires IsChain(fat, limit, cs) && |after| == |fat|
    requires forall c :: 0 <= c < |fat| && c !in changed ==> after[c] == fat[c]
    requires forall i :: 0 <= i < |cs| ==> cs[i] !in changed
    ensures IsChain(after, limit, cs)
  {}

  /** Changing clusters that belong to no directory changes no entry of one. */
  lemma SameEntries(g: Geometry, v: View, w: View, t: Tree, changed: seq<nat>)
    requires Shaped(g, v) && Shaped(g, w) && TreeShape(g, t) && SlotsOk(g, v, t) && w.root == v.root
    requires forall c :: 2 <= c < g.Limit() && c !in changed ==> w.data[c] == v.data[c]
    requires forall c :: c in changed && c in t.owner ==> !IsDirectory(EntryAt(g, v, t.owner[c]))
    ensures forall s :: s in t.chains ==> EntryAt(g, w, s) == EntryAt(g, v, s)
    ensures SlotsOk(g, w, t)
  {
    forall s | SlotExists(g, s) && InDirectory(g, v, t, s) ensures EntryAt(g, w, s) == EntryAt(g, v, s) {}
    forall s | s in t.chains ensures EntryAt(g, w, s) == EntryAt(g, v, s) {
      assert InDirectory(g, v, t, s);
    }
    forall s | SlotExists(g, s) ensures s in t.chains <==> InDirectory(g, w, t, s) && Live(EntryAt(g, w, s)) {
      assert InDirectory(g, w, t, s) <==> InDirectory(g, v, t, s);
    }
  }

  /** Freeing the pending chain. */
  lemma KeepFreed(g: Geometry, v: View, t: Tree, pending: seq<nat>)
    requires FsckBut(g, v, t, pending)
    ensures FsckBut(g, v.(fat := Freed(v.fat, pending)), t, [])
  {
    hide IsLine;
    var w := v.(fat := Freed(v.fat, pending));
    SameEntries(g, v, w, t, []);
    NoPending(g, w);
    forall s | s in t.chains ensures EntryOk(g, w, EntryAt(g, w, s), t.chains[s]) {
      ChainKept(v.fat, w.fat, g.Limit(), t.chains[s], pending);
    }
  }

  /** Writing to a cluster of the pending chain. */
  lemma KeepPendingData(g: Geometry, v: View, t: Tree, pending: seq<nat>, c: nat, bytes: seq<byte>)
    requires FsckBut(g, v, t, pending) && c in pending && |bytes| == g.ClusterBytes()
    ensures FsckBut(g, v.(data := v.data[c := bytes]), t, pending)
  {
    var w := v.(data := v.data[c := bytes]);
    SameEntries(g, v, w, t, [c]);
    forall s | s in t.chains ensures EntryOk(g, w, EntryAt(g, w, s), t.chains[s]) {}
  }

  ghost function Owned(t: Tree, s: Slot, cs: seq<nat>): Tree {
    Tree(t.chains[s := cs],
         map c | c in t.owner.Keys + (set i | 0 <= i < |cs| :: cs[i]) :: if c in cs then s else t.owner[c])
  }

  ghost function Disowned(t: Tree, s: Slot): Tree
    requires s in t.chains
  {
    Tree(t.chains - {s}, map c | c in t.owner && t.owner[c] != s :: t.owner[c])
  }

  lemma OwnedShape(g: Geometry, t: Tree, s: Slot, cs: seq<nat>)
    requires g.Valid() && TreeShape(g, t) && SlotExists(g, s)
    requires forall i :: 0 <= i < |cs| ==> 2 <= cs[i] < g.Limit()
    requires forall c :: c in cs && c in t.owner ==> t.owner[c] == s
    requires s in t.chains ==> forall c :: c in t.chains[s] ==> c in cs
    ensures TreeShape(g, Owned(t, s, cs))
  {
    hide SlotExists;
    var o := Owned(t, s, cs);
    forall c | c in o.owner ensures 2 <= c < g.Limit() && o.owner[c] in o.chains && c in o.chains[o.owner[c]] {
      if c in cs {
        var i :| 0 <= i < |cs| && cs[i] == c;
      }
    }
    forall u, i | u in o.chains && 0 <= i < |o.chains[u]|
      ensures o.chains[u][i] in o.owner && o.owner[o.chains[u][i]] == u
    {
      if u != s {
        assert t.owner[t.chains[u][i]] == u;
      }
    }
  }

  lemma DisownedShape(g: Geometry, t: Tree, s: Slot)
    requires g.Valid() && TreeShape(g, t) && s in t.chains
    ensures TreeShape(g, Disowned(t, s))
  {
    hide SlotExists;
  }

  lemma OwnedFacts(t: Tree, s: Slot, cs: seq<nat>)
    ensures Owned(t, s, cs).chains == t.chains[s := cs]
    ensures forall c :: c in Owned(t, s, cs).owner <==> c in t.owner || c in cs
    ensures forall c :: c in Owned(t, s, cs).owner ==> Owned(t, s, cs).owner[c] == if c in cs then s else t.owner[c]
  {}

  lemma DisownedFacts(t: Tree, s: Slot)
    requires s in t.chains
    ensures Disowned(t, s).chains == t.chains - {s}
    ensures forall c :: c in Disowned(t, s).owner <==> c in t.owner && t.owner[c] != s
    ensures forall c :: c in Disowned(t, s).owner ==> Disowned(t, s).owner[c] == t.owner[c]
  {}

  /** A slot of a cluster that is not that of `s` has the same directory before and after. */
  lemma SameDirectory(g: Geometry, v: View, w: View, t: Tree, o: Tree, u: Slot)
    requires Shaped(g, v) && Shaped(g, w) && TreeShape(g, t) && TreeShape(g, o) && SlotExists(g, u)
    requires u.ClusterSlot? && u.cluster in t.owner ==>
               && u.cluster in o.owner && o.owner[u.cluster] == t.owner[u.cluster]
               && IsDirectory(EntryAt(g, v, t.owner[u.cluster])) == IsDirectory(EntryAt(g, w, t.owner[u.cluster]))
    requires u.ClusterSlot? && u.cluster in o.owner ==> u.cluster in t.owner
    ensures InDirectory(g, w, o, u) <==> InDirectory(g, v, t, u)
  {}

  /** Setting one entry changes no other. */
  lemma OtherEntries(g: Geometry, v: View, s: Slot, item: Item)
    requires Shaped(g, v) && SlotExists(g, s)
    ensures EntryAt(g, SetEntry(g, v, s, item), s) == item
    ensures forall u :: SlotExists(g, u) && u != s ==> EntryAt(g, SetEntry(g, v, s, item), u) == EntryAt(g, v, u)
  {
    SetEntryGet(g, v, s, item, s);
    forall u | SlotExists(g, u) && u != s ensures EntryAt(g, SetEntry(g, v, s, item), u) == EntryAt(g, v, u) {
      SetEntryGet(g, v, s, item, u);
    }
  }

  ghost predicate EntriesOkBut(g: Geometry, v: View, t: Tree, s: Slot)
    requires Shaped(g, v) && TreeShape(g, t)
  {
    forall u :: u in t.chains && u != s ==> EntryOk(g, v, EntryAt(g, v, u), t.chains[u])
  }

  lemma EntriesOkWeaken(g: Geometry, v: View, t: Tree, s: Slot)
    requires Shaped(g, v) && TreeShape(g, t) && EntriesOk(g, v, t)
    ensures EntriesOkBut(g, v, t, s)
  {}

  /** Setting entry `s` keeps all entries in order if it only changes the chain of `s`. */
  lemma SetEntriesOk(g: Geometry, v: View, t: Tree, o: Tree, s: Slot, item: Item)
    requires Shaped(g, v) && TreeShape(g, t) && TreeShape(g, o) && SlotExists(g, s) && EntriesOkBut(g, v, t, s)
    requires forall u :: u in o.chains && u != s ==> u in t.chains && o.chains[u] == t.chains[u]
    requires s in o.chains ==> EntryOk(g, v, item, o.chains[s])
    ensures EntriesOk(g, SetEntry(g, v, s, item), o)
  {
    var w := SetEntry(g, v, s, item);
    OtherEntries(g, v, s, item);
    hide EntryAt, SetEntry, IsDirectory, IsChain, SlotExists, ChainFits;
    forall u | u in o.chains ensures EntryOk(g, w, EntryAt(g, w, u), o.chains[u]) {
      if u != s { assert EntryOk(g, v, EntryAt(g, v, u), t.chains[u]); }
    }
  }

  /** ... and lists what the tree says if no other slot gets into or out of a directory, save
      those that list nothing. */
  lemma SetSlotsOk(g: Geometry, v: View, t: Tree, o: Tree, s: Slot, item: Item)
    requires Shaped(g, v) && TreeShape(g, t) && TreeShape(g, o) && SlotExists(g, s) && SlotsOk(g, v, t)
    requires forall u :: u != s ==> (u in o.chains <==> u in t.chains)
    requires s in o.chains <==> InDirectory(g, v, t, s) && Live(item)
    requires forall u :: SlotExists(g, u) ==>
               || (InDirectory(g, SetEntry(g, v, s, item), o, u) <==> InDirectory(g, v, t, u))
               || (u != s && !Live(EntryAt(g, v, u)))
    ensures SlotsOk(g, SetEntry(g, v, s, item), o)
  {
    OtherEntries(g, v, s, item);
    hide EntryAt, SetEntry, IsDirectory, Live, SlotExists, InDirectory;
  }

  /** Setting an entry that stands for nothing, before and after: a long name part, a deleted item. */
  lemma KeepIdleEntry(g: Geometry, v: View, t: Tree, pending: seq<nat>, s: Slot, item: Item)
    requires FsckBut(g, v, t, pending) && SlotExists(g, s) && s !in t.chains && !Live(item)
    ensures FsckBut(g, SetEntry(g, v, s, item), t, pending)
  {
    hide EntryAt, SetEntry, IsChain, IsDirectory, Live;
    var w := SetEntry(g, v, s, item);
    OtherEntries(g, v, s, item);
    forall u | u in t.chains ensures EntryOk(g, w, EntryAt(g, w, u), t.chains[u]) {}
    forall u | SlotExists(g, u) ensures u in t.chains <==> InDirectory(g, w, t, u) && Live(EntryAt(g, w, u)) {
      assert InDirectory(g, w, t, u) <==> InDirectory(g, v, t, u);
    }
  }

  /** Listing a new file or directory, kept in the pending chain. A new directory lists nothing. */
  lemma KeepListed(g: Geometry, v: View, t: Tree, pending: seq<nat>, s: Slot, item: Item)
    requires FsckBut(g, v, t, pending) && InDirectory(g, v, t, s) && s !in t.chains
    requires Live(item) && EntryOk(g, v, item, pending)
    requires IsDirectory(item) ==>
               forall u :: SlotExists(g, u) && u.ClusterSlot? && u.cluster in pending ==> !Live(EntryAt(g, v, u))
    requires s.ClusterSlot? ==> s.cluster !in pending
    ensures FsckBut(g, SetEntry(g, v, s, item), Owned(t, s, pending), [])
  {
    hide SlotsOk, EntriesOk, UsedOk, TreeShape, IsChain, Owned, Disowned, SlotExists, EntryAt, SetEntry;
    var o := Owned(t, s, pending);
    ListedShape(g, v, t, pending, s);
    OwnedFacts(t, s, pending);
    ListedDirectories(g, v, t, pending, s, item);
    EntriesOkWeaken(g, v, t, s);
    SetEntriesOk(g, v, t, o, s, item);
    SetSlotsOk(g, v, t, o, s, item);
    SameUsed(g, v, SetEntry(g, v, s, item), o, []);
  }

  lemma ListedShape(g: Geometry, v: View, t: Tree, pending: seq<nat>, s: Slot)
    requires Shaped(g, v) && TreeShape(g, t) && UsedOk(g, v, t, pending) && SlotExists(g, s) && s !in t.chains
    ensures TreeShape(g, Owned(t, s, pending)) && UsedOk(g, v, Owned(t, s, pending), [])
  {
    OwnedFacts(t, s, pending);
    OwnedShape(g, t, s, pending);
    NoPending(g, v);
    hide IsChain, Owned, SlotExists, TreeShape;
  }

  lemma SameUsed(g: Geometry, v: View, w: View, t: Tree, pending: seq<nat>)
    requires Shaped(g, v) && Shaped(g, w) && UsedOk(g, v, t, pending) && w.fat == v.fat
    ensures UsedOk(g, w, t, pending)
  {}

  lemma ListedDirectories(g: Geometry, v: View, t: Tree, pending: seq<nat>, s: Slot, item: Item)
    requires Shaped(g, v) && TreeShape(g, t) && UsedOk(g, v, t, pending) && SlotExists(g, s) && s !in t.chains
    requires TreeShape(g, Owned(t, s, pending))
    requires IsDirectory(item) ==>
               forall u :: SlotExists(g, u) && u.ClusterSlot? && u.cluster in pending ==> !Live(EntryAt(g, v, u))
    requires s.ClusterSlot? ==> s.cluster !in pending
    ensures var w, o := SetEntry(g, v, s, item), Owned(t, s, pending);
            forall u :: SlotExists(g, u) ==>
              || (InDirectory(g, w, o, u) <==> InDirectory(g, v, t, u)) || (u != s && !Live(EntryAt(g, v, u)))
  {
    var w, o := SetEntry(g, v, s, item), Owned(t, s, pending);
    OtherEntries(g, v, s, item);
    OwnedFacts(t, s, pending);
    hide EntryAt, SetEntry, IsDirectory, Live, IsChain, Owned, SlotExists;
    forall u | SlotExists(g, u)
      ensures (InDirectory(g, w, o, u) <==> InDirectory(g, v, t, u)) || (u != s && !Live(EntryAt(g, v, u)))
    {
      if !(u.ClusterSlot? && u.cluster in pending) {
        SameDirectory(g, v, w, t, o, u);
      }
    }
  }

  /** Chains may hold every cluster of a consistent volume. */
  lemma Numbered(g: Geometry, v: View, t: Tree, pending: seq<nat>)
    requires FsckBut(g, v, t, pending)
    ensures g.Limit() <= RESERVED_START
  {
    hide EntriesOk, SlotsOk, TreeShape;
  }

  lemma NoPending(g: Geometry, v: View)
    requires Shaped(g, v) && g.Limit() <= RESERVED_START
    ensures IsChain(v.fat, g.Limit(), [])
  {}

  /** Taking an entry off its directory: its chain is pending then. A directory must list nothing. */
  lemma KeepUnlisted(g: Geometry, v: View, t: Tree, s: Slot, item: Item)
    requires FsckBut(g, v, t, []) && s in t.chains && !Live(item)
    requires IsDirectory(EntryAt(g, v, s)) ==>
               forall u :: u in t.chains && u.ClusterSlot? ==> u.cluster !in t.chains[s]
    ensures FsckBut(g, SetEntry(g, v, s, item), Disowned(t, s), t.chains[s])
  {
    hide SlotsOk, EntriesOk, UsedOk, TreeShape, IsChain, Owned, Disowned, SlotExists, EntryAt, SetEntry;
    var o := Disowned(t, s);
    DisownedShape(g, t, s);
    DisownedFacts(t, s);
    UnlistedDirectories(g, v, t, s, item);
    EntryOf(g, v, t, s);
    EntriesOkWeaken(g, v, t, s);
    SetEntriesOk(g, v, t, o, s, item);
    SetSlotsOk(g, v, t, o, s, item);
    UsedUnlisted(g, v, t, s);
    SameUsed(g, v, SetEntry(g, v, s, item), o, t.chains[s]);
  }

  lemma EntryOf(g: Geometry, v: View, t: Tree, s: Slot)
    requires Shaped(g, v) && TreeShape(g, t) && EntriesOk(g, v, t) && SlotsOk(g, v, t) && s in t.chains
    ensures SlotExists(g, s) && InDirectory(g, v, t, s) && Live(EntryAt(g, v, s))
    ensures EntryOk(g, v, EntryAt(g, v, s), t.chains[s]) && IsChain(v.fat, g.Limit(), t.chains[s])
  {}

  lemma UnlistedDirectories(g: Geometry, v: View, t: Tree, s: Slot, item: Item)
    requires Shaped(g, v) && TreeShape(g, t) && SlotsOk(g, v, t) && s in t.chains && TreeShape(g, Disowned(t, s))
    requires IsDirectory(EntryAt(g, v, s)) ==>
               forall u :: u in t.chains && u.ClusterSlot? ==> u.cluster !in t.chains[s]
    ensures var w, o := SetEntry(g, v, s, item), Disowned(t, s);
            forall u :: SlotExists(g, u) ==>
              || (InDirectory(g, w, o, u) <==> InDirectory(g, v, t, u)) || (u != s && !Live(EntryAt(g, v, u)))
  {
    var w, o := SetEntry(g, v, s, item), Disowned(t, s);
    OtherEntries(g, v, s, item);
    DisownedFacts(t, s);
    hide EntryAt, SetEntry, IsDirectory, Live, IsChain, Disowned, SlotExists;
    forall u | SlotExists(g, u)
      ensures (InDirectory(g, w, o, u) <==> InDirectory(g, v, t, u)) || (u != s && !Live(EntryAt(g, v, u)))
    {
      if u.ClusterSlot? && u.cluster in t.owner && t.owner[u.cluster] == s {
        assert u.cluster in t.chains[s];
      } else {
        SameDirectory(g, v, w, t, o, u);
      }
    }
  }

  lemma UsedUnlisted(g: Geometry, v: View, t: Tree, s: Slot)
    requires Shaped(g, v) && TreeShape(g, t) && UsedOk(g, v, t, []) && s in t.chains
    requires IsChain(v.fat, g.Limit(), t.chains[s])
    ensures UsedOk(g, v, Disowned(t, s), t.chains[s])
  {
    DisownedFacts(t, s);
    hide Disowned, IsChain, SlotExists;
    forall c | c in t.chains[s] ensures c !in Disowned(t, s).owner {
      var i :| 0 <= i < |t.chains[s]| && t.chains[s][i] == c;
    }
  }

  /** A file is cut to nothing: its chain is pending then. */
  lemma KeepEmptied(g: Geometry, v: View, t: Tree, s: Slot, item: Item)
    requires FsckBut(g, v, t, []) && s in t.chains && !IsDirectory(EntryAt(g, v, s))
    requires item[..13] == EntryAt(g, v, s)[..13] && FirstCluster(item) == 0 && FileSize(item) == 0
    ensures FsckBut(g, SetEntry(g, v, s, item), Owned(Disowned(t, s), s, []), t.chains[s])
  {
    hide SlotsOk, EntriesOk, UsedOk, TreeShape, IsChain, Owned, Disowned, SlotExists, EntryAt, SetEntry;
    hide Live, IsDirectory, InDirectory, EntryOk, FirstCluster, FileSize;
    var d := Disowned(t, s);
    var o := Owned(d, s, []);
    EntryOf(g, v, t, s);
    SameKind(EntryAt(g, v, s), item);
    EmptiedShape(g, v, t, s);
    EmptiedDirectories(g, v, t, s, item);
    EmptyEntryOk(g, v, item);
    EntriesOkWeaken(g, v, t, s);
    SetEntriesOk(g, v, t, o, s, item);
    SetSlotsOk(g, v, t, o, s, item);
    SameUsed(g, v, SetEntry(g, v, s, item), o, t.chains[s]);
  }

  lemma EmptiedShape(g: Geometry, v: View, t: Tree, s: Slot)
    requires Shaped(g, v) && TreeShape(g, t) && UsedOk(g, v, t, []) && s in t.chains && SlotExists(g, s)
    requires IsChain(v.fat, g.Limit(), t.chains[s])
    ensures var o := Owned(Disowned(t, s), s, []);
            && TreeShape(g, o) && UsedOk(g, v, o, t.chains[s])
            && o.chains == t.chains[s := []]
  {
    DisownedShape(g, t, s);
    DisownedFacts(t, s);
    OwnedShape(g, Disowned(t, s), s, []);
    OwnedFacts(Disowned(t, s), s, []);
    UsedUnlisted(g, v, t, s);
    hide IsChain, Owned, Disowned, SlotExists, TreeShape;
  }

  lemma EmptyEntryOk(g: Geometry, v: View, item: Item)
    requires Shaped(g, v) && g.Limit() <= RESERVED_START && !IsDirectory(item) && FirstCluster(item) == 0
    requires FileSize(item) == 0
    ensures EntryOk(g, v, item, [])
  {
    NoPending(g, v);
  }

  lemma EmptiedDirectories(g: Geometry, v: View, t: Tree, s: Slot, item: Item)
    requires Shaped(g, v) && TreeShape(g, t) && s in t.chains && TreeShape(g, Owned(Disowned(t, s), s, []))
    requires !IsDirectory(EntryAt(g, v, s)) && !IsDirectory(item)
    ensures var w, o := SetEntry(g, v, s, item), Owned(Disowned(t, s), s, []);
            forall u :: SlotExists(g, u) ==> (InDirectory(g, w, o, u) <==> InDirectory(g, v, t, u))
  {
    var d := Disowned(t, s);
    var w, o := SetEntry(g, v, s, item), Owned(d, s, []);
    OtherEntries(g, v, s, item);
    DisownedFacts(t, s);
    OwnedFacts(d, s, []);
    hide EntryAt, SetEntry, IsDirectory, IsChain, Disowned, Owned, SlotExists;
    forall u | SlotExists(g, u) ensures InDirectory(g, w, o, u) <==> InDirectory(g, v, t, u) {
      if !(u.ClusterSlot? && u.cluster in t.owner && t.owner[u.cluster] == s) {
        SameDirectory(g, v, w, t, o, u);
      }
    }
  }

  lemma SameKind(a: Item, b: Item)
    requires a[..13] == b[..13]
    ensures a[0] == b[0] && Attr(a) == Attr(b) && Live(a) == Live(b) && IsDirectory(a) == IsDirectory(b)
  {
    assert a[0] == a[..13][0] && a[11] == a[..13][11];
    assert b[0] == b[..13][0] && b[11] == b[..13][11];
  }

  /** A directory grows by zeroed clusters: they list nothing. */
  lemma KeepGrownDirectory(g: Geometry, v: View, w: View, t: Tree, pending: seq<nat>, s: Slot, ds: seq<nat>)
    requires FsckBut(g, v, t, pending) && s in t.chains && IsDirectory(EntryAt(g, v, s))
    requires Grown(g, v, w, t.chains[s], ds)
    ensures FsckBut(g, w, Owned(t, s, ds), pending)
  {
    hide SlotsOk, EntriesOk, UsedOk, TreeShape, IsChain, Owned, Disowned, SlotExists, EntryAt;
    EntryOf(g, v, t, s);
    GrownFresh(g, v, w, t, pending, s, ds);
    GrownShape(g, v, w, t, pending, s, ds);
    GrownEntries(g, v, w, t, pending, s, ds);
    GrownOk(g, v, w, EntryAt(g, v, s), t.chains[s], ds);
    GrownEntriesOk(g, v, w, t, s, ds);
    GrownSlotsOk(g, v, w, t, s, ds);
  }

  lemma GrownOk(g: Geometry, v: View, w: View, item: Item, cs: seq<nat>, ds: seq<nat>)
    requires Shaped(g, v) && Shaped(g, w) && EntryOk(g, v, item, cs) && IsDirectory(item)
    requires cs <= ds && IsChain(w.fat, g.Limit(), ds)
    ensures EntryOk(g, w, item, ds)
  {}

  lemma GrownShape(g: Geometry, v: View, w: View, t: Tree, pending: seq<nat>, s: Slot, ds: seq<nat>)
    requires Shaped(g, v) && TreeShape(g, t) && UsedOk(g, v, t, pending) && s in t.chains && t.chains[s] <= ds
    requires Shaped(g, w) && IsChain(w.fat, g.Limit(), ds) && SlotExists(g, s)
    requires forall c :: 0 <= c < |v.fat| && c !in ds ==> w.fat[c] == v.fat[c]
    requires forall c :: c in ds ==> c !in pending && (c in t.owner ==> t.owner[c] == s && c in t.chains[s])
    requires forall c :: c in t.chains[s] ==> c in ds
    requires forall i :: 0 <= i < |pending| ==> pending[i] !in ds
    ensures TreeShape(g, Owned(t, s, ds)) && UsedOk(g, w, Owned(t, s, ds), pending)
  {
    OwnedShape(g, t, s, ds);
    ChainKept(v.fat, w.fat, g.Limit(), pending, ds);
    GrownUsed(g, v, w, t, pending, s, ds);
  }

  lemma GrownEntriesOk(g: Geometry, v: View, w: View, t: Tree, s: Slot, ds: seq<nat>)
    requires Shaped(g, v) && TreeShape(g, t) && EntriesOk(g, v, t) && Shaped(g, w) && s in t.chains
    requires TreeShape(g, Owned(t, s, ds)) && EntryOk(g, w, EntryAt(g, v, s), ds)
    requires forall u :: u in t.chains ==> EntryAt(g, w, u) == EntryAt(g, v, u)
    requires forall c :: 0 <= c < |v.fat| && c !in ds ==> w.fat[c] == v.fat[c]
    requires forall u, i :: u in t.chains && u != s && 0 <= i < |t.chains[u]| ==> t.chains[u][i] !in ds
    ensures EntriesOk(g, w, Owned(t, s, ds))
  {
    var o := Owned(t, s, ds);
    OwnedFacts(t, s, ds);
    hide EntryAt, IsDirectory, IsChain, SlotExists, ChainFits, Owned;
    forall u | u in o.chains ensures EntryOk(g, w, EntryAt(g, w, u), o.chains[u]) {
      if u != s {
        assert EntryOk(g, v, EntryAt(g, v, u), t.chains[u]);
        ChainKept(v.fat, w.fat, g.Limit(), t.chains[u], ds);
      }
    }
  }

  lemma GrownSlotsOk(g: Geometry, v: View, w: View, t: Tree, s: Slot, ds: seq<nat>)
    requires Shaped(g, v) && TreeShape(g, t) && SlotsOk(g, v, t) && Shaped(g, w) && s in t.chains
    requires TreeShape(g, Owned(t, s, ds))
    requires forall u :: u in t.chains ==> EntryAt(g, w, u) == EntryAt(g, v, u)
    requires forall u :: SlotExists(g, u) && InDirectory(g, v, t, u) ==> EntryAt(g, w, u) == EntryAt(g, v, u)
    requires forall c :: c in ds && c in t.owner ==> t.owner[c] == s && c in t.chains[s]
    requires forall u :: SlotExists(g, u) && u.ClusterSlot? && u.cluster in ds && u.cluster !in t.chains[s] ==>
               !Live(EntryAt(g, w, u)) || !IsDirectory(EntryAt(g, v, s))
    requires forall i :: 0 <= i < |t.chains[s]| ==> t.chains[s][i] in ds
    ensures SlotsOk(g, w, Owned(t, s, ds))
  {
    var o := Owned(t, s, ds);
    OwnedFacts(t, s, ds);
    hide EntryAt, IsDirectory, Live, Owned, SlotExists;
    forall u | SlotExists(g, u) ensures u in o.chains <==> InDirectory(g, w, o, u) && Live(EntryAt(g, w, u)) {
      if u.ClusterSlot? && u.cluster in ds && u.cluster !in t.chains[s] {
        assert u !in t.chains;
      } else {
        SameDirectory(g, v, w, t, o, u);
      }
    }
  }

  lemma GrownUsed(g: Geometry, v: View, w: View, t: Tree, pending: seq<nat>, s: Slot, ds: seq<nat>)
    requires Shaped(g, v) && TreeShape(g, t) && UsedOk(g, v, t, pending) && s in t.chains && t.chains[s] <= ds
    requires Shaped(g, w) && IsChain(w.fat, g.Limit(), ds) && IsChain(w.fat, g.Limit(), pending)
    requires forall c :: 0 <= c < |v.fat| && c !in ds ==> w.fat[c] == v.fat[c]
    requires forall c :: c in ds ==> c !in pending
    ensures UsedOk(g, w, Owned(t, s, ds), pending)
  {
    OwnedFacts(t, s, ds);
    InUse(w.fat, g.Limit(), ds);
    hide IsChain, Owned, SlotExists;
    assert forall i :: 0 <= i < |t.chains[s]| ==> t.chains[s][i] == ds[i];
  }

  /** Clusters of a chain are neither free nor bad. */
  lemma InUse(fat: seq<Word>, limit: nat, cs: seq<nat>)
    requires IsChain(fat, limit, cs)
    ensures forall c :: c in cs ==> 2 <= c < limit <= |fat| && fat[c] != UNUSED && fat[c] != BAD_SECTOR
  {
    forall c | c in cs ensures 2 <= c < limit <= |fat| && fat[c] != UNUSED && fat[c] != BAD_SECTOR {
      var i :| 0 <= i < |cs| && cs[i] == c;
      ChainNext(fat, limit, cs, i);
    }
  }

  lemma GrownEntries(g: Geometry, v: View, w: View, t: Tree, pending: seq<nat>, s: Slot, ds: seq<nat>)
    requires FsckBut(g, v, t, pending) && s in t.chains && Grown(g, v, w, t.chains[s], ds)
    requires forall c :: c in ds && c in t.owner ==> c in t.chains[s]
    ensures forall u :: SlotExists(g, u) && InDirectory(g, v, t, u) ==> EntryAt(g, w, u) == EntryAt(g, v, u)
    ensures forall u :: u in t.chains ==> EntryAt(g, w, u) == EntryAt(g, v, u)
    ensures forall u :: SlotExists(g, u) && u.ClusterSlot? && u.cluster in ds && u.cluster !in t.chains[s] ==>
              !Live(EntryAt(g, w, u))
  {
    hide IsChain, EntriesOk, UsedOk, Live, IsDirectory;
    forall u | SlotExists(g, u) && InDirectory(g, v, t, u) ensures EntryAt(g, w, u) == EntryAt(g, v, u) {}
    forall u | u in t.chains ensures EntryAt(g, w, u) == EntryAt(g, v, u) { assert InDirectory(g, v, t, u); }
    forall u | SlotExists(g, u) && u.ClusterSlot? && u.cluster in ds && u.cluster !in t.chains[s]
      ensures !Live(EntryAt(g, w, u))
    {
      NewEntriesIdle(g, v, w, t.chains[s], ds, u);
    }
  }

  lemma NewEntriesIdle(g: Geometry, v: View, w: View, cs: seq<nat>, ds: seq<nat>, u: Slot)
    requires Grown(g, v, w, cs, ds) && SlotExists(g, u) && u.ClusterSlot? && u.cluster in ds && u.cluster !in cs
    ensures EntryAt(g, w, u)[0] == 0 && !Live(EntryAt(g, w, u))
  {
    var i :| 0 <= i < |ds| && ds[i] == u.cluster;
    assert w.data[u.cluster] == Zeros(g.ClusterBytes());
  }

  /** The clusters a chain grows by belonged to nothing. */
  lemma GrownFresh(g: Geometry, v: View, w: View, t: Tree, pending: seq<nat>, s: Slot, ds: seq<nat>)
    requires FsckBut(g, v, t, pending) && s in t.chains && t.chains[s] <= ds
    requires Shaped(g, w) && IsChain(w.fat, g.Limit(), ds)
    requires forall i :: |t.chains[s]| <= i < |ds| ==> v.fat[ds[i]] == UNUSED
    ensures forall c :: c in ds ==> c !in pending && (c in t.owner ==> t.owner[c] == s && c in t.chains[s])
    ensures forall u, i :: u in t.chains && u != s && 0 <= i < |t.chains[u]| ==> t.chains[u][i] !in ds
    ensures forall c :: c in t.chains[s] ==> c in ds
    ensures forall i :: 0 <= i < |pending| ==> pending[i] !in ds
  {
    hide IsChain, IsLine, SlotExists, EntriesOk, SlotsOk;
    var cs := t.chains[s];
    ChainNumbers(w.fat, g.Limit(), ds);
    LineNumbers(w.fat, g.Limit(), ds);
    forall c | c in ds ensures c !in pending && (c in t.owner ==> t.owner[c] == s && c in cs) {
      GrownCluster(g, v, t, pending, s, ds, c);
    }
    forall c | c in cs ensures c in ds {
      var i :| 0 <= i < |cs| && cs[i] == c;
      assert ds[i] == c;
    }
    forall u, i | u in t.chains && u != s && 0 <= i < |t.chains[u]| ensures t.chains[u][i] !in ds {
      assert t.owner[t.chains[u][i]] == u;
    }
    forall i | 0 <= i < |pending| ensures pending[i] !in ds { assert pending[i] in pending; }
  }

  lemma GrownCluster(g: Geometry, v: View, t: Tree, pending: seq<nat>, s: Slot, ds: seq<nat>, c: nat)
    requires Shaped(g, v) && TreeShape(g, t) && UsedOk(g, v, t, pending) && s in t.chains && t.chains[s] <= ds
    requires forall i :: 0 <= i < |ds| ==> 2 <= ds[i] < g.Limit()
    requires forall i :: |t.chains[s]| <= i < |ds| ==> v.fat[ds[i]] == UNUSED
    requires c in ds
    ensures c !in pending && (c in t.owner ==> t.owner[c] == s && c in t.chains[s])
  {
    var cs := t.chains[s];
    hide IsChain, SlotExists;
    var i :| 0 <= i < |ds| && ds[i] == c;
    if i < |cs| {
      assert cs[i] == c && c in cs && c in t.owner;
    } else {
      assert v.fat[c] == UNUSED;
    }
  }

  /** `fat16_write` on a listed file. */
  lemma KeepWritten(g: Geometry, v: View, mid: View, t: Tree, pending: seq<nat>, s: Slot, ds: seq<nat>, item: Item)
    requires FsckBut(g, v, t, pending) && s in t.chains && !IsDirectory(EntryAt(g, v, s))
    requires Touched(g, v, mid, t.chains[s], ds)
    requires item[..13] == EntryAt(g, v, s)[..13] && FirstCluster(item) == First(ds)
    requires ChainFits(|ds|, FileSize(item), g.ClusterBytes())
    ensures FsckBut(g, SetEntry(g, mid, s, item), Owned(t, s, ds), pending)
  {
    hide SlotsOk, EntriesOk, UsedOk, TreeShape, IsChain, Owned, Disowned, SlotExists, EntryAt, SetEntry;
    hide Live, IsDirectory, InDirectory, FirstCluster, FileSize, EntriesOkBut;
    var o := Owned(t, s, ds);
    EntryOf(g, v, t, s);
    SameKind(EntryAt(g, v, s), item);
    GrownFresh(g, v, mid, t, pending, s, ds);
    GrownShape(g, v, mid, t, pending, s, ds);
    SameEntries(g, v, mid, t, ds);
    TouchedEntriesOk(g, v, mid, t, s, ds);
    OwnedFacts(t, s, ds);
    WrittenDirectories(g, mid, t, s, ds, item);
    SameInDirectory(g, v, mid, t, s);
    SetEntriesOk(g, mid, t, o, s, item);
    SetSlotsOk(g, mid, t, o, s, item);
    SameUsed(g, mid, SetEntry(g, mid, s, item), o, pending);
  }

  lemma SameInDirectory(g: Geometry, v: View, w: View, t: Tree, s: Slot)
    requires Shaped(g, v) && Shaped(g, w) && TreeShape(g, t) && InDirectory(g, v, t, s)
    requires forall u :: u in t.chains ==> EntryAt(g, w, u) == EntryAt(g, v, u)
    ensures InDirectory(g, w, t, s)
  {}

  lemma TouchedEntriesOk(g: Geometry, v: View, mid: View, t: Tree, s: Slot, ds: seq<nat>)
    requires Shaped(g, v) && TreeShape(g, t) && EntriesOk(g, v, t) && Shaped(g, mid)
    requires forall u :: u in t.chains ==> EntryAt(g, mid, u) == EntryAt(g, v, u)
    requires forall c :: 0 <= c < |v.fat| && c !in ds ==> mid.fat[c] == v.fat[c]
    requires forall u, i :: u in t.chains && u != s && 0 <= i < |t.chains[u]| ==> t.chains[u][i] !in ds
    ensures EntriesOkBut(g, mid, t, s)
  {
    hide EntryAt, IsDirectory, IsChain, SlotExists, ChainFits;
    forall u | u in t.chains && u != s ensures EntryOk(g, mid, EntryAt(g, mid, u), t.chains[u]) {
      assert EntryOk(g, v, EntryAt(g, v, u), t.chains[u]);
      ChainKept(v.fat, mid.fat, g.Limit(), t.chains[u], ds);
    }
  }

  lemma WrittenDirectories(g: Geometry, v: View, t: Tree, s: Slot, ds: seq<nat>, item: Item)
    requires Shaped(g, v) && TreeShape(g, t) && s in t.chains && TreeShape(g, Owned(t, s, ds))
    requires forall c :: c in ds && c in t.owner ==> t.owner[c] == s
    requires !IsDirectory(EntryAt(g, v, s)) && !IsDirectory(item)
    ensures var w, o := SetEntry(g, v, s, item), Owned(t, s, ds);
            forall u :: SlotExists(g, u) ==> (InDirectory(g, w, o, u) <==> InDirectory(g, v, t, u))
  {
    var w, o := SetEntry(g, v, s, item), Owned(t, s, ds);
    OtherEntries(g, v, s, item);
    OwnedFacts(t, s, ds);
    hide EntryAt, SetEntry, IsDirectory, Owned, SlotExists;
    forall u | SlotExists(g, u) ensures InDirectory(g, w, o, u) <==> InDirectory(g, v, t, u) {
      if !(u.ClusterSlot? && u.cluster in ds) {
        SameDirectory(g, v, w, t, o, u);
      }
    }
  }
}
