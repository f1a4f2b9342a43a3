// What an operation leaves alone: the entries, chains and bytes of all other files and directories.
module FatOthers {
  import opened Bytes
  import opened FatLayout
  import opened FatVolume
  import opened FatItems
  import opened FatChains
  import opened FatContent
  import opened FatFiles
  import opened FatFsck
  import opened FatDirs

  ghost predicate SameData(v: View, w: View, cs: seq<nat>) {
    forall i :: 0 <= i < |cs| ==> cs[i] < |v.data| && cs[i] < |w.data| && w.data[cs[i]] == v.data[cs[i]]
  }

  /** `s` is listed as before, with the same entry, chain and bytes. */
  ghost predicate Kept(g: Geometry, v: View, w: View, t: Tree, o: Tree, s: Slot)
    requires Shaped(g, v) && Shaped(g, w)
  {
    && s in t.chains && s in o.chains && o.chains[s] == t.chains[s]
    && SlotExists(g, s) && EntryAt(g, w, s) == EntryAt(g, v, s) && SameData(v, w, t.chains[s])
  }

  /** A listed chain has at most got longer. */
  ghost predicate ChainGrew(t: Tree, o: Tree, s: Slot) { s in t.chains ==> s in o.chains && t.chains[s] <= o.chains[s] }

  /** The slot directory `d` itself is listed in. */
  ghost function Self(d: Dir): set<Slot> { if d.SubDir? then {d.slot} else {} }

  /** All listed before are kept, save the entries `touched` of directory `d`, and what is in `d`. */
  ghost predicate OthersKept(g: Geometry, v: View, w: View, t: Tree, o: Tree, d: Dir, touched: set<Slot>) {
    && Shaped(g, v) && Shaped(g, w) && (d.SubDir? ==> w.root == v.root)
    && (d.SubDir? && d.slot !in touched ==> ChainGrew(t, o, d.slot))
    && forall s :: s in t.chains && s !in Self(d) && s !in touched ==> Kept(g, v, w, t, o, s)
  }

  lemma KeptAfter(g: Geometry, v: View, w: View, x: View, t: Tree, o: Tree, p: Tree, d: Dir, a: set<Slot>, b: set<Slot>)
    requires OthersKept(g, v, w, t, o, d, a) && OthersKept(g, w, x, o, p, d, b)
    ensures OthersKept(g, v, x, t, p, d, a + b)
  {
    hide SlotExists, EntryAt;
    forall s | s in t.chains && s !in Self(d) && s !in a + b ensures Kept(g, v, x, t, p, s) {
      assert Kept(g, v, w, t, o, s) && Kept(g, w, x, o, p, s);
    }
  }

  lemma NothingTouched(g: Geometry, v: View, t: Tree, d: Dir, touched: set<Slot>)
    requires Shaped(g, v) && TreeShape(g, t)
    ensures OthersKept(g, v, v, t, t, d, touched)
  {}

  lemma KeptMore(g: Geometry, v: View, w: View, t: Tree, o: Tree, d: Dir, a: set<Slot>, b: set<Slot>)
    requires OthersKept(g, v, w, t, o, d, a) && a <= b
    ensures OthersKept(g, v, w, t, o, d, b)
  {}

  /** Setting an entry of a directory touches that directory and entry only. */
  lemma SetKeeps(g: Geometry, v: View, t: Tree, o: Tree, d: Dir, k: nat, item: Item)
    requires Shaped(g, v) && TreeShape(g, t) && IsListed(g, v, t, d) && k < |AllItems(g, v, t, d)|
    requires forall u :: u in t.chains && u != SlotOf(g, v, t, d, k) ==> u in o.chains && o.chains[u] == t.chains[u]
    ensures var s := SlotOf(g, v, t, d, k);
            OthersKept(g, v, SetEntry(g, v, s, item), t, o, d, {s})
  {
    var s := SlotOf(g, v, t, d, k);
    var w := SetEntry(g, v, s, item);
    OtherEntries(g, v, s, item);
    assert d.SubDir? ==> w.root == v.root;
    hide EntryAt, SlotOf, AllItems, IsListed, SetEntry;
    forall u | u in t.chains && u !in Self(d) && u != s ensures Kept(g, v, w, t, o, u) {
      SetKeepsOne(g, v, t, o, d, k, item, u);
    }
  }

  lemma SetKeepsOne(g: Geometry, v: View, t: Tree, o: Tree, d: Dir, k: nat, item: Item, u: Slot)
    requires Shaped(g, v) && TreeShape(g, t) && IsListed(g, v, t, d) && k < |AllItems(g, v, t, d)|
    requires u in t.chains && u !in Self(d) && u in o.chains && o.chains[u] == t.chains[u]
    requires u != SlotOf(g, v, t, d, k)
    ensures Kept(g, v, SetEntry(g, v, SlotOf(g, v, t, d, k), item), t, o, u)
  {
    OtherEntries(g, v, SlotOf(g, v, t, d, k), item);
    NotOf(g, v, t, d, k, u);
    hide EntryAt, SlotOf, AllItems, IsListed;
    assert forall i :: 0 <= i < |t.chains[u]| ==> t.chains[u][i] in t.owner && t.chains[u][i] in t.chains[u];
  }

  ghost predicate DataKept(g: Geometry, v: View, w: View, t: Tree, touched: set<Slot>)
    requires Shaped(g, v) && Shaped(g, w) && TreeShape(g, t)
  {
    forall c :: c in t.owner && (t.owner[c] in touched ==> IsDirectory(EntryAt(g, v, t.owner[c]))) ==>
      w.data[c] == v.data[c]
  }

  /** Changes to free clusters, and to clusters of files in `touched`, leave the others. */
  lemma DataKeeps(g: Geometry, v: View, w: View, t: Tree, o: Tree, d: Dir, touched: set<Slot>)
    requires Shaped(g, v) && TreeShape(g, t) && SlotsOk(g, v, t) && Shaped(g, w) && w.root == v.root
    requires DataKept(g, v, w, t, touched)
    requires d.SubDir? && d.slot !in touched ==> ChainGrew(t, o, d.slot)
    requires forall u :: u in t.chains && u !in Self(d) && u !in touched ==> u in o.chains && o.chains[u] == t.chains[u]
    ensures OthersKept(g, v, w, t, o, d, touched)
  {
    hide IsDirectory, Live;
    forall u | u in t.chains && u !in Self(d) && u !in touched ensures Kept(g, v, w, t, o, u) {
      assert InDirectory(g, v, t, u);
      assert forall i :: 0 <= i < |t.chains[u]| ==> t.chains[u][i] in t.owner && t.owner[t.chains[u][i]] == u;
    }
  }

  lemma SameDataFlatten(g: Geometry, v: View, w: View, cs: seq<nat>)
    requires SameData(v, w, cs) && HasClusters(v.data, cs, g.ClusterBytes())
    ensures HasClusters(w.data, cs, g.ClusterBytes())
    ensures Flatten(w.data, cs, g.ClusterBytes()) == Flatten(v.data, cs, g.ClusterBytes())
  {
    FlattenSame(v.data, w.data, cs, g.ClusterBytes());
  }

  // ---- what it means for a file and for a directory ----

  /** The contents of a listed file. */
  ghost function Contents(g: Geometry, v: View, t: Tree, s: Slot): seq<byte>
    requires FsckBut(g, v, t, []) && s in t.chains && !IsDirectory(EntryAt(g, v, s))
  {
    assert EntryOk(g, v, EntryAt(g, v, s), t.chains[s]);
    ChainClusters(g, v, t.chains[s]);
    FileBytes(g, v, t.chains[s], FileSize(EntryAt(g, v, s)))
  }

  lemma ContentsKept(g: Geometry, v: View, w: View, t: Tree, o: Tree, s: Slot)
    requires FsckBut(g, v, t, []) && FsckBut(g, w, o, []) && Kept(g, v, w, t, o, s)
    ensures IsDirectory(EntryAt(g, v, s)) == IsDirectory(EntryAt(g, w, s))
    ensures !IsDirectory(EntryAt(g, v, s)) ==> Contents(g, w, o, s) == Contents(g, v, t, s)
  {
    hide SlotsOk, UsedOk, IsDirectory, IsChain, EntryAt;
    assert EntryOk(g, v, EntryAt(g, v, s), t.chains[s]);
    ChainClusters(g, v, t.chains[s]);
    SameDataFlatten(g, v, w, t.chains[s]);
  }

  lemma DirKept(g: Geometry, v: View, w: View, t: Tree, o: Tree, s: Slot)
    requires Shaped(g, v) && Shaped(g, w) && TreeShape(g, t) && TreeShape(g, o) && Kept(g, v, w, t, o, s)
    requires IsListed(g, v, t, SubDir(s))
    ensures IsListed(g, w, o, SubDir(s)) && AllItems(g, w, o, SubDir(s)) == AllItems(g, v, t, SubDir(s))
  {
    SameDirItems(g, v, w, t.chains[s]);
  }
}
