// The invariant every operation keeps: a consistent volume with proper names in all directories.
module FatSound {
  import opened Bytes
  import opened FatLayout
  import opened FatVolume
  import opened FatItems
  import opened FatChains
  import opened FatFsck
  import opened FatDirs
  import opened FatOthers
  import opened FatNames
  import opened FatLongNames
  import opened FatNaming
  import opened FatOps
  import opened FatCreate

  /** The 8.3 name of the `.` and `..` entries. */
  function DotName(n: nat): (r: seq<byte>)
    ensures |r| == 11
  {
    seq(11, i requires 0 <= i < 11 => if i < n then DOT else SPACE)
  }

  /** Only `.` and `..` start with a dot, and they have no long name. */
  ghost predicate DotsOk(items: seq<Item>) {
    forall i :: 0 <= i < |items| && Named(items[i]) && items[i][0] == DOT ==>
      LfnCount(items, i) == 0 && (items[i][..11] == DotName(1) || items[i][..11] == DotName(2))
  }

  ghost predicate Tidy(items: seq<Item>) { NamesOk(items) && DotsOk(items) }

  ghost predicate DirTidy(all: seq<Item>) { forall items :: Lists(all, items) ==> Tidy(items) }

  /** The first two entries of a directory are `.` and `..`: they name its own first cluster and that of
      the directory it is in. */
  ghost predicate DotsHome(all: seq<Item>, own: nat, parent: nat) {
    && |all| >= 2 && all[0][..11] == DotName(1) && all[1][..11] == DotName(2)
    && Attr(all[0]) == ATTR_SUBDIRECTORY == Attr(all[1]) && FirstCluster(all[0]) == own
    && FirstCluster(all[1]) == parent
  }

  /** First cluster of the directory that lists `s`; 0 for the root directory. */
  function ParentFirst(t: Tree, s: Slot): nat {
    if s.RootSlot? || s.cluster !in t.owner || t.owner[s.cluster] !in t.chains then 0
    else First(t.chains[t.owner[s.cluster]])
  }

  /** First cluster of a directory; 0 for the root directory. */
  function DirFirst(t: Tree, d: Dir): nat { if d.RootDir? || d.slot !in t.chains then 0 else First(t.chains[d.slot]) }

  ghost predicate Home(g: Geometry, v: View, t: Tree, s: Slot)
    requires Shaped(g, v) && TreeShape(g, t)
  {
    IsListed(g, v, t, SubDir(s)) ==> DotsHome(AllItems(g, v, t, SubDir(s)), First(t.chains[s]), ParentFirst(t, s))
  }

  ghost predicate HomesOk(g: Geometry, v: View, t: Tree)
    requires Shaped(g, v) && TreeShape(g, t)
  {
    forall s {:trigger Home(g, v, t, s)} :: Home(g, v, t, s)
  }

  ghost predicate Sound(g: Geometry, v: View, t: Tree) {
    && Consistent(g, v, t, [])
    && (forall d :: IsListed(g, v, t, d) ==> DirTidy(AllItems(g, v, t, d)))
    && HomesOk(g, v, t)
  }

  /** A sound volume, with directory `d` listed. */
  ghost predicate SoundWith(g: Geometry, v: View, t: Tree, d: Dir) { Sound(g, v, t) && IsListed(g, v, t, d) }

  /** A sound volume, with directory `d` loaded. */
  ghost predicate SoundView(g: Geometry, v: View, t: Tree, d: Dir, view: DirView) {
    Sound(g, v, t) && Loaded(view, g, v, t, d)
  }

  /** A part of a normalised path (`path_parser.c`): no `.`, no `..`, of a length that fits. */
  predicate GoodPart(name: Name) { |name| <= PATH_MAX && name != [DOT] && name != [DOT, DOT] }

  lemma ListsOnce(all: seq<Item>, a: seq<Item>, b: seq<Item>)
    requires Lists(all, a) && Lists(all, b)
    ensures a == b
  {
    assert |a| < |all| ==> all[|a|][0] == 0;
    assert |b| < |all| ==> all[|b|][0] == 0;
  }

  lemma TidyDir(all: seq<Item>, items: seq<Item>)
    requires Lists(all, items) && Tidy(items)
    ensures DirTidy(all)
  {
    hide Lists, Tidy;
    forall other | Lists(all, other) ensures Tidy(other) { ListsOnce(all, items, other); }
  }

  // ---- looking up ----

  lemma {:induction false} TrimDots(n: nat)
    requires 1 <= n <= 2
    ensures Trim(DotName(n)[..8]) == seq(n, _ => DOT)
  {
    var s := DotName(n)[..8];
    assert s[0] == DOT;
    assert n == 2 ==> s[1..][0] == DOT;
    assert Trim(s[n..]) == [];
    if n == 2 { assert s[1..][1..] == s[2..]; }
  }

  lemma DotsDisplay(it: Item, n: nat)
    requires 1 <= n <= 2 && it[..11] == DotName(n)
    ensures FullShortName(it) == seq(n, _ => DOT) && ShortDisplay(it) == seq(n, _ => DOT)
  {
    TrimDots(n);
    assert it[..8] == it[..11][..8] && it[8] == it[..11][8] == SPACE;
    assert FullShortName(it) == seq(n, _ => DOT);
    CaseOfDots(n, HasBit(it[12], LOWER_BASE), HasBit(it[12], LOWER_EXT));
  }

  lemma {:induction false} CaseOfDots(n: nat, lower: bool, ext: bool)
    ensures ApplyCase(seq(n, _ => DOT), lower, ext) == seq(n, _ => DOT)
  {
    if n > 0 {
      var s: seq<byte> := seq(n, _ => DOT);
      assert s[0] == DOT && s[1..] == seq(n - 1, _ => DOT);
      CaseOfDots(n - 1, ext, ext);
    }
  }

  lemma DotsNotGood(n: nat, name: Name)
    requires 1 <= n <= 2 && GoodPart(name)
    ensures !SameName(seq(n, _ => DOT), name)
  {
    if SameName(seq(n, _ => DOT), name) { SameAsDots(n, name); }
  }

  lemma SameAsDots(n: nat, name: seq<byte>)
    requires 1 <= n <= 2 && SameName(seq(n, _ => DOT), name)
    ensures name == if n == 1 then [DOT] else [DOT, DOT]
  {
    var s: seq<byte> := seq(n, _ => DOT);
    forall i | 0 <= i < n ensures |name| == n && name[i] == DOT { assert Lower(name)[i] == Lower(s)[i]; }
  }

  /** A path never finds `.` or `..`: what it finds is a file or directory of the volume. */
  lemma FoundIsLive(all: seq<Item>, items: seq<Item>, name: Name, i: nat)
    requires Tidy(items) && Lists(all, items) && GoodPart(name) && i < |items| && Matches(items, i, name)
    ensures Live(items[i]) && i < |all| && all[i] == items[i]
  {
    hide ShortDisplay, FullShortName, LfnCount, SameName, DotName, GoodPart, NamesOk;
    if items[i][0] == DOT {
      var n := if items[i][..11] == DotName(1) then 1 else 2;
      DotsDisplay(items[i], n);
      DotsNotGood(n, name);
      assert false;
    }
  }

  // ---- names after an operation ----

  lemma CreateTidy(items: seq<Item>, idx: nat, name: Name, item: Item, entries: seq<Item>)
    requires Tidy(items) && idx <= |items| && FreeAt(items, idx, |entries|)
    requires GoodEntries(items, name, item, entries) && IsIndexOf(items, name, -1) && |name| <= PATH_MAX
    ensures entries != [] && Tidy(Placed(items, idx, entries))
  {
    hide NamesOk, ItemName, LfnCount, EntriesFor, Placed, FreeAt, DotName, ShortTaken, MakeShortName;
    CreateNames(items, idx, name, item, entries);
    assert Creates(items, idx, name, item, entries);
    LastEntry(items, name, item, entries);
    var r := Placed(items, idx, entries);
    forall i | 0 <= i < |r| && Named(r[i]) && r[i][0] == DOT
      ensures LfnCount(r, i) == 0 && (r[i][..11] == DotName(1) || r[i][..11] == DotName(2))
    {
      if idx <= i < idx + |entries| {
        assert r[idx + (i - idx)] == entries[i - idx];
        EntriesOneLive(items, name, item, entries);
        if i < idx + |entries| - 1 { NewPartNotNamed(items, idx, name, item, entries, i); }
        assert false;
      } else {
        CreateKeepsName(items, idx, name, item, entries, i, PATH_MAX);
      }
    }
  }

  lemma RemoveTidy(items: seq<Item>, k: nat)
    requires Tidy(items) && k < |items| && Named(items[k])
    ensures Tidy(Deleted(items, k - LfnCount(items, k), k + 1))
  {
    hide NamesOk, ItemName, LfnCount, DotName;
    RemoveNames(items, k);
    var r := Deleted(items, k - LfnCount(items, k), k + 1);
    forall i | 0 <= i < |r| && Named(r[i]) && r[i][0] == DOT
      ensures LfnCount(r, i) == 0 && (r[i][..11] == DotName(1) || r[i][..11] == DotName(2))
    {
      RemoveKeepsName(items, k, i, PATH_MAX);
    }
  }

  /** The name of an entry is in its first 13 bytes, and in the parts before it. */
  lemma UpdateKeepsName(items: seq<Item>, k: nat, item: Item, j: nat, max: nat)
    requires k < |items| && Named(items[k]) && item[..13] == items[k][..13] && j < |items|
    ensures var r := items[k := item];
            LfnCount(r, j) == LfnCount(items, j) && ItemName(r, j, max) == ItemName(items, j, max)
    ensures Named(item) && item[..11] == items[k][..11] && item[0] == items[k][0]
    ensures FullShortName(item) == FullShortName(items[k])
  {
    hide LfnScan, HasBit, LongName, ApplyCase, Trim, Checksum;
    var r := items[k := item];
    HeadSame(items[k], item);
    if j < k {
      NameSamePrefix(items, r, j, max);
    } else if j > k {
      NameSame(items, r, j, k + 1, max);
    } else {
      ScanSame(items, r, j, 1, Checksum(item[..11]), 0);
      LongSame(items, r, j, LfnCount(items, j), 0, max);
    }
  }

  lemma HeadSame(a: Item, b: Item)
    requires a[..13] == b[..13]
    ensures a[..11] == b[..11] && a[0] == b[0] && Attr(a) == Attr(b) && FullShortName(a) == FullShortName(b)
    ensures ShortDisplay(a) == ShortDisplay(b)
  {
    hide Trim, ApplyCase, HasBit;
    assert a[..11] == a[..13][..11] && a[0] == a[..13][0] && a[11] == a[..13][11] && a[12] == a[..13][12];
    assert b[..11] == b[..13][..11] && b[0] == b[..13][0] && b[11] == b[..13][11] && b[12] == b[..13][12];
    SameFullShort(a, b);
  }

  lemma UpdateTidy(items: seq<Item>, k: nat, item: Item)
    requires Tidy(items) && k < |items| && Named(items[k]) && item[..13] == items[k][..13]
    ensures Tidy(items[k := item])
  {
    hide ItemName, LfnCount, DotName, SameName, HasBit;
    var r := items[k := item];
    UpdateKeepsName(items, k, item, k, PATH_MAX);
    forall i, j | 0 <= i < |r| && 0 <= j < |r| ensures DistinctAt(r, i, j) {
      UpdateKeepsName(items, k, item, i, PATH_MAX);
      UpdateKeepsName(items, k, item, j, PATH_MAX);
      assert DistinctAt(items, i, j);
    }
    forall p | 0 <= p < |r| && LfnInUse(r[p]) ensures exists q :: PartOfName(r, p, q) {
      var q: nat :| PartOfName(items, p, q);
      UpdateKeepsName(items, k, item, q, 0);
      assert PartOfName(r, p, q);
    }
    forall i | 0 <= i < |r| ensures LfnCount(r, i) == LfnCount(items, i) {
      UpdateKeepsName(items, k, item, i, 0);
    }
  }

  // ---- the whole volume ----

  /** The first two entries are the same. */
  ghost predicate SameTop(all: seq<Item>, after: seq<Item>) {
    |all| >= 2 ==> |after| >= 2 && after[0] == all[0] && after[1] == all[1]
  }

  /** Directory `d` is the same one, whatever has changed in it. */
  ghost predicate SameDir(g: Geometry, v: View, w: View, t: Tree, o: Tree, d: Dir)
    requires Shaped(g, v) && Shaped(g, w) && TreeShape(g, t) && TreeShape(g, o)
  {
    d.SubDir? ==>
      && IsListed(g, v, t, d) && IsListed(g, w, o, d) && ChainGrew(t, o, d.slot)
      && SameTop(AllItems(g, v, t, d), AllItems(g, w, o, d))
  }

  /** If `s` is a directory, it lists nothing. */
  ghost predicate NobodyIn(g: Geometry, v: View, t: Tree, s: Slot)
    requires Shaped(g, v) && TreeShape(g, t)
  {
    s in t.chains && IsDirectory(EntryAt(g, v, s)) ==> forall u :: u in t.chains && u.ClusterSlot? ==>
        u.cluster !in t.chains[s]
  }

  /** An operation on directory `d` keeps the volume sound if it keeps its own names proper. */
  lemma SoundBy(g: Geometry, v: View, w: View, t: Tree, o: Tree, d: Dir, s: Slot)
    requires Sound(g, v, t) && Consistent(g, w, o, []) && OthersKept(g, v, w, t, o, d, {s})
    requires IsListed(g, w, o, d) && DirTidy(AllItems(g, w, o, d))
    requires o.chains.Keys <= t.chains.Keys + {s}
    requires IsListed(g, w, o, SubDir(s)) ==> DirTidy(AllItems(g, w, o, SubDir(s)))
    requires SameDir(g, v, w, t, o, d) && (d == SubDir(s) || (NobodyIn(g, v, t, s) && Home(g, w, o, s)))
    ensures Sound(g, w, o)
  {
    hide EntriesOk, SlotsOk, UsedOk, EndsOk, HasRoot, DirTidy, ChainInRange, Kept, EntryAt, TreeShape, Home;
    HomesBy(g, v, w, t, o, d, s);
    hide HomesOk;
    forall e | IsListed(g, w, o, e) ensures DirTidy(AllItems(g, w, o, e)) {
      if e.RootDir? {
        if d.SubDir? { assert IsListed(g, v, t, e); }
      } else if e != d && e.slot != s {
        assert Kept(g, v, w, t, o, e.slot);
        ListedBefore(g, v, w, t, o, e.slot);
        DirKept(g, v, w, t, o, e.slot);
      }
    }
  }

  /** `.` and `..` of the other directories stay right as well. */
  lemma HomesBy(g: Geometry, v: View, w: View, t: Tree, o: Tree, d: Dir, s: Slot)
    requires FsckBut(g, v, t, []) && HomesOk(g, v, t) && FsckBut(g, w, o, []) && OthersKept(g, v, w, t, o, d, {s})
    requires o.chains.Keys <= t.chains.Keys + {s} && SameDir(g, v, w, t, o, d)
    requires d == SubDir(s) || (NobodyIn(g, v, t, s) && Home(g, w, o, s))
    ensures HomesOk(g, w, o)
  {
    hide EntriesOk, SlotsOk, UsedOk, ChainInRange, Kept, EntryAt, TreeShape, DotsHome, ParentFirst, AllItems;
    hide IsDirectory, NobodyIn, SameTop;
    forall e ensures Home(g, w, o, e) {
      if IsListed(g, w, o, SubDir(e)) && (d == SubDir(e) || e != s) {
        assert e in o.chains && e in t.chains;
        assert Home(g, v, t, e);
        ParentSame(g, v, w, t, o, d, s, e);
        if d == SubDir(e) {
          TopHome(AllItems(g, v, t, d), AllItems(g, w, o, d), First(t.chains[e]), ParentFirst(t, e));
          HasFirst(g, v, t, e);
        } else {
          assert Kept(g, v, w, t, o, e);
          ListedBefore(g, v, w, t, o, e);
          DirKept(g, v, w, t, o, e);
          SameChain(g, v, w, t, o, e);
        }
      }
    }
  }

  // ---- the top of a directory ----

  /** Entries in use, or parts of a long name, are not the first two. */
  lemma NotTop(all: seq<Item>, own: nat, parent: nat, k: nat)
    requires DotsHome(all, own, parent) && k < |all|
    requires (Live(all[k]) || IsLongName(all[k]) || all[k][0] == ENTRY_DELETED || all[k][0] == 0)
    ensures k >= 2
  {
    assert DotName(1)[0] == DOT && DotName(2)[0] == DOT;
    assert all[0][0] == all[0][..11][0] && all[1][0] == all[1][..11][0];
  }

  lemma SetTop(all: seq<Item>, own: nat, parent: nat, k: nat, item: Item)
    requires DotsHome(all, own, parent) && k < |all| && Live(all[k])
    ensures SameTop(all, all[k := item])
  {
    NotTop(all, own, parent, k);
    hide DotsHome, Live;
  }

  /** What is placed in free entries is behind them. */
  lemma PlacedTop(all: seq<Item>, items: seq<Item>, after: seq<Item>, own: nat, parent: nat, idx: nat,
                  entries: seq<Item>)
    requires DotsHome(all, own, parent) && Lists(all, items) && entries != [] && idx <= |items|
    requires FreeAt(items, idx, |entries|)
    requires Lists(after, Placed(items, idx, entries))
    ensures SameTop(all, after)
  {
    hide Live;
    if idx < |all| { NotTop(all, own, parent, idx); }
    if |items| < |all| { NotTop(all, own, parent, |items|); }
    hide DotsHome;
    assert |items| >= 2 && idx >= 2;
    assert Placed(items, idx, entries)[0] == items[0] && Placed(items, idx, entries)[1] == items[1];
  }

  /** The entries of an item that is removed are behind them. */
  lemma DeletedTop(all: seq<Item>, items: seq<Item>, after: seq<Item>, own: nat, parent: nat, k: nat)
    requires DotsHome(all, own, parent) && Lists(all, items) && k < |items| && Live(items[k])
    requires Lists(after, Deleted(items, k - LfnCount(items, k), k + 1))
    ensures SameTop(all, after)
  {
    hide Live, LfnScan;
    var lo := k - LfnCount(items, k);
    NotTop(all, own, parent, k);
    if lo < k {
      ScanInUseAt(items, k, lo);
      NotTop(all, own, parent, lo);
    }
    hide DotsHome, LfnCount;
    var r := Deleted(items, lo, k + 1);
    assert r[0] == items[0] && r[1] == items[1];
  }

  lemma TopOf(g: Geometry, v: View, t: Tree, d: Dir)
    requires Sound(g, v, t) && IsListed(g, v, t, d) && d.SubDir?
    ensures DotsHome(AllItems(g, v, t, d), First(t.chains[d.slot]), ParentFirst(t, d.slot))
  {
    hide DotsHome, EntriesOk, SlotsOk, UsedOk, EndsOk, HasRoot, DirTidy, AllItems, TreeShape;
    assert Home(g, v, t, d.slot);
  }

  lemma SameChain(g: Geometry, v: View, w: View, t: Tree, o: Tree, s: Slot)
    requires Shaped(g, v) && Shaped(g, w) && Kept(g, v, w, t, o, s)
    ensures s in t.chains && s in o.chains && o.chains[s] == t.chains[s]
  {}

  lemma HasFirst(g: Geometry, v: View, t: Tree, s: Slot)
    requires FsckBut(g, v, t, []) && IsListed(g, v, t, SubDir(s))
    ensures s in t.chains && t.chains[s] != []
  {
    hide SlotsOk, UsedOk, IsChain;
    assert EntryOk(g, v, EntryAt(g, v, s), t.chains[s]);
  }

  lemma TopHome(all: seq<Item>, after: seq<Item>, own: nat, parent: nat)
    requires DotsHome(all, own, parent) && SameTop(all, after)
    ensures DotsHome(after, own, parent)
  {}

  /** What lists an entry stays where it is. */
  lemma ParentSame(g: Geometry, v: View, w: View, t: Tree, o: Tree, d: Dir, s: Slot, e: Slot)
    requires FsckBut(g, v, t, []) && FsckBut(g, w, o, []) && OthersKept(g, v, w, t, o, d, {s})
    requires SameDir(g, v, w, t, o, d)
    requires d == SubDir(s) || NobodyIn(g, v, t, s)
    requires e in t.chains && e in o.chains
    ensures ParentFirst(o, e) == ParentFirst(t, e)
  {
    hide EntriesOk, UsedOk, EntryAt, Live, AllItems, IsDirectory, SameTop, IsChain;
    if e.ClusterSlot? {
      assert InDirectory(g, v, t, e) && InDirectory(g, w, o, e);
      var c := e.cluster;
      var q := t.owner[c];
      if q != s || d == SubDir(s) {
        if d == SubDir(q) { assert ChainGrew(t, o, q); } else { SameChainKept(g, v, w, t, o, d, s, q); }
        var i :| 0 <= i < |t.chains[q]| && t.chains[q][i] == c;
        assert o.chains[q][i] == c;
      }
    }
  }

  lemma SameChainKept(g: Geometry, v: View, w: View, t: Tree, o: Tree, d: Dir, s: Slot, q: Slot)
    requires OthersKept(g, v, w, t, o, d, {s}) && q in t.chains && q != s && d != SubDir(q)
    ensures q in o.chains && o.chains[q] == t.chains[q]
  {
    assert Kept(g, v, w, t, o, q);
  }

  lemma ListedBefore(g: Geometry, v: View, w: View, t: Tree, o: Tree, s: Slot)
    requires Shaped(g, v) && Shaped(g, w) && TreeShape(g, t) && TreeShape(g, o) && Kept(g, v, w, t, o, s)
    requires IsListed(g, w, o, SubDir(s))
    ensures IsListed(g, v, t, SubDir(s))
  {}

  // ---- where runs start ----

  /** A volume as it is formatted: no cluster in use, and nothing in the root directory but a volume
      label, if it has one. */
  ghost predicate Formatted(g: Geometry, v: View) {
    && Shaped(g, v) && g.Limit() <= RESERVED_START
    && (forall c :: 2 <= c < g.Limit() ==> v.fat[c] == UNUSED || v.fat[c] == BAD_SECTOR)
    && (v.root[0][0] == ENTRY_END || (IsVolumeLabel(v.root[0]) && !IsLongName(v.root[0])))
    && forall i :: 0 < i < |v.root| ==> v.root[i][0] == ENTRY_END
  }

  /** A formatted volume is sound: it is where a run may start. */
  lemma FormattedIsSound(g: Geometry, v: View)
    requires Formatted(g, v)
    ensures Sound(g, v, Tree(map[], map[]))
  {
    hide HasBit;
    var t := Tree(map[], map[]);
    FormattedFsck(g, v);
    assert Rooted(t, map[]);
    forall d | IsListed(g, v, t, d) ensures DirTidy(AllItems(g, v, t, d)) { LabelTidy(v.root); }
  }

  lemma FormattedFsck(g: Geometry, v: View)
    requires Formatted(g, v)
    ensures FsckBut(g, v, Tree(map[], map[]), []) && EndsOnce(v.root)
  {
    hide HasBit;
    forall i | 0 <= i < |v.root| ensures !Live(v.root[i]) {}
  }

  lemma ListsUpTo(all: seq<Item>, items: seq<Item>, n: nat)
    requires Lists(all, items) && (n < |all| ==> all[n][0] == ENTRY_END)
    ensures |items| <= n
  {}

  lemma LabelTidy(all: seq<Item>)
    requires all != [] && (all[0][0] == ENTRY_END || (IsVolumeLabel(all[0]) && !IsLongName(all[0])))
    requires forall i :: 0 < i < |all| ==> all[i][0] == ENTRY_END
    ensures DirTidy(all)
  {
    hide HasBit, ItemName, LfnCount, SameName, DotName;
    forall items | Lists(all, items) ensures Tidy(items) {
      ListsUpTo(all, items, 1);
      assert forall i :: 0 <= i < |items| ==> items[i] == all[0] && !Named(items[i]) && !LfnInUse(items[i]);
    }
  }
}
