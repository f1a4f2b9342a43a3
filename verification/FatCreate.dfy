// Creating an item: `fat16_create_item` writes its entries into a directory.
module FatCreate {
  import opened Bytes
  import opened FatDisk
  import opened FatLayout
  import opened FatVolume
  import opened FatItems
  import opened FatChains
  import opened FatFsck
  import opened FatDirs
  import opened FatOthers
  import opened FatNames
  import opened FatLongNames
  import opened FatNaming
  import opened FatOps

  /** The entries for a new item: an 8.3 name, or a long name and an alias. */
  method MakeEntries(items: seq<Item>, name: Name, item: Item) returns (res: int, entries: seq<Item>)
    ensures res == OK ==> EntriesFor(items, name, item, entries)
    ensures res != OK ==> res == INVALID_PATH_ERROR || res == FILE_EXISTS_ERROR
    ensures res == INVALID_PATH_ERROR <==> MakeShortName(name).None? && !ValidLongName(name)
    ensures res == FILE_EXISTS_ERROR <==>
              && MakeShortName(name).None? && ValidLongName(name)
              && forall n :: 1 <= n < 1000 ==> ShortTaken(items, Alias(name, n))
  {
    hide MakeShortName, ValidLongName, ShortTaken, Alias, Part, SetName, Checksum;
    var short := ShortNameOf(name);
    if short.Some? {
      return OK, [SetName(item, short.value.name, short.value.caseBits)];
    }
    if !ValidLongName(name) {
      return INVALID_PATH_ERROR, [];
    }
    LongLength(name);
    var alias := MakeAlias(items, name);
    if alias.None? {
      return FILE_EXISTS_ERROR, [];
    }
    var count := PartCount(name);
    var checksum := Checksum(alias.value);
    entries := [];
    for n := 1 to count + 1
      invariant entries == Parts(name, checksum)[count + 1 - n..]
    {
      entries := [Part(name, n, count, checksum)] + entries;
    }
    entries := entries + [SetName(item, alias.value, 0)];
    SetNameGet(item, alias.value, 0);
    res := OK;
  }

  lemma SetNameGet(it: Item, name: seq<byte>, reserved: byte)
    requires |name| == 11
    ensures SetName(it, name, reserved)[..11] == name
  {}

  /** The last entry stands for the item, the others are parts of its name. */
  ghost predicate OneLive(entries: seq<Item>) {
    && entries != [] && Live(entries[|entries| - 1])
    && forall i :: 0 <= i < |entries| - 1 ==> entries[i][0] != 0 && !Live(entries[i])
  }

  lemma EntriesOneLive(items: seq<Item>, name: Name, item: Item, entries: seq<Item>)
    requires GoodEntries(items, name, item, entries)
    ensures OneLive(entries) && |entries| == if MakeShortName(name).Some? then 1 else PartCount(name) + 1
    ensures || MakeShortName(name).Some?
            || (ValidLongName(name) && exists n :: 1 <= n < 1000 && !ShortTaken(items, Alias(name, n)))
    ensures var last := entries[|entries| - 1];
            FirstCluster(last) == FirstCluster(item) && FileSize(last) == FileSize(item) && Attr(last) == Attr(item)
  {
    hide HasBit, Part, SetName, MakeShortName, Checksum, Alias, ShortTaken, ValidLongName, FirstCluster, FileSize;
    LastEntry(items, name, item, entries);
    if MakeShortName(name).Some? {
      var short := MakeShortName(name).value;
      ShortFirst(name);
      SetNameKeeps(item, short.name, short.caseBits);
    } else {
      LongLength(name);
      var alias := entries[PartCount(name)][..11];
      AliasFirst(name, alias);
      SetNameKeeps(item, alias, 0);
      forall i | 0 <= i < |entries| - 1 ensures entries[i][0] != 0 && !Live(entries[i]) {
        PartIdle(name, PartCount(name) - i, PartCount(name), Checksum(alias));
      }
    }
  }

  lemma SetNameKeeps(it: Item, name: seq<byte>, reserved: byte)
    requires |name| == 11
    ensures var r := SetName(it, name, reserved);
            FirstCluster(r) == FirstCluster(it) && FileSize(r) == FileSize(it) && Attr(r) == Attr(it) && r[0] == name[0]
  {}

  lemma PartIdle(name: seq<byte>, n: nat, count: nat, checksum: byte)
    requires 1 <= n <= count <= 5
    ensures Part(name, n, count, checksum)[0] != 0 && !Live(Part(name, n, count, checksum))
  {
    hide CharOf;
  }

  /** `all` with the first `i` of `entries` written from entry `idx` on. */
  ghost function Put(all: seq<Item>, idx: nat, entries: seq<Item>, i: nat): (r: seq<Item>)
    requires i <= |entries| && idx + |entries| <= |all|
    ensures |r| == |all|
  {
    all[..idx] + entries[..i] + all[idx + i..]
  }

  lemma PutNext(all: seq<Item>, idx: nat, entries: seq<Item>, i: nat)
    requires i < |entries| && idx + |entries| <= |all|
    ensures Put(all, idx, entries, i + 1) == Put(all, idx, entries, i)[idx + i := entries[i]]
    ensures Put(all, idx, entries, i)[idx + i] == all[idx + i]
  {}

  lemma PutNoEnd(all: seq<Item>, idx: nat, entries: seq<Item>, i: nat)
    requires i < |entries| && idx + |entries| <= |all| && NoEndBefore(all, idx) && OneLive(entries)
    ensures NoEndBefore(Put(all, idx, entries, i), idx + i)
  {}

  /** Entries from `idx` on are free, and none before is the end marker. */
  ghost predicate Free(all: seq<Item>, idx: nat, n: nat) {
    && idx + n <= |all| && NoEndBefore(all, idx)
    && forall k :: idx <= k < idx + n ==> !Live(all[k])
  }

  lemma RootNotPast(root: seq<Item>, total: nat, k: nat)
    requires IsTotal(root, total) && NoEndBefore(root, k)
    ensures k <= total
  {
    assert total < |root| ==> root[total][0] == 0;
  }

  /** Writes entry `k` of directory `d`. */
  method WriteEntry(vol: Volume, view: DirView, k: nat, item: Item, ghost t: Tree, ghost d: Dir) returns (pos: int)
    requires vol.Valid() && TreeShape(vol.g, t) && IsListed(vol.g, vol.V(), t, d)
    requires k < |AllItems(vol.g, vol.V(), t, d)| && NoEndBefore(AllItems(vol.g, vol.V(), t, d), k) && item[0] != 0
    requires view.first == if d.RootDir? then 0 else First(t.chains[d.slot])
    requires d.SubDir? ==> IsChain(vol.V().fat, vol.g.Limit(), t.chains[d.slot])
    modifies vol.Parts() - {vol.fat}
    ensures vol.Valid() && pos >= 0 && pos == SlotPos(vol.g, SlotOf(vol.g, old(vol.V()), t, d, k))
    ensures vol.V() == SetEntry(vol.g, old(vol.V()), SlotOf(vol.g, old(vol.V()), t, d, k), item)
  {
    hide FlatOf, FatImage, RootImage, DataImage, Geometry.Limit, Geometry.Valid, IsChain, TreeShape, SetEntry, SlotPos;
    hide DirItems, ChainInRange;
    pos := DirEntryPos(vol, view, k, t, d);
    ghost var slot := SlotOf(vol.g, vol.V(), t, d, k);
    if d.RootDir? { RootNotPast(vol.root, vol.total, k); }
    vol.WriteDirEntry(pos, item, slot);
  }

  lemma EntryOkSame(g: Geometry, v: View, w: View, a: Item, b: Item, cs: seq<nat>)
    requires Shaped(g, v) && Shaped(g, w) && w.fat == v.fat && EntryOk(g, v, a, cs)
    requires FirstCluster(a) == FirstCluster(b) && FileSize(a) == FileSize(b) && Attr(a) == Attr(b)
    ensures EntryOk(g, w, b, cs)
  {}

  /** The pending directory stays empty when another one is written to. */
  lemma NewDirectoryKept(g: Geometry, v: View, w: View, cs: seq<nat>)
    requires Shaped(g, v) && Shaped(g, w) && NewDirectory(g, v, cs)
    requires forall i :: 0 <= i < |cs| ==> w.data[cs[i]] == v.data[cs[i]]
    ensures NewDirectory(g, w, cs)
  {
    SameDirItems(g, v, w, cs);
  }

  /** A file or directory that is not listed yet: its chain is the pending one. */
  ghost predicate Unborn(g: Geometry, v: View, item: Item, pending: seq<nat>)
    requires Shaped(g, v)
  {
    EntryOk(g, v, item, pending) && (IsDirectory(item) ==> NewDirectory(g, v, pending))
  }

  lemma SlotSame(g: Geometry, v: View, w: View, t: Tree, o: Tree, d: Dir, k: nat)
    requires Shaped(g, v) && Shaped(g, w) && TreeShape(g, t) && TreeShape(g, o)
    requires IsListed(g, v, t, d) && IsListed(g, w, o, d) && k < |AllItems(g, v, t, d)| && k < |AllItems(g, w, o, d)|
    requires d.SubDir? ==> o.chains[d.slot] == t.chains[d.slot]
    ensures SlotOf(g, w, o, d, k) == SlotOf(g, v, t, d, k)
  {}

  lemma ListedChain(g: Geometry, v: View, t: Tree, pending: seq<nat>, d: Dir)
    requires FsckBut(g, v, t, pending) && IsListed(g, v, t, d)
    ensures d.SubDir? ==> IsChain(v.fat, g.Limit(), t.chains[d.slot]) && t.chains[d.slot] != []
  {
    hide IsChain, SlotsOk, UsedOk;
    if d.SubDir? { assert EntryOk(g, v, EntryAt(g, v, d.slot), t.chains[d.slot]); }
  }

  lemma UnbornKept(g: Geometry, v: View, t: Tree, d: Dir, k: nat, item: Item, born: Item, pending: seq<nat>)
    requires FsckBut(g, v, t, pending) && IsListed(g, v, t, d) && k < |AllItems(g, v, t, d)|
    requires Unborn(g, v, born, pending)
    ensures Unborn(g, SetEntry(g, v, SlotOf(g, v, t, d, k), item), born, pending)
  {
    hide IsChain, EntriesOk, SlotsOk, IsDirectory, AllItems, SlotOf, EndsOnce, FirstCluster, FileSize, Live;
    hide EntryAt;
    var s := SlotOf(g, v, t, d, k);
    var w := SetEntry(g, v, s, item);
    SlotOfEntry(g, v, t, d, k);
    SlotNotPending(g, v, t, pending, s);
    EntryOkSame(g, v, w, born, born, pending);
    if IsDirectory(born) {
      forall i | 0 <= i < |pending| ensures w.data[pending[i]] == v.data[pending[i]] {
        assert pending[i] in pending;
      }
      NewDirectoryKept(g, v, w, pending);
    }
  }

  /** No entry of a directory is in a pending cluster. */
  lemma PendingSame(g: Geometry, v: View, w: View, t: Tree, d: Dir, k: nat, item: Item, pending: seq<nat>)
    requires FsckBut(g, w, t, pending) && IsListed(g, w, t, d) && k < |AllItems(g, w, t, d)| && SameData(v, w, pending)
    ensures SameData(v, SetEntry(g, w, SlotOf(g, w, t, d, k), item), pending)
  {
    hide IsChain, EntriesOk, SlotsOk, IsDirectory, AllItems, SlotOf, EntryAt, IsListed;
    var s := SlotOf(g, w, t, d, k);
    SlotOfEntry(g, w, t, d, k);
    SlotNotPending(g, w, t, pending, s);
    forall i | 0 <= i < |pending| ensures s.ClusterSlot? ==> s.cluster != pending[i] { assert pending[i] in pending; }
  }

  /** The state after the first `i` of `entries` are written, all of them but the last. */
  ghost predicate Putting(g: Geometry, v: View, w: View, t: Tree, d: Dir, pending: seq<nat>, born: Item,
                          idx: nat, entries: seq<Item>, i: nat)
    requires Shaped(g, v) && TreeShape(g, t) && IsListed(g, v, t, d)
  {
    && i < |entries| && idx + |entries| <= |AllItems(g, v, t, d)|
    && Consistent(g, w, t, pending) && IsListed(g, w, t, d) && Unborn(g, w, born, pending)
    && AllItems(g, w, t, d) == Put(AllItems(g, v, t, d), idx, entries, i)
    && OthersKept(g, v, w, t, t, d, {}) && SameData(v, w, pending)
  }

  lemma PuttingNext(g: Geometry, v: View, w: View, t: Tree, d: Dir, pending: seq<nat>, born: Item,
                    idx: nat, entries: seq<Item>, i: nat)
    requires Shaped(g, v) && TreeShape(g, t) && IsListed(g, v, t, d)
    requires Putting(g, v, w, t, d, pending, born, idx, entries, i) && i < |entries| - 1
    requires OneLive(entries) && Free(AllItems(g, v, t, d), idx, |entries|)
    ensures idx + i < |AllItems(g, w, t, d)|
    ensures var x := SetEntry(g, w, SlotOf(g, w, t, d, idx + i), entries[i]);
            Putting(g, v, x, t, d, pending, born, idx, entries, i + 1)
  {
    hide EntriesOk, SlotsOk, UsedOk, EndsOk, HasRoot, AllItems, IsListed, SlotOf, SetEntry, Live, Unborn, Put;
    hide OthersKept, TreeShape, Shaped, SameData;
    var all, k := AllItems(g, v, t, d), idx + i;
    PutNext(all, idx, entries, i);
    PutNoEnd(all, idx, entries, i);
    SetIdle(g, w, t, pending, d, k, entries[i]);
    UnbornKept(g, w, t, d, k, entries[i], born, pending);
    PendingSame(g, v, w, t, d, k, entries[i], pending);
    IdleKeeps(g, v, w, t, t, pending, d, k, entries[i]);
  }

  lemma IdleKeeps(g: Geometry, v: View, w: View, t: Tree, o: Tree, pending: seq<nat>, d: Dir, k: nat, item: Item)
    requires FsckBut(g, w, t, pending) && IsListed(g, w, t, d) && k < |AllItems(g, w, t, d)|
    requires !Live(AllItems(g, w, t, d)[k]) && OthersKept(g, v, w, t, t, d, {})
    requires forall u :: u in t.chains && u != SlotOf(g, w, t, d, k) ==> u in o.chains && o.chains[u] == t.chains[u]
    ensures OthersKept(g, v, SetEntry(g, w, SlotOf(g, w, t, d, k), item), t, o, d, {})
  {
    hide EntriesOk, SlotsOk, UsedOk, AllItems, IsListed, SlotOf, SetEntry, Live, Kept, TreeShape;
    var s := SlotOf(g, w, t, d, k);
    ListedIff(g, w, t, pending, d, k);
    SetKeeps(g, w, t, o, d, k, item);
    KeptAfter(g, v, w, SetEntry(g, w, s, item), t, t, o, d, {}, {s});
  }

  /** The state when all are written: the item is listed. */
  ghost predicate PutAll(g: Geometry, v: View, w: View, t: Tree, o: Tree, d: Dir, pending: seq<nat>,
                         idx: nat, entries: seq<Item>)
    requires Shaped(g, v) && TreeShape(g, t) && IsListed(g, v, t, d)
  {
    && 0 < |entries| && idx + |entries| <= |AllItems(g, v, t, d)|
    && Consistent(g, w, o, []) && IsListed(g, w, o, d)
    && AllItems(g, w, o, d) == Put(AllItems(g, v, t, d), idx, entries, |entries|)
    && OthersKept(g, v, w, t, o, d, {}) && SameData(v, w, pending)
    && var s := SlotOf(g, w, o, d, idx + |entries| - 1);
       && s !in t.chains && o.chains == t.chains[s := pending]
  }

  lemma PuttingLast(g: Geometry, v: View, w: View, t: Tree, d: Dir, pending: seq<nat>, idx: nat, entries: seq<Item>)
    requires Shaped(g, v) && TreeShape(g, t) && IsListed(g, v, t, d) && OneLive(entries)
    requires var i := |entries| - 1;
             && Putting(g, v, w, t, d, pending, entries[i], idx, entries, i)
             && Free(AllItems(g, v, t, d), idx, |entries|)
    ensures var k := idx + |entries| - 1;
            && k < |AllItems(g, w, t, d)|
            && var s := SlotOf(g, w, t, d, k);
            var x, o := SetEntry(g, w, s, entries[|entries| - 1]), Owned(t, s, pending);
            PutAll(g, v, x, t, o, d, pending, idx, entries) && SlotOf(g, x, o, d, k) == s
  {
    hide EntriesOk, SlotsOk, UsedOk, EndsOk, HasRoot, AllItems, IsListed, SlotOf, SetEntry, Live, Put, OthersKept;
    hide TreeShape, Shaped, Owned, SameData;
    hide EntryOk, NewDirectory, IsDirectory;
    var i := |entries| - 1;
    var all, k := AllItems(g, v, t, d), idx + i;
    PutNext(all, idx, entries, i);
    PutNoEnd(all, idx, entries, i);
    SetListed(g, w, t, pending, d, k, entries[i]);
    var s := SlotOf(g, w, t, d, k);
    OwnedFacts(t, s, pending);
    IdleKeeps(g, v, w, t, Owned(t, s, pending), pending, d, k, entries[i]);
    PendingSame(g, v, w, t, d, k, entries[i], pending);
    assert d.SubDir? ==> d.slot in t.chains by { ListedIn(g, w, t, d); }
    SlotSame(g, w, SetEntry(g, w, s, entries[i]), t, Owned(t, s, pending), d, k);
  }

  lemma ListedIn(g: Geometry, v: View, t: Tree, d: Dir)
    requires Shaped(g, v) && TreeShape(g, t) && IsListed(g, v, t, d)
    ensures d.SubDir? ==> d.slot in t.chains
  {}

  method WriteEntries(vol: Volume, view: DirView, idx: nat, entries: seq<Item>,
                      ghost t: Tree, ghost d: Dir, ghost pending: seq<nat>)
    returns (pos: int, ghost o: Tree)
    requires vol.Valid() && Consistent(vol.g, vol.V(), t, pending) && IsListed(vol.g, vol.V(), t, d)
    requires view.first == if d.RootDir? then 0 else First(t.chains[d.slot])
    requires OneLive(entries) && Free(AllItems(vol.g, vol.V(), t, d), idx, |entries|)
    requires Unborn(vol.g, vol.V(), entries[|entries| - 1], pending)
    modifies vol.Parts() - {vol.fat}
    ensures vol.Valid() && PutAll(vol.g, old(vol.V()), vol.V(), t, o, d, pending, idx, entries)
    ensures pos >= 0 && pos == SlotPos(vol.g, SlotOf(vol.g, vol.V(), o, d, idx + |entries| - 1))
  {
    hide FlatOf, FatImage, RootImage, DataImage, Geometry.Limit, Geometry.Valid, Volume.Valid, Volume.V;
    hide EntriesOk, SlotsOk, UsedOk, EndsOk, HasRoot, AllItems, IsListed, SlotOf, SetEntry, Live, Unborn, Put;
    hide OthersKept, TreeShape, Shaped, SameData;
    hide PutAll, SlotPos, Owned;
    ghost var v := vol.V();
    ghost var last := entries[|entries| - 1];
    PutNothing(vol.g, v, t, d, pending, idx, entries);
    for i := 0 to |entries| - 1
      invariant vol.Valid() && Putting(vol.g, v, vol.V(), t, d, pending, last, idx, entries, i)
    {
      ghost var w := vol.V();
      PuttingNext(vol.g, v, w, t, d, pending, last, idx, entries, i);
      PuttingWrite(vol.g, v, w, t, d, pending, last, idx, entries, i);
      var _ := WriteEntry(vol, view, idx + i, entries[i], t, d);
    }
    ghost var w := vol.V();
    ghost var k := idx + |entries| - 1;
    PuttingLast(vol.g, v, w, t, d, pending, idx, entries);
    PuttingWrite(vol.g, v, w, t, d, pending, last, idx, entries, |entries| - 1);
    o := Owned(t, SlotOf(vol.g, w, t, d, k), pending);
    NotEnd(last);
    pos := WriteEntry(vol, view, idx + |entries| - 1, entries[|entries| - 1], t, d);
  }

  lemma PutNothing(g: Geometry, v: View, t: Tree, d: Dir, pending: seq<nat>, idx: nat, entries: seq<Item>)
    requires Consistent(g, v, t, pending) && IsListed(g, v, t, d) && entries != []
    requires idx + |entries| <= |AllItems(g, v, t, d)| && Unborn(g, v, entries[|entries| - 1], pending)
    ensures Putting(g, v, v, t, d, pending, entries[|entries| - 1], idx, entries, 0)
  {
    PendingExists(g, v, t, pending);
    hide EntriesOk, SlotsOk, UsedOk, EndsOk, HasRoot, AllItems, IsListed, Unborn, Put, OthersKept, TreeShape, Shaped;
    hide SameData;
    PutZero(AllItems(g, v, t, d), idx, entries);
    NothingTouched(g, v, t, d, {});
  }

  lemma PendingExists(g: Geometry, v: View, t: Tree, pending: seq<nat>)
    requires FsckBut(g, v, t, pending)
    ensures SameData(v, v, pending)
  {
    hide EntriesOk, SlotsOk, TreeShape;
  }

  lemma PutZero(all: seq<Item>, idx: nat, entries: seq<Item>)
    requires idx + |entries| <= |all|
    ensures Put(all, idx, entries, 0) == all
  {}

  lemma PuttingWrite(g: Geometry, v: View, w: View, t: Tree, d: Dir, pending: seq<nat>, born: Item,
                     idx: nat, entries: seq<Item>, i: nat)
    requires Shaped(g, v) && TreeShape(g, t) && IsListed(g, v, t, d)
    requires Putting(g, v, w, t, d, pending, born, idx, entries, i)
    requires OneLive(entries) && Free(AllItems(g, v, t, d), idx, |entries|)
    ensures IsListed(g, w, t, d) && idx + i < |AllItems(g, w, t, d)| && NoEndBefore(AllItems(g, w, t, d), idx + i)
    ensures d.SubDir? ==> d.slot in t.chains && IsChain(w.fat, g.Limit(), t.chains[d.slot])
  {
    hide EntriesOk, SlotsOk, UsedOk, EndsOk, HasRoot, AllItems, SlotOf, SetEntry, Live, Unborn, Put, OthersKept;
    hide TreeShape, Shaped, IsChain;
    PutNoEnd(AllItems(g, v, t, d), idx, entries, i);
    ListedChain(g, w, t, pending, d);
  }

  // ---- the whole of `fat16_create_item` ----

  lemma GrewLists(items: seq<Item>, all: seq<Item>, more: seq<Item>)
    requires Lists(all, items) && all <= more
    requires forall k :: |all| <= k < |more| ==> more[k] == seq(32, _ => 0)
    ensures Lists(more, items)
  {}

  lemma FreeRoom(items: seq<Item>, all: seq<Item>, idx: nat, n: nat)
    requires Lists(all, items) && idx <= |items| && FreeAt(items, idx, n) && idx + n <= |all|
    ensures Free(all, idx, n)
  {
    hide IsLongName, IsVolumeLabel;
    forall k | idx <= k < idx + n ensures !Live(all[k]) {
      if k < |items| { assert items[k] == all[k]; }
    }
  }

  lemma PutPlaced(items: seq<Item>, all: seq<Item>, idx: nat, entries: seq<Item>)
    requires Lists(all, items) && idx <= |items| && FreeAt(items, idx, |entries|) && idx + |entries| <= |all|
    requires OneLive(entries)
    ensures Lists(Put(all, idx, entries, |entries|), Placed(items, idx, entries))
  {
    var r, p := Put(all, idx, entries, |entries|), Placed(items, idx, entries);
    NotEnd(entries[|entries| - 1]);
    assert forall k :: 0 <= k < |entries| ==> entries[k][0] != 0;
    hide Put, Placed, OneLive, FreeAt;
    forall k | 0 <= k < |r| ensures if k < |p| then r[k] == p[k] && p[k][0] != 0 else r[k][0] == 0 {
      PutAt(all, idx, entries, k);
      if k < |p| { PlacedAt(items, idx, entries, k); }
    }
  }

  lemma PutAt(all: seq<Item>, idx: nat, entries: seq<Item>, k: nat)
    requires idx + |entries| <= |all| && k < |all|
    ensures Put(all, idx, entries, |entries|)[k] == if idx <= k < idx + |entries| then entries[k - idx] else all[k]
  {}

  lemma PlacedAt(items: seq<Item>, idx: nat, entries: seq<Item>, k: nat)
    requires idx == |items| || idx + |entries| <= |items|
    requires k < |Placed(items, idx, entries)|
    ensures Placed(items, idx, entries)[k] == if idx <= k < idx + |entries| then entries[k - idx] else items[k]
  {}

  lemma GrewKeeps(g: Geometry, v: View, w: View, t: Tree, o: Tree, d: Dir, pending: seq<nat>)
    requires FsckBut(g, v, t, pending) && Shaped(g, w) && TreeShape(g, o) && IsListed(g, v, t, d)
    requires IsListed(g, w, o, d)
    requires OnlyGrew(g, v, w, t, o, d)
    ensures OthersKept(g, v, w, t, o, d, {})
  {
    hide SlotsOk, EntriesOk, IsListed, AllItems, IsChain, EntryAt, IsDirectory;
    forall c | c in t.owner ensures w.data[c] == v.data[c] { assert v.fat[c] != UNUSED; }
    DataKeeps(g, v, w, t, o, d, {});
  }

  lemma UnbornGrew(g: Geometry, v: View, w: View, t: Tree, o: Tree, d: Dir, pending: seq<nat>, item: Item, last: Item)
    requires FsckBut(g, v, t, pending) && FsckBut(g, w, o, pending) && IsListed(g, v, t, d) && IsListed(g, w, o, d)
    requires OnlyGrew(g, v, w, t, o, d) && Unborn(g, v, item, pending)
    requires FirstCluster(last) == FirstCluster(item) && FileSize(last) == FileSize(item) && Attr(last) == Attr(item)
    ensures Unborn(g, w, last, pending)
  {
    hide SlotsOk, EntriesOk, IsListed, AllItems, FirstCluster, FileSize, TreeShape, HasBit, EndsOnce, Live;
    hide ChainInRange;
    InUse(v.fat, g.Limit(), pending);
    forall i | 0 <= i < |pending| ensures w.data[pending[i]] == v.data[pending[i]] {
      assert pending[i] in pending;
    }
    assert IsDirectory(last) == IsDirectory(item);
    if IsDirectory(item) { NewDirectoryKept(g, v, w, pending); }
  }

  /** The entries of a new item are in free places of directory `d`, and it is listed with the
      chain that was pending. */
  ghost predicate CreatedIn(g: Geometry, w: View, t: Tree, o: Tree, d: Dir, pending: seq<nat>,
                            items: seq<Item>, name: Name, item: Item, idx: nat, entries: seq<Item>)
  {
    && Consistent(g, w, o, []) && IsListed(g, w, o, d)
    && GoodEntries(items, name, item, entries) && entries != []
    && idx <= |items| && FreeAt(items, idx, |entries|) && idx + |entries| <= |AllItems(g, w, o, d)|
    && Lists(AllItems(g, w, o, d), Placed(items, idx, entries))
    && var s := SlotOf(g, w, o, d, idx + |entries| - 1);
       && s !in t.chains && o.chains.Keys == t.chains.Keys + {s} && o.chains[s] == pending
  }

  /** What a successful `fat16_create_item` does: it creates the item, and all else is kept. */
  ghost predicate Created(g: Geometry, v: View, w: View, t: Tree, o: Tree, d: Dir, pending: seq<nat>,
                          items: seq<Item>, name: Name, item: Item, idx: nat, entries: seq<Item>)
  {
    && CreatedIn(g, w, t, o, d, pending, items, name, item, idx, entries)
    && OthersKept(g, v, w, t, o, d, {}) && SameData(v, w, pending)
  }

  lemma PendingGrew(g: Geometry, v: View, w: View, t: Tree, o: Tree, d: Dir, pending: seq<nat>)
    requires FsckBut(g, v, t, pending) && Shaped(g, w) && TreeShape(g, o) && IsListed(g, v, t, d)
    requires IsListed(g, w, o, d)
    requires OnlyGrew(g, v, w, t, o, d)
    ensures SameData(v, w, pending)
  {
    hide SlotsOk, EntriesOk, IsListed, AllItems, IsChain;
    InUse(v.fat, g.Limit(), pending);
    ChainSmall(v.fat, g, pending);
    forall i | 0 <= i < |pending| ensures w.data[pending[i]] == v.data[pending[i]] { assert pending[i] in pending; }
  }

  lemma ChainSmall(fat: seq<Word>, g: Geometry, cs: seq<nat>)
    requires IsChain(fat, g.Limit(), cs)
    ensures forall i :: 0 <= i < |cs| ==> 2 <= cs[i] < g.Limit()
  {}

  lemma CreatedBy(g: Geometry, v: View, mid: View, w: View, t: Tree, m: Tree, o: Tree, d: Dir, pending: seq<nat>,
                  items: seq<Item>, name: Name, item: Item, idx: nat, entries: seq<Item>)
    requires FsckBut(g, v, t, pending) && IsListed(g, v, t, d) && FsckBut(g, mid, m, pending) && IsListed(g, mid, m, d)
    requires OnlyGrew(g, v, mid, t, m, d) && PutAll(g, mid, w, m, o, d, pending, idx, entries)
    requires Lists(AllItems(g, mid, m, d), items) && OneLive(entries) && GoodEntries(items, name, item, entries)
    requires idx <= |items| && FreeAt(items, idx, |entries|) && idx + |entries| <= |AllItems(g, mid, m, d)|
    ensures Created(g, v, w, t, o, d, pending, items, name, item, idx, entries)
  {
    hide SlotsOk, EntriesOk, UsedOk, EndsOk, HasRoot, IsListed, AllItems, OthersKept, Lists, Put, FreeAt, GoodEntries;
    hide SlotOf;
    hide OneLive, Shaped, TreeShape;
    PutPlaced(items, AllItems(g, mid, m, d), idx, entries);
    GrewKeeps(g, v, mid, t, m, d, pending);
    var none: set<Slot> := {};
    KeptAfter(g, v, mid, w, t, m, o, d, none, none);
    PendingGrew(g, v, mid, t, m, d, pending);
    assert none + none == none;
    var s := SlotOf(g, w, o, d, idx + |entries| - 1);
    assert o.chains.Keys == m.chains.Keys + {s};
  }

  /** Why creating an item fails: its name is no good, all its aliases are taken, or there is no room. */
  ghost predicate CreateFails(g: Geometry, v: View, d: Dir, items: seq<Item>, name: Name, error: int) {
    if MakeShortName(name).None? && !ValidLongName(name) then error == INVALID_PATH_ERROR
    else if MakeShortName(name).None? && forall n :: 1 <= n < 1000 ==> ShortTaken(items, Alias(name, n)) then
      error == FILE_EXISTS_ERROR
    else
      error == NO_MEMORY_ERROR
      && NoPlace(g, v, d, items, if MakeShortName(name).Some? then 1 else PartCount(name) + 1)
  }

  /** The item could not be created; its directory has at most got more room. */
  ghost predicate NotListed(g: Geometry, v: View, w: View, t: Tree, o: Tree, d: Dir, pending: seq<nat>,
                            items: seq<Item>, name: Name, error: int)
  {
    Consistent(g, w, o, pending) && MoreRoom(g, v, w, t, o, d) && CreateFails(g, w, d, items, name, error)
  }

  /** The 8.3 entry of an item that was created, and where it is. */
  ghost predicate EntryIs(g: Geometry, w: View, o: Tree, d: Dir, idx: nat, entries: seq<Item>, pos: nat, entry: Item)
    requires Shaped(g, w) && TreeShape(g, o) && IsListed(g, w, o, d) && entries != []
    requires idx + |entries| <= |AllItems(g, w, o, d)|
  {
    pos == SlotPos(g, SlotOf(g, w, o, d, idx + |entries| - 1)) && entry == entries[|entries| - 1]
  }

  method CreateItem(vol: Volume, view: DirView, name: Name, item: Item,
                    ghost t: Tree, ghost d: Dir, ghost pending: seq<nat>)
    returns (pos: int, entry: Item, ghost o: Tree, ghost idx: nat, ghost entries: seq<Item>)
    requires vol.Valid() && Consistent(vol.g, vol.V(), t, pending) && Loaded(view, vol.g, vol.V(), t, d)
    requires !IsLongName(item) && !IsVolumeLabel(item) && Unborn(vol.g, vol.V(), item, pending)
    modifies vol.Parts()
    ensures vol.Valid()
    ensures pos < 0 ==> NotListed(vol.g, old(vol.V()), vol.V(), t, o, d, pending, view.items, name, pos)
    ensures pos >= 0 ==>
              && Created(vol.g, old(vol.V()), vol.V(), t, o, d, pending, view.items, name, item, idx, entries)
              && EntryIs(vol.g, vol.V(), o, d, idx, entries, pos, entry)
  {
    hide FlatOf, FatImage, RootImage, DataImage, Geometry.Limit, Geometry.Valid, Volume.Valid, Volume.V;
    hide SlotsOk, EntriesOk, UsedOk, EndsOk, HasRoot, AllItems, SlotOf, Live, Unborn, Put, OthersKept, TreeShape;
    hide Shaped;
    hide PutAll, SlotPos, MakeShortName, ValidLongName, ShortTaken, Alias, EntriesFor, OnlyGrew, FreeAt, Lists, OneLive;
    hide Free, NoPlace;
    hide IsListed, DirItems, ChainInRange;
    ghost var v := vol.V();
    o, idx, entry := t, 0, item;
    GrewNothing(vol.g, v, t, d);
    ListedChain(vol.g, v, t, pending, d);
    var res, list := MakeEntries(view.items, name, item);
    entries := list;
    if res < 0 {
      return res, item, o, idx, entries;
    }
    EntriesOneLive(view.items, name, item, list);
    NonEmpty(list);
    var at;
    at, o := FindFreeSlot(vol, view, |list|, t, d, pending);
    if at < 0 {
      return at, item, o, idx, entries;
    }
    ghost var mid, m := vol.V(), o;
    idx := at;
    GrewView(vol.g, v, mid, t, m, d, view);
    FreeRoom(view.items, AllItems(vol.g, mid, m, d), at, |list|);
    UnbornGrew(vol.g, v, mid, t, m, d, pending, item, list[|list| - 1]);
    pos, o := WriteEntries(vol, view, at, list, m, d, pending);
    entry := list[|list| - 1];
    CreatedBy(vol.g, v, mid, vol.V(), t, m, o, d, pending, view.items, name, item, at, list);
  }

  lemma NonEmpty(entries: seq<Item>)
    requires OneLive(entries)
    ensures entries != []
  {}

  lemma GrewView(g: Geometry, v: View, w: View, t: Tree, o: Tree, d: Dir, view: DirView)
    requires Shaped(g, v) && TreeShape(g, t) && Shaped(g, w) && TreeShape(g, o) && IsListed(g, w, o, d)
    requires Loaded(view, g, v, t, d) && OnlyGrew(g, v, w, t, o, d)
    requires d.SubDir? ==> t.chains[d.slot] != []
    ensures Lists(AllItems(g, w, o, d), view.items)
    ensures view.first == if d.RootDir? then 0 else First(o.chains[d.slot])
  {
    hide AllItems, Lists, TreeShape, EntryAt;
    GrewLists(view.items, AllItems(g, v, t, d), AllItems(g, w, o, d));
  }
}
