// A new name in a directory: what `fat16_create_item` stores is what is read back, and no other
// name changes; the same for what `fat16_remove` takes away.
module FatNaming {
  import opened Bytes
  import opened FatLayout
  import opened FatItems
  import opened FatNames
  import opened FatLongNames

  function PartCount(name: seq<byte>): nat { (|name| + 12) / 13 }

  /** The parts of a long name as stored: the end of the name first. */
  function Parts(name: seq<byte>, checksum: byte): (r: seq<Item>)
    requires 0 < |name| <= LFN_MAX
    ensures |r| == PartCount(name) && 1 <= |r| <= 5
  {
    seq(PartCount(name), k requires 0 <= k < PartCount(name) =>
      Part(name, PartCount(name) - k, PartCount(name), checksum))
  }

  ghost predicate IsAlias(name: seq<byte>, alias: seq<byte>) {
    exists n :: 1 <= n < 1000 && alias == Alias(name, n)
  }

  /** The directory entries a new item called `name` gets: its 8.3 entry, or the parts of its long
      name and the entry of an alias that is not taken. */
  ghost predicate EntriesFor(items: seq<Item>, name: Name, item: Item, entries: seq<Item>) {
    if MakeShortName(name).Some? then
      entries == [SetName(item, MakeShortName(name).value.name, MakeShortName(name).value.caseBits)]
    else
      && ValidLongName(name) && |entries| == PartCount(name) + 1
      && var alias := entries[PartCount(name)][..11];
         && IsAlias(name, alias) && !ShortTaken(items, alias)
         && entries == Parts(name, Checksum(alias)) + [SetName(item, alias, 0)]
  }

  /** `n` entries in a row from `idx` on are deleted, or `idx` is the end. */
  ghost predicate FreeAt(items: seq<Item>, idx: nat, n: nat) {
    || idx == |items|
    || (idx + n <= |items| && forall k :: idx <= k < idx + n ==> items[k][0] == ENTRY_DELETED)
  }

  ghost function Placed(items: seq<Item>, idx: nat, entries: seq<Item>): (r: seq<Item>)
    requires idx == |items| || idx + |entries| <= |items|
    ensures |r| == if idx == |items| then idx + |entries| else |items|
    ensures forall k :: 0 <= k < |entries| ==> r[idx + k] == entries[k]
    ensures forall k :: 0 <= k < |items| && !(idx <= k < idx + |entries|) ==> r[k] == items[k]
  {
    items[..idx] + entries + if idx == |items| then [] else items[idx + |entries|..]
  }

  // ---- the invariant of names ----

  ghost predicate LfnInUse(it: Item) { IsLongName(it) && it[0] != ENTRY_DELETED }

  ghost predicate ShortEntry(it: Item) { !IsLongName(it) && it[0] != ENTRY_DELETED }

  /** Entry `p` is part of the long name of entry `q`. */
  ghost predicate PartOfName(items: seq<Item>, p: nat, q: nat) {
    p < q < |items| && ShortEntry(items[q]) && q - p <= LfnCount(items, q)
  }

  /** No long name entry without its 8.3 entry. */
  ghost predicate NoOrphans(items: seq<Item>) {
    forall p :: 0 <= p < |items| && LfnInUse(items[p]) ==> exists q :: PartOfName(items, p, q)
  }

  ghost predicate DistinctAt(items: seq<Item>, i: nat, j: nat)
    requires i < |items| && j < |items|
  {
    Named(items[i]) && Named(items[j]) && i != j ==>
      && !SameName(ItemName(items, i, PATH_MAX), ItemName(items, j, PATH_MAX))
      && items[i][..11] != items[j][..11]
  }

  /** No two names are the same up to case, and no two 8.3 names are. */
  ghost predicate Distinct(items: seq<Item>) {
    forall i, j :: 0 <= i < |items| && 0 <= j < |items| ==> DistinctAt(items, i, j)
  }

  ghost predicate NamesOk(items: seq<Item>) { NoOrphans(items) && Distinct(items) }

  // ---- what a scan for parts depends on ----

  lemma {:induction false} ScanSame(a: seq<Item>, b: seq<Item>, j: nat, n: nat, checksum: byte, low: nat)
    requires j < |a| && j < |b| && n >= 1 && low <= j
    requires forall k :: low <= k < j ==> a[k] == b[k]
    requires low > 0 ==> !LfnInUse(a[low - 1]) && !LfnInUse(b[low - 1])
    requires n <= j - low + 1
    ensures LfnScan(a, j, n, checksum) == LfnScan(b, j, n, checksum)
    decreases j + 1 - n
  {
    if n <= j && n <= 31 && j - n >= low {
      ScanSame(a, b, j, n + 1, checksum, low);
    }
  }

  /** The parts before an entry are all in use. */
  lemma {:induction false} ScanInUse(items: seq<Item>, j: nat, n: nat, checksum: byte, m: nat)
    requires j < |items| && 1 <= n <= m <= LfnScan(items, j, n, checksum)
    ensures LfnInUse(items[j - m])
    decreases m - n
  {
    if n < m { ScanInUse(items, j, n + 1, checksum, m); }
  }

  lemma PartsInUse(items: seq<Item>, p: nat, q: nat, k: nat)
    requires PartOfName(items, p, q) && p <= k < q
    ensures LfnInUse(items[k])
  {
    ScanInUse(items, q, 1, Checksum(items[q][..11]), q - k);
  }

  lemma {:induction false} LongSame(a: seq<Item>, b: seq<Item>, j: nat, count: nat, at: nat, max: nat)
    requires j < |a| && j < |b| && count <= j
    requires forall k :: j - count <= k < j ==> a[k] == b[k]
    ensures LongName(a, j, count, at, max) == LongName(b, j, count, at, max)
    decreases 13 * count - at
  {
    if at < 13 * count {
      assert at / 13 < count;
      LongSame(a, b, j, count, at + 1, max);
    }
  }

  /** An entry keeps its name if it and what may be its parts stay. */
  lemma NameSame(a: seq<Item>, b: seq<Item>, j: nat, low: nat, max: nat)
    requires j < |a| && j < |b| && low <= j
    requires forall k :: low <= k <= j ==> a[k] == b[k]
    requires low > 0 ==> !LfnInUse(a[low - 1]) && !LfnInUse(b[low - 1])
    ensures LfnCount(a, j) == LfnCount(b, j) <= j - low
    ensures ItemName(a, j, max) == ItemName(b, j, max)
  {
    var checksum := Checksum(a[j][..11]);
    ScanSame(a, b, j, 1, checksum, low);
    var count := LfnCount(a, j);
    if count > j - low {
      ScanInUse(a, j, 1, checksum, j - low + 1);
    }
    LongSame(a, b, j, count, 0, max);
  }

  /** ... or if all before it stays. */
  lemma NameSamePrefix(a: seq<Item>, b: seq<Item>, j: nat, max: nat)
    requires j < |a| && j < |b| && forall k :: 0 <= k <= j ==> a[k] == b[k]
    ensures LfnCount(a, j) == LfnCount(b, j) && ItemName(a, j, max) == ItemName(b, j, max)
  {
    NameSame(a, b, j, 0, max);
  }

  // ---- creating ----

  /** The 8.3 entry, the last of the new entries, is no part of a long name. */
  ghost predicate GoodEntries(items: seq<Item>, name: Name, item: Item, entries: seq<Item>) {
    EntriesFor(items, name, item, entries) && !IsLongName(item) && !IsVolumeLabel(item)
  }

  lemma LastEntry(items: seq<Item>, name: Name, item: Item, entries: seq<Item>)
    requires GoodEntries(items, name, item, entries)
    ensures |entries| > 0 && Attr(entries[|entries| - 1]) == Attr(item) && Named(entries[|entries| - 1])
  {
    if MakeShortName(name).Some? {
      var short := MakeShortName(name).value;
      SetNameAttr(item, short.name, short.caseBits);
      ShortFirst(name);
    } else {
      var alias := entries[PartCount(name)][..11];
      SetNameAttr(item, alias, 0);
      AliasFirst(name, alias);
    }
  }

  lemma SetNameAttr(it: Item, name: seq<byte>, reserved: byte)
    requires |name| == 11
    ensures var r := SetName(it, name, reserved);
            Attr(r) == Attr(it) && r[..11] == name && r[0] == name[0] && r[13..] == it[13..]
  {}

  /** The first byte of an 8.3 name marks neither a free nor a dot entry. */
  ghost predicate GoodFirst(c: byte) { c != ENTRY_END && c != ENTRY_DELETED && c != DOT }

  lemma ShortFirst(name: Name)
    requires MakeShortName(name).Some?
    ensures GoodFirst(MakeShortName(name).value.name[0])
  {
    var base := Base(name);
    UpperGood(base);
    FirstOfPad(Upper(base), 8);
  }

  lemma AliasFirst(name: seq<byte>, alias: seq<byte>)
    requires IsAlias(name, alias)
    ensures |alias| == 11 && GoodFirst(alias[0])
  {
    var n :| 1 <= n < 1000 && alias == Alias(name, n);
    var base, suffix := AliasBase(name), Suffix(n);
    var keep := if |base| < 8 - |suffix| then |base| else 8 - |suffix|;
    assert alias[0] == (base[..keep] + suffix)[0] == base[0];
    var d := if LastDot(name) == 0 then |name| else LastDot(name);
    AliasCharsGood(name[..d], 8, true);
  }

  lemma {:induction false} AliasCharsGood(s: seq<byte>, max: nat, dots: bool)
    requires dots
    ensures AliasChars(s, max, dots) != [] ==> GoodFirst(AliasChars(s, max, dots)[0])
    decreases |s|
  {
    if s != [] && max > 0 && (s[0] == SPACE || s[0] == DOT) {
      AliasCharsGood(s[1..], max, dots);
    }
  }

  /** Parts are counted back from the entry they belong to. */
  lemma {:induction false} ScanNew(items: seq<Item>, j: nat, n: nat, name: seq<byte>, checksum: byte)
    requires 0 < |name| <= LFN_MAX && 1 <= n <= PartCount(name) <= j < |items|
    requires forall k :: 1 <= k <= PartCount(name) ==> items[j - k] == Part(name, k, PartCount(name), checksum)
    ensures LfnScan(items, j, n, checksum) == PartCount(name)
    decreases PartCount(name) - n
  {
    PartRead(name, n, PartCount(name), checksum);
    if n < PartCount(name) { ScanNew(items, j, n + 1, name, checksum); }
  }

  lemma {:induction false} LongNew(items: seq<Item>, j: nat, name: seq<byte>, checksum: byte, at: nat, max: nat)
    requires ValidLongName(name) && PartCount(name) <= j < |items| && |name| <= max && at <= |name|
    requires forall k :: 1 <= k <= PartCount(name) ==> items[j - k] == Part(name, k, PartCount(name), checksum)
    ensures LongName(items, j, PartCount(name), at, max) == name[at..]
    decreases |name| - at
  {
    hide LongChar, Part, CharOf;
    var count := PartCount(name);
    if at < 13 * count {
      LongCharNew(items, j, name, checksum, at);
      CharOfValid(name, at);
      if at < |name| {
        LongNew(items, j, name, checksum, at + 1, max);
        assert name[at..] == [name[at]] + name[at + 1..];
      }
    }
  }

  lemma LongCharNew(items: seq<Item>, j: nat, name: seq<byte>, checksum: byte, at: nat)
    requires ValidLongName(name) && PartCount(name) <= j < |items| && at < 13 * PartCount(name)
    requires forall k :: 1 <= k <= PartCount(name) ==> items[j - k] == Part(name, k, PartCount(name), checksum)
    ensures LongChar(items, j, at) == CharOf(name, at)
  {
    hide Part, CharOf, LfnChar;
    PartRead(name, at / 13 + 1, PartCount(name), checksum);
  }

  lemma CharOfValid(name: seq<byte>, at: nat)
    requires ValidLongName(name) && at <= |name|
    ensures if at < |name| then CharOf(name, at) == name[at] && 0 < name[at] < 0x80 else CharOf(name, at) == 0
  {}

  /** Just before free entries there is no part of a long name. */
  lemma BoundaryFree(items: seq<Item>, idx: nat, n: nat)
    requires NoOrphans(items) && FreeAt(items, idx, n) && 0 < idx <= |items| && n > 0
    ensures !LfnInUse(items[idx - 1])
  {
    hide LfnScan, LongName, Checksum, FullShortName, ShortDisplay, HasBit, Part, PartByte, SetName, MakeShortName;
    hide ValidLongName, ShortTaken, IsAlias, Placed, SameName;
    hide LfnCount;
    if LfnInUse(items[idx - 1]) {
      var q: nat :| PartOfName(items, idx - 1, q);
      if q > idx { PartsInUse(items, idx - 1, q, idx); }
      assert false;
    }
  }

  ghost predicate Creates(items: seq<Item>, idx: nat, name: Name, item: Item, entries: seq<Item>) {
    && NamesOk(items) && idx <= |items| && FreeAt(items, idx, |entries|)
    && GoodEntries(items, name, item, entries)
    && forall j :: 0 <= j < |items| ==> !Matches(items, j, name)
  }

  /** Every other entry keeps its name. */
  lemma CreateKeepsName(items: seq<Item>, idx: nat, name: Name, item: Item, entries: seq<Item>, j: nat, max: nat)
    requires Creates(items, idx, name, item, entries) && j < |items| && !(idx <= j < idx + |entries|)
    ensures var r := Placed(items, idx, entries);
            LfnCount(r, j) == LfnCount(items, j) && ItemName(r, j, max) == ItemName(items, j, max)
    ensures j >= idx ==> LfnCount(items, j) <= j - (idx + |entries|)
  {
    hide LfnScan, LongName, Checksum, FullShortName, ShortDisplay, HasBit, Part, PartByte, SetName, MakeShortName;
    hide ValidLongName, ShortTaken, IsAlias, Placed, SameName;
    hide EntriesFor, ItemName, LfnCount, NamesOk;
    var r := Placed(items, idx, entries);
    LastEntry(items, name, item, entries);
    if j < idx {
      NameSamePrefix(items, r, j, max);
    } else {
      var low := idx + |entries|;
      assert r[low - 1] == entries[|entries| - 1];
      NameSame(items, r, j, low, max);
    }
  }

  /** The new item has all the parts written for it. */
  lemma CreateCount(items: seq<Item>, idx: nat, name: Name, item: Item, entries: seq<Item>)
    requires Creates(items, idx, name, item, entries)
    ensures |entries| > 0 && LfnCount(Placed(items, idx, entries), idx + |entries| - 1) == |entries| - 1
  {
    hide LfnScan, LongName, Checksum, FullShortName, ShortDisplay, HasBit, Part, PartByte, SetName, MakeShortName;
    hide ValidLongName, ShortTaken, IsAlias, Placed, SameName;
    hide ItemName, LfnCount, Distinct, Named;
    var r := Placed(items, idx, entries);
    LastEntry(items, name, item, entries);
    var e := idx + |entries| - 1;
    if MakeShortName(name).Some? {
      if idx > 0 { BoundaryFree(items, idx, |entries|); }
      NoParts(r, e);
    } else {
      LongLength(name);
      var alias := entries[PartCount(name)][..11];
      PlacedParts(items, idx, name, entries, alias, item);
      CountNew(r, e, name, alias);
    }
  }

  lemma LongLength(name: seq<byte>)
    requires ValidLongName(name)
    ensures 0 < |name| <= LFN_MAX && 1 <= PartCount(name) <= 5
  {}

  lemma CountNew(items: seq<Item>, j: nat, name: seq<byte>, alias: seq<byte>)
    requires 0 < |name| <= LFN_MAX && PartCount(name) <= j < |items| && items[j][..11] == alias
    requires forall k :: 1 <= k <= PartCount(name) ==> items[j - k] == Part(name, k, PartCount(name), Checksum(alias))
    ensures LfnCount(items, j) == PartCount(name)
  {
    ScanNew(items, j, 1, name, Checksum(alias));
  }

  /** The entry a scan for the parts of a long name looks at first. */
  lemma NoParts(items: seq<Item>, j: nat)
    requires j < |items| && (j > 0 ==> !LfnInUse(items[j - 1]))
    ensures LfnCount(items, j) == 0
  {}

  lemma PlacedParts(items: seq<Item>, idx: nat, name: seq<byte>, entries: seq<Item>, alias: seq<byte>, item: Item)
    requires 0 < |name| <= LFN_MAX && |alias| == 11
    requires entries == Parts(name, Checksum(alias)) + [SetName(item, alias, 0)]
    requires idx == |items| || idx + |entries| <= |items|
    ensures var r := Placed(items, idx, entries);
            && |entries| == PartCount(name) + 1
            && r[idx + PartCount(name)][..11] == alias
            && forall k :: 1 <= k <= PartCount(name) ==>
                 r[idx + PartCount(name) - k] == Part(name, k, PartCount(name), Checksum(alias))
  {
    hide Part, Parts, SetName, Checksum, Placed, Attr;
    SetNameAttr(item, alias, 0);
    var r := Placed(items, idx, entries);
    var count := PartCount(name);
    assert r[idx + count] == entries[count];
    forall k | 1 <= k <= count ensures r[idx + count - k] == Part(name, k, count, Checksum(alias)) {
      PartsAt(name, Checksum(alias), k);
      assert r[idx + (count - k)] == entries[count - k];
    }
  }

  lemma PartsAt(name: seq<byte>, checksum: byte, k: nat)
    requires 0 < |name| <= LFN_MAX && 1 <= k <= PartCount(name)
    ensures Parts(name, checksum)[PartCount(name) - k] == Part(name, k, PartCount(name), checksum)
  {
    hide Part, PartCount;
  }

  /** The new item is read back under its name, case included. */
  lemma CreateReadBack(items: seq<Item>, idx: nat, name: Name, item: Item, entries: seq<Item>, max: nat)
    requires Creates(items, idx, name, item, entries) && |name| <= max
    ensures |entries| > 0 && ItemName(Placed(items, idx, entries), idx + |entries| - 1, max) == name
  {
    hide LfnScan, LongName, Checksum, FullShortName, ShortDisplay, HasBit, Part, PartByte, SetName, MakeShortName;
    hide ValidLongName, ShortTaken, IsAlias, Placed, SameName;
    hide LfnCount, Distinct, Named, NoOrphans;
    var r := Placed(items, idx, entries);
    CreateCount(items, idx, name, item, entries);
    var e := idx + |entries| - 1;
    assert r[e] == entries[|entries| - 1];
    if MakeShortName(name).Some? {
      ShortRoundTrip(name, item);
    } else {
      LongLength(name);
      var alias := entries[PartCount(name)][..11];
      PlacedParts(items, idx, name, entries, alias, item);
      LongNew(r, e, name, Checksum(alias), 0, max);
      assert name[0..] == name;
    }
  }

  lemma UpperSameName(s: seq<byte>)
    ensures SameName(Upper(s), s) && SameName(s, s)
  {
    assert Lower(Upper(s)) == Lower(s);
  }

  /** The new 8.3 name is none of the old ones. */
  lemma CreateShortDistinct(items: seq<Item>, idx: nat, name: Name, item: Item, entries: seq<Item>, j: nat)
    requires Creates(items, idx, name, item, entries) && j < |items| && Named(items[j])
    ensures |entries| > 0 && entries[|entries| - 1][..11] != items[j][..11]
  {
    hide LfnScan, LongName, Checksum, FullShortName, ShortDisplay, HasBit, Part, PartByte, SetName, MakeShortName;
    hide ValidLongName, ShortTaken, IsAlias, Placed, SameName;
    hide LfnCount, ItemName, Lower;
    LastEntry(items, name, item, entries);
    if MakeShortName(name).Some? {
      var short := MakeShortName(name).value;
      SetNameAttr(item, short.name, short.caseBits);
      ShortRoundTrip(name, item);
      UpperSameName(name);
      assert !Matches(items, j, name);
      if entries[0][..11] == items[j][..11] { SameFullShort(entries[0], items[j]); }
    } else {
      NotTaken(items, entries[PartCount(name)][..11], j);
    }
  }

  lemma NotTaken(items: seq<Item>, name: seq<byte>, j: nat)
    requires !ShortTaken(items, name) && j < |items| && ShortEntry(items[j])
    ensures items[j][..11] != name
  {}

  lemma SameFullShort(a: Item, b: Item)
    requires a[..11] == b[..11]
    ensures FullShortName(a) == FullShortName(b)
  {
    assert a[..8] == a[..11][..8] && a[8..11] == a[..11][8..] && a[8] == a[..11][8];
    assert b[..8] == b[..11][..8] && b[8..11] == b[..11][8..] && b[8] == b[..11][8];
  }

  /** All names stay distinct. */
  lemma CreateDistinct(items: seq<Item>, idx: nat, name: Name, item: Item, entries: seq<Item>)
    requires Creates(items, idx, name, item, entries) && |name| <= PATH_MAX
    ensures Distinct(Placed(items, idx, entries))
  {
    hide LfnScan, LongName, Checksum, FullShortName, ShortDisplay, HasBit, Part, PartByte, SetName, MakeShortName;
    hide ValidLongName, ShortTaken, IsAlias, Placed, SameName;
    hide LfnCount, ItemName, EntriesFor, NoOrphans;
    var r := Placed(items, idx, entries);
    CreateReadBack(items, idx, name, item, entries, PATH_MAX);
    var e := idx + |entries| - 1;
    forall j | 0 <= j < |r| && Named(r[j]) && j != e
      ensures j < |items| && r[j] == items[j] && ItemName(r, j, PATH_MAX) == ItemName(items, j, PATH_MAX)
      ensures DistinctAt(r, j, e) && DistinctAt(r, e, j)
    {
      if idx <= j < e { NewPartNotNamed(items, idx, name, item, entries, j); }
      CreateKeepsName(items, idx, name, item, entries, j, PATH_MAX);
      assert !Matches(items, j, name);
      CreateShortDistinct(items, idx, name, item, entries, j);
      SameNameSymmetric(ItemName(items, j, PATH_MAX), name);
      assert r[e] == entries[|entries| - 1];
    }
    forall i, j | 0 <= i < |r| && 0 <= j < |r| ensures DistinctAt(r, i, j) {
      if i != e && j != e && Named(r[i]) && Named(r[j]) { assert DistinctAt(items, i, j); }
    }
  }

  lemma SameNameSymmetric(a: seq<byte>, b: seq<byte>)
    ensures SameName(a, b) == SameName(b, a)
  {}

  lemma NewPartNotNamed(items: seq<Item>, idx: nat, name: Name, item: Item, entries: seq<Item>, j: nat)
    requires Creates(items, idx, name, item, entries) && idx <= j < idx + |entries| - 1
    ensures !Named(Placed(items, idx, entries)[j])
    ensures LfnInUse(Placed(items, idx, entries)[j])
  {
    hide LfnScan, LongName, Checksum, FullShortName, ShortDisplay, SetName, MakeShortName;
    hide ShortTaken, IsAlias, Placed, SameName, Part;
    hide LfnCount, ItemName, NoOrphans, Distinct;
    var r := Placed(items, idx, entries);
    assert r[idx + (j - idx)] == entries[j - idx];
    PartRead(name, PartCount(name) - (j - idx), PartCount(name), Checksum(entries[PartCount(name)][..11]));
  }

  /** No long name entry loses its 8.3 entry. */
  lemma CreateNoOrphans(items: seq<Item>, idx: nat, name: Name, item: Item, entries: seq<Item>)
    requires Creates(items, idx, name, item, entries)
    ensures NoOrphans(Placed(items, idx, entries))
  {
    hide LfnScan, LongName, Checksum, FullShortName, ShortDisplay, HasBit, Part, PartByte, SetName, MakeShortName;
    hide ValidLongName, ShortTaken, IsAlias, Placed, SameName;
    hide LfnCount, ItemName, EntriesFor, Distinct;
    var r := Placed(items, idx, entries);
    LastEntry(items, name, item, entries);
    CreateCount(items, idx, name, item, entries);
    var e := idx + |entries| - 1;
    forall p | 0 <= p < |r| && LfnInUse(r[p]) ensures exists q :: PartOfName(r, p, q) {
      if idx <= p <= e {
        assert r[e] == entries[|entries| - 1];
        assert PartOfName(r, p, e);
      } else {
        var q: nat :| PartOfName(items, p, q);
        if p < idx && q >= idx {
          if q > idx { PartsInUse(items, p, q, idx); }
          assert false;
        }
        CreateKeepsName(items, idx, name, item, entries, q, 0);
        assert PartOfName(r, p, q);
      }
    }
  }

  /** What `fat16_create_item` does to the names of a directory: the new item is found under its
      name and is shown under it, all others keep theirs, and all stay distinct and whole. */
  lemma CreateNames(items: seq<Item>, idx: nat, name: Name, item: Item, entries: seq<Item>)
    requires NamesOk(items) && idx <= |items| && FreeAt(items, idx, |entries|)
    requires GoodEntries(items, name, item, entries) && IsIndexOf(items, name, -1) && |name| <= PATH_MAX
    ensures var r, e := Placed(items, idx, entries), idx + |entries| - 1;
            && e >= 0 && NamesOk(r) && IsIndexOf(r, name, e)
            && (forall max :: |name| <= max ==> ItemName(r, e, max) == name)
            && forall j, max :: 0 <= j < |items| && !(idx <= j <= e) ==> ItemName(r, j, max) == ItemName(items, j, max)
  {
    hide LfnScan, LongName, Checksum, FullShortName, ShortDisplay, HasBit, Part, PartByte, SetName, MakeShortName;
    hide ValidLongName, ShortTaken, IsAlias, Placed, SameName;
    hide LfnCount, ItemName, EntriesFor, Distinct, NoOrphans;
    var r, e := Placed(items, idx, entries), idx + |entries| - 1;
    assert Creates(items, idx, name, item, entries);
    CreateDistinct(items, idx, name, item, entries);
    CreateNoOrphans(items, idx, name, item, entries);
    forall max: nat | |name| <= max ensures e >= 0 && ItemName(r, e, max) == name {
      CreateReadBack(items, idx, name, item, entries, max);
    }
    CreateReadBack(items, idx, name, item, entries, PATH_MAX);
    forall j, max: nat | 0 <= j < |items| && !(idx <= j <= e) ensures ItemName(r, j, max) == ItemName(items, j, max) {
      CreateKeepsName(items, idx, name, item, entries, j, max);
    }
    LastEntry(items, name, item, entries);
    forall j | 0 <= j < e ensures !Matches(r, j, name) {
      if j < idx {
        CreateKeepsName(items, idx, name, item, entries, j, PATH_MAX);
        assert !Matches(items, j, name);
      } else {
        NewPartNotNamed(items, idx, name, item, entries, j);
      }
    }
    assert r[e] == entries[|entries| - 1];
    UpperSameName(name);
  }

  // ---- removing ----

  function DeletedItem(it: Item): Item { it[0 := ENTRY_DELETED] }

  /** Entries `lo` to `hi` - 1 marked deleted. */
  function Deleted(items: seq<Item>, lo: nat, hi: nat): (r: seq<Item>)
    requires lo <= hi <= |items|
    ensures |r| == |items|
  {
    seq(|items|, k requires 0 <= k < |items| => if lo <= k < hi then DeletedItem(items[k]) else items[k])
  }

  /** What `fat16_remove` does to the names: the item's entries go, its long name included, and all
      other names stay. */
  lemma RemoveNames(items: seq<Item>, k: nat)
    requires NamesOk(items) && k < |items| && Named(items[k])
    ensures var lo := k - LfnCount(items, k);
            var r := Deleted(items, lo, k + 1);
            && NamesOk(r) && (forall j :: lo <= j <= k ==> !Named(r[j]) && !LfnInUse(r[j]))
            && forall j, max :: 0 <= j < |items| && !(lo <= j <= k) ==> ItemName(r, j, max) == ItemName(items, j, max)
  {
    hide LfnScan, ItemName, LfnCount, HasBit, SameName, Distinct, NoOrphans;
    var lo := k - LfnCount(items, k);
    var r := Deleted(items, lo, k + 1);
    forall j, max: nat | 0 <= j < |items| && !(lo <= j <= k) ensures ItemName(r, j, max) == ItemName(items, j, max) {
      RemoveKeepsName(items, k, j, max);
    }
    RemoveDistinct(items, k);
    RemoveNoOrphans(items, k);
  }

  lemma RemoveKeepsName(items: seq<Item>, k: nat, j: nat, max: nat)
    requires k < |items| && Named(items[k]) && j < |items| && !(k - LfnCount(items, k) <= j <= k)
    ensures var r := Deleted(items, k - LfnCount(items, k), k + 1);
            LfnCount(r, j) == LfnCount(items, j) && ItemName(r, j, max) == ItemName(items, j, max)
    ensures j > k ==> LfnCount(items, j) <= j - (k + 1)
  {
    hide LfnScan, ItemName, LfnCount, HasBit;
    var lo := k - LfnCount(items, k);
    var r := Deleted(items, lo, k + 1);
    if j < lo { NameSamePrefix(items, r, j, max); } else { NameSame(items, r, j, k + 1, max); }
  }

  lemma RemoveDistinct(items: seq<Item>, k: nat)
    requires Distinct(items) && k < |items| && Named(items[k])
    ensures Distinct(Deleted(items, k - LfnCount(items, k), k + 1))
  {
    hide LfnScan, ItemName, LfnCount, HasBit, SameName;
    var lo := k - LfnCount(items, k);
    var r := Deleted(items, lo, k + 1);
    forall i, j | 0 <= i < |r| && 0 <= j < |r| ensures DistinctAt(r, i, j) {
      if Named(r[i]) && Named(r[j]) && i != j {
        RemoveKeepsName(items, k, i, PATH_MAX);
        RemoveKeepsName(items, k, j, PATH_MAX);
        assert DistinctAt(items, i, j);
      }
    }
  }

  lemma RemoveNoOrphans(items: seq<Item>, k: nat)
    requires NoOrphans(items) && k < |items| && Named(items[k])
    ensures NoOrphans(Deleted(items, k - LfnCount(items, k), k + 1))
  {
    hide LfnScan, ItemName, LfnCount, HasBit;
    var lo := k - LfnCount(items, k);
    var r := Deleted(items, lo, k + 1);
    forall p | 0 <= p < |r| && LfnInUse(r[p]) ensures exists q :: PartOfName(r, p, q) {
      var q: nat :| PartOfName(items, p, q);
      if lo <= q <= k && q != k {
        ScanInUseAt(items, k, q);
        assert false;
      }
      if q != k {
        RemoveKeepsName(items, k, q, 0);
        assert PartOfName(r, p, q);
      }
    }
  }

  lemma ScanInUseAt(items: seq<Item>, k: nat, q: nat)
    requires k < |items| && k - LfnCount(items, k) <= q < k
    ensures LfnInUse(items[q])
  {
    ScanInUse(items, k, 1, Checksum(items[k][..11]), k - q);
  }
}
