// The bytes of names, by the FAT specification ("FAT Long Directory Entries"): what other drivers read in the
// entries of a new name, and that the entries they write are found.
module FatNameBytes {
  import opened Bytes
  import opened FatLayout
  import opened FatNames
  import opened FatLongNames
  import opened FatNaming
  import opened FatEntryBytes

  // ---- the checksum ----

  /** From 0 on, each number is the one before rotated right by one bit, plus the next byte of the name: rotated
      left again, it is the one before. */
  ghost predicate ChecksumChain(c: seq<byte>, name: seq<byte>) {
    && |c| == |name| + 1 && c[0] == 0
    && forall i :: 0 <= i < |name| ==> Linked(c[i], c[i + 1], name[i])
  }

  predicate Linked(a: byte, b: byte, n: byte) { a == RotatedLeft((b as int - n as int) % 256) }

  function RotatedLeft(r: byte): byte { 2 * (r % 128) + r / 128 }

  lemma {:induction false} ChecksumHasChain(name: seq<byte>) returns (c: seq<byte>)
    ensures ChecksumChain(c, name) && c[|name|] == Checksum(name)
    decreases |name|
  {
    hide Linked;
    if name == [] {
      c := [0];
    } else {
      var front := name[..|name| - 1];
      c := ChecksumHasChain(front);
      RotatedBack(c[|front|], name[|front|]);
      c := c + [Checksum(name)];
    }
  }

  lemma RotatedBack(sum: byte, b: byte)
    ensures Linked(sum, (sum % 2 * 128 + sum / 2 + b) % 256, b)
  {
    var r := sum % 2 * 128 + sum / 2;
    assert ((r + b) % 256 - b) % 256 == r;
  }

  /** There is one chain for a name. */
  lemma {:induction false} OneChain(c: seq<byte>, d: seq<byte>, name: seq<byte>, k: nat)
    requires ChecksumChain(c, name) && ChecksumChain(d, name) && k <= |name|
    ensures c[k] == d[k]
  {
    hide Linked;
    if k > 0 {
      OneChain(c, d, name, k - 1);
      assert Linked(c[k - 1], c[k - 1 + 1], name[k - 1]) && Linked(d[k - 1], d[k - 1 + 1], name[k - 1]);
      LinkedOnce(c[k - 1], c[k], d[k], name[k - 1]);
    }
  }

  lemma LinkedOnce(a: byte, b: byte, c: byte, n: byte)
    requires Linked(a, b, n) && Linked(a, c, n)
    ensures b == c
  {
    hide RotatedLeft;
    RotatedOnce((b as int - n as int) % 256, (c as int - n as int) % 256);
    Shifted(b, c, n);
  }

  lemma RotatedOnce(r: byte, s: byte)
    requires RotatedLeft(r) == RotatedLeft(s)
    ensures r == s
  {
    RotatedIs(r);
    RotatedIs(s);
    hide RotatedLeft;
  }

  lemma RotatedIs(r: byte)
    ensures RotatedLeft(r) == if r < 128 then 2 * r else 2 * r - 255
  {}

  lemma Shifted(a: byte, b: byte, n: byte)
    requires (a as int - n as int) % 256 == (b as int - n as int) % 256
    ensures a == b
  {}

  // ---- the entries of a long name ----

  /** Where character `i` of a part is. */
  function CharAt(i: nat): nat { if i < 5 then 1 + 2 * i else if i < 11 then 4 + 2 * i else 6 + 2 * i }

  /** Entry `n` of a long name: its number, with 0x40 added in the last one; attribute 15; a checksum; and 13
      characters of two bytes, then zero, then 0xFFFF. */
  ghost predicate PartOf(it: Item, name: Name, n: nat, last: bool, checksum: byte)
    requires n >= 1
  {
    && it[0] == (n + if last then 0x40 else 0) && it[11] == 15 && it[12] == 0 && it[13] == checksum
    && it[26] == 0 && it[27] == 0
    && forall i :: 0 <= i < 13 ==> HasCharacter(it, name, n, i)
  }

  ghost predicate HasCharacter(it: Item, name: Name, n: nat, i: nat)
    requires n >= 1 && i < 13
  {
    Pair(it, CharAt(i)) == Character(name, 13 * (n - 1) + i)
  }

  function Character(name: seq<byte>, at: nat): nat {
    if at < |name| then name[at] else if at == |name| then 0 else 0xFFFF
  }

  lemma PartIs(name: Name, n: nat, count: nat, checksum: byte)
    requires 1 <= n <= count <= 5
    ensures PartOf(Part(name, n, count, checksum), name, n, n == count, checksum)
  {
    var it := Part(name, n, count, checksum);
    forall i | 0 <= i < 13 ensures HasCharacter(it, name, n, i) {
      PartRead(name, n, count, checksum);
      assert LfnChar(it, i) == Pair(it, CharAt(i));
      hide Part, LfnChar;
    }
  }

  /** No other entry is part `n` of that name. */
  lemma OnePart(it: Item, name: Name, n: nat, count: nat, checksum: byte)
    requires 1 <= n <= count <= 5 && PartOf(it, name, n, n == count, checksum)
    ensures it == Part(name, n, count, checksum)
  {
    forall p | 0 <= p < 32 ensures it[p] == PartByte(name, n, count, checksum, p) {
      if 1 <= p < 11 || 14 <= p < 26 || 28 <= p < 32 {
        var i := CharIndex(p);
        assert HasCharacter(it, name, n, i) && (p == CharAt(i) || p == CharAt(i) + 1);
        assert Character(name, 13 * (n - 1) + i) == CharOf(name, 13 * (n - 1) + i);
        hide Character, CharOf;
      }
    }
  }

  /** The entries of a new item with a long name: its parts, the end of the name first, each with the checksum of
      the 8.3 name behind them, and that name. */
  lemma LongBytes(items: seq<Item>, name: Name, item: Item, entries: seq<Item>, c: seq<byte>, k: nat)
    requires EntriesFor(items, name, item, entries) && MakeShortName(name).None? && k < |entries| - 1
    requires ChecksumChain(c, entries[|entries| - 1][..11])
    ensures 13 * (|entries| - 2) < |name| <= 13 * (|entries| - 1)
    ensures PartOf(entries[k], name, |entries| - 1 - k, k == 0, c[11])
  {
    hide Part, ValidLongName, Checksum, SetName;
    LongLength(name);
    var count := PartCount(name);
    var last := entries[count];
    var sum := Checksum(last[..11]);
    assert |entries| == count + 1 && entries == Parts(name, sum) + [SetName(item, last[..11], 0)];
    PartsAt(name, sum, count - k);
    PartIs(name, count - k, count, sum);
    var d := ChecksumHasChain(last[..11]);
    OneChain(c, d, last[..11], 11);
    assert k == 0 <==> count - k == count;
  }

  /** The 8.3 entry of a new item: all bytes but the name and byte 12 are those of the item. */
  lemma LastBytes(items: seq<Item>, name: Name, item: Item, entries: seq<Item>)
    requires EntriesFor(items, name, item, entries)
    ensures entries != []
    ensures var last := entries[|entries| - 1]; last[11] == item[11] && last[13..] == item[13..]
    ensures MakeShortName(name).None? ==> entries[|entries| - 1][12] == 0
  {
    hide Part, Parts, ValidLongName, Checksum, MakeShortName, Alias;
    if MakeShortName(name).Some? {
      var short := MakeShortName(name).value;
      SetNameParts(item, short.name[..8], short.name[8..], short.caseBits);
      assert short.name[..8] + short.name[8..] == short.name;
    } else {
      var alias := entries[PartCount(name)][..11];
      SetNameParts(item, alias[..8], alias[8..], 0);
      assert alias[..8] + alias[8..] == alias;
    }
  }

  // ---- reading long names ----

  /** Before entry `idx` are `count` parts of a name with these characters, whoever wrote them: numbered back from
      it, the last one with bit 6 set, each with the checksum of the 8.3 name. */
  ghost predicate HasParts(items: seq<Item>, idx: nat, count: nat, chars: seq<nat>, checksum: byte) {
    && 1 <= count <= idx < |items| && count <= 31 && |chars| <= 13 * count
    && (forall n :: 1 <= n <= count ==> HasPart(items, idx, count, n, checksum))
    && (forall at :: 0 <= at < |chars| ==> 0 < chars[at] < 0xFFFF)
    && forall at :: 0 <= at < 13 * count && at <= |chars| ==> HasChar(items, idx, chars, at)
  }

  ghost predicate HasPart(items: seq<Item>, idx: nat, count: nat, n: nat, checksum: byte)
    requires n <= idx <= |items| && n > 0
  {
    var it := items[idx - n];
    && it[0] != 0xE5 && it[0] % 32 == n && (it[0] / 64 % 2 == 1 <==> n == count)
    && it[11] == 15 && it[13] == checksum
  }

  ghost predicate HasChar(items: seq<Item>, idx: nat, chars: seq<nat>, at: nat)
    requires at <= |chars| && at / 13 < idx < |items|
  {
    Pair(items[idx - 1 - at / 13], CharAt(at % 13)) == if at < |chars| then chars[at] else 0
  }

  /** The characters as they are shown, those outside of ASCII as "?", up to 108 of them. */
  function Shown(chars: seq<nat>, from: nat): seq<byte>
    requires from <= |chars|
    decreases |chars| - from
  {
    if from == |chars| || from >= 108 then []
    else [if chars[from] < 128 then chars[from] else 63] + Shown(chars, from + 1)
  }

  lemma {:induction false} ScanFinds(items: seq<Item>, idx: nat, count: nat, chars: seq<nat>, checksum: byte, n: nat)
    requires HasParts(items, idx, count, chars, checksum) && 1 <= n <= count
    ensures LfnScan(items, idx, n, checksum) == count
    decreases count - n
  {
    assert HasPart(items, idx, count, n, checksum);
    if n < count { ScanFinds(items, idx, count, chars, checksum, n + 1); }
  }

  lemma {:induction false} CharsFound(items: seq<Item>, idx: nat, count: nat, chars: seq<nat>, checksum: byte, at: nat)
    requires HasParts(items, idx, count, chars, checksum) && at <= |chars|
    ensures LongName(items, idx, count, at, PATH_MAX) == Shown(chars, at)
    decreases |chars| - at
  {
    if at < 13 * count {
      assert HasChar(items, idx, chars, at);
      CharIs(items[idx - (at / 13 + 1)], at % 13);
      LongNext(items, idx, count, at, PATH_MAX);
      hide LongName, LfnChar, HasParts;
      if at < |chars| { CharsFound(items, idx, count, chars, checksum, at + 1); }
    }
  }

  lemma CharIs(it: Item, i: nat)
    requires i < 13
    ensures LfnChar(it, i) == Pair(it, CharAt(i))
  {}

  /** A long name is read from the bytes of its parts, if they have the checksum of the 8.3 name. */
  lemma LongRead(items: seq<Item>, idx: nat, count: nat, chars: seq<nat>, c: seq<byte>)
    requires idx < |items| && ChecksumChain(c, items[idx][..11]) && HasParts(items, idx, count, chars, c[11])
    ensures ItemName(items, idx, PATH_MAX) == Shown(chars, 0)
  {
    hide HasParts, LfnScan, LongName, Checksum;
    SomeParts(items, idx, count, chars, c[11]);
    var d := ChecksumHasChain(items[idx][..11]);
    OneChain(c, d, items[idx][..11], 11);
    ScanFinds(items, idx, count, chars, c[11], 1);
    CharsFound(items, idx, count, chars, c[11], 0);
  }

  lemma SomeParts(items: seq<Item>, idx: nat, count: nat, chars: seq<nat>, checksum: byte)
    requires HasParts(items, idx, count, chars, checksum)
    ensures count > 0
  {}

  // ---- an 8.3 name ----

  /** Letters in upper case. */
  function Raised(c: byte): byte { if 97 <= c <= 122 then c - 32 else c }

  /** A name that fits 8.3 with its last dot at `d`: base and extension in upper case, each at its place and padded
      with spaces, and whether they were in lower case in bits 3 and 4 of byte 12. */
  lemma ShortBytes(items: seq<Item>, name: Name, item: Item, entries: seq<Item>, d: nat, p: nat)
    requires EntriesFor(items, name, item, entries) && MakeShortName(name).Some? && p < 11
    requires d <= |name| && (d < |name| ==> name[d] == 0x2E) && forall i :: d < i < |name| ==> name[i] != 0x2E
    requires d == |name| ==> forall i :: 0 <= i < |name| ==> name[i] != 0x2E
    ensures |entries| == 1
    ensures entries[0][p] == if p < 8 then (if p < d then Raised(name[p]) else 0x20)
                             else if d + p - 7 < |name| then Raised(name[d + p - 7]) else 0x20
    ensures Bit(entries[0], 12, 3) == 1 <==> exists i :: 0 <= i < d && 97 <= name[i] <= 122
    ensures Bit(entries[0], 12, 4) == 1 <==> exists i :: d < i < |name| && 97 <= name[i] <= 122
  {
    hide LastDot, HasLower, HasUpper, IsShortChar, Upper, Pad;
    LastDotIs(name, d);
    var short := MakeShortName(name).value;
    SetNameParts(item, short.name[..8], short.name[8..], short.caseBits);
    assert short.name[..8] + short.name[8..] == short.name;
    assert entries[0][p] == entries[0][..11][p];
    PaddedBytes(name, d, p);
    CaseBits(HasLower(Base(name)), HasLower(Ext(name)));
    LowerIn(name, 0, d);
    assert Base(name) == name[0..d];
    if d < |name| {
      LowerIn(name, d + 1, |name|);
      assert Ext(name) == name[d + 1..|name|];
    } else {
      NoLower();
    }
  }

  lemma NoLower()
    ensures !HasLower([])
  {}

  lemma LastDotIs(name: seq<byte>, d: nat)
    requires d <= |name| && (d < |name| ==> name[d] == 0x2E) && forall i :: d < i < |name| ==> name[i] != 0x2E
    requires d == |name| ==> forall i :: 0 <= i < |name| ==> name[i] != 0x2E
    ensures LastDot(name) == d
  {}

  lemma PaddedBytes(name: seq<byte>, d: nat, p: nat)
    requires d == LastDot(name) && |Base(name)| <= 8 && |Ext(name)| <= 3 && p < 11
    ensures (Pad(Upper(Base(name)), 8) + Pad(Upper(Ext(name)), 3))[p]
            == if p < 8 then (if p < d then Raised(name[p]) else 0x20)
               else if d + p - 7 < |name| then Raised(name[d + p - 7]) else 0x20
  {
    hide LastDot;
  }

  lemma LowerIn(name: seq<byte>, lo: nat, hi: nat)
    requires lo <= hi <= |name|
    ensures HasLower(name[lo..hi]) <==> exists i :: lo <= i < hi && 97 <= name[i] <= 122
  {
    if HasLower(name[lo..hi]) {
      var k :| 0 <= k < hi - lo && IsLower(name[lo..hi][k]);
      assert 97 <= name[lo + k] <= 122;
    }
    if i :| lo <= i < hi && 97 <= name[i] <= 122 { assert IsLower(name[lo..hi][i - lo]); }
  }

  /** The characters of an 8.3 name: digits, letters and ! # $ % & ' ( ) - @ ^ _ ` { } ~ by their codes. */
  lemma ShortCodes(c: byte)
    ensures IsShortChar(c) <==>
            || 48 <= c <= 57 || 65 <= c <= 90 || 97 <= c <= 122 || c == 33 || 35 <= c <= 41
            || c in [45, 64, 94, 95, 96, 123, 125, 126]
  {}

  /** The names a long name may have: 1 to 63 bytes from 0x20 to 0x7E, none of " * / : < > ? \ | and no dot or
      space at the end. */
  lemma LongCodes(name: seq<byte>)
    ensures ValidLongName(name) <==>
            && 1 <= |name| <= 63 && name[|name| - 1] != 0x2E && name[|name| - 1] != 0x20
            && forall i :: 0 <= i < |name| ==>
                 0x20 <= name[i] <= 0x7E && name[i] !in [34, 42, 47, 58, 60, 62, 63, 92, 124]
  {}

  // ---- an alias ----

  /** A character as an alias has it: in upper case, or "_" for one that 8.3 names do not have. */
  function Spelled(c: byte): byte {
    if 48 <= c <= 57 || 64 <= c <= 90 || c == 33 || 35 <= c <= 41 || c in [45, 94, 95, 96, 123, 125, 126] then c
    else if 97 <= c <= 122 then c - 32
    else 0x5F
  }

  /** All characters an alias may have from `s`: none for a space, nor for a dot in the base. */
  function Kept(s: seq<byte>, base: bool): seq<byte> {
    if s == [] then []
    else
      var c := s[|s| - 1];
      Kept(s[..|s| - 1], base) + if c == 0x20 || (base && c == 0x2E) then [] else [Spelled(c)]
  }

  lemma {:induction false} KeptFirst(s: seq<byte>, base: bool)
    requires s != []
    ensures Kept(s, base)
            == (if s[0] == 0x20 || (base && s[0] == 0x2E) then [] else [Spelled(s[0])]) + Kept(s[1..], base)
    decreases |s|
  {
    if |s| > 1 {
      KeptFirst(s[..|s| - 1], base);
      assert s[1..][..|s| - 2] == s[..|s| - 1][1..];
    }
  }

  function FirstOf(s: seq<byte>, max: nat): seq<byte> { if |s| <= max then s else s[..max] }

  lemma {:induction false} AliasCharsAre(s: seq<byte>, max: nat, base: bool)
    ensures AliasChars(s, max, base) == FirstOf(Kept(s, base), max)
    decreases |s|
  {
    hide Kept, Spelled, FirstOf;
    if s == [] {
      NothingKept(max, base);
    } else if s[0] == 0x20 || (base && s[0] == 0x2E) {
      KeptFirst(s, base);
      AliasCharsAre(s[1..], max, base);
      NoneFirst(Kept(s[1..], base), max);
    } else {
      KeptFirst(s, base);
      OneFirst(Spelled(s[0]), Kept(s[1..], base), max);
      SpelledIs(s[0]);
      if max > 0 { AliasCharsAre(s[1..], max - 1, base); }
    }
  }

  lemma NothingKept(max: nat, base: bool)
    ensures FirstOf(Kept([], base), max) == []
  {}

  lemma NoneFirst(s: seq<byte>, max: nat)
    ensures [] + s == s && (max == 0 ==> FirstOf(s, max) == [])
  {}

  lemma OneFirst(c: byte, s: seq<byte>, max: nat)
    ensures FirstOf([c] + s, max) == if max == 0 then [] else [c] + FirstOf(s, max - 1)
  {}

  lemma SpelledIs(c: byte)
    ensures AliasChar(c) == Spelled(c)
  {
    hide IsShortChar;
    ShortCodes(c);
  }

  /** The number that digits stand for. */
  function Decimal(s: seq<byte>): int { if s == [] then 0 else 10 * Decimal(s[..|s| - 1]) + s[|s| - 1] - 48 }

  ghost predicate DigitsOf(s: seq<byte>, n: nat) {
    s != [] && s[0] != 48 && Decimal(s) == n && forall i :: 0 <= i < |s| ==> 48 <= s[i] <= 57
  }

  lemma SuffixIs(n: nat)
    requires 1 <= n < 1000
    ensures Suffix(n)[0] == 0x7E && DigitsOf(Suffix(n)[1..], n)
  {
    var s := Suffix(n)[1..];
    if n >= 100 {
      assert s == [48 + n / 100, 48 + n / 10 % 10, 48 + n % 10];
      assert s[..2][..1] == s[..1] && s[..1] == [48 + n / 100] && s[..1][..0] == [];
      assert Decimal(s[..1]) == n / 100 && Decimal(s[..2]) == 10 * (n / 100) + n / 10 % 10;
      assert n / 10 == 10 * (n / 100) + n / 10 % 10 && n == 10 * (n / 10) + n % 10;
    } else if n >= 10 {
      assert s == [48 + n / 10, 48 + n % 10] && s[..1] == [48 + n / 10] && s[..1][..0] == [];
    } else {
      assert s == [48 + n] && s[..0] == [];
    }
  }

  /** Alias `n` of a name whose base and extension keep these characters: as much of the base as leaves room, "~",
      the number, and spaces up to 8; three characters of the extension, and spaces. */
  ghost predicate IsAliasOf(alias: seq<byte>, base: seq<byte>, ext: seq<byte>, n: nat, keep: nat, w: nat) {
    && |alias| == 11 && 1 <= w <= 3 && keep == (if |base| < 7 - w then |base| else 7 - w)
    && alias[..keep] == base[..keep] && alias[keep] == 0x7E && DigitsOf(alias[keep + 1..keep + 1 + w], n)
    && (forall p :: keep + 1 + w <= p < 8 ==> alias[p] == 0x20)
    && forall p :: 8 <= p < 11 ==> alias[p] == if p - 8 < |ext| then ext[p - 8] else 0x20
  }

  lemma AliasShape(name: seq<byte>, n: nat) returns (keep: nat, w: nat)
    requires 1 <= n < 1000
    ensures IsAliasOf(Alias(name, n), AliasBase(name), AliasExt(name), n, keep, w)
  {
    hide AliasBase, AliasExt, DigitsOf, Suffix;
    SuffixIs(n);
    var base, suffix := AliasBase(name), Suffix(n);
    w := |suffix| - 1;
    keep := if |base| < 7 - w then |base| else 7 - w;
    assert Alias(name, n)[keep + 1..keep + 1 + w] == suffix[1..];
  }

  /** More characters than there is room for make no difference. */
  lemma MoreKept(alias: seq<byte>, base: seq<byte>, ext: seq<byte>, n: nat, keep: nat, w: nat, b: seq<byte>,
                 e: seq<byte>)
    requires IsAliasOf(alias, base, ext, n, keep, w)
    requires base == (if |b| <= 8 then b else b[..8]) && ext == if |e| <= 3 then e else e[..3]
    ensures IsAliasOf(alias, b, e, n, keep, w)
  {
    hide DigitsOf;
  }

  lemma AliasBytes(name: seq<byte>, n: nat, d: nat) returns (keep: nat, w: nat)
    requires 1 <= n < 1000 && d <= |name| && (d < |name| ==> name[d] == 0x2E)
    requires forall i :: d < i < |name| ==> name[i] != 0x2E
    requires d == |name| ==> forall i :: 0 <= i < |name| ==> name[i] != 0x2E
    ensures var base := Kept(if d == 0 then name else name[..d], true);
            IsAliasOf(Alias(name, n), if base == [] then [0x5F] else base,
                      if d == 0 || d == |name| then [] else Kept(name[d + 1..], false), n, keep, w)
  {
    hide LastDot, AliasChars, Kept, IsAliasOf, Alias;
    LastDotIs(name, d);
    var front := if d == 0 then name else name[..d];
    var b, e := Kept(front, true), if d == 0 || d == |name| then [] else Kept(name[d + 1..], false);
    AliasCharsAre(front, 8, true);
    if d != 0 && d < |name| { AliasCharsAre(name[d + 1..], 3, false); }
    assert name[..|name|] == name;
    keep, w := AliasShape(name, n);
    MoreKept(Alias(name, n), AliasBase(name), AliasExt(name), n, keep, w, if b == [] then [0x5F] else b, e);
  }
}
