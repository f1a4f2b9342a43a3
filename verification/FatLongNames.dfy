// Long names: runs of VFAT entries in front of their 8.3 entry, and looking names up.
module FatLongNames {
  import opened Options
  import opened Bytes
  import opened FatLayout
  import opened FatItems
  import opened FatNames

  const LFN_LAST := 0x40
  const LFN_MAX := 63

  /** `fat16_short_name_checksum`. */
  function Checksum(name: seq<byte>): byte {
    if name == [] then 0
    else
      var sum := Checksum(name[..|name| - 1]);
      (sum % 2 * 128 + sum / 2 + name[|name| - 1]) % 256
  }

  /** Position in the entry of character `i` of the 13 a long name entry holds. */
  function CharPos(i: nat): nat
    requires i < 13
  {
    if i < 5 then 1 + 2 * i else if i < 11 then 14 + 2 * (i - 5) else 28 + 2 * (i - 11)
  }

  /** `fat16_lfn_char`. */
  function LfnChar(it: Item, i: nat): Word
    requires i < 13
  {
    it[CharPos(i)] as int + 256 * it[CharPos(i) + 1] as int
  }

  function SeqOf(it: Item): nat { it[0] % 32 }

  function IsLast(it: Item): bool { HasBit(it[0], LFN_LAST) }

  /** Entry `n` of the long name of an 8.3 name with this checksum. */
  predicate IsPart(it: Item, n: nat, checksum: byte) {
    IsLongName(it) && it[0] != ENTRY_DELETED && SeqOf(it) == n && it[13] == checksum
  }

  /** Scanning back from entry `idx`: entries 1 to n - 1 of a long name were found. */
  function LfnScan(items: seq<Item>, idx: nat, n: nat, checksum: byte): (c: nat)
    requires idx < |items| && n >= 1
    ensures c == 0 || n <= c <= idx
    decreases idx + 1 - n
  {
    if n > idx || n > 31 || !IsPart(items[idx - n], n, checksum) then 0
    else if IsLast(items[idx - n]) then n
    else LfnScan(items, idx, n + 1, checksum)
  }

  /** `fat16_lfn_count`: the entries in front of 8.3 entry `idx` that are its long name. */
  function LfnCount(items: seq<Item>, idx: nat): (c: nat)
    requires idx < |items|
    ensures c <= idx
  {
    LfnScan(items, idx, 1, Checksum(items[idx][..11]))
  }

  /** Character `at` of the long name in the `count` entries before entry `idx`. */
  function LongChar(items: seq<Item>, idx: nat, at: nat): Word
    requires idx < |items| && at / 13 + 1 <= idx
  {
    LfnChar(items[idx - (at / 13 + 1)], at % 13)
  }

  /** The characters from `at` on, up to the terminator, the end of the run or `max`. */
  function LongName(items: seq<Item>, idx: nat, count: nat, at: nat, max: nat): seq<byte>
    requires idx < |items| && count <= idx
    decreases 13 * count - at
  {
    if at >= 13 * count || at >= max then []
    else
      var c := LongChar(items, idx, at);
      if c == 0 || c == 0xFFFF then []
      else [if c < 0x80 then c else '?' as int] + LongName(items, idx, count, at + 1, max)
  }

  /** `fat16_get_item_name` into a buffer of `max` + 1 bytes. */
  function ItemName(items: seq<Item>, idx: nat, max: nat): seq<byte>
    requires idx < |items|
  {
    var count := LfnCount(items, idx);
    if count == 0 then ShortDisplay(items[idx]) else LongName(items, idx, count, 0, max)
  }

  const PATH_MAX := 108

  /** An entry with a name of its own: an 8.3 entry in use that is not the volume label. */
  predicate Named(it: Item) {
    it[0] != ENTRY_DELETED && !IsLongName(it) && !IsVolumeLabel(it)
  }

  predicate Matches(items: seq<Item>, i: nat, name: seq<byte>)
    requires i < |items|
  {
    Named(items[i]) && (SameName(ItemName(items, i, PATH_MAX), name) || SameName(FullShortName(items[i]), name))
  }

  /** What `fat16_find_index` returns: the first entry whose long or 8.3 name this is, or -1. */
  ghost predicate IsIndexOf(items: seq<Item>, name: seq<byte>, r: int) {
    && -1 <= r < |items|
    && (r >= 0 ==> Matches(items, r, name))
    && forall i :: 0 <= i < (if r < 0 then |items| else r) ==> !Matches(items, i, name)
  }

  // ---- the loops ----

  method CountParts(items: seq<Item>, idx: nat) returns (count: nat)
    requires idx < |items|
    ensures count == LfnCount(items, idx)
  {
    var checksum := Checksum(items[idx][..11]);
    var n := 1;
    while n <= idx && n <= 31
      invariant 1 <= n <= idx + 1
      invariant LfnScan(items, idx, n, checksum) == LfnScan(items, idx, 1, checksum)
      decreases idx + 1 - n
    {
      var entry := items[idx - n];
      if !IsLongName(entry) || entry[0] == ENTRY_DELETED || SeqOf(entry) != n || entry[13] != checksum {
        return 0;
      }
      if IsLast(entry) {
        return n;
      }
      n := n + 1;
    }
    count := 0;
  }

  method GetItemName(items: seq<Item>, idx: nat, max: nat) returns (out: seq<byte>)
    requires idx < |items|
    ensures out == ItemName(items, idx, max)
  {
    hide LongName, LfnChar, ShortDisplay, LfnCount, LongChar;
    var count := CountParts(items, idx);
    if count == 0 {
      return ShortDisplay(items[idx]);
    }
    out := [];
    for n := 1 to count + 1
      invariant |out| == 13 * (n - 1)
      invariant out + LongName(items, idx, count, 13 * (n - 1), max) == LongName(items, idx, count, 0, max)
    {
      var done;
      done, out := AppendPart(items, idx, count, n, max, out);
      if done {
        return;
      }
    }
    LongEnd(items, idx, count, max);
  }

  /** The characters of part `n`; `done` at the end of the name. */
  method AppendPart(items: seq<Item>, idx: nat, count: nat, n: nat, max: nat, before: seq<byte>)
    returns (done: bool, out: seq<byte>)
    requires idx < |items| && 1 <= n <= count <= idx && |before| == 13 * (n - 1)
    ensures before + LongName(items, idx, count, 13 * (n - 1), max)
            == if done then out else out + LongName(items, idx, count, 13 * n, max)
    ensures !done ==> |out| == 13 * n
  {
    hide LongName, LfnChar, LongChar;
    ghost var all := before + LongName(items, idx, count, 13 * (n - 1), max);
    out := before;
    for i := 0 to 13
      invariant |out| == 13 * (n - 1) + i
      invariant out + LongName(items, idx, count, 13 * (n - 1) + i, max) == all
    {
      var at := 13 * (n - 1) + i;
      PartOf(n, i);
      LongNext(items, idx, count, at, max);
      var c := LfnChar(items[idx - n], i);
      if c == 0 || c == 0xFFFF || |out| >= max {
        return true, out;
      }
      Reassociate(out, if c < 0x80 then c else '?' as int, LongName(items, idx, count, at + 1, max));
      out := out + [if c < 0x80 then c else '?' as int];
    }
    done := false;
  }

  lemma Reassociate(a: seq<byte>, c: byte, b: seq<byte>)
    ensures a + ([c] + b) == (a + [c]) + b
  {}

  lemma LongNext(items: seq<Item>, idx: nat, count: nat, at: nat, max: nat)
    requires idx < |items| && count <= idx && at < 13 * count
    ensures at / 13 < count
    ensures LongName(items, idx, count, at, max) ==
            if at >= max || LongChar(items, idx, at) == 0 || LongChar(items, idx, at) == 0xFFFF then []
            else [if LongChar(items, idx, at) < 0x80 then LongChar(items, idx, at) else '?' as int]
                 + LongName(items, idx, count, at + 1, max)
    ensures LongChar(items, idx, at) == LfnChar(items[idx - (at / 13 + 1)], at % 13)
  {}

  lemma LongEnd(items: seq<Item>, idx: nat, count: nat, max: nat)
    requires idx < |items| && count <= idx
    ensures LongName(items, idx, count, 13 * count, max) == []
  {}

  lemma PartOf(n: nat, i: nat)
    requires n >= 1 && i < 13
    ensures (13 * (n - 1) + i) / 13 + 1 == n && (13 * (n - 1) + i) % 13 == i
  {}

  /** `fat16_find_index`. */
  method FindIndex(items: seq<Item>, name: seq<byte>) returns (r: int)
    ensures IsIndexOf(items, name, r)
  {
    for i := 0 to |items|
      invariant forall j :: 0 <= j < i ==> !Matches(items, j, name)
    {
      if items[i][0] == ENTRY_DELETED || IsLongName(items[i]) || IsVolumeLabel(items[i]) {
        continue;
      }
      var display := GetItemName(items, i, PATH_MAX);
      if SameName(display, name) {
        return i;
      }
      if SameName(FullShortName(items[i]), name) {
        return i;
      }
    }
    r := -1;
  }

  // ---- new names ----

  /** `fat16_short_name_taken`. */
  predicate ShortTaken(items: seq<Item>, name: seq<byte>) {
    exists i :: 0 <= i < |items| && items[i][0] != ENTRY_DELETED && !IsLongName(items[i]) && items[i][..11] == name
  }

  /** `fat16_valid_long_name`: printable ascii without the characters Windows forbids. */
  predicate ValidLongName(name: seq<byte>) {
    && 0 < |name| <= LFN_MAX && name[|name| - 1] != DOT && name[|name| - 1] != SPACE
    && forall i :: 0 <= i < |name| ==> 0x20 <= name[i] <= 0x7E && (name[i] as char) !in "\"*/:<>?\\|"
  }

  function AliasChar(c: byte): byte { if IsShortChar(c) then ToUpper(c) else '_' as int }

  /** The characters of `s` an alias keeps, at most `max`, without spaces (and dots). */
  function AliasChars(s: seq<byte>, max: nat, dots: bool): (r: seq<byte>)
    ensures |r| <= max
  {
    if s == [] || max == 0 then []
    else if s[0] == SPACE || (dots && s[0] == DOT) then AliasChars(s[1..], max, dots)
    else [AliasChar(s[0])] + AliasChars(s[1..], max - 1, dots)
  }

  /** Base of the alias: at least one character. A leading dot is no extension. */
  function AliasBase(name: seq<byte>): (r: seq<byte>)
    ensures 1 <= |r| <= 8
  {
    var d := if LastDot(name) == 0 then |name| else LastDot(name);
    var b := AliasChars(name[..d], 8, true);
    if b == [] then ['_' as int] else b
  }

  function AliasExt(name: seq<byte>): (r: seq<byte>)
    ensures |r| <= 3
  {
    if LastDot(name) == 0 || LastDot(name) == |name| then [] else AliasChars(name[LastDot(name) + 1..], 3, false)
  }

  function Suffix(n: nat): (r: seq<byte>)
    requires n < 1000
    ensures 2 <= |r| <= 4
  {
    ['~' as int]
    + (if n >= 100 then [48 + n / 100] else [])
    + (if n >= 10 then [48 + n / 10 % 10] else [])
    + [48 + n % 10]
  }

  /** The `n`-th alias of a name: "LONGFI~1.TEX". */
  function Alias(name: seq<byte>, n: nat): (r: seq<byte>)
    requires n < 1000
    ensures |r| == 11
  {
    var base, suffix := AliasBase(name), Suffix(n);
    var keep := if |base| < 8 - |suffix| then |base| else 8 - |suffix|;
    Pad(base[..keep] + suffix, 8) + Pad(AliasExt(name), 3)
  }

  /** `fat16_make_alias`: the first alias that is not taken. */
  method MakeAlias(items: seq<Item>, name: seq<byte>) returns (r: Option<seq<byte>>)
    ensures r.None? ==> forall n :: 1 <= n < 1000 ==> ShortTaken(items, Alias(name, n))
    ensures r.Some? ==> exists n :: 1 <= n < 1000 && r.value == Alias(name, n) && !ShortTaken(items, r.value)
                          && forall m :: 1 <= m < n ==> ShortTaken(items, Alias(name, m))
  {
    for n := 1 to 1000
      invariant forall m :: 1 <= m < n ==> ShortTaken(items, Alias(name, m))
    {
      var out := Alias(name, n);
      if !ShortTaken(items, out) {
        return Some(out);
      }
    }
    r := None;
  }

  function CharOf(name: seq<byte>, at: nat): Word {
    if at < |name| then name[at] else if at == |name| then 0 else 0xFFFF
  }

  /** Which of the 13 characters byte `p` of an entry belongs to. */
  function CharIndex(p: nat): nat
    requires 1 <= p < 11 || 14 <= p < 26 || 28 <= p < 32
  {
    if p < 11 then (p - 1) / 2 else if p < 26 then 5 + (p - 14) / 2 else 11 + (p - 28) / 2
  }

  function PartByte(name: seq<byte>, n: nat, count: nat, checksum: byte, p: nat): byte
    requires 1 <= n <= count <= 5 && p < 32
  {
    if p == 0 then n + if n == count then LFN_LAST else 0
    else if p == 11 then ATTR_LONG_NAME
    else if p == 13 then checksum
    else if p == 12 || p == 26 || p == 27 then 0
    else
      var c := CharOf(name, 13 * (n - 1) + CharIndex(p));
      if (p < 11) == (p % 2 == 1) then c % 256 else c / 256
  }

  /** Part `n` of `count` of a long name: 13 characters, then the terminator, then padding. */
  function Part(name: seq<byte>, n: nat, count: nat, checksum: byte): (it: Item)
    requires 1 <= n <= count <= 5
  {
    seq(32, p requires 0 <= p < 32 => PartByte(name, n, count, checksum, p))
  }

  /** What a part is written with is read back from it. */
  lemma PartRead(name: seq<byte>, n: nat, count: nat, checksum: byte)
    requires 1 <= n <= count <= 5
    ensures IsPart(Part(name, n, count, checksum), n, checksum)
    ensures IsLast(Part(name, n, count, checksum)) == (n == count)
    ensures forall i :: 0 <= i < 13 ==> LfnChar(Part(name, n, count, checksum), i) == CharOf(name, 13 * (n - 1) + i)
  {
    var it := Part(name, n, count, checksum);
    forall i | 0 <= i < 13 ensures LfnChar(it, i) == CharOf(name, 13 * (n - 1) + i) {
      hide CharOf;
      assert CharIndex(CharPos(i)) == i && CharIndex(CharPos(i) + 1) == i;
    }
  }
}
