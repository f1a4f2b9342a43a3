// The bytes of a directory entry, by the FAT specification ("FAT Directory Structure"): what other drivers read
// in the entries of this one.
module FatEntryBytes {
  import opened Bytes
  import opened FatLayout
  import opened FatItems
  import opened FatFsck
  import opened FatNames
  import opened FatNaming
  import opened FatSound
  import opened FatOpen
  import opened FatRemove
  import opened FatMkdir

  function Bit(it: Item, p: nat, k: nat): nat
    requires p < 32 && k < 8
  {
    match k
    case 0 => it[p] % 2
    case 1 => it[p] / 2 % 2
    case 2 => it[p] / 4 % 2
    case 3 => it[p] / 8 % 2
    case 4 => it[p] / 16 % 2
    case 5 => it[p] / 32 % 2
    case 6 => it[p] / 64 % 2
    case 7 => it[p] / 128 % 2
  }

  /** The cluster of an item is at bytes 26 and 27, and its high half at 20 and 21; its size at bytes 28 to 31. Bits
      of byte 11 make it a directory or the volume label, all of the low four of them, and no others, part of a
      long name. */
  lemma Fields(it: Item)
    ensures FirstCluster(it) == Pair(it, 26) + 0x10000 * Pair(it, 20)
    ensures FileSize(it) == Quad(it, 28)
    ensures IsDirectory(it) <==> Bit(it, 11, 4) == 1
    ensures IsVolumeLabel(it) <==> Bit(it, 11, 3) == 1
    ensures IsLongName(it) <==> it[11] == 15
  {}

  /** What a file or directory is: an entry that is neither unused nor deleted, that is no part of a long name and
      not the label, and not one of the two that name the directory itself and its parent. */
  lemma LiveEntry(it: Item)
    ensures Live(it) <==>
            it[0] != 0x00 && it[0] != 0xE5 && it[0] != 0x2E && it[11] != 15 && Bit(it, 11, 3) == 0
  {}

  /** What keeps a directory from being empty. */
  lemma OccupyingEntry(it: Item)
    ensures Occupies(it) <==> it[0] != 0xE5 && it[0] != 0x2E && it[11] != 15
  {}

  /** A new file: archived, with no cluster and no byte, made now. All other bytes are zero. */
  lemma NewFileBytes(date: Word, time: Word)
    ensures var it := NewFile(date, time);
            && it[11] == 0x20 && MadeNow(it, date, time)
            && (forall p :: 0 <= p < 14 && p != 11 ==> it[p] == 0)
            && (forall p :: p in [20, 21, 26, 27, 28, 29, 30, 31] ==> it[p] == 0)
  {}

  /** Entries "." and ".." of a directory: a name of dots, padded with spaces, attribute 0x10, made now, with a
      cluster and no size. */
  lemma DirectoryBytes(n: nat, cluster: Word, date: Word, time: Word)
    requires n <= 2
    ensures var it := DirectoryItem(n, cluster, date, time);
            && (n > 0 ==> forall p :: 0 <= p < 11 ==> it[p] == if p < n then 0x2E else 0x20)
            && it[11] == 0x10 && it[12] == 0 && it[13] == 0 && MadeNow(it, date, time)
            && Pair(it, 26) == cluster && Pair(it, 20) == 0 && Quad(it, 28) == 0
  {
    var name := DirectoryName(n);
    assert n > 0 ==> forall p :: 0 <= p < 11 ==> name[p] == DotName(n)[p];
    assert name[11] == 0x10 && forall p :: 12 <= p < 32 ==> name[p] == 0;
    hide DirectoryName;
  }

  /** Removing a name makes its first byte 0xE5 and leaves the others. */
  lemma DeletedBytes(items: seq<Item>, lo: nat, hi: nat, k: nat)
    requires lo <= hi <= |items| && k < |items|
    ensures var it := Deleted(items, lo, hi)[k];
            if lo <= k < hi then it[0] == 0xE5 && it[1..] == items[k][1..] else it == items[k]
  {}

  /** A name that was given, with the bits for lower case, and all else as it was. */
  lemma NamedBytes(it: Item, name: seq<byte>, reserved: byte)
    requires |name| == 11
    ensures var r := SetName(it, name, reserved);
            r[..11] == name && r[11] == it[11] && r[12] == reserved && r[13..] == it[13..]
  {}

  lemma SizeBytes(it: Item, size: nat, p: nat)
    requires size < 0x1_0000_0000 && p < 32
    ensures var r := SetFileSize(it, size);
            && Quad(r, 28) == size && (p < 28 ==> r[p] == it[p])
  {
    SetFileSizeGet(it, size);
  }

  lemma ClusterBytes(it: Item, cluster: Word, p: nat)
    requires p < 32
    ensures var r := SetFirstCluster(it, cluster);
            && Pair(r, 26) == cluster && Pair(r, 20) == 0 && (p !in [20, 21, 26, 27] ==> r[p] == it[p])
  {}
}
