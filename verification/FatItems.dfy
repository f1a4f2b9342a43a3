// Fields of a 32 byte directory entry (FAT specification, "FAT Directory Structure").
module FatItems {
  import opened Bytes
  import opened FatLayout

  const ENTRY_END: byte := 0x00
  const ENTRY_DELETED: byte := 0xE5

  const ATTR_VOLUME_LABEL := 0x08
  const ATTR_SUBDIRECTORY := 0x10
  const ATTR_ARCHIVED := 0x20
  const ATTR_LONG_NAME := 0x0F

  function Attr(it: Item): byte { it[11] }

  predicate HasBit(b: byte, bit: nat) requires bit > 0 { (b / bit) % 2 == 1 }

  predicate IsDirectory(it: Item) { HasBit(Attr(it), ATTR_SUBDIRECTORY) }

  predicate IsVolumeLabel(it: Item) { HasBit(Attr(it), ATTR_VOLUME_LABEL) }

  predicate IsLongName(it: Item) { Attr(it) == ATTR_LONG_NAME }

  /** `fat16_get_first_cluster`. */
  function FirstCluster(it: Item): nat {
    (it[20] as int + 256 * it[21] as int) * 0x10000 + it[26] as int + 256 * it[27] as int
  }

  function FileSize(it: Item): nat {
    it[28] as int + 0x100 * it[29] as int + 0x10000 * it[30] as int + 0x1000000 * it[31] as int
  }

  /** `fat16_set_first_cluster`, for cluster numbers that fit the low half. */
  function SetFirstCluster(it: Item, cluster: Word): Item {
    it[20 := 0][21 := 0][26 := cluster % 256][27 := cluster / 256]
  }

  function SetFileSize(it: Item, size: nat): Item
    requires size < 0x100000000
  {
    it[28 := size % 0x100][29 := size / 0x100 % 0x100][30 := size / 0x10000 % 0x100][31 := size / 0x1000000]
  }

  /** Modification date and time, and the date of the last access. */
  function StampModified(it: Item, date: Word, time: Word): Item {
    it[18 := date % 256][19 := date / 256][22 := time % 256][23 := time / 256][24 := date % 256][25 := date / 256]
  }

  /** `fat16_stamp_item`: creation and modification. */
  function Stamp(it: Item, date: Word, time: Word): Item {
    StampModified(it, date, time)[14 := time % 256][15 := time / 256][16 := date % 256][17 := date / 256]
  }

  /** The entry after a write: made when it was, read and written to now. */
  ghost predicate Modified(was: Item, now: Item, date: Word, time: Word) {
    && now[..18] == was[..18]
    && Pair(now, 18) == date && Pair(now, 22) == time && Pair(now, 24) == date
  }

  /** The entry of an item that was made now. */
  ghost predicate MadeNow(it: Item, date: Word, time: Word) {
    Modified(it, it, date, time) && Pair(it, 14) == time && Pair(it, 16) == date
  }

  lemma SetFirstClusterGet(it: Item, cluster: Word)
    ensures FirstCluster(SetFirstCluster(it, cluster)) == cluster
    ensures FileSize(SetFirstCluster(it, cluster)) == FileSize(it)
    ensures SetFirstCluster(it, cluster)[..13] == it[..13] && SetFirstCluster(it, cluster)[..18] == it[..18]
  {}

  lemma SetFileSizeGet(it: Item, size: nat)
    requires size < 0x100000000
    ensures FileSize(SetFileSize(it, size)) == size
    ensures FirstCluster(SetFileSize(it, size)) == FirstCluster(it)
    ensures SetFileSize(it, size)[..13] == it[..13] && SetFileSize(it, size)[..18] == it[..18]
  {
    FourBytes(size);
  }

  lemma FourBytes(n: nat)
    ensures n == n % 0x100 + 0x100 * (n / 0x100 % 0x100) + 0x10000 * (n / 0x10000 % 0x100) + 0x1000000 * (n / 0x1000000)
  {
    assert n / 0x10000 == n / 0x100 / 0x100 && n / 0x1000000 == n / 0x10000 / 0x100;
  }

  lemma StampGet(it: Item, date: Word, time: Word)
    ensures FileSize(StampModified(it, date, time)) == FileSize(it)
    ensures FirstCluster(StampModified(it, date, time)) == FirstCluster(it)
    ensures StampModified(it, date, time)[..13] == it[..13] && Modified(it, StampModified(it, date, time), date, time)
  {}
}
