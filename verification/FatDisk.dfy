// The disk and the byte stream over its sectors (disk_stream.c).
module FatDisk {
  import opened Bytes

  type Sector = s: seq<byte> | |s| == 512 witness seq(512, _ => 0)

  /** All bytes of the sectors, one after the other. */
  ghost function FlatOf(sectors: seq<Sector>): (f: seq<byte>)
    ensures |f| == 512 * |sectors|
  {
    seq(512 * |sectors|, p requires 0 <= p < 512 * |sectors| => sectors[p / 512][p % 512])
  }

  lemma FlatSector(sectors: seq<Sector>, idx: nat)
    requires idx < |sectors|
    ensures FlatOf(sectors)[512 * idx..512 * idx + 512] == sectors[idx]
  {
    var f := FlatOf(sectors);
    forall j | 0 <= j < 512 ensures f[512 * idx + j] == sectors[idx][j] {
      assert (512 * idx + j) / 512 == idx && (512 * idx + j) % 512 == j;
    }
  }

  lemma FlatUpdate(sectors: seq<Sector>, idx: nat, s: Sector)
    requires idx < |sectors|
    ensures FlatOf(sectors[idx := s]) == Splice(FlatOf(sectors), 512 * idx, s)
  {
    var f, g := FlatOf(sectors[idx := s]), Splice(FlatOf(sectors), 512 * idx, s);
    forall p | 0 <= p < |f| ensures f[p] == g[p] {
      if p / 512 == idx { assert p == 512 * idx + p % 512; }
    }
  }

  lemma FlatSlice(sectors: seq<Sector>, idx: nat, offset: nat, total: nat)
    requires idx < |sectors| && offset + total <= 512
    ensures FlatOf(sectors)[512 * idx + offset..512 * idx + offset + total] == sectors[idx][offset..offset + total]
  {
    FlatSector(sectors, idx);
    var f := FlatOf(sectors);
    assert f[512 * idx + offset..512 * idx + offset + total] == f[512 * idx..512 * idx + 512][offset..offset + total];
  }

  lemma FlatPart(sectors: seq<Sector>, idx: nat, offset: nat, part: seq<byte>, s: Sector)
    requires idx < |sectors| && offset + |part| <= 512 && s == Splice(sectors[idx], offset, part)
    ensures Splice(FlatOf(sectors), 512 * idx, s) == Splice(FlatOf(sectors), 512 * idx + offset, part)
  {
    FlatSector(sectors, idx);
    SpliceWider(FlatOf(sectors), 512 * idx, s, 512 * idx + offset, part);
  }

  /** The disk below the file system: sectors that are read and written whole. */
  class Disk {
    var sectors: seq<Sector>

    constructor (sectors: seq<Sector>)
      ensures this.sectors == sectors
    {
      this.sectors := sectors;
    }

    ghost function Flat(): (f: seq<byte>)
      reads this
      ensures |f| == 512 * |sectors|
    {
      FlatOf(sectors)
    }

    method ReadBlock(idx: nat) returns (s: Sector)
      requires idx < |sectors|
      ensures s == sectors[idx]
    {
      s := sectors[idx];
    }

    method WriteBlock(idx: nat, s: Sector)
      requires idx < |sectors|
      modifies this
      ensures |sectors| == old(|sectors|)
      ensures Flat() == Splice(old(Flat()), 512 * idx, s)
    {
      FlatUpdate(sectors, idx, s);
      sectors := sectors[idx := s];
    }
  }

  class DiskStream {
    const disk: Disk
    var pos: nat

    constructor (disk: Disk)
      ensures this.disk == disk && pos == 0
    {
      this.disk := disk;
      pos := 0;
    }

    method Seek(pos: nat)
      modifies this
      ensures this.pos == pos
    {
      this.pos := pos;
    }

    /** The next `len` bytes of the disk. */
    method Read(len: nat) returns (out: seq<byte>)
      requires pos + len <= 512 * |disk.sectors|
      modifies this
      ensures out == disk.Flat()[old(pos)..old(pos) + len] && pos == old(pos) + len
    {
      hide FlatOf;
      out := [];
      var left := len;
      while left > 0
        invariant 0 <= left <= len && pos == old(pos) + len - left
        invariant out == disk.Flat()[old(pos)..pos]
      {
        var idx, offset := pos / 512, pos % 512;
        var buffer := disk.ReadBlock(idx);
        var total := if 512 - offset > left then left else 512 - offset;
        FlatSlice(disk.sectors, idx, offset, total);
        out := out + buffer[offset..offset + total];
        pos := pos + total;
        left := left - total;
      }
    }

    /** Writes `data` over the next bytes of the disk; a sector written in part keeps its other bytes. */
    method Write(data: seq<byte>)
      requires pos + |data| <= 512 * |disk.sectors|
      modifies this, disk
      ensures |disk.sectors| == old(|disk.sectors|) && pos == old(pos) + |data|
      ensures disk.Flat() == Splice(old(disk.Flat()), old(pos), data)
    {
      hide FlatOf, Splice;
      SpliceNothing(disk.Flat(), pos);
      var done := 0;
      while done < |data|
        invariant 0 <= done <= |data| && pos == old(pos) + done
        invariant |disk.sectors| == old(|disk.sectors|)
        invariant disk.Flat() == Splice(old(disk.Flat()), old(pos), data[..done])
        decreases |data| - done
      {
        var idx, offset := pos / 512, pos % 512;
        var total := if 512 - offset > |data| - done then |data| - done else 512 - offset;
        var buffer: Sector := seq(512, _ => 0);
        if total != 512 {
          buffer := disk.ReadBlock(idx);
        }
        ghost var part := data[done..done + total];
        SpliceIs(buffer, offset, part);
        if total == 512 {
          SpliceAll(buffer, part);
          SpliceAll(disk.sectors[idx], part);
        }
        buffer := buffer[..offset] + data[done..done + total] + buffer[offset + total..];
        FlatPart(disk.sectors, idx, offset, part, buffer);
        disk.WriteBlock(idx, buffer);
        SpliceTwice(old(disk.Flat()), old(pos), data[..done], part);
        assert data[..done + total] == data[..done] + part;
        pos := pos + total;
        done := done + total;
      }
      assert data[..done] == data;
    }
  }
}
