// A directory as another driver writes it, byte by byte: a long name in two parts, and its alias.
module FatSample {
  import opened Bytes
  import opened FatLayout
  import opened FatItems
  import opened FatNames
  import opened FatLongNames
  import opened FatNaming
  import opened FatNameBytes

  /** "long notes about moos.txt" */
  function Moos(): Name {
    [108, 111, 110, 103, 32, 110, 111, 116, 101, 115, 32, 97, 98, 111, 117, 116, 32, 109, 111, 111,
     115, 46, 116, 120, 116]
  }

  function Loud(name: seq<byte>): seq<byte> { seq(|name|, i requires 0 <= i < |name| => Raised(name[i])) }

  /** Characters of two bytes. */
  function Wide(s: seq<byte>): (r: seq<byte>)
    ensures |r| == 2 * |s|
  {
    seq(2 * |s|, k requires 0 <= k < 2 * |s| => if k % 2 == 0 then s[k / 2] else 0)
  }

  /** The two entries of a long name of 25 characters, the end of the name first. */
  function SecondPart(name: Name): (it: Item)
    requires |name| == 25
  {
    [0x42] + Wide(name[13..18]) + [0x0F, 0x00, 0x65] + Wide(name[18..24]) + [0x00, 0x00] + Wide(name[24..] + [0])
  }

  function FirstPart(name: Name): (it: Item)
    requires |name| == 25
  {
    [0x01] + Wide(name[..5]) + [0x0F, 0x00, 0x65] + Wide(name[5..11]) + [0x00, 0x00] + Wide(name[11..13])
  }

  /** The alias "LONGNO~1TXT" of an empty file. */
  function MoosEntry(): (it: Item) { [76, 79, 78, 71, 78, 79, 126, 49, 84, 88, 84] + [0x20] + seq(20, _ => 0) }

  lemma WideAt(s: seq<byte>, i: nat)
    requires i < |s|
    ensures Wide(s)[2 * i] == s[i] && Wide(s)[2 * i + 1] == 0
  {}

  lemma FirstIs(name: Name, i: nat)
    requires |name| == 25 && i < 13
    ensures HasCharacter(FirstPart(name), name, 1, i)
  {
    hide Wide;
    var it, k := FirstPart(name), CharAt(i);
    if i < 5 {
      WideAt(name[..5], i);
      assert it[k] == Wide(name[..5])[2 * i] && it[k + 1] == Wide(name[..5])[2 * i + 1];
    } else if i < 11 {
      WideAt(name[5..11], i - 5);
      assert it[k] == Wide(name[5..11])[2 * (i - 5)] && it[k + 1] == Wide(name[5..11])[2 * (i - 5) + 1];
    } else {
      WideAt(name[11..13], i - 11);
      assert it[k] == Wide(name[11..13])[2 * (i - 11)] && it[k + 1] == Wide(name[11..13])[2 * (i - 11) + 1];
    }
  }

  lemma SecondIs(name: Name, i: nat)
    requires |name| == 25 && i < 13
    ensures HasCharacter(SecondPart(name), name, 2, i)
  {
    hide Wide;
    var it, k := SecondPart(name), CharAt(i);
    if i < 5 {
      WideAt(name[13..18], i);
      assert it[k] == Wide(name[13..18])[2 * i] && it[k + 1] == Wide(name[13..18])[2 * i + 1];
    } else if i < 11 {
      WideAt(name[18..24], i - 5);
      assert it[k] == Wide(name[18..24])[2 * (i - 5)] && it[k + 1] == Wide(name[18..24])[2 * (i - 5) + 1];
    } else {
      WideAt(name[24..] + [0], i - 11);
      assert it[k] == Wide(name[24..] + [0])[2 * (i - 11)] && it[k + 1] == Wide(name[24..] + [0])[2 * (i - 11) + 1];
    }
  }

  lemma Link(a: byte, b: byte, n: byte, r: byte)
    requires b as int - n as int == r || b as int - n as int == r - 256
    requires a == if r < 128 then 2 * r else 2 * r - 255
    ensures Linked(a, b, n)
  {
    assert (b as int - n as int) % 256 == r;
  }

  lemma MoosChain(c: seq<byte>, name: seq<byte>)
    requires c == [0, 76, 117, 8, 75, 243, 72, 162, 130, 149, 34, 101]
    requires name == [76, 79, 78, 71, 78, 79, 126, 49, 84, 88, 84]
    ensures ChecksumChain(c, name)
  {
    hide Linked;
    Link(c[0], c[1], name[0], 0);
    Link(c[1], c[2], name[1], 38);
    Link(c[2], c[3], name[2], 186);
    Link(c[3], c[4], name[3], 4);
    Link(c[4], c[5], name[4], 165);
    Link(c[5], c[6], name[5], 249);
    Link(c[6], c[7], name[6], 36);
    Link(c[7], c[8], name[7], 81);
    Link(c[8], c[9], name[8], 65);
    Link(c[9], c[10], name[9], 202);
    Link(c[10], c[11], name[10], 17);
  }

  lemma MoosEntryName()
    ensures MoosEntry()[..11] == [76, 79, 78, 71, 78, 79, 126, 49, 84, 88, 84]
  {}

  lemma MoosChecksum(c: seq<byte>, name: seq<byte>)
    requires c == [0, 76, 117, 8, 75, 243, 72, 162, 130, 149, 34, 101] && name == MoosEntry()[..11]
    ensures Checksum(name) == 0x65
  {
    hide ChecksumChain, Checksum, MoosEntry;
    MoosEntryName();
    MoosChain(c, name);
    var d := ChecksumHasChain(name);
    OneChain(d, c, name, 11);
  }

  lemma MoosValid()
    ensures |Moos()| == 25 && ValidLongName(Moos()) && PartCount(Moos()) == 2
  {}

  lemma LoudSame(name: seq<byte>)
    ensures SameName(name, Loud(name))
  {}

  lemma PartKinds(name: Name)
    requires |name| == 25
    ensures IsLongName(FirstPart(name)) && IsLongName(SecondPart(name)) && Named(MoosEntry())
  {}

  lemma FirstPartIs(name: Name)
    requires |name| == 25
    ensures FirstPart(name) == Part(name, 1, 2, 0x65)
  {
    hide HasCharacter, Part;
    forall i | 0 <= i < 13 ensures HasCharacter(FirstPart(name), name, 1, i) { FirstIs(name, i); }
    OnePart(FirstPart(name), name, 1, 2, 0x65);
  }

  lemma SecondPartIs(name: Name)
    requires |name| == 25
    ensures SecondPart(name) == Part(name, 2, 2, 0x65)
  {
    hide HasCharacter, Part;
    forall i | 0 <= i < 13 ensures HasCharacter(SecondPart(name), name, 2, i) { SecondIs(name, i); }
    OnePart(SecondPart(name), name, 2, 2, 0x65);
  }

  /** It is found under its long name, whatever the case. */
  lemma MoosFound(items: seq<Item>)
    requires |Moos()| == 25 && items == [SecondPart(Moos()), FirstPart(Moos()), MoosEntry()]
    ensures IsIndexOf(items, Loud(Moos()), 2)
  {
    hide Part, Moos, Loud, SecondPart, FirstPart, MoosEntry, Checksum, LfnScan, LongName, ValidLongName, SameName;
    hide PartCount, IsLongName, LfnCount;
    PartKinds(Moos());
    FirstPartIs(Moos());
    SecondPartIs(Moos());
    MoosValid();
    LoudSame(Moos());
    MoosChecksum([0, 76, 117, 8, 75, 243, 72, 162, 130, 149, 34, 101], items[2][..11]);
    CountNew(items, 2, Moos(), items[2][..11]);
    LongNew(items, 2, Moos(), 0x65, 0, PATH_MAX);
    assert Moos()[0..] == Moos() && ItemName(items, 2, PATH_MAX) == Moos();
  }
}
