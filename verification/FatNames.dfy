// Names of directory entries: 8.3 names with case bits, and long names in runs of VFAT entries in
// front of an 8.3 alias (FAT specification, "FAT Long Directory Entries").
module FatNames {
  import opened Options
  import opened Bytes
  import opened FatLayout
  import opened FatItems

  /** A C string: its bytes before the terminator. */
  type Name = s: seq<byte> | forall i :: 0 <= i < |s| ==> s[i] != 0 witness []

  // ---- characters ----

  predicate IsDigit(c: byte) { '0' as int <= c <= '9' as int }

  predicate IsUpper(c: byte) { 'A' as int <= c <= 'Z' as int }

  predicate IsLower(c: byte) { 'a' as int <= c <= 'z' as int }

  function ToUpper(c: byte): byte { if IsLower(c) then c - 32 else c }

  function ToLower(c: byte): byte { if IsUpper(c) then c + 32 else c }

  /** The characters that are kept in an 8.3 name. */
  predicate IsShortChar(c: byte) {
    IsDigit(c) || IsUpper(c) || IsLower(c)
    || (c < 0x80 && (c as char) in "!#$%&'()-@^_`{}~")
  }

  const SPACE: byte := 0x20
  const DOT: byte := 0x2E

  function Upper(s: seq<byte>): (r: seq<byte>)
    ensures |r| == |s|
  {
    seq(|s|, i requires 0 <= i < |s| => ToUpper(s[i]))
  }

  function Lower(s: seq<byte>): (r: seq<byte>)
    ensures |r| == |s|
  {
    seq(|s|, i requires 0 <= i < |s| => ToLower(s[i]))
  }

  /** `istrncmp`, which finds no difference within its bound: equal up to case. */
  predicate SameName(a: seq<byte>, b: seq<byte>) { Lower(a) == Lower(b) }

  predicate HasLower(s: seq<byte>) { exists i :: 0 <= i < |s| && IsLower(s[i]) }

  predicate HasUpper(s: seq<byte>) { exists i :: 0 <= i < |s| && IsUpper(s[i]) }

  // ---- 8.3 names ----

  /** Index of the last dot, or the length. */
  function LastDot(name: seq<byte>): (d: nat)
    ensures d <= |name| && (d < |name| ==> name[d] == DOT)
    ensures forall i :: d < i < |name| ==> name[i] != DOT
    ensures d == |name| ==> DOT !in name
  {
    if name == [] then 0
    else if name[|name| - 1] == DOT then |name| - 1
    else
      var d := LastDot(name[..|name| - 1]);
      if d == |name| - 1 then |name| else d
  }

  function Base(name: seq<byte>): seq<byte> { name[..LastDot(name)] }

  function Ext(name: seq<byte>): seq<byte> {
    if LastDot(name) == |name| then [] else name[LastDot(name) + 1..]
  }

  function Pad(s: seq<byte>, n: nat): (r: seq<byte>)
    requires |s| <= n
    ensures |r| == n
  {
    s + seq(n - |s|, _ => SPACE)
  }

  /** The padded name, and the bits of the reserved byte. */
  datatype Short = Short(name: seq<byte>, caseBits: byte)

  const LOWER_BASE := 0x08
  const LOWER_EXT := 0x10

  ghost predicate ShortChars(s: seq<byte>) { forall i :: 0 <= i < |s| ==> IsShortChar(s[i]) }

  /** Whether a name fits 8.3: short enough, only with characters that are kept, and neither part
      in mixed case. */
  ghost predicate FitsShort(name: seq<byte>) {
    && 1 <= |Base(name)| <= 8 && |Ext(name)| <= 3
    && (LastDot(name) < |name| ==> |Ext(name)| > 0)
    && ShortChars(Base(name)) && ShortChars(Ext(name))
    && !(HasLower(Base(name)) && HasUpper(Base(name)))
    && !(HasLower(Ext(name)) && HasUpper(Ext(name)))
  }

  /** The 8.3 form of a name that fits: "notes.txt" as "NOTES   TXT". */
  ghost function MakeShortName(name: Name): (r: Option<Short>)
    ensures r.Some? ==> |r.value.name| == 11
  {
    if FitsShort(name) then
      Some(Short(Pad(Upper(Base(name)), 8) + Pad(Upper(Ext(name)), 3),
                 (if HasLower(Base(name)) then LOWER_BASE else 0) + (if HasLower(Ext(name)) then LOWER_EXT else 0)))
    else None
  }

  /** `fat16_make_short_name`. */
  method ShortNameOf(name: Name) returns (r: Option<Short>)
    ensures r == MakeShortName(name)
  {
    hide LastDot, IsShortChar;
    var dot := FindLastDot(name);
    var baseLen := dot;
    var extLen := if dot < |name| then |name| - dot - 1 else 0;
    if baseLen == 0 || baseLen > 8 || extLen > 3 || (dot < |name| && extLen == 0) {
      return None;
    }
    var out := ShortBytes(name, dot);
    if out.None? {
      return None;
    }
    var lower, upper := CasesOf(name, 0, baseLen);
    var lowerExt, upperExt := CasesOf(name, |name| - extLen, |name|);
    assert name[..dot] == name[0..dot];
    assert Ext(name) == name[|name| - extLen..|name|];
    if (lower && upper) || (lowerExt && upperExt) {
      return None;
    }
    r := Some(Short(out.value, (if lower then LOWER_BASE else 0) + (if lowerExt then LOWER_EXT else 0)));
  }

  method FindLastDot(name: seq<byte>) returns (dot: nat)
    ensures dot == LastDot(name)
  {
    dot := |name|;
    for i := 0 to |name|
      invariant dot == (if LastDot(name[..i]) == i then |name| else LastDot(name[..i]))
    {
      assert name[..i + 1][..i] == name[..i];
      if name[i] == DOT {
        dot := i;
      }
    }
    assert name[..|name|] == name;
  }

  /** Byte `k` of the padded name when the first `i` characters are in it. */
  ghost function ShortByte(name: seq<byte>, dot: nat, i: nat, k: nat): byte
    requires dot <= |name| && i <= |name|
  {
    if k < 8 then if k < dot && k < i then ToUpper(name[k]) else SPACE
    else if dot + 1 + (k - 8) < i then ToUpper(name[dot + 1 + (k - 8)]) else SPACE
  }

  /** The characters, base and extension each at their place, or `None` for one that is not kept. */
  method ShortBytes(name: seq<byte>, dot: nat) returns (r: Option<seq<byte>>)
    requires dot == LastDot(name) <= 8 && |name| <= dot + 4
    ensures r.Some? <==> ShortChars(Base(name)) && ShortChars(Ext(name))
    ensures r.Some? ==> r.value == Pad(Upper(Base(name)), 8) + Pad(Upper(Ext(name)), 3)
  {
    hide IsShortChar, LastDot;
    var out: seq<byte> := seq(11, _ => SPACE);
    for i := 0 to |name|
      invariant forall j :: 0 <= j < i && j != dot ==> IsShortChar(name[j])
      invariant |out| == 11 && forall k :: 0 <= k < 11 ==> out[k] == ShortByte(name, dot, i, k)
    {
      if i == dot {
        continue;
      }
      if !IsShortChar(name[i]) {
        if i < dot { assert Base(name)[i] == name[i]; } else { assert Ext(name)[i - dot - 1] == name[i]; }
        return None;
      }
      var pos := if i > dot then 8 + (i - dot - 1) else i;
      out := out[pos := ToUpper(name[i])];
    }
    r := Some(out);
  }

  /** Whether `name[from..to]` has lower and upper case letters. */
  method CasesOf(name: seq<byte>, from: nat, to: nat) returns (lower: bool, upper: bool)
    requires from <= to <= |name|
    ensures lower == HasLower(name[from..to]) && upper == HasUpper(name[from..to])
  {
    lower, upper := false, false;
    for i := from to to
      invariant lower == HasLower(name[from..i]) && upper == HasUpper(name[from..i])
    {
      assert name[from..i + 1] == name[from..i] + [name[i]];
      assert name[from..i + 1][i - from] == name[i];
      assert forall k :: 0 <= k < i - from ==> name[from..i + 1][k] == name[from..i][k];
      if IsLower(name[i]) {
        lower := true;
      } else if IsUpper(name[i]) {
        upper := true;
      }
    }
  }

  /** `fat16_to_proper_string`: up to the padding. */
  function Trim(s: seq<byte>): (r: seq<byte>)
    ensures |r| <= |s| && r == s[..|r|]
    ensures forall i :: 0 <= i < |r| ==> s[i] != 0 && s[i] != SPACE
    ensures |r| < |s| ==> s[|r|] == 0 || s[|r|] == SPACE
  {
    if s == [] || s[0] == 0 || s[0] == SPACE then [] else [s[0]] + Trim(s[1..])
  }

  /** `fat16_get_full_relative_filename`. */
  function FullShortName(it: Item): seq<byte> {
    Trim(it[..8]) + if it[8] == 0 || it[8] == SPACE then [] else [DOT] + Trim(it[8..11])
  }

  /** Case bits applied: the base bit up to a dot, the extension bit after it. */
  function ApplyCase(s: seq<byte>, lower: bool, ext: bool): (r: seq<byte>)
    ensures |r| == |s|
  {
    if s == [] then []
    else if s[0] == DOT then [DOT] + ApplyCase(s[1..], ext, ext)
    else [if lower then ToLower(s[0]) else s[0]] + ApplyCase(s[1..], lower, ext)
  }

  /** `fat16_get_short_name`. */
  function ShortDisplay(it: Item): seq<byte> {
    ApplyCase(FullShortName(it), HasBit(it[12], LOWER_BASE), HasBit(it[12], LOWER_EXT))
  }

  function SetName(it: Item, name: seq<byte>, reserved: byte): (r: Item)
    requires |name| == 11
  {
    name + [it[11], reserved] + it[13..]
  }

  lemma {:induction false} TrimPad(s: seq<byte>, n: nat)
    requires |s| <= n && forall i :: 0 <= i < |s| ==> s[i] != 0 && s[i] != SPACE
    ensures Trim(Pad(s, n)) == s
  {
    if s != [] {
      assert s[0] == Pad(s, n)[0] && Pad(s, n)[1..] == Pad(s[1..], n - 1);
      TrimPad(s[1..], n - 1);
    }
  }

  lemma UpperGood(s: seq<byte>)
    requires ShortChars(s)
    ensures forall i :: 0 <= i < |s| ==>
              Upper(s)[i] != 0 && Upper(s)[i] != SPACE && Upper(s)[i] != DOT && Upper(s)[i] != 0xE5
  {
    forall i | 0 <= i < |s|
      ensures Upper(s)[i] != 0 && Upper(s)[i] != SPACE && Upper(s)[i] != DOT && Upper(s)[i] != 0xE5
    {
      assert IsShortChar(s[i]);
    }
  }

  /** One part of an 8.3 name comes back in its case. */
  lemma {:induction false} CaseBack(s: seq<byte>, ext: bool)
    requires !(HasLower(s) && HasUpper(s)) && DOT !in s
    ensures ApplyCase(Upper(s), HasLower(s), ext) == s
  {
    NoDotUpper(s);
    CasePlain(Upper(s), HasLower(s), ext);
    var r := ApplyCase(Upper(s), HasLower(s), ext);
    forall i | 0 <= i < |s| ensures r[i] == s[i] {
      if !HasLower(s) { assert !IsLower(s[i]); } else { assert !IsUpper(s[i]); }
    }
  }

  lemma NoDotUpper(s: seq<byte>)
    requires DOT !in s
    ensures DOT !in Upper(s)
  {
    forall i | 0 <= i < |s| ensures Upper(s)[i] != DOT { assert s[i] in s; }
  }

  lemma {:induction false} CasePlain(s: seq<byte>, lower: bool, ext: bool)
    requires DOT !in s
    ensures forall i :: 0 <= i < |s| ==> ApplyCase(s, lower, ext)[i] == if lower then ToLower(s[i]) else s[i]
    decreases |s|
  {
    if s != [] { CasePlain(s[1..], lower, ext); }
  }

  lemma {:induction false} CaseJoin(a: seq<byte>, b: seq<byte>, lower: bool, ext: bool)
    requires DOT !in a
    ensures ApplyCase(a + [DOT] + b, lower, ext) == ApplyCase(a, lower, ext) + [DOT] + ApplyCase(b, ext, ext)
    decreases |a|
  {
    var s := a + [DOT] + b;
    if a == [] {
      assert s[0] == DOT && s[1..] == b;
    } else {
      assert a[0] != DOT && s[0] == a[0] && s[1..] == a[1..] + [DOT] + b;
      CaseJoin(a[1..], b, lower, ext);
    }
  }

  /** A name that fits 8.3 is read back just as it was, case included. */
  lemma ShortRoundTrip(name: Name, it: Item)
    requires MakeShortName(name).Some?
    ensures var short := MakeShortName(name).value;
            ShortDisplay(SetName(it, short.name, short.caseBits)) == name
    ensures var short := MakeShortName(name).value;
            FullShortName(SetName(it, short.name, short.caseBits)) == Upper(name)
  {
    var short := MakeShortName(name).value;
    var r := SetName(it, short.name, short.caseBits);
    ShortParts(name, it);
    NoDots(name);
    CaseBits(HasLower(Base(name)), HasLower(Ext(name)));
    assert r[12] == short.caseBits;
    ShortCase(name);
  }

  lemma CaseBits(lower: bool, ext: bool)
    ensures var b := (if lower then LOWER_BASE else 0) + (if ext then LOWER_EXT else 0);
            HasBit(b, LOWER_BASE) == lower && HasBit(b, LOWER_EXT) == ext
  {}

  lemma ShortParts(name: Name, it: Item)
    requires MakeShortName(name).Some?
    ensures var short := MakeShortName(name).value;
            FullShortName(SetName(it, short.name, short.caseBits)) == Upper(name)
  {
    hide Trim, ShortChars, HasLower, HasUpper, ToUpper, SetName, LastDot, Pad, Upper;
    var short := MakeShortName(name).value;
    var base, ext := Base(name), Ext(name);
    UpperGood(base);
    UpperGood(ext);
    TrimPad(Upper(base), 8);
    TrimPad(Upper(ext), 3);
    SplitName(name);
    FirstOfPad(Upper(ext), 3);
    SetNameParts(it, Pad(Upper(base), 8), Pad(Upper(ext), 3), short.caseBits);
  }

  lemma FirstOfPad(s: seq<byte>, n: nat)
    requires |s| <= n && n > 0
    ensures Pad(s, n)[0] == if s == [] then SPACE else s[0]
  {}

  /** A name is its base, and a dot and its extension if it has one. */
  lemma SplitName(name: seq<byte>)
    ensures LastDot(name) == |name| ==> name == Base(name) && Ext(name) == []
    ensures LastDot(name) < |name| ==> name == Base(name) + [DOT] + Ext(name)
    ensures LastDot(name) < |name| ==> Upper(name) == Upper(Base(name)) + [DOT] + Upper(Ext(name))
    ensures LastDot(name) == |name| ==> Upper(name) == Upper(Base(name))
  {
    hide Upper;
    var d := LastDot(name);
    if d < |name| {
      SplitAt(name, d);
      UpperJoin(name[..d], name[d + 1..]);
    } else {
      assert name[..d] == name;
    }
  }

  lemma SplitAt(s: seq<byte>, d: nat)
    requires d < |s|
    ensures s == s[..d] + [s[d]] + s[d + 1..]
  {}

  lemma UpperJoin(a: seq<byte>, b: seq<byte>)
    ensures Upper(a + [DOT] + b) == Upper(a) + [DOT] + Upper(b)
  {}

  lemma SetNameParts(it: Item, a: seq<byte>, b: seq<byte>, reserved: byte)
    requires |a| == 8 && |b| == 3
    ensures var r := SetName(it, a + b, reserved);
            && r[..8] == a && r[8..11] == b && r[8] == b[0] && r[0] == a[0]
            && r[..11] == a + b && r[11] == it[11] && r[12] == reserved && r[13..] == it[13..]
  {}

  lemma ShortCase(name: Name)
    requires FitsShort(name)
    ensures ApplyCase(Upper(name), HasLower(Base(name)), HasLower(Ext(name))) == name
  {
    var base, ext := Base(name), Ext(name);
    NoDots(name);
    CaseBack(base, HasLower(ext));
    CaseBack(ext, HasLower(ext));
    NoDotUpper(base);
    SplitName(name);
    hide ApplyCase, ShortChars, HasLower, HasUpper, ToUpper, Upper, LastDot;
    if LastDot(name) < |name| {
      CaseJoin(Upper(base), Upper(ext), HasLower(base), HasLower(ext));
    }
  }

  lemma NoDots(name: seq<byte>)
    requires FitsShort(name)
    ensures DOT !in Base(name) && DOT !in Ext(name)
  {
    assert !IsShortChar(DOT);
  }
}
