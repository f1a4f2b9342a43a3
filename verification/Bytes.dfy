// Bytes, and writing over part of a sequence.
module Bytes {
  type byte = x: int | 0 <= x < 256

  /** The number in the two bytes from `p` on, the low one first. */
  function Pair(s: seq<byte>, p: nat): nat
    requires p + 2 <= |s|
  {
    s[p] as int + 0x100 * s[p + 1] as int
  }

  /** The number in four bytes. */
  function Quad(s: seq<byte>, p: nat): nat
    requires p + 4 <= |s|
  {
    Pair(s, p) + 0x10000 * Pair(s, p + 2)
  }

  lemma SliceOfSlice<T>(s: seq<T>, a: nat, len: nat, at: nat, n: nat)
    requires a + len <= |s| && at + n <= len
    ensures s[a..a + len][at..at + n] == s[a + at..a + at + n]
  {
    var r := s[a + at..a + at + n];
    assert |s[a..a + len][at..at + n]| == |r| && forall k :: 0 <= k < n ==> s[a..a + len][at..at + n][k] == r[k];
  }

  /** `data` written over `flat` from `pos` on. */
  ghost function Splice<T>(flat: seq<T>, pos: nat, data: seq<T>): (r: seq<T>)
    requires pos + |data| <= |flat|
    ensures |r| == |flat|
  {
    flat[..pos] + data + flat[pos + |data|..]
  }

  lemma SpliceOutside<T>(flat: seq<T>, pos: nat, data: seq<T>, a: nat, b: nat)
    requires pos + |data| <= |flat| && a <= b <= |flat| && (b <= pos || pos + |data| <= a)
    ensures Splice(flat, pos, data)[a..b] == flat[a..b]
  {}

  lemma SpliceInside<T>(flat: seq<T>, pos: nat, data: seq<T>, a: nat, b: nat)
    requires a <= pos && pos + |data| <= b <= |flat|
    ensures Splice(flat, pos, data)[a..b] == Splice(flat[a..b], pos - a, data)
  {}

  lemma SpliceTwice<T>(flat: seq<T>, pos: nat, first: seq<T>, second: seq<T>)
    requires pos + |first| + |second| <= |flat|
    ensures Splice(Splice(flat, pos, first), pos + |first|, second) == Splice(flat, pos, first + second)
  {}

  /** Writing a longer stretch whose ends are what was there is writing its middle. */
  lemma SpliceWider<T>(flat: seq<T>, a: nat, wide: seq<T>, pos: nat, data: seq<T>)
    requires a <= pos && pos + |data| <= a + |wide| <= |flat|
    requires wide == Splice(flat[a..a + |wide|], pos - a, data)
    ensures Splice(flat, a, wide) == Splice(flat, pos, data)
  {}

  lemma SpliceIs<T>(flat: seq<T>, pos: nat, data: seq<T>)
    requires pos + |data| <= |flat|
    ensures flat[..pos] + data + flat[pos + |data|..] == Splice(flat, pos, data)
  {}

  lemma SpliceAll<T>(flat: seq<T>, data: seq<T>)
    requires |data| == |flat|
    ensures Splice(flat, 0, data) == data
  {}

  lemma SpliceNothing<T>(flat: seq<T>, pos: nat)
    requires pos <= |flat|
    ensures Splice(flat, pos, []) == flat
  {}
}
