// The tables of deflate (RFC 1951 sections 3.2.6 and 3.2.7), each entry at its place, and streams
// written out byte by byte.
module PngCodes {
  import opened Bytes
  import opened PngBits
  import opened PngHuffman
  import opened PngInflate

  // ---- the code length code ----

  /** Which of the three bit fields is that of symbol `s`: first the repeats, then 0, then the lengths from
      8 outwards. */
  function Place(s: nat): nat
    requires s < 19
  {
    if s >= 16 then s - 16 else if s == 0 then 3 else if s < 8 then 19 - 2 * s else 2 * s - 12
  }

  lemma OrderAt(k: nat, s: nat)
    requires k < 19 && s < 19
    ensures ORDER[k] == s <==> k == Place(s)
  {}

  /** The length of symbol `s` is the field at its place, 0 if the header has not so many fields. */
  lemma {:induction false} MetaLengthAt(data: seq<byte>, pos: nat, nlen: nat, s: nat)
    requires nlen <= 19 && pos + 3 * nlen <= BitLen(data) && s < 19
    ensures MetaLengths(data, pos, nlen)[s] == if Place(s) < nlen then LsbValue(data, pos + 3 * Place(s), 3) else 0
    decreases nlen
  {
    if nlen > 0 {
      MetaLengthAt(data, pos, nlen - 1, s);
      OrderAt(nlen - 1, s);
    }
  }

  // ---- the fixed code ----

  /** How many of the first `k` symbols have a code of `len` bits. */
  function FixedCount(k: nat, len: nat): nat {
    if len == 8 then (if k <= 144 then k else if k <= 280 then 144 else k - 136)
    else if len == 9 then (if k <= 144 then 0 else if k <= 256 then k - 144 else 112)
    else if len == 7 then (if k <= 256 then 0 else if k <= 280 then k - 256 else 24)
    else 0
  }

  lemma {:induction false} FixedCounted(k: nat, len: nat)
    requires k <= 288
    ensures Count(FixedLit()[..k], len) == FixedCount(k, len)
    decreases k
  {
    if k > 0 {
      FixedCounted(k - 1, len);
      CountStep(FixedLit(), k - 1, len);
    }
  }

  lemma FixedFirst()
    ensures FirstCode(FixedLit(), 7) == 0 && FirstCode(FixedLit(), 8) == 0x30 && FirstCode(FixedLit(), 9) == 0x190
  {
    var lit := FixedLit();
    assert lit[..288] == lit;
    forall len ensures Count(lit, len) == FixedCount(288, len) { FixedCounted(288, len); }
    hide Count;
    assert FirstCode(lit, 1) == 0 && FirstCode(lit, 2) == 0 && FirstCode(lit, 3) == 0 && FirstCode(lit, 4) == 0;
    assert FirstCode(lit, 5) == 0 && FirstCode(lit, 6) == 0;
  }

  /** The code words of the table in section 3.2.6: 00110000 to 10111111, 110010000 to 111111111, 0000000 to
      0010111 and 11000000 to 11000111. */
  lemma FixedCode(s: nat)
    requires s < 288
    ensures FixedLit()[s] == if s < 144 then 8 else if s < 256 then 9 else if s < 280 then 7 else 8
    ensures Code(FixedLit(), s) == if s < 144 then 0x30 + s else if s < 256 then 0x190 + s - 144
                                   else if s < 280 then s - 256 else 0xC0 + s - 280
  {
    FixedFirst();
    FixedCounted(s, FixedLit()[s]);
  }

  /** Distance symbols are five bits, the symbol itself. */
  lemma FixedDistance(s: nat)
    requires s < 30
    ensures FixedDist()[s] == 5 && Code(FixedDist(), s) == s
  {
    var d := FixedDist();
    forall k, len | 0 <= k <= 30 ensures Count(d[..k], len) == if len == 5 then k else 0 { AllFive(k, len); }
    assert d[..30] == d;
    hide Count;
    assert FirstCode(d, 1) == 0 && FirstCode(d, 2) == 0 && FirstCode(d, 3) == 0 && FirstCode(d, 4) == 0;
  }

  lemma {:induction false} AllFive(k: nat, len: nat)
    requires k <= 30
    ensures Count(FixedDist()[..k], len) == if len == 5 then k else 0
    decreases k
  {
    if k > 0 {
      AllFive(k - 1, len);
      CountStep(FixedDist(), k - 1, len);
    }
  }

  // ---- lengths and distances ----

  /** Eight codes for one length each, then four for 2, 4, 8, 16 and 32 lengths each, in a row; and the last code for
      258 alone. */
  lemma LengthTable(code: nat)
    requires code < 29
    ensures LengthExtra(code) == if code < 8 || code == 28 then 0 else code / 4 - 1
    ensures LengthBase(code)
            == if code < 8 then 3 + code else if code == 28 then 258 else 3 + (4 + code % 4) * Pow2(code / 4 - 1)
  {
    assert Pow2(1) == 2 && Pow2(2) == 4 && Pow2(3) == 8 && Pow2(4) == 16 && Pow2(5) == 32;
    assert code < 28 ==> code / 4 in [0, 1, 2, 3, 4, 5, 6];
  }

  /** Four codes for one distance each, then two for 2, 4, and so on up to 8192 distances each, in a row. */
  lemma DistanceTable(code: nat)
    requires code < 30
    ensures DistExtra(code) == if code < 4 then 0 else code / 2 - 1
    ensures DistBase(code) == if code < 4 then 1 + code else 1 + (2 + code % 2) * Pow2(code / 2 - 1)
  {
    assert Pow2(1) == 2 && Pow2(2) == 4 && Pow2(3) == 8 && Pow2(4) == 16 && Pow2(5) == 32 && Pow2(6) == 64;
    assert Pow2(7) == 128 && Pow2(8) == 256 && Pow2(9) == 512 && Pow2(10) == 1024 && Pow2(11) == 2048;
    assert Pow2(12) == 4096 && Pow2(13) == 8192;
  }
}
