// Canonical huffman codes: `huffman_build` and `huffman_decode`, against the
// code assignment of RFC 1951 section 3.2.2.
module PngHuffman {
  import opened Bytes
  import opened PngBits

  const MAX_LEN := 15

  // Code lengths of the symbols 0, 1, ...; 0 means the symbol is not used.
  ghost predicate ValidLengths(lengths: seq<nat>) {
    |lengths| <= 288 && forall s :: 0 <= s < |lengths| ==> lengths[s] <= MAX_LEN
  }

  /** bl_count: how many of the symbols have a code of `len` bits. */
  ghost function Count(lengths: seq<nat>, len: nat): (n: nat)
    ensures n <= |lengths|
  {
    if lengths == [] then 0
    else Count(lengths[..|lengths| - 1], len) + if lengths[|lengths| - 1] == len then 1 else 0
  }

  /** Symbols before `s` with a code as long as that of `s`. */
  ghost function Rank(lengths: seq<nat>, s: nat): nat
    requires s < |lengths|
  {
    Count(lengths[..s], lengths[s])
  }

  /** next_code: the smallest code of `len` bits. */
  ghost function FirstCode(lengths: seq<nat>, len: nat): nat {
    if len == 0 then 0
    else 2 * (FirstCode(lengths, len - 1) + if len == 1 then 0 else Count(lengths, len - 1))
  }

  /** First code no symbol of at most `len` bits uses, as a prefix of `len` bits. */
  ghost function Used(lengths: seq<nat>, len: nat): nat {
    FirstCode(lengths, len) + if len == 0 then 0 else Count(lengths, len)
  }

  /** The code of symbol `s`. */
  ghost function Code(lengths: seq<nat>, s: nat): nat
    requires s < |lengths|
  {
    FirstCode(lengths, lengths[s]) + Rank(lengths, s)
  }

  /** The code word of `s` is what the stream holds at `pos`. */
  ghost predicate CodeAt(data: seq<byte>, pos: nat, lengths: seq<nat>, s: nat) {
    && s < |lengths| && lengths[s] > 0
    && pos + lengths[s] <= BitLen(data)
    && MsbValue(data, pos, lengths[s]) == Code(lengths, s)
  }

  /** Symbols with codes of fewer than `len` bits: where those of `len` bits start. */
  ghost function Offset(lengths: seq<nat>, len: nat): nat {
    if len <= 1 then 0 else Offset(lengths, len - 1) + Count(lengths, len - 1)
  }

  /** Position of symbol `s` in code order: by length, then by symbol. */
  ghost function Slot(lengths: seq<nat>, s: nat): nat
    requires s < |lengths|
  {
    Offset(lengths, lengths[s]) + Rank(lengths, s)
  }

  // ---- counting ----

  lemma {:induction false} CountStep(lengths: seq<nat>, k: nat, len: nat)
    requires k < |lengths|
    ensures Count(lengths[..k + 1], len) == Count(lengths[..k], len) + if lengths[k] == len then 1 else 0
  {
    assert lengths[..k + 1][..k] == lengths[..k];
  }

  lemma NothingCounted(lengths: seq<nat>)
    ensures forall len :: Count(lengths[..0], len) == 0
  {}

  lemma {:induction false} CountMono(lengths: seq<nat>, j: nat, k: nat, len: nat)
    requires j <= k <= |lengths|
    ensures Count(lengths[..j], len) <= Count(lengths[..k], len)
    decreases k - j
  {
    if j < k {
      CountStep(lengths, j, len);
      CountMono(lengths, j + 1, k, len);
    }
  }

  lemma RankInRange(lengths: seq<nat>, s: nat)
    requires s < |lengths|
    ensures Rank(lengths, s) < Count(lengths, lengths[s])
  {
    CountStep(lengths, s, lengths[s]);
    CountMono(lengths, s + 1, |lengths|, lengths[s]);
    assert lengths[..|lengths|] == lengths;
  }

  lemma RankInjective(lengths: seq<nat>, s: nat, t: nat)
    requires s < t < |lengths| && lengths[s] == lengths[t]
    ensures Rank(lengths, s) < Rank(lengths, t)
  {
    CountStep(lengths, s, lengths[s]);
    CountMono(lengths, s + 1, t, lengths[s]);
  }

  /** Every rank below the count belongs to a symbol. */
  lemma {:induction false} SymbolOfRank(lengths: seq<nat>, len: nat, k: nat, rank: nat) returns (s: nat)
    requires k <= |lengths| && rank < Count(lengths[..k], len)
    ensures s < k && lengths[s] == len && Rank(lengths, s) == rank
  {
    assert k > 0;
    CountStep(lengths, k - 1, len);
    if lengths[k - 1] == len && rank == Count(lengths[..k - 1], len) {
      s := k - 1;
    } else {
      s := SymbolOfRank(lengths, len, k - 1, rank);
    }
  }

  lemma {:induction false} OffsetMono(lengths: seq<nat>, a: nat, b: nat)
    requires 1 <= a < b
    ensures Offset(lengths, a) + Count(lengths, a) <= Offset(lengths, b)
    decreases b
  {
    if a + 1 < b { OffsetMono(lengths, a, b - 1); }
  }

  /** The symbols fill the table without a gap: all lengths together count the used symbols. */
  lemma {:induction false} OffsetBound(lengths: seq<nat>, len: nat)
    ensures Offset(lengths, len) <= |lengths|
    decreases |lengths|
  {
    if lengths == [] {
      OffsetEmpty(len);
    } else {
      OffsetBound(lengths[..|lengths| - 1], len);
      OffsetDropLast(lengths, len);
    }
  }

  lemma {:induction false} OffsetEmpty(len: nat)
    ensures Offset([], len) == 0
  {
    if len > 1 { OffsetEmpty(len - 1); }
  }

  lemma {:induction false} OffsetDropLast(lengths: seq<nat>, len: nat)
    requires |lengths| > 0
    ensures var last := lengths[|lengths| - 1];
            Offset(lengths, len) == Offset(lengths[..|lengths| - 1], len) + if 0 < last < len then 1 else 0
  {
    if len > 1 { OffsetDropLast(lengths, len - 1); }
  }

  // ---- the code is a prefix code ----

  /** Longer codes start after every code that is `a` bits long. */
  lemma {:induction false} LongerCodesAreLarger(lengths: seq<nat>, a: nat, b: nat)
    requires 1 <= a < b
    ensures Used(lengths, a) * Pow2(b - a) <= FirstCode(lengths, b)
    decreases b
  {
    if a + 1 == b {
      assert Pow2(1) == 2;
    } else {
      LongerCodesAreLarger(lengths, a, b - 1);
      MulDouble(Used(lengths, a), Pow2(b - 1 - a));
    }
  }

  /** At most one code word matches the stream at a position. */
  lemma PrefixFree(data: seq<byte>, pos: nat, lengths: seq<nat>, s: nat, t: nat)
    requires CodeAt(data, pos, lengths, s) && CodeAt(data, pos, lengths, t)
    ensures s == t
  {
    if lengths[s] < lengths[t] {
      ShorterCodeDiffers(data, pos, lengths, s, t);
    } else if lengths[t] < lengths[s] {
      ShorterCodeDiffers(data, pos, lengths, t, s);
    } else if s < t {
      RankInjective(lengths, s, t);
    } else if t < s {
      RankInjective(lengths, t, s);
    }
  }

  lemma ShorterCodeDiffers(data: seq<byte>, pos: nat, lengths: seq<nat>, s: nat, t: nat)
    requires CodeAt(data, pos, lengths, s) && t < |lengths| && lengths[s] < lengths[t]
    ensures !CodeAt(data, pos, lengths, t)
  {
    if pos + lengths[t] > BitLen(data) { return; }
    var a, b := lengths[s], lengths[t];
    MsbPrefix(data, pos, a, b);
    LongerCodesAreLarger(lengths, a, b);
    RankInRange(lengths, s);
    MulMono(Code(lengths, s) + 1, Used(lengths, a), Pow2(b - a));
  }

  // ---- Kraft: when every used symbol has a code word of its length ----

  /** Share of the code space the symbols take, in units of 2^-15. */
  ghost function KraftSum(lengths: seq<nat>): nat
    requires ValidLengths(lengths)
  {
    if lengths == [] then 0
    else
      var last := lengths[|lengths| - 1];
      KraftSum(lengths[..|lengths| - 1]) + if last == 0 then 0 else Pow2(MAX_LEN - last)
  }

  lemma {:induction false} UsedDropLast(lengths: seq<nat>, len: nat)
    requires ValidLengths(lengths) && |lengths| > 0
    ensures var last := lengths[|lengths| - 1];
            Used(lengths, len) == Used(lengths[..|lengths| - 1], len) + if 0 < last <= len then Pow2(len - last) else 0
  {
    if len > 0 { UsedDropLast(lengths, len - 1); }
  }

  lemma {:induction false} UsedEmpty(len: nat)
    ensures Used([], len) == 0
  {
    if len > 0 { UsedEmpty(len - 1); }
  }

  lemma {:induction false} KraftIsUsed(lengths: seq<nat>)
    requires ValidLengths(lengths)
    ensures KraftSum(lengths) == Used(lengths, MAX_LEN)
    decreases |lengths|
  {
    if lengths == [] {
      UsedEmpty(MAX_LEN);
    } else {
      KraftIsUsed(lengths[..|lengths| - 1]);
      UsedDropLast(lengths, MAX_LEN);
    }
  }

  lemma CancelRight(a: nat, b: nat, p: nat)
    requires p > 0 && a * p <= b * p
    ensures a <= b
  {}

  lemma UsedWithin(lengths: seq<nat>, len: nat)
    requires ValidLengths(lengths) && 1 <= len <= MAX_LEN
    requires KraftSum(lengths) <= Pow2(MAX_LEN)
    ensures Used(lengths, len) <= Pow2(len)
  {
    hide Pow2;
    KraftIsUsed(lengths);
    if len < MAX_LEN {
      LongerCodesAreLarger(lengths, len, MAX_LEN);
      Pow2Add(len, MAX_LEN - len);
      CancelRight(Used(lengths, len), Pow2(len), Pow2(MAX_LEN - len));
    }
  }

  /** The code fits its lengths exactly when the Kraft sum is at most one:
      each used symbol then has a code word, and otherwise some length runs out. */
  lemma NotOversubscribedIff(lengths: seq<nat>)
    requires ValidLengths(lengths)
    ensures KraftSum(lengths) <= Pow2(MAX_LEN)
            <==> forall len :: 1 <= len <= MAX_LEN ==> Used(lengths, len) <= Pow2(len)
    ensures KraftSum(lengths) <= Pow2(MAX_LEN)
            ==> forall s :: 0 <= s < |lengths| && lengths[s] > 0 ==> Code(lengths, s) < Pow2(lengths[s])
  {
    KraftIsUsed(lengths);
    if KraftSum(lengths) <= Pow2(MAX_LEN) {
      forall len | 1 <= len <= MAX_LEN ensures Used(lengths, len) <= Pow2(len) {
        UsedWithin(lengths, len);
      }
      forall s | 0 <= s < |lengths| && lengths[s] > 0 ensures Code(lengths, s) < Pow2(lengths[s]) {
        UsedWithin(lengths, lengths[s]);
        RankInRange(lengths, s);
      }
    }
  }

  // ---- the decoder ----

  /** How many codes each length has, and the symbols in code order. */
  class Huffman {
    const counts: array<nat>
    const symbols: array<nat>

    constructor ()
      ensures counts.Length == 16 && symbols.Length == 288
      ensures fresh(counts) && fresh(symbols)
    {
      counts := new nat[16](_ => 0);
      symbols := new nat[288](_ => 0);
    }

    ghost predicate Shape() { counts.Length == 16 && symbols.Length == 288 }

    /** The tables describe the canonical code of `lengths`. */
    ghost predicate Describes(lengths: seq<nat>)
      reads counts, symbols
    {
      && Shape() && ValidLengths(lengths)
      && (forall len :: 1 <= len <= MAX_LEN ==> counts[len] == Count(lengths, len))
      && (forall s :: 0 <= s < |lengths| && lengths[s] > 0 ==> HasSlot(lengths, s))
    }

    ghost predicate HasSlot(lengths: seq<nat>, s: nat)
      requires s < |lengths| && Shape()
      reads symbols
    {
      Slot(lengths, s) < 288 && symbols[Slot(lengths, s)] == s
    }

    method Build(lengths: seq<nat>)
      requires Shape() && ValidLengths(lengths)
      requires counts != symbols
      modifies counts, symbols
      ensures Describes(lengths)
    {
      CountSymbols(lengths);
      var offsets := new nat[16](_ => 0);
      for i := 1 to 15
        invariant fresh(offsets)
        invariant forall len :: 1 <= len <= i ==> offsets[len] == Offset(lengths, len)
        invariant forall len :: 1 <= len <= MAX_LEN ==> counts[len] == Count(lengths, len)
      {
        offsets[i + 1] := offsets[i] + counts[i];
      }
      FillSymbols(lengths, offsets);
    }

    method CountSymbols(lengths: seq<nat>)
      requires Shape() && ValidLengths(lengths)
      requires counts != symbols
      modifies counts
      ensures counts[0] == 0
      ensures forall len :: 1 <= len <= MAX_LEN ==> counts[len] == Count(lengths, len)
    {
      for i := 0 to 16
        invariant forall len :: 0 <= len < i ==> counts[len] == 0
      {
        counts[i] := 0;
      }
      for i := 0 to |lengths|
        invariant forall len :: 0 <= len <= MAX_LEN ==> counts[len] == Count(lengths[..i], len)
      {
        forall len { CountStep(lengths, i, len); }
        counts[lengths[i]] := counts[lengths[i]] + 1;
      }
      assert lengths[..|lengths|] == lengths;
      counts[0] := 0;
    }

    method FillSymbols(lengths: seq<nat>, offsets: array<nat>)
      requires Shape() && ValidLengths(lengths)
      requires offsets.Length == 16 && offsets != symbols && offsets != counts && counts != symbols
      requires forall len :: 1 <= len <= MAX_LEN ==> offsets[len] == Offset(lengths, len)
      modifies symbols, offsets
      ensures forall s :: 0 <= s < |lengths| && lengths[s] > 0 ==> HasSlot(lengths, s)
    {
      hide Offset, Count;
      NothingCounted(lengths);
      for i := 0 to |lengths|
        invariant forall len :: 1 <= len <= MAX_LEN ==> offsets[len] == Offset(lengths, len) + Count(lengths[..i], len)
        invariant forall s :: 0 <= s < i && lengths[s] > 0 ==> HasSlot(lengths, s)
      {
        forall len { CountStep(lengths, i, len); }
        var len := lengths[i];
        if len > 0 {
          SlotInRange(lengths, i);
          ghost var slot := offsets[len];
          assert slot == Slot(lengths, i);
          forall s | 0 <= s < i && lengths[s] > 0 ensures Slot(lengths, s) != slot {
            SlotsDistinct(lengths, s, i);
          }
          symbols[offsets[len]] := i;
          offsets[len] := offsets[len] + 1;
        }
      }
    }

    /** The symbol whose code word comes next, or -1 if none does. */
    method Decode(input: Bits, ghost lengths: seq<nat>) returns (symbol: int)
      requires Describes(lengths)
      modifies input`pos
      ensures symbol == -1 || 0 <= symbol < |lengths|
      ensures symbol >= 0 ==>
                CodeAt(input.data, old(input.pos), lengths, symbol)
                && input.pos == old(input.pos) + lengths[symbol]
      ensures symbol < 0 ==> forall s :: 0 <= s < |lengths| ==> !CodeAt(input.data, old(input.pos), lengths, s)
    {
      hide FirstCode, Offset, Count, Rank, MsbValue, LsbValue, Code;
      ghost var start, data := input.pos, input.data;
      var value, first, index := 0, 0, 0;
      ScanStart(data, start, lengths);
      for len := 1 to 16
        invariant input.pos == start + len - 1
        invariant Scanned(data, start, lengths, len, value, first, index)
      {
        var bit := input.GetBits(1);
        if bit < 0 {
          return -1;
        }
        ScanBit(data, start, lengths, len, value, first, index);
        value := value + bit;
        var count := counts[len];
        if value - first < count {
          ghost var s := SymbolAt(lengths, len, value - first);
          MatchFound(data, start, lengths, s, value - first);
          symbol := symbols[index + value - first];
          return;
        }
        ScanNext(data, start, lengths, len, value, first, index, count);
        index := index + count;
        first := (first + count) * 2;
        value := value * 2;
      }
      return -1;
    }

    lemma SymbolAt(lengths: seq<nat>, len: nat, rank: nat) returns (s: nat)
      requires Describes(lengths) && 1 <= len <= MAX_LEN && rank < Count(lengths, len)
      ensures s < |lengths| && lengths[s] == len && Rank(lengths, s) == rank
      ensures Offset(lengths, len) + rank < 288 && symbols[Offset(lengths, len) + rank] == s
    {
      assert lengths[..|lengths|] == lengths;
      s := SymbolOfRank(lengths, len, |lengths|, rank);
      assert HasSlot(lengths, s);
    }
  }

  /** No symbol with a code shorter than `len` matches at `pos`. */
  ghost predicate NoMatchBelow(data: seq<byte>, pos: nat, lengths: seq<nat>, len: nat) {
    forall s :: 0 <= s < |lengths| && CodeAt(data, pos, lengths, s) ==> lengths[s] >= len
  }

  /** What the decoder knows before it reads bit `len`: its value so far, shifted for that
      bit, is not below the first code of `len` bits. */
  ghost predicate Scanned(data: seq<byte>, pos: nat, lengths: seq<nat>, len: nat,
                          value: int, first: int, index: int)
  {
    && 1 <= len
    && (len == 1 ==> value == 0)
    && (len > 1 ==> pos + len - 1 <= BitLen(data) && value == 2 * MsbValue(data, pos, len - 1))
    && first == FirstCode(lengths, len) && index == Offset(lengths, len)
    && first <= value
    && NoMatchBelow(data, pos, lengths, len)
  }

  lemma ScanBit(data: seq<byte>, pos: nat, lengths: seq<nat>, len: nat, value: int, first: int, index: int)
    requires Scanned(data, pos, lengths, len, value, first, index) && pos + len <= BitLen(data)
    ensures value + LsbValue(data, pos + len - 1, 1) == MsbValue(data, pos, len) >= first
  {
    assert LsbValue(data, pos + len - 1, 0) == 0 && Pow2(0) == 1;
  }

  lemma ScanStart(data: seq<byte>, pos: nat, lengths: seq<nat>)
    ensures Scanned(data, pos, lengths, 1, 0, 0, 0)
  {}

  lemma MatchFound(data: seq<byte>, pos: nat, lengths: seq<nat>, s: nat, rank: nat)
    requires s < |lengths| && lengths[s] > 0 && pos + lengths[s] <= BitLen(data)
    requires Rank(lengths, s) == rank
    requires MsbValue(data, pos, lengths[s]) == FirstCode(lengths, lengths[s]) + rank
    ensures CodeAt(data, pos, lengths, s)
  {}

  lemma ScanNext(data: seq<byte>, pos: nat, lengths: seq<nat>, len: nat, value: int, first: int, index: int, count: nat)
    requires 1 <= len && pos + len <= BitLen(data) && value == MsbValue(data, pos, len)
    requires first == FirstCode(lengths, len) && index == Offset(lengths, len) && count == Count(lengths, len)
    requires value - first >= count
    requires NoMatchBelow(data, pos, lengths, len)
    ensures Scanned(data, pos, lengths, len + 1, value * 2, (first + count) * 2, index + count)
  {
    forall s | 0 <= s < |lengths| && CodeAt(data, pos, lengths, s) ensures lengths[s] >= len + 1 {
      if lengths[s] == len { RankInRange(lengths, s); }
    }
  }

  lemma SlotInRange(lengths: seq<nat>, s: nat)
    requires ValidLengths(lengths) && s < |lengths| && lengths[s] > 0
    ensures Slot(lengths, s) < |lengths|
  {
    RankInRange(lengths, s);
    OffsetMono(lengths, lengths[s], lengths[s] + 1);
    OffsetBound(lengths, lengths[s] + 1);
  }

  lemma SlotsDistinct(lengths: seq<nat>, s: nat, t: nat)
    requires ValidLengths(lengths) && s < t < |lengths| && lengths[s] > 0 && lengths[t] > 0
    ensures Slot(lengths, s) != Slot(lengths, t)
  {
    RankInRange(lengths, s);
    RankInRange(lengths, t);
    if lengths[s] == lengths[t] {
      RankInjective(lengths, s, t);
    } else if lengths[s] < lengths[t] {
      OffsetMono(lengths, lengths[s], lengths[t]);
    } else {
      OffsetMono(lengths, lengths[t], lengths[s]);
    }
  }
}
