// `inflate`: the whole of deflate (RFC 1951 section 3.2), against a description
// of the stream as a list of blocks.
module PngInflate {
  import opened Options
  import opened Bytes
  import opened PngBits
  import opened PngHuffman

  const LENGTH_BASE: seq<nat> := [3, 4, 5, 6, 7, 8, 9, 10, 11, 13, 15, 17, 19, 23, 27,
                                  31, 35, 43, 51, 59, 67, 83, 99, 115, 131, 163, 195, 227, 258]
  const LENGTH_EXTRA: seq<nat> := [0, 0, 0, 0, 0, 0, 0, 0, 1, 1, 1, 1, 2, 2, 2, 2, 3, 3, 3, 3,
                                   4, 4, 4, 4, 5, 5, 5, 5, 0]
  const DIST_BASE: seq<nat> := [1, 2, 3, 4, 5, 7, 9, 13, 17, 25, 33, 49, 65, 97, 129, 193, 257, 385, 513, 769,
                                1025, 1537, 2049, 3073, 4097, 6145, 8193, 12289, 16385, 24577]
  const DIST_EXTRA: seq<nat> := [0, 0, 0, 0, 1, 1, 2, 2, 3, 3, 4, 4, 5, 5, 6,
                                 6, 7, 7, 8, 8, 9, 9, 10, 10, 11, 11, 12, 12, 13, 13]
  const ORDER: seq<nat> := [16, 17, 18, 0, 8, 7, 9, 6, 10, 5, 11, 4, 12, 3, 13, 2, 14, 1, 15]

  function LengthBase(code: nat): nat requires code < 29 { LENGTH_BASE[code] }

  function LengthExtra(code: nat): nat requires code < 29 { LENGTH_EXTRA[code] }

  function DistBase(code: nat): (d: nat)
    requires code < 30
    ensures d > 0
  {
    DIST_BASE[code]
  }

  function DistExtra(code: nat): nat requires code < 30 { DIST_EXTRA[code] }

  // ---- the stream as data ----

  /** A literal byte, or a copy given by its length and distance codes and their extra bits. */
  datatype Token =
    | Literal(value: byte)
    | Copy(lengthCode: nat, lengthExtra: nat, distCode: nat, distExtra: nat)

  /** One symbol of the code length alphabet (section 3.2.7). */
  datatype Run = Length(len: nat) | Repeat(count: nat) | Zeros(count: nat) | ManyZeros(count: nat)

  datatype Block =
    | Stored(bytes: seq<byte>)
    | Fixed(tokens: seq<Token>)
    | Dynamic(nlit: nat, ndist: nat, nlen: nat, runs: seq<Run>, tokens: seq<Token>)

  // ---- what the stream means ----

  ghost predicate ValidCodes(t: Token) {
    t.Copy? ==> t.lengthCode < 29 && t.distCode < 30
  }

  ghost function CopyLength(t: Token): nat
    requires t.Copy? && ValidCodes(t)
  {
    LengthBase(t.lengthCode) + t.lengthExtra
  }

  ghost function Distance(t: Token): (d: nat)
    requires t.Copy? && ValidCodes(t)
    ensures d > 0
  {
    DistBase(t.distCode) + t.distExtra
  }

  ghost function TokenLen(t: Token): nat
    requires ValidCodes(t)
  {
    if t.Literal? then 1 else CopyLength(t)
  }

  /** A copy reaches back into the `n` bytes before it. */
  ghost predicate Reaches(n: nat, t: Token) {
    ValidCodes(t) && (t.Copy? ==> Distance(t) <= n)
  }

  ghost predicate Resolves(n: nat, tokens: seq<Token>)
    decreases |tokens|
  {
    tokens == [] || (Reaches(n, tokens[0]) && Resolves(n + TokenLen(tokens[0]), tokens[1..]))
  }

  /** `out` followed by `len` bytes of its last `dist` bytes, repeated. */
  ghost function Copied(out: seq<byte>, len: nat, dist: nat): seq<byte>
    requires 0 < dist <= |out|
  {
    out + seq(len, i requires 0 <= i < len => out[|out| - dist + i % dist])
  }

  ghost function Emit(out: seq<byte>, t: Token): (r: seq<byte>)
    requires Reaches(|out|, t)
    ensures |r| == |out| + TokenLen(t)
  {
    if t.Literal? then out + [t.value] else Copied(out, CopyLength(t), Distance(t))
  }

  ghost function Expand(out: seq<byte>, tokens: seq<Token>): (r: seq<byte>)
    requires Resolves(|out|, tokens)
    ensures |r| == TokensLen(|out|, tokens)
    decreases |tokens|
  {
    if tokens == [] then out else Expand(Emit(out, tokens[0]), tokens[1..])
  }

  ghost function TokensLen(n: nat, tokens: seq<Token>): (m: nat)
    requires Resolves(n, tokens)
    ensures m >= n
    decreases |tokens|
  {
    if tokens == [] then n else TokensLen(n + TokenLen(tokens[0]), tokens[1..])
  }

  /** A repeat needs a length before it. */
  ghost predicate RunsResolve(n: nat, runs: seq<Run>)
    decreases |runs|
  {
    runs == [] ||
    match runs[0]
    case Length(_) => RunsResolve(n + 1, runs[1..])
    case Repeat(count) => n > 0 && RunsResolve(n + count, runs[1..])
    case Zeros(count) => RunsResolve(n + count, runs[1..])
    case ManyZeros(count) => RunsResolve(n + count, runs[1..])
  }

  ghost function Fill(count: nat, value: nat): seq<nat> { seq(count, _ => value) }

  ghost function RunStep(lengths: seq<nat>, run: Run): seq<nat>
    requires run.Repeat? ==> |lengths| > 0
  {
    match run
    case Length(len) => lengths + [len]
    case Repeat(count) => lengths + Fill(count, lengths[|lengths| - 1])
    case Zeros(count) => lengths + Fill(count, 0)
    case ManyZeros(count) => lengths + Fill(count, 0)
  }

  ghost function RunLengths(lengths: seq<nat>, runs: seq<Run>): seq<nat>
    requires RunsResolve(|lengths|, runs)
    decreases |runs|
  {
    if runs == [] then lengths else RunLengths(RunStep(lengths, runs[0]), runs[1..])
  }

  ghost predicate BlocksResolve(n: nat, blocks: seq<Block>)
    decreases |blocks|
  {
    blocks == [] ||
    match blocks[0]
    case Stored(bytes) => BlocksResolve(n + |bytes|, blocks[1..])
    case Fixed(tokens) => Resolves(n, tokens) && BlocksResolve(TokensLen(n, tokens), blocks[1..])
    case Dynamic(_, _, _, _, tokens) => Resolves(n, tokens) && BlocksResolve(TokensLen(n, tokens), blocks[1..])
  }

  ghost function BlockBytes(out: seq<byte>, block: Block): (r: seq<byte>)
    requires BlocksResolve(|out|, [block])
    ensures |r| >= |out|
  {
    match block
    case Stored(bytes) => out + bytes
    case Fixed(tokens) => Expand(out, tokens)
    case Dynamic(_, _, _, _, tokens) => Expand(out, tokens)
  }

  /** What the blocks decompress to, after `out`. */
  ghost function Content(out: seq<byte>, blocks: seq<Block>): (r: seq<byte>)
    requires BlocksResolve(|out|, blocks)
    ensures |r| >= |out|
    decreases |blocks|
  {
    if blocks == [] then out
    else
      FirstResolves(out, blocks);
      Content(BlockBytes(out, blocks[0]), blocks[1..])
  }

  lemma FirstResolves(out: seq<byte>, blocks: seq<Block>)
    requires BlocksResolve(|out|, blocks) && blocks != []
    ensures BlocksResolve(|out|, [blocks[0]])
    ensures BlocksResolve(|BlockBytes(out, blocks[0])|, blocks[1..])
  {
    assert [blocks[0]][1..] == [];
  }

  // ---- how the stream is written ----

  ghost predicate LsbAt(data: seq<byte>, pos: nat, n: nat, value: nat) {
    pos + n <= BitLen(data) && LsbValue(data, pos, n) == value
  }

  /** Where the tokens end that start at `pos`, with the end of block code: None if the stream
      does not hold these tokens. */
  ghost function TokensEnd(data: seq<byte>, pos: nat, tokens: seq<Token>, lit: seq<nat>,
                           dist: seq<nat>): (r: Option<nat>)
    requires |lit| > 256
    decreases |tokens|
  {
    if tokens == [] then
      if CodeAt(data, pos, lit, 256) then Some(pos + lit[256]) else None
    else
      var end := TokenEnd(data, pos, tokens[0], lit, dist);
      if end.None? then None else TokensEnd(data, end.value, tokens[1..], lit, dist)
  }

  ghost function TokenEnd(data: seq<byte>, pos: nat, token: Token, lit: seq<nat>, dist: seq<nat>): (r: Option<nat>)
    requires |lit| > 256
    ensures r.Some? ==> r.value > pos
  {
    match token
    case Literal(b) => if CodeAt(data, pos, lit, b) then Some(pos + lit[b]) else None
    case Copy(lc, le, dc, de) =>
      if CopyAt(data, pos, token, lit, dist)
      then Some(CopyEnd(pos, token, lit, dist))
      else None
  }

  ghost function CopyEnd(pos: nat, t: Token, lit: seq<nat>, dist: seq<nat>): nat
    requires t.Copy? && ValidCodes(t) && 257 + t.lengthCode < |lit| && t.distCode < |dist|
  {
    pos + lit[257 + t.lengthCode] + LengthExtra(t.lengthCode) + dist[t.distCode] + DistExtra(t.distCode)
  }

  /** Length symbol, its extra bits, distance symbol, its extra bits. */
  ghost predicate CopyAt(data: seq<byte>, pos: nat, t: Token, lit: seq<nat>, dist: seq<nat>)
    requires t.Copy?
  {
    && ValidCodes(t)
    && CodeAt(data, pos, lit, 257 + t.lengthCode)
    && LsbAt(data, pos + lit[257 + t.lengthCode], LengthExtra(t.lengthCode), t.lengthExtra)
    && CodeAt(data, pos + lit[257 + t.lengthCode] + LengthExtra(t.lengthCode), dist, t.distCode)
    && LsbAt(data, pos + lit[257 + t.lengthCode] + LengthExtra(t.lengthCode) + dist[t.distCode],
             DistExtra(t.distCode), t.distExtra)
  }

  ghost function FixedLit(): (r: seq<nat>)
    ensures |r| == 288
  {
    seq(288, i => if i < 144 then 8 else if i < 256 then 9 else if i < 280 then 7 else 8)
  }

  ghost function FixedDist(): (r: seq<nat>)
    ensures |r| == 30
  {
    seq(30, _ => 5)
  }

  /** Lengths of the code length code: `nlen` times three bits, in the order of section 3.2.7. */
  ghost function MetaLengths(data: seq<byte>, pos: nat, nlen: nat): (r: seq<nat>)
    requires nlen <= 19 && pos + 3 * nlen <= BitLen(data)
    ensures |r| == 19 && forall s :: 0 <= s < 19 ==> r[s] < 8
  {
    if nlen == 0 then Fill(19, 0)
    else
      assert Pow2(3) == 8;
      MetaLengths(data, pos, nlen - 1)[ORDER[nlen - 1] := LsbValue(data, pos + 3 * (nlen - 1), 3)]
  }

  ghost function RunEnd(data: seq<byte>, pos: nat, run: Run, meta: seq<nat>): (r: Option<nat>)
    ensures r.Some? ==> r.value > pos
  {
    match run
    case Length(len) => if len < 16 && CodeAt(data, pos, meta, len) then Some(pos + meta[len]) else None
    case Repeat(count) => RunExtra(data, pos, meta, 16, 2, count - 3)
    case Zeros(count) => RunExtra(data, pos, meta, 17, 3, count - 3)
    case ManyZeros(count) => RunExtra(data, pos, meta, 18, 7, count - 11)
  }

  ghost function RunExtra(data: seq<byte>, pos: nat, meta: seq<nat>, symbol: nat, bits: nat,
                          extra: int): (r: Option<nat>)
    ensures r.Some? ==> r.value > pos
  {
    if CodeAt(data, pos, meta, symbol) && extra >= 0 && LsbAt(data, pos + meta[symbol], bits, extra)
    then Some(pos + meta[symbol] + bits) else None
  }

  ghost function RunsEnd(data: seq<byte>, pos: nat, runs: seq<Run>, meta: seq<nat>): Option<nat>
    decreases |runs|
  {
    if runs == [] then Some(pos)
    else
      var end := RunEnd(data, pos, runs[0], meta);
      if end.None? then None else RunsEnd(data, end.value, runs[1..], meta)
  }

  ghost function BlockEnd(data: seq<byte>, pos: nat, block: Block): Option<nat> {
    match block
    case Stored(bytes) => if LsbAt(data, pos + 1, 2, 0) then StoredEnd(data, pos + 3, bytes) else None
    case Fixed(tokens) =>
      if LsbAt(data, pos + 1, 2, 1) then TokensEnd(data, pos + 3, tokens, FixedLit(), FixedDist()) else None
    case Dynamic(_, _, _, _, _) => if LsbAt(data, pos + 1, 2, 2) then DynamicEnd(data, pos + 3, block) else None
  }

  /** A stored block continues at the next byte: its length, the complement of it, its bytes. */
  ghost function StoredEnd(data: seq<byte>, pos: nat, bytes: seq<byte>): Option<nat> {
    var at := (pos + 7) / 8;
    if at + 4 + |bytes| <= |data| && |bytes| == data[at] as int + 256 * data[at + 1] as int
       && data[at + 2] == 255 - data[at] && data[at + 3] == 255 - data[at + 1]
       && data[at + 4..at + 4 + |bytes|] == bytes
    then Some(8 * (at + 4 + |bytes|)) else None
  }

  /** The header of a dynamic block, up to its run length coded code lengths. */
  ghost predicate DynamicHeaderAt(data: seq<byte>, pos: nat, block: Block)
    requires block.Dynamic?
  {
    && block.nlit >= 257 && block.ndist >= 1 && 4 <= block.nlen <= 19
    && LsbAt(data, pos, 5, block.nlit - 257)
    && LsbAt(data, pos + 5, 5, block.ndist - 1)
    && LsbAt(data, pos + 10, 4, block.nlen - 4)
    && pos + 14 + 3 * block.nlen <= BitLen(data)
    && RunsResolve(0, block.runs)
    && |RunLengths([], block.runs)| == block.nlit + block.ndist
  }

  ghost function DynamicEnd(data: seq<byte>, pos: nat, block: Block): Option<nat>
    requires block.Dynamic?
  {
    if !DynamicHeaderAt(data, pos, block) then None
    else
      var start := pos + 14 + 3 * block.nlen;
      var end := RunsEnd(data, start, block.runs, MetaLengths(data, pos + 14, block.nlen));
      var lengths := RunLengths([], block.runs);
      if end.None? then None
      else TokensEnd(data, end.value, block.tokens, lengths[..block.nlit], lengths[block.nlit..])
  }

  /** The stream from `pos` on consists of these blocks, the last one flagged. */
  ghost predicate StreamAt(data: seq<byte>, pos: nat, blocks: seq<Block>)
    decreases |blocks|
  {
    && blocks != []
    && LsbAt(data, pos, 1, if |blocks| == 1 then 1 else 0)
    && BlockEnd(data, pos, blocks[0]).Some?
    && (|blocks| > 1 ==> StreamAt(data, BlockEnd(data, pos, blocks[0]).value, blocks[1..]))
  }

  /** A zlib stream (RFC 1950: two header bytes first) of these blocks. */
  ghost predicate WellFormed(data: seq<byte>, blocks: seq<Block>) {
    StreamAt(data, 16, blocks) && BlocksResolve(0, blocks)
  }

  // ---- the decoder ----

  /** `huffman_decode` where the stream holds a code word: the symbol it belongs to. */
  method DecodeSymbol(input: Bits, code: Huffman, ghost lengths: seq<nat>, ghost expected: nat) returns (symbol: nat)
    requires code.Describes(lengths) && CodeAt(input.data, input.pos, lengths, expected)
    modifies input`pos
    ensures symbol == expected && input.pos == old(input.pos) + lengths[expected]
  {
    var r := code.Decode(input, lengths);
    assert r >= 0;
    PrefixFree(input.data, old(input.pos), lengths, r, expected);
    symbol := r;
  }

  lemma SplitToken(data: seq<byte>, pos: nat, tokens: seq<Token>, k: nat, lit: seq<nat>, dist: seq<nat>)
    requires k < |tokens| && |lit| > 256 && TokensEnd(data, pos, tokens[k..], lit, dist).Some?
    ensures TokenEnd(data, pos, tokens[k], lit, dist).Some?
    ensures CodeAt(data, pos, lit, Symbol(tokens[k])) && Symbol(tokens[k]) != 256
    ensures if tokens[k].Literal? then
              TokenEnd(data, pos, tokens[k], lit, dist).value == pos + lit[tokens[k].value]
            else
              CopyAt(data, pos, tokens[k], lit, dist)
              && TokenEnd(data, pos, tokens[k], lit, dist).value == CopyEnd(pos, tokens[k], lit, dist)
    ensures TokensEnd(data, TokenEnd(data, pos, tokens[k], lit, dist).value, tokens[k + 1..], lit, dist)
            == TokensEnd(data, pos, tokens[k..], lit, dist)
  {
    assert tokens[k..][0] == tokens[k] && tokens[k..][1..] == tokens[k + 1..];
  }

  lemma SplitExpand(out: seq<byte>, tokens: seq<Token>, k: nat)
    requires k < |tokens| && Resolves(|out|, tokens[k..])
    ensures Reaches(|out|, tokens[k]) && Resolves(|out| + TokenLen(tokens[k]), tokens[k + 1..])
    ensures Expand(out, tokens[k..]) == Expand(Emit(out, tokens[k]), tokens[k + 1..])
    ensures TokensLen(|out|, tokens[k..]) == TokensLen(|out| + TokenLen(tokens[k]), tokens[k + 1..])
  {
    hide Emit, Reaches, TokenLen, ValidCodes;
    assert tokens[k..][0] == tokens[k] && tokens[k..][1..] == tokens[k + 1..];
  }

  /** The byte `back` before the end of a copy of `i` bytes is the next byte of the copy. */
  lemma CopiedStep(out: seq<byte>, i: nat, back: nat)
    requires 0 < back <= |out|
    ensures Copied(out, i + 1, back) == Copied(out, i, back) + [Copied(out, i, back)[|out| + i - back]]
  {
    if i < back { SmallMod(i, back); } else { ModBack(i, back); }
  }

  lemma SmallMod(i: nat, m: nat)
    requires i < m
    ensures i % m == i
  {}

  lemma ModBack(i: nat, m: nat)
    requires 0 < m <= i
    ensures (i - m) % m == i % m
  {
    var d := i / m - ((i - m) / m + 1);
    assert d * m == (i - m) % m - i % m;
    if d >= 1 { MulMono(1, d, m); } else if d <= -1 { MulMono(d, -1, m); }
  }

  /** The copy loop, byte by byte, so that a copy may read what it has just written. */
  method CopyBytes(out: array<byte>, pos: nat, count: nat, back: nat)
    requires 0 < back <= pos && pos + count <= out.Length
    modifies out
    ensures out[..pos + count] == Copied(old(out[..pos]), count, back)
  {
    hide Copied;
    CopiedNone(out[..pos], back);
    for i := 0 to count
      invariant out[..pos + i] == Copied(old(out[..pos]), i, back)
    {
      CopiedStep(old(out[..pos]), i, back);
      assert out[..pos + i][pos + i - back] == out[pos + i - back];
      out[pos + i] := out[pos + i - back];
      assert out[..pos + i + 1] == out[..pos + i] + [out[pos + i]];
    }
  }

  lemma CopiedNone(out: seq<byte>, back: nat)
    requires 0 < back <= |out|
    ensures Copied(out, 0, back) == out
  {}

  /** The rest of a copy after its length symbol: how many bytes, from how far back. */
  method ReadCopy(input: Bits, dist: Huffman, symbol: nat, ghost t: Token, ghost at: nat, ghost ll: seq<nat>,
                  ghost dl: seq<nat>)
    returns (count: nat, back: nat)
    requires dist.Describes(dl) && t.Copy? && CopyAt(input.data, at, t, ll, dl)
    requires symbol == t.lengthCode && input.pos == at + ll[257 + symbol]
    modifies input`pos
    ensures ValidCodes(t) && count == CopyLength(t) && back == Distance(t)
    ensures input.pos == CopyEnd(at, t, ll, dl)
  {
    hide LsbValue, MsbValue, Code, LengthBase, LengthExtra, DistBase, DistExtra;
    var extra := input.GetBits(LengthExtra(symbol));
    count := LengthBase(symbol) + extra;
    var d := DecodeSymbol(input, dist, dl, t.distCode);
    extra := input.GetBits(DistExtra(d));
    back := DistBase(d) + extra;
  }

  /** The symbols of one block, up to its end code. */
  method InflateTokens(input: Bits, lit: Huffman, dist: Huffman, out: array<byte>, start: nat, max: nat,
                       ghost tokens: seq<Token>, ghost ll: seq<nat>, ghost dl: seq<nat>)
    returns (pos: int)
    requires lit.Describes(ll) && dist.Describes(dl) && |ll| > 256
    requires out as object !in {lit.counts, lit.symbols, dist.counts, dist.symbols}
    requires start <= max <= out.Length
    requires Resolves(start, tokens) && TokensEnd(input.data, input.pos, tokens, ll, dl).Some?
    modifies input`pos, out
    ensures TokensLen(start, tokens) > max ==> pos == -1
    ensures TokensLen(start, tokens) <= max ==>
              && pos == TokensLen(start, tokens)
              && out[..pos] == Expand(old(out[..start]), tokens)
              && input.pos == TokensEnd(input.data, old(input.pos), tokens, ll, dl).value
  {
    hide Copied, TokensEnd, TokenEnd, Expand, TokensLen, Resolves, CopyAt, CopyEnd, CopyLength, Distance, MsbValue;
    hide Code;
    pos := start;
    ghost var k := 0;
    assert tokens[0..] == tokens;
    while true
      invariant k <= |tokens| && start <= pos <= max
      invariant Resolves(pos, tokens[k..])
      invariant TokensEnd(input.data, input.pos, tokens[k..], ll, dl)
                == TokensEnd(input.data, old(input.pos), tokens, ll, dl)
      invariant TokensLen(pos, tokens[k..]) == TokensLen(start, tokens)
      invariant Expand(out[..pos], tokens[k..]) == Expand(old(out[..start]), tokens)
      decreases |tokens| - k
    {
      if k == |tokens| {
        NoTokens(input.data, input.pos, pos, out[..pos], ll, dl);
        assert tokens[k..] == [];
      } else {
        SplitToken(input.data, input.pos, tokens, k, ll, dl);
        SplitExpand(out[..pos], tokens, k);
      }
      ghost var expected := if k == |tokens| then 256 else Symbol(tokens[k]);
      ghost var at := input.pos;
      var symbol := DecodeSymbol(input, lit, ll, expected);
      if symbol < 256 {
        if pos >= max {
          return -1;
        }
        out[pos] := symbol;
        assert out[..pos + 1] == out[..pos] + [symbol];
        pos := pos + 1;
        k := k + 1;
        continue;
      }
      if symbol == 256 {
        break;
      }
      var count, back := ReadCopy(input, dist, symbol - 257, tokens[k], at, ll, dl);
      if back > pos || pos + count > max {
        return -1;
      }
      CopyBytes(out, pos, count, back);
      pos := pos + count;
      k := k + 1;
    }
  }

  ghost function Symbol(t: Token): nat {
    match t case Literal(b) => b case Copy(lc, _, _, _) => 257 + lc
  }

  lemma NoTokens(data: seq<byte>, at: nat, pos: nat, out: seq<byte>, ll: seq<nat>, dl: seq<nat>)
    requires |ll| > 256
    ensures TokensLen(pos, []) == pos && Resolves(|out|, []) && Expand(out, []) == out
    ensures TokensEnd(data, at, [], ll, dl).Some? ==>
              CodeAt(data, at, ll, 256) && TokensEnd(data, at, [], ll, dl).value == at + ll[256]
  {}

  /** A stored block: its bytes start at the next byte of the stream. */
  method InflateStored(input: Bits, out: array<byte>, start: nat, max: nat, ghost bytes: seq<byte>) returns (pos: int)
    requires start <= max <= out.Length
    requires StoredEnd(input.data, input.pos, bytes).Some?
    modifies input`pos, out
    ensures start + |bytes| > max ==> pos == -1
    ensures start + |bytes| <= max ==>
              && pos == start + |bytes|
              && out[..pos] == old(out[..start]) + bytes
              && input.pos == StoredEnd(input.data, old(input.pos), bytes).value
  {
    input.pos := (input.pos + 7) / 8 * 8;
    var at := input.pos / 8;
    if at + 4 > |input.data| {
      return -1;
    }
    var count := input.data[at] as int + 256 * input.data[at + 1] as int;
    at := at + 4;
    if at + count > |input.data| || start + count > max {
      return -1;
    }
    for i := 0 to count
      invariant out[..start + i] == old(out[..start]) + bytes[..i]
    {
      assert bytes[i] == input.data[at + i];
      out[start + i] := input.data[at + i];
      assert out[..start + i + 1] == out[..start + i] + [bytes[i]];
    }
    assert bytes[..count] == bytes;
    pos := start + count;
    input.pos := (at + count) * 8;
  }

  // ---- dynamic codes ----

  lemma SplitRun(data: seq<byte>, pos: nat, lengths: seq<nat>, runs: seq<Run>, k: nat, meta: seq<nat>)
    requires k < |runs| && RunsResolve(|lengths|, runs[k..]) && RunsEnd(data, pos, runs[k..], meta).Some?
    ensures runs[k].Repeat? ==> |lengths| > 0
    ensures RunEnd(data, pos, runs[k], meta).Some?
    ensures RunsEnd(data, RunEnd(data, pos, runs[k], meta).value, runs[k + 1..], meta)
            == RunsEnd(data, pos, runs[k..], meta)
    ensures RunsResolve(|RunStep(lengths, runs[k])|, runs[k + 1..])
    ensures RunLengths(lengths, runs[k..]) == RunLengths(RunStep(lengths, runs[k]), runs[k + 1..])
  {
    hide RunEnd;
    assert runs[k..][0] == runs[k] && runs[k..][1..] == runs[k + 1..];
  }

  /** Runs written in the stream add at least one length each. */
  lemma {:induction false} RunsGrow(data: seq<byte>, pos: nat, lengths: seq<nat>, runs: seq<Run>, meta: seq<nat>)
    requires RunsResolve(|lengths|, runs) && RunsEnd(data, pos, runs, meta).Some?
    ensures |RunLengths(lengths, runs)| >= |lengths| + |runs|
    decreases |runs|
  {
    if runs != [] {
      RunsGrow(data, RunEnd(data, pos, runs[0], meta).value, RunStep(lengths, runs[0]), runs[1..], meta);
    }
  }

  ghost predicate Small(lengths: seq<nat>) { forall i :: 0 <= i < |lengths| ==> lengths[i] < 16 }

  /** A run in the stream keeps the lengths valid code lengths. */
  lemma RunSmall(data: seq<byte>, pos: nat, lengths: seq<nat>, run: Run, meta: seq<nat>)
    requires Small(lengths) && (run.Repeat? ==> |lengths| > 0) && RunEnd(data, pos, run, meta).Some?
    ensures Small(RunStep(lengths, run))
  {}

  /** What a run stores and how often, after its symbol. */
  method ReadRun(input: Bits, symbol: nat, before: seq<nat>, ghost run: Run, ghost at: nat, ghost meta: seq<nat>)
    returns (value: nat, repeat: nat)
    requires RunEnd(input.data, at, run, meta).Some? && (run.Repeat? ==> |before| > 0)
    requires symbol == RunSymbol(run) && input.pos == at + meta[symbol]
    modifies input`pos
    ensures RunStep(before, run) == before + Fill(repeat, value)
    ensures input.pos == RunEnd(input.data, at, run, meta).value
  {
    hide LsbValue, MsbValue, Code, BitLen;
    value := 0;
    if symbol < 16 {
      value, repeat := symbol, 1;
      assert Fill(1, value) == [value];
    } else if symbol == 16 {
      value := before[|before| - 1];
      var extra := input.GetBits(2);
      repeat := 3 + extra;
    } else if symbol == 17 {
      var extra := input.GetBits(3);
      repeat := 3 + extra;
    } else {
      var extra := input.GetBits(7);
      repeat := 11 + extra;
    }
  }

  ghost function RunSymbol(run: Run): nat {
    match run case Length(len) => len case Repeat(_) => 16 case Zeros(_) => 17 case ManyZeros(_) => 18
  }

  lemma RunSymbolAt(data: seq<byte>, pos: nat, run: Run, meta: seq<nat>)
    requires RunEnd(data, pos, run, meta).Some?
    ensures CodeAt(data, pos, meta, RunSymbol(run))
  {}

  /** Lengths of the code length code. */
  method ReadMeta(input: Bits, nlen: nat) returns (meta: array<nat>)
    requires nlen <= 19 && input.pos + 3 * nlen <= BitLen(input.data)
    modifies input`pos
    ensures fresh(meta) && meta[..] == MetaLengths(input.data, old(input.pos), nlen)
    ensures input.pos == old(input.pos) + 3 * nlen
  {
    hide LsbValue;
    meta := new nat[19](_ => 0);
    assert meta[..] == Fill(19, 0);
    for i := 0 to nlen
      invariant input.pos == old(input.pos) + 3 * i
      invariant meta[..] == MetaLengths(input.data, old(input.pos), i)
    {
      var len := input.GetBits(3);
      meta[ORDER[i]] := len;
    }
  }

  /** `count` times `value` from index `i` on. */
  method FillFrom(lengths: array<nat>, i: nat, count: nat, value: nat)
    requires i + count <= lengths.Length
    modifies lengths
    ensures lengths[..i + count] == old(lengths[..i]) + Fill(count, value)
  {
    for j := 0 to count
      invariant lengths[..i + j] == old(lengths[..i]) + Fill(j, value)
    {
      lengths[i + j] := value;
      assert lengths[..i + j + 1] == lengths[..i + j] + [value];
      assert Fill(j + 1, value) == Fill(j, value) + [value];
    }
  }

  /** The run length coded code lengths of a dynamic block. */
  method ReadLengths(input: Bits, code: Huffman, n: nat, ghost runs: seq<Run>, ghost meta: seq<nat>)
    returns (lengths: array<nat>)
    requires code.Describes(meta) && n <= 320
    requires RunsResolve(0, runs) && |RunLengths([], runs)| == n
    requires RunsEnd(input.data, input.pos, runs, meta).Some?
    modifies input`pos
    ensures fresh(lengths) && lengths.Length == 320
    ensures lengths[..n] == RunLengths([], runs) && Small(lengths[..n])
    ensures input.pos == RunsEnd(input.data, old(input.pos), runs, meta).value
  {
    hide RunsEnd, RunEnd, RunLengths, RunsResolve, RunStep, MsbValue, Code;
    lengths := new nat[320](_ => 0);
    var i := 0;
    ghost var k := 0;
    assert runs[0..] == runs && lengths[..0] == [];
    while i < n
      invariant k <= |runs| && 0 <= i <= n
      invariant Small(lengths[..i])
      invariant RunsResolve(i, runs[k..])
      invariant RunsEnd(input.data, input.pos, runs[k..], meta) == RunsEnd(input.data, old(input.pos), runs, meta)
      invariant RunLengths(lengths[..i], runs[k..]) == RunLengths([], runs)
      decreases |runs| - k
    {
      RunLeft(lengths[..i], runs, k);
      ghost var before, at := lengths[..i], input.pos;
      SplitRun(input.data, at, before, runs, k, meta);
      RunSymbolAt(input.data, at, runs[k], meta);
      RunSmall(input.data, at, before, runs[k], meta);
      RunsGrow(input.data, RunEnd(input.data, at, runs[k], meta).value, RunStep(before, runs[k]), runs[k + 1..], meta);
      var symbol := DecodeSymbol(input, code, meta, RunSymbol(runs[k]));
      var value, repeat := ReadRun(input, symbol, lengths[..i], runs[k], at, meta);
      FillFrom(lengths, i, repeat, value);
      i := i + repeat;
      k := k + 1;
    }
    RunsGrow(input.data, input.pos, lengths[..i], runs[k..], meta);
    NoRuns(lengths[..i]);
    NoRunsEnd(input.data, input.pos, meta);
    assert runs[k..] == [];
  }

  lemma NoRuns(lengths: seq<nat>)
    ensures RunsResolve(|lengths|, []) && RunLengths(lengths, []) == lengths
  {}

  lemma RunLeft(lengths: seq<nat>, runs: seq<Run>, k: nat)
    requires k <= |runs| && RunsResolve(|lengths|, runs[k..]) && |RunLengths(lengths, runs[k..])| > |lengths|
    ensures k < |runs|
  {}

  lemma NoRunsEnd(data: seq<byte>, pos: nat, meta: seq<nat>)
    ensures RunsEnd(data, pos, [], meta) == Some(pos)
  {}

  /** The header of a dynamic block: builds both codes. */
  method ReadCodes(input: Bits, lit: Huffman, dist: Huffman, ghost block: Block, ghost lengths: seq<nat>)
    requires block.Dynamic? && DynamicHeaderAt(input.data, input.pos, block)
    requires lengths == RunLengths([], block.runs)
    requires RunsEnd(input.data, input.pos + 14 + 3 * block.nlen, block.runs,
                     MetaLengths(input.data, input.pos + 14, block.nlen)).Some?
    requires lit.Shape() && dist.Shape() && |{lit.counts, lit.symbols, dist.counts, dist.symbols}| == 4
    modifies input`pos, lit.counts, lit.symbols, dist.counts, dist.symbols
    ensures |lengths| >= block.nlit > 256
    ensures lit.Describes(lengths[..block.nlit]) && dist.Describes(lengths[block.nlit..])
    ensures input.pos == RunsEnd(input.data, old(input.pos) + 14 + 3 * block.nlen, block.runs,
                                 MetaLengths(input.data, old(input.pos) + 14, block.nlen)).value
  {
    hide LsbValue, RunLengths, RunsEnd, RunsResolve, MetaLengths;
    var nlit := input.GetBits(5);
    nlit := nlit + 257;
    var ndist := input.GetBits(5);
    ndist := ndist + 1;
    var nlen := input.GetBits(4);
    nlen := nlen + 4;
    assert Pow2(5) == 32;
    ghost var meta := MetaLengths(input.data, input.pos, nlen);
    var metaLengths := ReadMeta(input, nlen);
    var lencode := new Huffman();
    lencode.Build(metaLengths[..]);
    var all := ReadLengths(input, lencode, nlit + ndist, block.runs, meta);
    assert all[..nlit] == lengths[..nlit] && all[nlit..nlit + ndist] == lengths[nlit..];
    assert Small(lengths[..nlit]) && Small(lengths[nlit..]);
    lit.Build(all[..nlit]);
    dist.Build(all[nlit..nlit + ndist]);
  }

  lemma SplitBlock(data: seq<byte>, pos: nat, out: seq<byte>, blocks: seq<Block>, k: nat)
    requires k < |blocks| && StreamAt(data, pos, blocks[k..]) && BlocksResolve(|out|, blocks[k..])
    ensures LsbAt(data, pos, 1, if k + 1 == |blocks| then 1 else 0)
    ensures BlockEnd(data, pos, blocks[k]).Some?
    ensures k + 1 < |blocks| ==> StreamAt(data, BlockEnd(data, pos, blocks[k]).value, blocks[k + 1..])
    ensures BlocksResolve(|out|, [blocks[k]]) && BlocksResolve(|BlockBytes(out, blocks[k])|, blocks[k + 1..])
    ensures Content(out, blocks[k..]) == Content(BlockBytes(out, blocks[k]), blocks[k + 1..])
  {
    hide BlockEnd, BlockBytes;
    assert blocks[k..][0] == blocks[k] && blocks[k..][1..] == blocks[k + 1..];
    FirstResolves(out, blocks[k..]);
  }

  /** One block after its last-block bit. */
  method InflateBlock(input: Bits, out: array<byte>, start: nat, max: nat, ghost block: Block, ghost at: nat)
    returns (pos: int)
    requires start <= max <= out.Length && input.pos == at + 1
    requires BlockEnd(input.data, at, block).Some? && BlocksResolve(start, [block])
    modifies input`pos, out
    ensures |BlockBytes(old(out[..start]), block)| > max ==> pos == -1
    ensures |BlockBytes(old(out[..start]), block)| <= max ==>
              && pos == |BlockBytes(old(out[..start]), block)|
              && out[..pos] == BlockBytes(old(out[..start]), block)
              && input.pos == BlockEnd(input.data, at, block).value
  {
    hide LsbValue, TokensEnd, RunsEnd, RunLengths, RunsResolve, StoredEnd, Expand, TokensLen;
    var kind := input.GetBits(2);
    if kind == 0 {
      pos := InflateStored(input, out, start, max, block.bytes);
      return;
    }
    var lit := new Huffman();
    var dist := new Huffman();
    if kind == 1 {
      lit.Build(seq(288, i => if i < 144 then 8 else if i < 256 then 9 else if i < 280 then 7 else 8));
      dist.Build(seq(30, _ => 5));
      pos := InflateTokens(input, lit, dist, out, start, max, block.tokens, FixedLit(), FixedDist());
    } else {
      ghost var lengths := RunLengths([], block.runs);
      ReadCodes(input, lit, dist, block, lengths);
      pos := InflateTokens(input, lit, dist, out, start, max, block.tokens,
                           lengths[..block.nlit], lengths[block.nlit..]);
    }
  }

  /** `inflate` of a well-formed stream: the length of what its blocks say, and those bytes,
      or -1 if they do not fit. */
  method Inflate(data: seq<byte>, out: array<byte>, max: nat, ghost blocks: seq<Block>) returns (pos: int)
    requires max <= out.Length && WellFormed(data, blocks)
    modifies out
    ensures |Content([], blocks)| > max ==> pos == -1
    ensures |Content([], blocks)| <= max ==> pos == |Content([], blocks)| && out[..pos] == Content([], blocks)
  {
    assert blocks != [];
    hide LsbValue, BlockEnd, BlockBytes, BlocksResolve, StreamAt, Content;
    var input := new Bits(data, 16);
    pos := 0;
    ghost var k := 0;
    assert blocks[0..] == blocks && out[..0] == [];
    while true
      invariant 0 <= pos <= max && k < |blocks|
      invariant StreamAt(data, input.pos, blocks[k..]) && BlocksResolve(pos, blocks[k..])
      invariant Content(out[..pos], blocks[k..]) == Content([], blocks)
      decreases |blocks| - k
    {
      ghost var at, before := input.pos, out[..pos];
      SplitBlock(data, at, before, blocks, k);
      var last := input.GetBits(1);
      pos := InflateBlock(input, out, pos, max, blocks[k], at);
      if pos < 0 {
        return;
      }
      k := k + 1;
      if last != 0 {
        NoBlocks(out[..pos]);
        assert blocks[k..] == [];
        break;
      }
    }
  }

  lemma NoBlocks(out: seq<byte>)
    ensures BlocksResolve(|out|, []) && Content(out, []) == out
  {}

  // ---- the tables ----

  lemma SmallPowers()
    ensures Pow2(0) == 1 && Pow2(1) == 2 && Pow2(2) == 4 && Pow2(3) == 8 && Pow2(4) == 16 && Pow2(5) == 32
    ensures Pow2(6) == 64 && Pow2(7) == 128 && Pow2(8) == 256 && Pow2(9) == 512 && Pow2(10) == 1024
    ensures Pow2(11) == 2048 && Pow2(12) == 4096 && Pow2(13) == 8192
  {}

  ghost function LengthEnd(code: nat): nat requires code < 29 { LengthBase(code) + Pow2(LengthExtra(code)) }

  ghost function DistEnd(code: nat): nat requires code < 30 { DistBase(code) + Pow2(DistExtra(code)) }

  lemma LengthCodeNext(code: nat)
    requires code < 27
    ensures LengthEnd(code) == LengthBase(code + 1)
  {
    SmallPowers();
    hide Pow2;
  }

  lemma DistCodeNext(code: nat)
    requires code < 29
    ensures DistEnd(code) == DistBase(code + 1)
  {
    SmallPowers();
    hide Pow2;
  }

  lemma {:induction false} LengthCodesOrdered(c: nat, d: nat)
    requires c < d < 28
    ensures LengthEnd(c) <= LengthBase(d)
    decreases d - c
  {
    hide LengthBase, LengthExtra;
    LengthCodeNext(c);
    if c + 1 < d { LengthCodesOrdered(c + 1, d); }
  }

  lemma {:induction false} DistCodesOrdered(c: nat, d: nat)
    requires c < d < 30
    ensures DistEnd(c) <= DistBase(d)
    decreases d - c
  {
    hide DistBase, DistExtra;
    DistCodeNext(c);
    if c + 1 < d { DistCodesOrdered(c + 1, d); }
  }

  /** Length codes 257 to 284 cover 3 to 258 without gap or overlap. */
  lemma LengthCodesTile(length: nat) returns (code: nat)
    requires 3 <= length <= 258
    ensures code < 28 && LengthBase(code) <= length < LengthEnd(code)
    ensures forall c :: 0 <= c < 28 && LengthBase(c) <= length < LengthEnd(c) ==> c == code
  {
    code := 27;
    assert LengthBase(0) == 3 && LengthEnd(27) == 259 by { SmallPowers(); }
    hide LengthBase, LengthEnd;
    while LengthBase(code) > length
      invariant code < 28 && length < LengthEnd(code)
    {
      LengthCodeNext(code - 1);
      code := code - 1;
    }
    forall c | 0 <= c < 28 && LengthBase(c) <= length < LengthEnd(c) ensures c == code {
      if c < code { LengthCodesOrdered(c, code); } else if code < c { LengthCodesOrdered(code, c); }
    }
  }

  /** Distance codes cover 1 to 32768 without gap or overlap. */
  lemma DistanceCodesTile(distance: nat) returns (code: nat)
    requires 1 <= distance <= 32768
    ensures code < 30 && DistBase(code) <= distance < DistEnd(code)
    ensures forall c :: 0 <= c < 30 && DistBase(c) <= distance < DistEnd(c) ==> c == code
  {
    code := 29;
    assert DistBase(0) == 1 && DistEnd(29) == 32769 by { SmallPowers(); }
    hide DistBase, DistEnd;
    while DistBase(code) > distance
      invariant code < 30 && distance < DistEnd(code)
    {
      DistCodeNext(code - 1);
      code := code - 1;
    }
    forall c | 0 <= c < 30 && DistBase(c) <= distance < DistEnd(c) ensures c == code {
      if c < code { DistCodesOrdered(c, code); } else if code < c { DistCodesOrdered(code, c); }
    }
  }
}
