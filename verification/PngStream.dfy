// What a deflate stream holds is one thing: its blocks can be read in one way only, and every byte string is
// what some stream holds.
module PngStream {
  import opened Options
  import opened Bytes
  import opened PngBits
  import opened PngHuffman
  import opened PngInflate

  // ---- one reading ----

  lemma OneToken(data: seq<byte>, pos: nat, a: Token, b: Token, lit: seq<nat>, dist: seq<nat>)
    requires |lit| > 256 && TokenEnd(data, pos, a, lit, dist).Some? && TokenEnd(data, pos, b, lit, dist).Some?
    ensures a == b
  {
    hide LsbValue, MsbValue, Code, LengthExtra, DistExtra;
    PrefixFree(data, pos, lit, Symbol(a), Symbol(b));
    if a.Copy? {
      PrefixFree(data, pos + lit[257 + a.lengthCode] + LengthExtra(a.lengthCode), dist, a.distCode, b.distCode);
    }
  }

  /** An end of block code is no token. */
  lemma NoTokenAtEnd(data: seq<byte>, pos: nat, t: Token, lit: seq<nat>, dist: seq<nat>)
    requires |lit| > 256 && TokenEnd(data, pos, t, lit, dist).Some?
    ensures !CodeAt(data, pos, lit, 256)
  {
    hide LsbValue, MsbValue, Code, LengthExtra, DistExtra;
    if CodeAt(data, pos, lit, 256) { PrefixFree(data, pos, lit, Symbol(t), 256); }
  }

  lemma {:induction false} OneTokens(data: seq<byte>, pos: nat, a: seq<Token>, b: seq<Token>, lit: seq<nat>,
                                     dist: seq<nat>)
    requires |lit| > 256
    requires TokensEnd(data, pos, a, lit, dist).Some? && TokensEnd(data, pos, b, lit, dist).Some?
    ensures a == b
    decreases |a|
  {
    hide TokenEnd, CodeAt;
    if a == [] || b == [] {
      if a != [] { NoTokenAtEnd(data, pos, a[0], lit, dist); }
      if b != [] { NoTokenAtEnd(data, pos, b[0], lit, dist); }
    } else {
      OneToken(data, pos, a[0], b[0], lit, dist);
      OneTokens(data, TokenEnd(data, pos, a[0], lit, dist).value, a[1..], b[1..], lit, dist);
      assert a == [a[0]] + a[1..] && b == [b[0]] + b[1..];
    }
  }

  lemma OneRun(data: seq<byte>, pos: nat, a: Run, b: Run, meta: seq<nat>)
    requires RunEnd(data, pos, a, meta).Some? && RunEnd(data, pos, b, meta).Some?
    ensures a == b
  {
    hide LsbValue, MsbValue, Code;
    PrefixFree(data, pos, meta, RunSymbol(a), RunSymbol(b));
  }

  /** Code lengths that add up to the same number are written by the same runs. */
  lemma {:induction false} OneRuns(data: seq<byte>, pos: nat, lengths: seq<nat>, a: seq<Run>, b: seq<Run>,
                                   meta: seq<nat>)
    requires RunsResolve(|lengths|, a) && RunsResolve(|lengths|, b)
    requires RunsEnd(data, pos, a, meta).Some? && RunsEnd(data, pos, b, meta).Some?
    requires |RunLengths(lengths, a)| == |RunLengths(lengths, b)|
    ensures a == b
    decreases |a|
  {
    hide RunEnd;
    RunsGrow(data, pos, lengths, a, meta);
    RunsGrow(data, pos, lengths, b, meta);
    if a != [] && b != [] {
      OneRun(data, pos, a[0], b[0], meta);
      OneRuns(data, RunEnd(data, pos, a[0], meta).value, RunStep(lengths, a[0]), a[1..], b[1..], meta);
      assert a == [a[0]] + a[1..] && b == [b[0]] + b[1..];
    }
  }

  lemma OneDynamic(data: seq<byte>, pos: nat, a: Block, b: Block)
    requires a.Dynamic? && b.Dynamic? && DynamicEnd(data, pos, a).Some? && DynamicEnd(data, pos, b).Some?
    ensures a == b
  {
    hide LsbValue, RunsEnd, RunsResolve, RunLengths, TokensEnd, MetaLengths;
    var start := pos + 14 + 3 * a.nlen;
    var meta := MetaLengths(data, pos + 14, a.nlen);
    OneRuns(data, start, [], a.runs, b.runs, meta);
    var lengths := RunLengths([], a.runs);
    OneTokens(data, RunsEnd(data, start, a.runs, meta).value, a.tokens, b.tokens, lengths[..a.nlit], lengths[a.nlit..]);
  }

  lemma OneBlock(data: seq<byte>, pos: nat, a: Block, b: Block)
    requires BlockEnd(data, pos, a).Some? && BlockEnd(data, pos, b).Some?
    ensures a == b
  {
    hide LsbValue, TokensEnd, DynamicEnd;
    if a.Fixed? {
      OneTokens(data, pos + 3, a.tokens, b.tokens, FixedLit(), FixedDist());
    } else if a.Dynamic? {
      OneDynamic(data, pos + 3, a, b);
    }
  }

  /** Two lists of blocks the stream consists of are the same, so there is one content of a stream. */
  lemma {:induction false} OneStream(data: seq<byte>, pos: nat, a: seq<Block>, b: seq<Block>)
    requires StreamAt(data, pos, a) && StreamAt(data, pos, b)
    ensures a == b
    decreases |a|
  {
    hide BlockEnd, LsbValue;
    OneBlock(data, pos, a[0], b[0]);
    assert a == [a[0]] + a[1..] && b == [b[0]] + b[1..];
    if |a| > 1 { OneStream(data, BlockEnd(data, pos, a[0]).value, a[1..], b[1..]); }
  }

  lemma OneContent(data: seq<byte>, a: seq<Block>, b: seq<Block>)
    requires WellFormed(data, a) && WellFormed(data, b)
    ensures Content([], a) == Content([], b)
  {
    hide StreamAt, Content;
    OneStream(data, 16, a, b);
  }

  // ---- a stream for every content ----

  const STORED_MAX := 65535

  /** The bytes in stored blocks, as few as will do. */
  function StoredBlocks(bytes: seq<byte>): seq<Block>
    decreases |bytes|
  {
    if |bytes| <= STORED_MAX then [Stored(bytes)] else [Stored(bytes[..STORED_MAX])] + StoredBlocks(bytes[STORED_MAX..])
  }

  /** A stored block that starts with a byte: whether it is the last one, its length and the complement of it. */
  function StoredBlock(bytes: seq<byte>, last: bool): (r: seq<byte>)
    requires |bytes| <= STORED_MAX
    ensures |r| == 5 + |bytes|
  {
    var lo, hi := |bytes| % 256, |bytes| / 256;
    [if last then 1 else 0, lo, hi, 255 - lo, 255 - hi] + bytes
  }

  function StoredBytes(bytes: seq<byte>): seq<byte>
    decreases |bytes|
  {
    if |bytes| <= STORED_MAX then StoredBlock(bytes, true)
    else StoredBlock(bytes[..STORED_MAX], false) + StoredBytes(bytes[STORED_MAX..])
  }

  lemma StoredBlockAt(before: seq<byte>, bytes: seq<byte>, last: bool, rest: seq<byte>)
    requires |bytes| <= STORED_MAX
    ensures var data, pos := before + StoredBlock(bytes, last) + rest, 8 * |before|;
            && LsbAt(data, pos, 1, if last then 1 else 0)
            && BlockEnd(data, pos, Stored(bytes)) == Some(pos + 8 * |StoredBlock(bytes, last)|)
  {
    var data, pos := before + StoredBlock(bytes, last) + rest, 8 * |before|;
    assert data[|before|] == if last then 1 else 0;
    FlagBits(data, |before|, last);
    assert data[|before| + 5..|before| + 5 + |bytes|] == bytes;
    assert (pos + 3 + 7) / 8 == |before| + 1;
    hide LsbValue;
    assert StoredEnd(data, pos + 3, bytes) == Some(pos + 8 * (5 + |bytes|));
  }

  lemma FlagBits(data: seq<byte>, at: nat, last: bool)
    requires at < |data| && data[at] == if last then 1 else 0
    ensures LsbAt(data, 8 * at, 1, if last then 1 else 0) && LsbAt(data, 8 * at + 1, 2, 0)
  {
    SmallPowers();
    assert BitAt(data, 8 * at) == (if last then 1 else 0) && BitAt(data, 8 * at + 1) == 0;
    assert BitAt(data, 8 * at + 2) == 0;
    assert LsbValue(data, 8 * at, 0) == 0;
    assert LsbValue(data, 8 * at + 1, 0) == 0 && LsbValue(data, 8 * at + 1, 1) == 0;
  }

  lemma {:induction false} StoredStreamAt(before: seq<byte>, bytes: seq<byte>)
    ensures StreamAt(before + StoredBytes(bytes), 8 * |before|, StoredBlocks(bytes))
    decreases |bytes|
  {
    hide LsbValue, BlockEnd, StoredBlock;
    var data := before + StoredBytes(bytes);
    if |bytes| <= STORED_MAX {
      StoredBlockAt(before, bytes, true, []);
      assert before + StoredBlock(bytes, true) + [] == data;
    } else {
      var first, rest := bytes[..STORED_MAX], bytes[STORED_MAX..];
      StoredBlockAt(before, first, false, StoredBytes(rest));
      assert before + StoredBlock(first, false) + StoredBytes(rest) == data;
      StoredStreamAt(before + StoredBlock(first, false), rest);
      assert StoredBlocks(bytes)[1..] == StoredBlocks(rest);
    }
  }

  lemma {:induction false} StoredContent(out: seq<byte>, bytes: seq<byte>)
    ensures BlocksResolve(|out|, StoredBlocks(bytes)) && Content(out, StoredBlocks(bytes)) == out + bytes
    decreases |bytes|
  {
    hide Content, BlocksResolve;
    if |bytes| <= STORED_MAX {
      NoBlocks(out + bytes);
      ContentStored(out, bytes, []);
      assert [Stored(bytes)] + [] == StoredBlocks(bytes);
    } else {
      var first, rest := bytes[..STORED_MAX], bytes[STORED_MAX..];
      StoredContent(out + first, rest);
      ContentStored(out, first, StoredBlocks(rest));
      assert out + first + rest == out + bytes;
    }
  }

  lemma ContentStored(out: seq<byte>, bytes: seq<byte>, blocks: seq<Block>)
    requires BlocksResolve(|out + bytes|, blocks)
    ensures BlocksResolve(|out|, [Stored(bytes)] + blocks)
    ensures Content(out, [Stored(bytes)] + blocks) == Content(out + bytes, blocks)
  {
    assert ([Stored(bytes)] + blocks)[1..] == blocks;
  }

  /** Every byte string is the content of a stream of stored blocks. */
  lemma StoredStream(bytes: seq<byte>)
    ensures var data := [120, 1] + StoredBytes(bytes);
            WellFormed(data, StoredBlocks(bytes)) && Content([], StoredBlocks(bytes)) == bytes
  {
    hide StreamAt, Content, StoredBytes;
    StoredStreamAt([120, 1], bytes);
    StoredContent([], bytes);
    assert [] + bytes == bytes;
  }
}
