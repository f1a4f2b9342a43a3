// Two zlib streams written out byte by byte, and what they decompress to.
module PngSamples {
  import opened Options
  import opened Bytes
  import opened PngBits
  import opened PngHuffman
  import opened PngInflate
  import opened PngCodes

  // ---- a few bits at a time ----

  /** Bit `p`, 0 behind the end. */
  function Bit(data: seq<byte>, p: nat): nat { if p < BitLen(data) then BitAt(data, p) else 0 }

  /** The bits of byte `i`, least significant first. */
  lemma BitsOf(data: seq<byte>, i: nat, a: nat, b: nat, c: nat, d: nat, e: nat, f: nat, g: nat, h: nat)
    requires a < 2 && b < 2 && c < 2 && d < 2 && e < 2 && f < 2 && g < 2 && h < 2 && i < |data|
    requires data[i] == a + 2 * b + 4 * c + 8 * d + 16 * e + 32 * f + 64 * g + 128 * h
    ensures Bit(data, 8 * i) == a && Bit(data, 8 * i + 1) == b && Bit(data, 8 * i + 2) == c && Bit(data, 8 * i + 3) == d
    ensures Bit(data, 8 * i + 4) == e && Bit(data, 8 * i + 5) == f && Bit(data, 8 * i + 6) == g
    ensures Bit(data, 8 * i + 7) == h
  {
    hide Bit;
    Binary(data[i], a, b, c, d, e, f, g, h);
    BitsIn(data, i);
  }

  lemma BitsIn(data: seq<byte>, i: nat)
    requires i < |data|
    ensures Bit(data, 8 * i) == data[i] % 2 && Bit(data, 8 * i + 1) == data[i] / 2 % 2
    ensures Bit(data, 8 * i + 2) == data[i] / 4 % 2 && Bit(data, 8 * i + 3) == data[i] / 8 % 2
    ensures Bit(data, 8 * i + 4) == data[i] / 16 % 2 && Bit(data, 8 * i + 5) == data[i] / 32 % 2
    ensures Bit(data, 8 * i + 6) == data[i] / 64 % 2 && Bit(data, 8 * i + 7) == data[i] / 128 % 2
  {
    hide Pow2;
    PowersOf2();
  }

  lemma Binary(v: nat, a: nat, b: nat, c: nat, d: nat, e: nat, f: nat, g: nat, h: nat)
    requires a < 2 && b < 2 && c < 2 && d < 2 && e < 2 && f < 2 && g < 2 && h < 2
    requires v == a + 2 * b + 4 * c + 8 * d + 16 * e + 32 * f + 64 * g + 128 * h
    ensures v % 2 == a && v / 2 % 2 == b && v / 4 % 2 == c && v / 8 % 2 == d
    ensures v / 16 % 2 == e && v / 32 % 2 == f && v / 64 % 2 == g && v / 128 % 2 == h
  {
    Halves(v);
    Half(v, a, b + 2 * c + 4 * d + 8 * e + 16 * f + 32 * g + 64 * h);
    Half(v / 2, b, c + 2 * d + 4 * e + 8 * f + 16 * g + 32 * h);
    Half(v / 4, c, d + 2 * e + 4 * f + 8 * g + 16 * h);
    Half(v / 8, d, e + 2 * f + 4 * g + 8 * h);
    Half(v / 16, e, f + 2 * g + 4 * h);
    Half(v / 32, f, g + 2 * h);
    Half(v / 64, g, h);
  }

  lemma Half(v: nat, bit: nat, rest: nat)
    requires bit < 2 && v == bit + 2 * rest
    ensures v / 2 == rest && v % 2 == bit
  {}

  lemma Halves(v: nat)
    ensures v / 2 / 2 == v / 4 && v / 4 / 2 == v / 8 && v / 8 / 2 == v / 16 && v / 16 / 2 == v / 32
    ensures v / 32 / 2 == v / 64 && v / 64 / 2 == v / 128
  {}

  lemma PowersOf2()
    ensures Pow2(0) == 1 && Pow2(1) == 2 && Pow2(2) == 4 && Pow2(3) == 8 && Pow2(4) == 16
    ensures Pow2(5) == 32 && Pow2(6) == 64 && Pow2(7) == 128
  {
    assert Pow2(1) == 2 && Pow2(2) == 4 && Pow2(3) == 8 && Pow2(4) == 16 && Pow2(5) == 32 && Pow2(6) == 64;
  }

  lemma Msb(data: seq<byte>, pos: nat)
    requires pos + 8 <= BitLen(data)
    ensures MsbValue(data, pos, 1) == Bit(data, pos)
    ensures MsbValue(data, pos, 2) == 2 * Bit(data, pos) + Bit(data, pos + 1)
    ensures MsbValue(data, pos, 5)
            == 16 * Bit(data, pos) + 8 * Bit(data, pos + 1) + 4 * Bit(data, pos + 2) + 2 * Bit(data, pos + 3)
               + Bit(data, pos + 4)
    ensures MsbValue(data, pos, 7) == 4 * MsbValue(data, pos, 5) + 2 * Bit(data, pos + 5) + Bit(data, pos + 6)
    ensures MsbValue(data, pos, 8) == 2 * MsbValue(data, pos, 7) + Bit(data, pos + 7)
  {
    hide BitAt;
    assert MsbValue(data, pos, 2) == 2 * MsbValue(data, pos, 1) + BitAt(data, pos + 1);
    assert MsbValue(data, pos, 3) == 2 * MsbValue(data, pos, 2) + BitAt(data, pos + 2);
    assert MsbValue(data, pos, 4) == 2 * MsbValue(data, pos, 3) + BitAt(data, pos + 3);
    assert MsbValue(data, pos, 6) == 2 * MsbValue(data, pos, 5) + BitAt(data, pos + 5);
  }

  lemma Lsb(data: seq<byte>, pos: nat)
    requires pos + 7 <= BitLen(data)
    ensures LsbValue(data, pos, 0) == 0 && LsbValue(data, pos, 1) == Bit(data, pos)
    ensures LsbValue(data, pos, 2) == LsbValue(data, pos, 1) + 2 * Bit(data, pos + 1)
    ensures LsbValue(data, pos, 3) == LsbValue(data, pos, 2) + 4 * Bit(data, pos + 2)
    ensures LsbValue(data, pos, 4) == LsbValue(data, pos, 3) + 8 * Bit(data, pos + 3)
    ensures LsbValue(data, pos, 5) == LsbValue(data, pos, 4) + 16 * Bit(data, pos + 4)
    ensures LsbValue(data, pos, 7) == LsbValue(data, pos, 5) + 32 * Bit(data, pos + 5) + 64 * Bit(data, pos + 6)
  {
    hide BitAt;
    assert Pow2(1) == 2 && Pow2(2) == 4 && Pow2(3) == 8 && Pow2(4) == 16 && Pow2(5) == 32 && Pow2(6) == 64;
    assert LsbValue(data, pos, 6) == LsbValue(data, pos, 5) + BitAt(data, pos + 5) * 32;
  }

  // ---- token by token ----

  lemma TokenStep(data: seq<byte>, pos: nat, tokens: seq<Token>, k: nat, lit: seq<nat>, dist: seq<nat>)
    requires k < |tokens| && |lit| > 256 && TokenEnd(data, pos, tokens[k], lit, dist).Some?
    ensures TokensEnd(data, pos, tokens[k..], lit, dist)
            == TokensEnd(data, TokenEnd(data, pos, tokens[k], lit, dist).value, tokens[k + 1..], lit, dist)
  {
    assert tokens[k..][0] == tokens[k] && tokens[k..][1..] == tokens[k + 1..];
  }

  /** The tokens in a sequence of tokens, one after the other. */
  lemma EmitStep(out: seq<byte>, tokens: seq<Token>, k: nat)
    requires k < |tokens| && Reaches(|out|, tokens[k]) && Resolves(|Emit(out, tokens[k])|, tokens[k + 1..])
    ensures Resolves(|out|, tokens[k..]) && Expand(out, tokens[k..]) == Expand(Emit(out, tokens[k]), tokens[k + 1..])
    ensures TokensLen(|out|, tokens[k..]) == TokensLen(|Emit(out, tokens[k])|, tokens[k + 1..])
  {
    hide Emit, Reaches, TokenLen, ValidCodes;
    assert tokens[k..][0] == tokens[k] && tokens[k..][1..] == tokens[k + 1..];
  }

  lemma LiteralStep(out: seq<byte>, tokens: seq<Token>, k: nat, next: seq<byte>)
    requires k < |tokens| && tokens[k].Literal? && next == out + [tokens[k].value]
    requires Resolves(|next|, tokens[k + 1..])
    ensures Resolves(|out|, tokens[k..]) && Expand(out, tokens[k..]) == Expand(next, tokens[k + 1..])
  {
    EmitStep(out, tokens, k);
  }

  lemma OnlyBlock(data: seq<byte>, block: Block)
    requires LsbAt(data, 16, 1, 1) && BlockEnd(data, 16, block).Some? && BlocksResolve(0, [block])
    ensures WellFormed(data, [block]) && Content([], [block]) == BlockBytes([], block)
  {
    assert [block][1..] == [];
  }

  // ---- a block with the fixed code ----

  lemma FixedWord(data: seq<byte>, pos: nat, s: nat)
    requires s < 144 && pos + 8 <= BitLen(data) && MsbValue(data, pos, 8) == 0x30 + s
    ensures TokenEnd(data, pos, Literal(s), FixedLit(), FixedDist()) == Some(pos + 8)
  {
    FixedCode(s);
  }

  /** "moosmoosm": five letters, and four bytes from four bytes before. */
  const MOOS: seq<byte> := [120, 1, 203, 205, 207, 47, 206, 5, 97, 0, 19, 142, 3, 234]

  function MoosTokens(): seq<Token> {
    [Literal(109), Literal(111), Literal(111), Literal(115), Literal(109), Copy(1, 0, 3, 0)]
  }

  lemma MoosFront(data: seq<byte>)
    requires data == MOOS
    ensures LsbAt(data, 16, 1, 1) && LsbAt(data, 17, 2, 1)
    ensures MsbValue(data, 19, 8) == 0x30 + 109 && MsbValue(data, 27, 8) == 0x30 + 111
    ensures MsbValue(data, 35, 8) == 0x30 + 111
  {
    hide Bit, LsbValue, MsbValue;
    BitsOf(data, 2, 1, 1, 0, 1, 0, 0, 1, 1);
    BitsOf(data, 3, 1, 0, 1, 1, 0, 0, 1, 1);
    BitsOf(data, 4, 1, 1, 1, 1, 0, 0, 1, 1);
    BitsOf(data, 5, 1, 1, 1, 1, 0, 1, 0, 0);
    Lsb(data, 16);
    Lsb(data, 17);
    Msb(data, 19);
    Msb(data, 27);
    Msb(data, 35);
  }

  lemma MoosMiddle(data: seq<byte>)
    requires data == MOOS
    ensures MsbValue(data, 43, 8) == 0x30 + 115 && MsbValue(data, 51, 8) == 0x30 + 109 && MsbValue(data, 59, 7) == 2
  {
    hide Bit, LsbValue, MsbValue;
    BitsOf(data, 5, 1, 1, 1, 1, 0, 1, 0, 0);
    BitsOf(data, 6, 0, 1, 1, 1, 0, 0, 1, 1);
    BitsOf(data, 7, 1, 0, 1, 0, 0, 0, 0, 0);
    BitsOf(data, 8, 1, 0, 0, 0, 0, 1, 1, 0);
    Msb(data, 43);
    Msb(data, 51);
    Msb(data, 59);
  }

  lemma MoosBack(data: seq<byte>)
    requires data == MOOS
    ensures MsbValue(data, 66, 5) == 3 && MsbValue(data, 71, 7) == 0
    ensures LsbAt(data, 66, 0, 0) && LsbAt(data, 71, 0, 0)
  {
    hide Bit, LsbValue, MsbValue;
    BitsOf(data, 8, 1, 0, 0, 0, 0, 1, 1, 0);
    BitsOf(data, 9, 0, 0, 0, 0, 0, 0, 0, 0);
    Lsb(data, 66);
    Lsb(data, 71);
    Msb(data, 66);
    Msb(data, 71);
  }

  lemma MoosWords(data: seq<byte>)
    requires data == MOOS
    ensures TokenEnd(data, 19, Literal(109), FixedLit(), FixedDist()) == Some(27)
    ensures TokenEnd(data, 27, Literal(111), FixedLit(), FixedDist()) == Some(35)
    ensures TokenEnd(data, 35, Literal(111), FixedLit(), FixedDist()) == Some(43)
    ensures TokenEnd(data, 43, Literal(115), FixedLit(), FixedDist()) == Some(51)
    ensures TokenEnd(data, 51, Literal(109), FixedLit(), FixedDist()) == Some(59)
  {
    hide MsbValue, LsbValue, FixedLit, FixedDist, Code, TokenEnd;
    MoosFront(data);
    MoosMiddle(data);
    assert BitLen(data) == 112;
    FixedWord(data, 19, 109);
    FixedWord(data, 27, 111);
    FixedWord(data, 35, 111);
    FixedWord(data, 43, 115);
    FixedWord(data, 51, 109);
  }

  lemma MoosCopy(data: seq<byte>)
    requires data == MOOS
    ensures TokenEnd(data, 59, Copy(1, 0, 3, 0), FixedLit(), FixedDist()) == Some(71)
    ensures TokensEnd(data, 71, [], FixedLit(), FixedDist()) == Some(78)
  {
    hide MsbValue, LsbValue, FixedLit, FixedDist, Code;
    MoosMiddle(data);
    MoosBack(data);
    assert BitLen(data) == 112 && LengthExtra(1) == 0 && DistExtra(3) == 0;
    assert CodeAt(data, 59, FixedLit(), 258) by { FixedCode(258); }
    assert CodeAt(data, 66, FixedDist(), 3) by { FixedDistance(3); }
    assert CodeAt(data, 71, FixedLit(), 256) by { FixedCode(256); }
    FixedCode(256);
    FixedCode(258);
    FixedDistance(3);
  }

  lemma MoosTokensAt(data: seq<byte>, t: seq<Token>)
    requires data == MOOS && t == MoosTokens()
    ensures TokensEnd(data, 19, t, FixedLit(), FixedDist()) == Some(78)
  {
    var lit, dist := FixedLit(), FixedDist();
    assert t[6..] == [] && t[0..] == t;
    MoosWords(data);
    MoosCopy(data);
    hide FixedLit, FixedDist, TokensEnd, TokenEnd;
    TokenStep(data, 19, t, 0, lit, dist);
    TokenStep(data, 27, t, 1, lit, dist);
    TokenStep(data, 35, t, 2, lit, dist);
    TokenStep(data, 43, t, 3, lit, dist);
    TokenStep(data, 51, t, 4, lit, dist);
    TokenStep(data, 59, t, 5, lit, dist);
  }

  lemma MoosCopied(out: seq<byte>)
    requires out == [109, 111, 111, 115, 109]
    ensures Reaches(5, Copy(1, 0, 3, 0))
    ensures Emit(out, Copy(1, 0, 3, 0)) == [109, 111, 111, 115, 109, 111, 111, 115, 109]
  {
    assert Distance(Copy(1, 0, 3, 0)) == 4 && CopyLength(Copy(1, 0, 3, 0)) == 4;
  }

  lemma MoosExpands(t: seq<Token>)
    requires t == MoosTokens()
    ensures Resolves(0, t) && Expand([], t) == [109, 111, 111, 115, 109, 111, 111, 115, 109]
  {
    var out: seq<byte> := [109, 111, 111, 115, 109];
    assert t[6..] == [] && t[0..] == t;
    MoosCopied(out);
    EmitStep(out, t, 5);
    hide *;
    LiteralStep([109, 111, 111, 115], t, 4, out);
    LiteralStep([109, 111, 111], t, 3, [109, 111, 111, 115]);
    LiteralStep([109, 111], t, 2, [109, 111, 111]);
    LiteralStep([109], t, 1, [109, 111]);
    LiteralStep([], t, 0, [109]);
  }

  /** A stream with the fixed code. */
  lemma MoosStream()
    ensures WellFormed(MOOS, [Fixed(MoosTokens())])
    ensures Content([], [Fixed(MoosTokens())]) == [109, 111, 111, 115, 109, 111, 111, 115, 109]
  {
    hide *;
    MoosFront(MOOS);
    MoosTokensAt(MOOS, MoosTokens());
    MoosExpands(MoosTokens());
    FixedBlock(MOOS, MoosTokens(), 78);
    OnlyBlock(MOOS, Fixed(MoosTokens()));
  }

  lemma FixedBlock(data: seq<byte>, tokens: seq<Token>, end: nat)
    requires LsbAt(data, 17, 2, 1) && TokensEnd(data, 19, tokens, FixedLit(), FixedDist()) == Some(end)
    requires Resolves(0, tokens)
    ensures BlockEnd(data, 16, Fixed(tokens)) == Some(end) && BlocksResolve(0, [Fixed(tokens)])
    ensures BlockBytes([], Fixed(tokens)) == Expand([], tokens)
  {
    hide TokensEnd, Expand, LsbValue, FixedLit, FixedDist;
    assert [Fixed(tokens)][1..] == [];
  }

  // ---- a block with its own code ----

  /** "aaaa": one letter, and three bytes from one byte before. */
  const AAAA: seq<byte> := [120, 218, 13, 192, 129, 0, 0, 0, 0, 128, 32, 214, 252, 37, 62, 11, 3, 206, 1, 133]

  function AaaaTokens(): seq<Token> { [Literal(97), Copy(0, 0, 0, 0)] }

  /** Codes of 1 bit for "a" and of 2 bits for the end of the block and length 3; one distance of 1 bit. */
  function AaaaLengths(): (r: seq<nat>)
    ensures |r| == 259
  {
    seq(259, i => if i == 97 || i == 258 then 1 else if i >= 256 then 2 else 0)
  }

  function AaaaRuns(): seq<Run> {
    [ManyZeros(97), Length(1), ManyZeros(138), ManyZeros(20), Length(2), Length(2), Length(1)]
  }

  lemma AaaaFront(data: seq<byte>)
    requires data == AAAA
    ensures Bit(data, 16) == 1 && Bit(data, 17) == 0 && Bit(data, 18) == 1 && Bit(data, 19) == 1
    ensures Bit(data, 20) == 0 && Bit(data, 21) == 0 && Bit(data, 22) == 0 && Bit(data, 23) == 0
    ensures Bit(data, 24) == 0 && Bit(data, 25) == 0 && Bit(data, 26) == 0 && Bit(data, 27) == 0
    ensures Bit(data, 28) == 0 && Bit(data, 29) == 0 && Bit(data, 30) == 1 && Bit(data, 31) == 1
    ensures Bit(data, 32) == 1 && Bit(data, 33) == 0 && Bit(data, 34) == 0 && Bit(data, 35) == 0
    ensures Bit(data, 36) == 0 && Bit(data, 37) == 0 && Bit(data, 38) == 0 && Bit(data, 39) == 1
    ensures Bit(data, 40) == 0 && Bit(data, 41) == 0 && Bit(data, 42) == 0 && Bit(data, 43) == 0
    ensures Bit(data, 44) == 0 && Bit(data, 45) == 0 && Bit(data, 46) == 0 && Bit(data, 47) == 0
  {
    hide Bit;
    BitsOf(data, 2, 1, 0, 1, 1, 0, 0, 0, 0);
    BitsOf(data, 3, 0, 0, 0, 0, 0, 0, 1, 1);
    BitsOf(data, 4, 1, 0, 0, 0, 0, 0, 0, 1);
    BitsOf(data, 5, 0, 0, 0, 0, 0, 0, 0, 0);
  }

  lemma AaaaMiddle(data: seq<byte>)
    requires data == AAAA
    ensures Bit(data, 48) == 0 && Bit(data, 49) == 0 && Bit(data, 50) == 0 && Bit(data, 51) == 0
    ensures Bit(data, 52) == 0 && Bit(data, 53) == 0 && Bit(data, 54) == 0 && Bit(data, 55) == 0
    ensures Bit(data, 56) == 0 && Bit(data, 57) == 0 && Bit(data, 58) == 0 && Bit(data, 59) == 0
    ensures Bit(data, 60) == 0 && Bit(data, 61) == 0 && Bit(data, 62) == 0 && Bit(data, 63) == 0
    ensures Bit(data, 64) == 0 && Bit(data, 65) == 0 && Bit(data, 66) == 0 && Bit(data, 67) == 0
    ensures Bit(data, 68) == 0 && Bit(data, 69) == 0 && Bit(data, 70) == 0 && Bit(data, 71) == 0
    ensures Bit(data, 72) == 0 && Bit(data, 73) == 0 && Bit(data, 74) == 0 && Bit(data, 75) == 0
    ensures Bit(data, 76) == 0 && Bit(data, 77) == 0 && Bit(data, 78) == 0 && Bit(data, 79) == 1
    ensures Bit(data, 80) == 0 && Bit(data, 81) == 0 && Bit(data, 82) == 0 && Bit(data, 83) == 0
    ensures Bit(data, 84) == 0 && Bit(data, 85) == 1 && Bit(data, 86) == 0 && Bit(data, 87) == 0
  {
    hide Bit;
    BitsOf(data, 6, 0, 0, 0, 0, 0, 0, 0, 0);
    BitsOf(data, 7, 0, 0, 0, 0, 0, 0, 0, 0);
    BitsOf(data, 8, 0, 0, 0, 0, 0, 0, 0, 0);
    BitsOf(data, 9, 0, 0, 0, 0, 0, 0, 0, 1);
    BitsOf(data, 10, 0, 0, 0, 0, 0, 1, 0, 0);
  }

  lemma AaaaBack(data: seq<byte>)
    requires data == AAAA
    ensures Bit(data, 88) == 0 && Bit(data, 89) == 1 && Bit(data, 90) == 1 && Bit(data, 91) == 0
    ensures Bit(data, 92) == 1 && Bit(data, 93) == 0 && Bit(data, 94) == 1 && Bit(data, 95) == 1
    ensures Bit(data, 96) == 0 && Bit(data, 97) == 0 && Bit(data, 98) == 1 && Bit(data, 99) == 1
    ensures Bit(data, 100) == 1 && Bit(data, 101) == 1 && Bit(data, 102) == 1 && Bit(data, 103) == 1
    ensures Bit(data, 104) == 1 && Bit(data, 105) == 0 && Bit(data, 106) == 1 && Bit(data, 107) == 0
    ensures Bit(data, 108) == 0 && Bit(data, 109) == 1 && Bit(data, 110) == 0 && Bit(data, 111) == 0
    ensures Bit(data, 112) == 0 && Bit(data, 113) == 1 && Bit(data, 114) == 1 && Bit(data, 115) == 1
    ensures Bit(data, 116) == 1 && Bit(data, 117) == 1 && Bit(data, 118) == 0 && Bit(data, 119) == 0
    ensures Bit(data, 120) == 1 && Bit(data, 121) == 1 && Bit(data, 122) == 0 && Bit(data, 123) == 1
    ensures Bit(data, 124) == 0 && Bit(data, 125) == 0 && Bit(data, 126) == 0 && Bit(data, 127) == 0
  {
    hide Bit;
    BitsOf(data, 11, 0, 1, 1, 0, 1, 0, 1, 1);
    BitsOf(data, 12, 0, 0, 1, 1, 1, 1, 1, 1);
    BitsOf(data, 13, 1, 0, 1, 0, 0, 1, 0, 0);
    BitsOf(data, 14, 0, 1, 1, 1, 1, 1, 0, 0);
    BitsOf(data, 15, 1, 1, 0, 1, 0, 0, 0, 0);
  }

  lemma AaaaHeader(data: seq<byte>)
    requires data == AAAA
    ensures LsbAt(data, 16, 1, 1) && LsbAt(data, 17, 2, 2)
    ensures LsbAt(data, 19, 5, 1) && LsbAt(data, 24, 5, 0) && LsbAt(data, 29, 4, 14)
  {
    AaaaFront(data);
    hide Bit, LsbValue, BitAt;
    Lsb(data, 16);
    Lsb(data, 17);
    Lsb(data, 19);
    Lsb(data, 24);
    Lsb(data, 29);
  }

  lemma Three(data: seq<byte>, pos: nat, value: nat)
    requires pos + 7 <= BitLen(data) && value == Bit(data, pos) + 2 * Bit(data, pos + 1) + 4 * Bit(data, pos + 2)
    ensures LsbValue(data, pos, 3) == value
  {
    hide Bit, LsbValue;
    Lsb(data, pos);
  }

  /** The 18 fields of three bits: length 1 for the symbol in place 2, length 2 for those in places 15 and 17. */
  lemma AaaaField(data: seq<byte>, k: nat)
    requires data == AAAA && k < 18
    ensures 33 + 3 * k + 3 <= BitLen(data)
    ensures LsbValue(data, 33 + 3 * k, 3) == if k == 2 then 1 else if k == 15 || k == 17 then 2 else 0
  {
    hide LsbValue;
    if k < 9 { FieldsFront(data); } else { FieldsBack(data); }
  }

  lemma FieldsFront(data: seq<byte>)
    requires data == AAAA
    ensures LsbValue(data, 33, 3) == 0 && LsbValue(data, 36, 3) == 0 && LsbValue(data, 39, 3) == 1
    ensures LsbValue(data, 42, 3) == 0 && LsbValue(data, 45, 3) == 0 && LsbValue(data, 48, 3) == 0
    ensures LsbValue(data, 51, 3) == 0 && LsbValue(data, 54, 3) == 0 && LsbValue(data, 57, 3) == 0
  {
    AaaaFront(data);
    AaaaMiddle(data);
    hide *;
    assert BitLen(data) == 160;
    Three(data, 33, 0);
    Three(data, 36, 0);
    Three(data, 39, 1);
    Three(data, 42, 0);
    Three(data, 45, 0);
    Three(data, 48, 0);
    Three(data, 51, 0);
    Three(data, 54, 0);
    Three(data, 57, 0);
  }

  lemma FieldsBack(data: seq<byte>)
    requires data == AAAA
    ensures LsbValue(data, 60, 3) == 0 && LsbValue(data, 63, 3) == 0 && LsbValue(data, 66, 3) == 0
    ensures LsbValue(data, 69, 3) == 0 && LsbValue(data, 72, 3) == 0 && LsbValue(data, 75, 3) == 0
    ensures LsbValue(data, 78, 3) == 2 && LsbValue(data, 81, 3) == 0 && LsbValue(data, 84, 3) == 2
  {
    AaaaMiddle(data);
    hide *;
    assert BitLen(data) == 160;
    Three(data, 60, 0);
    Three(data, 63, 0);
    Three(data, 66, 0);
    Three(data, 69, 0);
    Three(data, 72, 0);
    Three(data, 75, 0);
    Three(data, 78, 2);
    Three(data, 81, 0);
    Three(data, 84, 2);
  }

  lemma AaaaMeta(data: seq<byte>, s: nat)
    requires data == AAAA && s < 19
    ensures MetaLengths(data, 33, 18)[s] == if s == 18 then 1 else if s == 1 || s == 2 then 2 else 0
  {
    hide LsbValue, MetaLengths;
    assert BitLen(data) == 160;
    if Place(s) < 18 { AaaaField(data, Place(s)); }
    MetaLengthAt(data, 33, 18, s);
  }

  /** One symbol with a code of one bit, and two of two bits. */
  ghost predicate ThreeSymbols(lengths: seq<nat>, a: nat, b: nat, c: nat) {
    && a < |lengths| && b < c < |lengths| && a != b && a != c
    && forall i :: 0 <= i < |lengths| ==> lengths[i] == if i == a then 1 else if i == b || i == c then 2 else 0
  }

  lemma {:induction false} ThreeCounted(lengths: seq<nat>, a: nat, b: nat, c: nat, k: nat)
    requires ThreeSymbols(lengths, a, b, c) && k <= |lengths|
    ensures Count(lengths[..k], 1) == if k > a then 1 else 0
    ensures Count(lengths[..k], 2) == (if k > b then 1 else 0) + if k > c then 1 else 0
    decreases k
  {
    if k > 0 {
      ThreeCounted(lengths, a, b, c, k - 1);
      CountStep(lengths, k - 1, 1);
      CountStep(lengths, k - 1, 2);
    }
  }

  /** Their code words are 0, 10 and 11. */
  lemma ThreeWords(lengths: seq<nat>, a: nat, b: nat, c: nat)
    requires ThreeSymbols(lengths, a, b, c)
    ensures Code(lengths, a) == 0 && Code(lengths, b) == 2 && Code(lengths, c) == 3
  {
    ThreeCounted(lengths, a, b, c, a);
    ThreeCounted(lengths, a, b, c, b);
    ThreeCounted(lengths, a, b, c, c);
    ThreeCounted(lengths, a, b, c, |lengths|);
    assert lengths[..|lengths|] == lengths;
    hide Count;
    assert FirstCode(lengths, 1) == 0;
  }

  lemma AaaaWords(data: seq<byte>)
    requires data == AAAA
    ensures MsbValue(data, 87, 1) == 0 && LsbAt(data, 88, 7, 86) && MsbValue(data, 95, 2) == 2
    ensures MsbValue(data, 97, 1) == 0 && LsbAt(data, 98, 7, 127) && MsbValue(data, 105, 1) == 0
    ensures LsbAt(data, 106, 7, 9) && MsbValue(data, 113, 2) == 3
  {
    AaaaMiddle(data);
    AaaaBack(data);
    hide *;
    assert BitLen(data) == 160;
    Msb(data, 87);
    Lsb(data, 88);
    Msb(data, 95);
    Msb(data, 97);
    Lsb(data, 98);
    Msb(data, 105);
    Lsb(data, 106);
    Msb(data, 113);
  }

  lemma AaaaLastWords(data: seq<byte>)
    requires data == AAAA
    ensures MsbValue(data, 115, 2) == 3 && MsbValue(data, 117, 2) == 2 && MsbValue(data, 119, 1) == 0
    ensures MsbValue(data, 120, 2) == 3 && MsbValue(data, 122, 1) == 0 && MsbValue(data, 123, 2) == 2
    ensures LsbAt(data, 122, 0, 0) && LsbAt(data, 123, 0, 0)
  {
    AaaaBack(data);
    hide *;
    assert BitLen(data) == 160;
    Msb(data, 115);
    Msb(data, 117);
    Msb(data, 119);
    Msb(data, 120);
    Msb(data, 122);
    Msb(data, 123);
    Lsb(data, 122);
    Lsb(data, 123);
  }

  lemma RunStepAt(data: seq<byte>, pos: nat, runs: seq<Run>, k: nat, meta: seq<nat>)
    requires k < |runs| && RunEnd(data, pos, runs[k], meta).Some?
    ensures RunsEnd(data, pos, runs[k..], meta)
            == RunsEnd(data, RunEnd(data, pos, runs[k], meta).value, runs[k + 1..], meta)
  {
    assert runs[k..][0] == runs[k] && runs[k..][1..] == runs[k + 1..];
  }

  lemma NoRunsLeft(data: seq<byte>, pos: nat, meta: seq<nat>)
    ensures RunsEnd(data, pos, [], meta) == Some(pos)
  {}

  lemma AaaaRunsAt(data: seq<byte>, runs: seq<Run>, meta: seq<nat>)
    requires data == AAAA && runs == AaaaRuns() && |meta| == 19 && ThreeSymbols(meta, 18, 1, 2)
    ensures RunsEnd(data, 87, runs, meta) == Some(119)
  {
    hide MsbValue, LsbValue, RunsEnd, Code, LsbAt;
    ThreeWords(meta, 18, 1, 2);
    AaaaWords(data);
    AaaaLastWords(data);
    assert BitLen(data) == 160 && runs[7..] == [] && runs[0..] == runs;
    NoRunsLeft(data, 119, meta);
    RunStepAt(data, 87, runs, 0, meta);
    RunStepAt(data, 95, runs, 1, meta);
    RunStepAt(data, 97, runs, 2, meta);
    RunStepAt(data, 105, runs, 3, meta);
    RunStepAt(data, 113, runs, 4, meta);
    RunStepAt(data, 115, runs, 5, meta);
    RunStepAt(data, 117, runs, 6, meta);
  }

  lemma RunsStep(lengths: seq<nat>, runs: seq<Run>, k: nat, next: seq<nat>)
    requires k < |runs| && (runs[k].Repeat? ==> |lengths| > 0) && next == RunStep(lengths, runs[k])
    requires RunsResolve(|next|, runs[k + 1..])
    ensures RunsResolve(|lengths|, runs[k..])
    ensures RunLengths(lengths, runs[k..]) == RunLengths(next, runs[k + 1..])
  {
    assert runs[k..][0] == runs[k] && runs[k..][1..] == runs[k + 1..];
  }

  lemma AaaaRunLengths(runs: seq<Run>)
    requires runs == AaaaRuns()
    ensures RunsResolve(0, runs) && RunLengths([], runs) == AaaaLengths()
  {
    var all := AaaaLengths();
    assert runs[7..] == [] && runs[0..] == runs && all[..259] == all && all[..0] == [];
    RunsDone(all[..259], runs[7..]);
    hide RunsResolve, RunLengths;
    RunsStep(all[..258], runs, 6, all[..259]);
    RunsStep(all[..257], runs, 5, all[..258]);
    RunsStep(all[..256], runs, 4, all[..257]);
    RunsStep(all[..236], runs, 3, all[..256]);
    RunsStep(all[..98], runs, 2, all[..236]);
    RunsStep(all[..97], runs, 1, all[..98]);
    RunsStep(all[..0], runs, 0, all[..97]);
  }

  lemma RunsDone(lengths: seq<nat>, runs: seq<Run>)
    requires runs == []
    ensures RunsResolve(|lengths|, runs) && RunLengths(lengths, runs) == lengths
  {}

  lemma AaaaTokensAt(data: seq<byte>, t: seq<Token>, lit: seq<nat>, dist: seq<nat>)
    requires data == AAAA && t == AaaaTokens() && |lit| == 258 && ThreeSymbols(lit, 97, 256, 257) && dist == [1]
    ensures TokensEnd(data, 119, t, lit, dist) == Some(125)
  {
    hide MsbValue, LsbValue, TokensEnd, Code, LsbAt;
    ThreeWords(lit, 97, 256, 257);
    AaaaLastWords(data);
    OneWord(dist);
    assert BitLen(data) == 160 && t[2..] == [] && t[0..] == t && LengthExtra(0) == 0 && DistExtra(0) == 0;
    TokenStep(data, 119, t, 0, lit, dist);
    TokenStep(data, 120, t, 1, lit, dist);
    NoTokensLeft(data, 123, t[2..], lit, dist);
  }

  lemma NoTokensLeft(data: seq<byte>, pos: nat, tokens: seq<Token>, lit: seq<nat>, dist: seq<nat>)
    requires |lit| > 256 && tokens == [] && CodeAt(data, pos, lit, 256)
    ensures TokensEnd(data, pos, tokens, lit, dist) == Some(pos + lit[256])
  {}

  lemma OneWord(dist: seq<nat>)
    requires dist == [1]
    ensures Code(dist, 0) == 0
  {
    assert dist[..0] == [] && FirstCode(dist, 1) == 0;
  }

  lemma AaaaExpands(t: seq<Token>)
    requires t == AaaaTokens()
    ensures Resolves(0, t) && Expand([], t) == [97, 97, 97, 97]
  {
    assert t[2..] == [] && t[0..] == t;
    assert Distance(t[1]) == 1 && CopyLength(t[1]) == 3 && Emit([97], t[1]) == [97, 97, 97, 97];
    EmitStep([97], t, 1);
    hide *;
    LiteralStep([], t, 0, [97]);
  }

  function AaaaBlock(): Block { Dynamic(258, 1, 18, AaaaRuns(), AaaaTokens()) }

  lemma AaaaBlockAt(data: seq<byte>)
    requires data == AAAA
    ensures BlockEnd(data, 16, AaaaBlock()) == Some(125)
  {
    hide LsbValue, TokensEnd, RunsEnd, MetaLengths, RunLengths, AaaaLengths, AaaaRuns, AaaaTokens;
    var meta, lengths := MetaLengths(data, 33, 18), AaaaLengths();
    AaaaHeader(data);
    forall s | 0 <= s < 19 ensures meta[s] == if s == 18 then 1 else if s == 1 || s == 2 then 2 else 0 {
      AaaaMeta(data, s);
    }
    AaaaRunsAt(data, AaaaRuns(), meta);
    AaaaRunLengths(AaaaRuns());
    AaaaSplit();
    AaaaTokensAt(data, AaaaTokens(), lengths[..258], lengths[258..]);
  }

  lemma AaaaSplit()
    ensures ThreeSymbols(AaaaLengths()[..258], 97, 256, 257) && AaaaLengths()[258..] == [1]
  {}

  /** A stream with a code of its own. */
  lemma AaaaStream()
    ensures WellFormed(AAAA, [AaaaBlock()]) && Content([], [AaaaBlock()]) == [97, 97, 97, 97]
  {
    hide BlockEnd, Resolves, Expand, LsbValue, AaaaTokens;
    AaaaHeader(AAAA);
    AaaaBlockAt(AAAA);
    AaaaExpands(AaaaTokens());
    assert [AaaaBlock()][1..] == [];
    OnlyBlock(AAAA, AaaaBlock());
  }
}
