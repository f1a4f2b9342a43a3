// Bits of a deflate stream, least significant bit of each byte first
// (RFC 1951 section 3.1.1).
module PngBits {
  import opened Bytes

  function Pow2(n: nat): (p: nat)
    ensures p >= 1
  {
    if n == 0 then 1 else 2 * Pow2(n - 1)
  }

  lemma {:induction false} Pow2Add(a: nat, b: nat)
    ensures Pow2(a + b) == Pow2(a) * Pow2(b)
  {
    if a == 0 {
    } else {
      Pow2Add(a - 1, b);
      assert Pow2(a + b) == 2 * Pow2(a - 1 + b);
      assert Pow2(a) * Pow2(b) == 2 * (Pow2(a - 1) * Pow2(b));
    }
  }

  /** Number of bits in `data`. */
  function BitLen(data: seq<byte>): nat { 8 * |data| }

  /** Bit `p` of the stream. */
  function BitAt(data: seq<byte>, p: nat): (b: nat)
    requires p < BitLen(data)
    ensures b < 2
  {
    (data[p / 8] / Pow2(p % 8)) % 2
  }

  /** The `n` bits from `pos` on as a number, first bit least significant. */
  ghost function LsbValue(data: seq<byte>, pos: nat, n: nat): (v: nat)
    requires pos + n <= BitLen(data)
    ensures v < Pow2(n)
  {
    if n == 0 then 0
    else LsbValue(data, pos, n - 1) + BitAt(data, pos + n - 1) * Pow2(n - 1)
  }

  /** The `n` bits from `pos` on as a number, first bit most significant:
      how huffman codes are packed. */
  ghost function MsbValue(data: seq<byte>, pos: nat, n: nat): (v: nat)
    requires pos + n <= BitLen(data)
    ensures v < Pow2(n)
  {
    if n == 0 then 0
    else 2 * MsbValue(data, pos, n - 1) + BitAt(data, pos + n - 1)
  }

  lemma MulDouble(a: int, p: int)
    ensures a * (2 * p) == 2 * (a * p)
  {}

  lemma MulMono(a: int, b: int, p: nat)
    requires a <= b
    ensures a * p <= b * p
  {}

  /** The first `m` of `n` bits bound all `n`. */
  lemma {:induction false} MsbPrefix(data: seq<byte>, pos: nat, m: nat, n: nat)
    requires m <= n && pos + n <= BitLen(data)
    ensures MsbValue(data, pos, m) * Pow2(n - m) <= MsbValue(data, pos, n) < (MsbValue(data, pos, m) + 1) * Pow2(n - m)
    decreases n
  {
    if m < n {
      MsbPrefix(data, pos, m, n - 1);
      var v, p := MsbValue(data, pos, m), Pow2(n - 1 - m);
      MulDouble(v, p);
      MulDouble(v + 1, p);
    }
  }

  /** Reader over the compressed data. */
  class Bits {
    const data: seq<byte>
    var pos: nat

    constructor (data: seq<byte>, pos: nat)
      ensures this.data == data && this.pos == pos
    {
      this.data := data;
      this.pos := pos;
    }

    /** The next `count` bits, or -1 when the data ends before them. */
    method GetBits(count: nat) returns (value: int)
      modifies this`pos
      ensures count == 0 ==> value == 0 && pos == old(pos)
      ensures old(pos) + count <= BitLen(data) ==>
                value == LsbValue(data, old(pos), count) && pos == old(pos) + count
      ensures count > 0 && old(pos) + count > BitLen(data) ==>
                value == -1 && pos == if old(pos) < BitLen(data) then BitLen(data) else old(pos)
    {
      value := 0;
      var weight := 1;
      for i := 0 to count
        invariant pos == old(pos) + i
        invariant i == 0 || pos <= BitLen(data)
        invariant weight == Pow2(i)
        invariant i == 0 ==> value == 0
        invariant pos <= BitLen(data) ==> value == LsbValue(data, old(pos), i)
      {
        if pos / 8 >= |data| {
          return -1;
        }
        value := value + BitAt(data, pos) * weight;
        weight := 2 * weight;
        pos := pos + 1;
      }
    }
  }
}
