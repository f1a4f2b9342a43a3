// Memory as a function from addresses to bytes, and writes to it.
module ByteMemory {
  import opened Bytes

  type Uint32 = x: int | 0 <= x < 0x1_0000_0000

  type Memory = nat -> byte

  function ByteOf(v: Uint32, k: nat): byte
    requires k < 4
  {
    if k == 0 then v % 0x100 else if k == 1 then v / 0x100 % 0x100
    else if k == 2 then v / 0x100 / 0x100 % 0x100 else v / 0x100 / 0x100 / 0x100
  }

  /** The 32 bit word at address `a`. */
  function Word(mem: Memory, a: nat): Uint32 {
    mem(a) as int + 0x100 * mem(a + 1) as int + 0x10000 * mem(a + 2) as int + 0x1000000 * mem(a + 3) as int
  }

  function Store(mem: Memory, a: nat, v: Uint32): Memory {
    (x: nat) => if a <= x < a + 4 then ByteOf(v, x - a) else mem(x)
  }

  function Copied(mem: Memory, to: nat, from: nat, n: nat): Memory {
    (x: nat) => if to <= x < to + n then mem(from + (x - to)) else mem(x)
  }

  function Zeroed(mem: Memory, a: nat, n: nat): Memory { (x: nat) => if a <= x < a + n then 0 else mem(x) }

  function Loaded(mem: Memory, to: nat, data: seq<byte>): Memory {
    (x: nat) => if to <= x < to + |data| then data[x - to] else mem(x)
  }

  ghost predicate SameIn(mem: Memory, after: Memory, lo: nat, hi: nat) {
    forall x: nat :: lo <= x < hi ==> after(x) == mem(x)
  }

  lemma BytesBack(v: Uint32)
    ensures ByteOf(v, 0) as int + 0x100 * ByteOf(v, 1) as int + 0x10000 * ByteOf(v, 2) as int
            + 0x1000000 * ByteOf(v, 3) as int == v
  {
    var a := v / 0x100;
    var b := a / 0x100;
    var c := b / 0x100;
    assert v == 0x100 * a + v % 0x100 && a == 0x100 * b + a % 0x100 && b == 0x100 * c + b % 0x100;
  }

  lemma WordStored(mem: Memory, a: nat, v: Uint32)
    ensures Word(Store(mem, a, v), a) == v
  {
    BytesBack(v);
    var m := Store(mem, a, v);
    hide ByteOf;
    assert m(a) == ByteOf(v, 0) && m(a + 1) == ByteOf(v, 1) && m(a + 2) == ByteOf(v, 2) && m(a + 3) == ByteOf(v, 3);
  }

  lemma WordSame(mem: Memory, after: Memory, a: nat)
    requires SameIn(mem, after, a, a + 4)
    ensures Word(after, a) == Word(mem, a)
  {}

  /** Only the bytes from `lo` to `hi` may change. */
  ghost predicate Only(mem: Memory, after: Memory, lo: nat, hi: nat) {
    forall x: nat :: x < lo || hi <= x ==> after(x) == mem(x)
  }

  lemma OnlyWider(mem: Memory, after: Memory, lo: nat, hi: nat, end: nat)
    requires Only(mem, after, lo, hi) && hi <= end
    ensures Only(mem, after, lo, end)
  {}

  lemma StoreOnly(mem: Memory, a: nat, v: Uint32)
    ensures Only(mem, Store(mem, a, v), a, a + 4)
  {}
}
