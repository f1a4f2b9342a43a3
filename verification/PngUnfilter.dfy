// `unfilter`: undoing the row filters of a png image in place (RFC 2083 section 6).
module PngUnfilter {
  import opened Bytes
  import opened PngBits

  function Abs(x: int): nat { if x < 0 then -x else x }

  /** The Paeth predictor (section 6.6). */
  function Paeth(a: int, b: int, c: int): int {
    var p := a + b - c;
    var pa, pb, pc := Abs(p - a), Abs(p - b), Abs(p - c);
    if pa <= pb && pa <= pc then a else if pb <= pc then b else c
  }

  /** It is the neighbour nearest to a + b - c, ties going to left, then above. */
  lemma PaethIsNearest(a: int, b: int, c: int)
    ensures var p, r := a + b - c, Paeth(a, b, c);
            && (forall v :: v in [a, b, c] ==> Abs(p - r) <= Abs(p - v))
            && (r != a ==> Abs(p - r) < Abs(p - a))
            && (r != a && r != b ==> Abs(p - r) < Abs(p - b))
  {}

  /** What filter type `filter` predicts from the left, upper and upper left byte. */
  function Predict(filter: nat, a: byte, b: byte, c: byte): (p: byte)
    requires filter <= 4
  {
    if filter == 0 then 0
    else if filter == 1 then a
    else if filter == 2 then b
    else if filter == 3 then (a + b) / 2
    else Paeth(a, b, c)
  }

  /** Where row `y` starts: each row is a filter byte and `stride` bytes. */
  ghost function RowStart(stride: nat, y: nat): nat { y * (stride + 1) }

  lemma RowsApart(stride: nat, y: nat, z: nat)
    requires y < z
    ensures RowStart(stride, y) + stride + 1 <= RowStart(stride, z)
  {
    MulMono(y + 1, z, stride + 1);
  }

  /** Byte `x` of row `y`, 0 left of and above the image. */
  ghost function Pixel(d: seq<byte>, stride: nat, y: int, x: int): byte
    requires x < stride && (y >= 0 ==> RowStart(stride, y) + stride < |d|)
  {
    if y < 0 || x < 0 then 0 else d[RowStart(stride, y) + 1 + x]
  }

  ghost predicate Fits(d: seq<byte>, stride: nat, height: nat) {
    forall y :: 0 <= y < height ==> RowStart(stride, y) + stride < |d|
  }

  /** The byte the encoder writes for byte `x` of row `y` of the image in `d`. */
  ghost function Filtered(d: seq<byte>, filter: nat, stride: nat, bpp: nat, y: nat, x: nat): byte
    requires x < stride && filter <= 4
    requires RowStart(stride, y) + stride < |d| && (y > 0 ==> RowStart(stride, y - 1) + stride < |d|)
  {
    (Pixel(d, stride, y, x)
     - Predict(filter, Pixel(d, stride, y, x - bpp), Pixel(d, stride, y - 1, x),
               Pixel(d, stride, y - 1, x - bpp))) % 256
  }

  ghost function FilterOf(d: seq<byte>, stride: nat, y: nat): byte
    requires RowStart(stride, y) + stride < |d|
  {
    d[RowStart(stride, y)]
  }

  /** `filtered` is the image in `raw` with each row filtered as its filter byte says. */
  ghost predicate IsFilterOf(filtered: seq<byte>, raw: seq<byte>, stride: nat, bpp: nat, height: nat)
    requires Fits(raw, stride, height) && |filtered| == |raw|
  {
    forall y {:trigger RowIsFilterOf(filtered, raw, stride, bpp, y)} :: 0 <= y < height ==>
      && (y > 0 ==> RowStart(stride, y - 1) + stride < |raw|)
      && RowStart(stride, y) + stride < |raw|
      && RowIsFilterOf(filtered, raw, stride, bpp, y)
  }

  ghost predicate RowIsFilterOf(filtered: seq<byte>, raw: seq<byte>, stride: nat, bpp: nat, y: nat)
    requires |filtered| == |raw| && RowStart(stride, y) + stride < |raw|
    requires y > 0 ==> RowStart(stride, y - 1) + stride < |raw|
  {
    && FilterOf(filtered, stride, y) == FilterOf(raw, stride, y) <= 4
    && forall x :: 0 <= x < stride ==>
         filtered[RowStart(stride, y) + 1 + x] == Filtered(raw, FilterOf(raw, stride, y), stride, bpp, y, x)
  }

  /** Filtering loses nothing: two images with the same filter bytes and filtered rows are the same. */
  lemma {:induction false} FilterInjective(f: seq<byte>, r: seq<byte>, s: seq<byte>, stride: nat, bpp: nat, height: nat,
                                           y: nat)
    requires bpp > 0 && |f| == |r| == |s| && Fits(r, stride, height) && y < height
    requires IsFilterOf(f, r, stride, bpp, height) && IsFilterOf(f, s, stride, bpp, height)
    ensures FilterOf(r, stride, y) == FilterOf(s, stride, y)
    ensures SamePixels(r, s, stride, y)
  {
    if y > 0 { FilterInjective(f, r, s, stride, bpp, height, y - 1); }
    assert RowIsFilterOf(f, r, stride, bpp, y) && RowIsFilterOf(f, s, stride, bpp, y);
    SameRow(f, r, s, stride, bpp, y, stride);
  }

  ghost predicate SamePixels(r: seq<byte>, s: seq<byte>, stride: nat, y: nat)
    requires |r| == |s| && RowStart(stride, y) + stride < |r|
  {
    forall x :: 0 <= x < stride ==> Pixel(r, stride, y, x) == Pixel(s, stride, y, x)
  }

  lemma {:induction false} SameRow(f: seq<byte>, r: seq<byte>, s: seq<byte>, stride: nat, bpp: nat, y: nat, n: nat)
    requires bpp > 0 && n <= stride && |f| == |r| == |s| && RowStart(stride, y) + stride < |r|
    requires y > 0 ==> RowStart(stride, y - 1) + stride < |r|
    requires RowIsFilterOf(f, r, stride, bpp, y) && RowIsFilterOf(f, s, stride, bpp, y)
    requires y > 0 ==> SamePixels(r, s, stride, y - 1)
    ensures forall x :: 0 <= x < n ==> Pixel(r, stride, y, x) == Pixel(s, stride, y, x)
  {
    hide RowStart, Predict;
    if n > 0 {
      SameRow(f, r, s, stride, bpp, y, n - 1);
      var x := n - 1;
      var filter := FilterOf(r, stride, y);
      assert Filtered(r, filter, stride, bpp, y, x) == Filtered(s, filter, stride, bpp, y, x);
      if x >= bpp { assert Pixel(r, stride, y, x - bpp) == Pixel(s, stride, y, x - bpp); }
    }
  }

  /** One row, in place: `row` is its first byte after the filter byte, `prev` that of the row
      before or -1. */
  method UnfilterRow(data: array<byte>, row: nat, prev: int, filter: byte, stride: nat, bpp: nat) returns (res: int)
    requires bpp > 0 && row + stride <= data.Length
    requires prev >= -1 && (prev >= 0 ==> prev + stride <= row)
    modifies data
    ensures res == if stride > 0 && filter > 4 then -1 else 0
    ensures forall i :: 0 <= i < data.Length && !(row <= i < row + stride) ==> data[i] == old(data[i])
    ensures res == 0 ==>
              forall x :: 0 <= x < stride ==> old(data[row + x]) == RowByte(data[..], row, prev, filter, bpp, x)
  {
    hide Predict;
    for x := 0 to stride
      invariant x > 0 ==> filter <= 4
      invariant forall i :: 0 <= i < data.Length && !(row <= i < row + x) ==> data[i] == old(data[i])
      invariant forall i :: 0 <= i < x ==> old(data[row + i]) == RowByte(data[..], row, prev, filter, bpp, i)
    {
      var a := if x >= bpp then data[row + x - bpp] else 0;
      var b := if prev >= 0 then data[prev + x] else 0;
      var c := if prev >= 0 && x >= bpp then data[prev + x - bpp] else 0;
      if filter > 4 {
        return -1;
      }
      ghost var before := data[..];
      Subtract(data[row + x], Predict(filter, a, b, c));
      data[row + x] := (data[row + x] + Predict(filter, a, b, c)) % 256;
      forall i | 0 <= i < x
        ensures RowByte(data[..], row, prev, filter, bpp, i) == RowByte(before, row, prev, filter, bpp, i)
      {}
    }
    res := 0;
  }

  lemma Subtract(v: byte, p: byte)
    ensures ((v + p) % 256 - p) % 256 == v
  {}

  ghost function RowByte(d: seq<byte>, row: nat, prev: int, filter: byte, bpp: nat, x: nat): byte
    requires filter <= 4 && row + x < |d| && (prev >= 0 ==> prev + x < |d|)
  {
    (d[row + x]
     - Predict(filter, if x >= bpp then d[row + x - bpp] else 0, if prev >= 0 then d[prev + x] else 0,
               if prev >= 0 && x >= bpp then d[prev + x - bpp] else 0)) % 256
  }

  /** Two images with the same filtered form are the same, byte by byte. */
  lemma {:induction false} SameImage(f: seq<byte>, r: seq<byte>, s: seq<byte>, stride: nat, bpp: nat, height: nat,
                                     n: nat)
    requires bpp > 0 && |f| == |r| == |s| && Fits(r, stride, height) && n <= height
    requires IsFilterOf(f, r, stride, bpp, height) && IsFilterOf(f, s, stride, bpp, height)
    ensures RowStart(stride, n) <= |r| && r[..RowStart(stride, n)] == s[..RowStart(stride, n)]
  {
    hide RowStart, IsFilterOf;
    if n == 0 {
      RowsFrom0(stride);
    } else {
      SameImage(f, r, s, stride, bpp, height, n - 1);
      FilterInjective(f, r, s, stride, bpp, height, n - 1);
      RowNext(stride, n - 1);
      var at := RowStart(stride, n - 1);
      forall i | 0 <= i < at + stride + 1 ensures r[i] == s[i] {
        if i < at { assert r[..at][i] == s[..at][i]; } else if i > at { PixelAt(r, s, stride, n - 1, i); }
      }
    }
  }

  lemma PixelAt(r: seq<byte>, s: seq<byte>, stride: nat, y: nat, i: nat)
    requires |r| == |s| && RowStart(stride, y) + stride < |r| && SamePixels(r, s, stride, y)
    requires RowStart(stride, y) < i <= RowStart(stride, y) + stride
    ensures r[i] == s[i]
  {
    hide RowStart;
    assert Pixel(r, stride, y, i - RowStart(stride, y) - 1) == Pixel(s, stride, y, i - RowStart(stride, y) - 1);
  }

  /** Every image with this filtered form is the one in `data`. */
  ghost predicate Recovers(filtered: seq<byte>, data: seq<byte>, stride: nat, bpp: nat, height: nat)
    requires Fits(data, stride, height) && |filtered| == |data|
  {
    && RowStart(stride, height) <= |data|
    && forall raw: seq<byte> :: |raw| == |data| && IsFilterOf(filtered, raw, stride, bpp, height) ==>
         raw[..RowStart(stride, height)] == data[..RowStart(stride, height)]
  }

  lemma RecoversBy(filtered: seq<byte>, data: seq<byte>, stride: nat, bpp: nat, height: nat)
    requires bpp > 0 && |filtered| == |data| && Fits(data, stride, height)
    requires IsFilterOf(filtered, data, stride, bpp, height)
    ensures Recovers(filtered, data, stride, bpp, height)
  {
    hide RowStart, IsFilterOf;
    SameImage(filtered, data, data, stride, bpp, height, height);
    forall raw: seq<byte> | |raw| == |data| && IsFilterOf(filtered, raw, stride, bpp, height)
      ensures raw[..RowStart(stride, height)] == data[..RowStart(stride, height)]
    {
      SameImage(filtered, data, raw, stride, bpp, height, height);
    }
  }

  // ---- the filter types ----

  /** `q` is half of `sum`, rounded down. */
  ghost predicate IsHalf(q: nat, sum: nat) { 2 * q <= sum < 2 * q + 2 }

  /** `v` is the neighbour nearest to left + above - corner, ties going to left, then above. */
  ghost predicate IsNearest(v: byte, left: byte, above: byte, corner: byte) {
    var p := left + above - corner;
    && v in [left, above, corner]
    && (forall u :: u in [left, above, corner] ==> Abs(p - v) <= Abs(p - u))
    && (v != left ==> Abs(p - v) < Abs(p - left))
    && (v != left && v != above ==> Abs(p - v) < Abs(p - above))
  }

  ghost predicate HalfAdded(was: byte, now: byte, sum: nat) {
    exists q: nat :: IsHalf(q, sum) && now == (was + q) % 256
  }

  /** What the section on a filter type makes of a byte: `was` is the filtered byte, `now` that of the image. */
  ghost predicate Undone(filter: nat, was: byte, now: byte, left: byte, above: byte, corner: byte) {
    match filter
    case 0 => now == was
    case 1 => now == (was + left) % 256
    case 2 => now == (was + above) % 256
    case 3 => HalfAdded(was, now, left + above)
    case 4 => exists v: byte :: IsNearest(v, left, above, corner) && now == (was + v) % 256
    case _ => false
  }

  /** Every byte of the rows before `height` is undone as the filter type of its row says. */
  ghost predicate AllUndone(was: seq<byte>, now: seq<byte>, stride: nat, bpp: nat, height: nat)
    requires |was| == |now| && Fits(now, stride, height)
  {
    forall y, x :: 0 <= y < height && 0 <= x < stride ==> ByteUndone(was, now, stride, bpp, y, x)
  }

  ghost predicate ByteUndone(was: seq<byte>, now: seq<byte>, stride: nat, bpp: nat, y: nat, x: nat)
    requires |was| == |now| && x < stride
  {
    && RowStart(stride, y) + stride < |now| && (y > 0 ==> RowStart(stride, y - 1) + stride < |now|)
    && Undone(was[y * (stride + 1)], was[y * (stride + 1) + 1 + x], now[y * (stride + 1) + 1 + x],
              Pixel(now, stride, y, x - bpp), Pixel(now, stride, y - 1, x), Pixel(now, stride, y - 1, x - bpp))
  }

  /** Each filter type is undone as its section says. */
  lemma PredictUndone(filter: nat, was: byte, now: byte, left: byte, above: byte, corner: byte)
    requires filter <= 4 && was == (now - Predict(filter, left, above, corner)) % 256
    ensures Undone(filter, was, now, left, above, corner)
  {
    var p := Predict(filter, left, above, corner);
    assert now == (was + p) % 256;
    if filter == 3 {
      assert IsHalf(p, left + above);
    } else if filter == 4 {
      PaethIsNearest(left, above, corner);
      assert IsNearest(p, left, above, corner);
    }
  }

  lemma FilterUndone(was: seq<byte>, now: seq<byte>, stride: nat, bpp: nat, height: nat)
    requires |was| == |now| && Fits(now, stride, height) && IsFilterOf(was, now, stride, bpp, height)
    ensures AllUndone(was, now, stride, bpp, height)
  {
    hide Predict, Undone;
    forall y, x | 0 <= y < height && 0 <= x < stride ensures ByteUndone(was, now, stride, bpp, y, x) {
      assert RowIsFilterOf(was, now, stride, bpp, y);
      assert was[RowStart(stride, y) + 1 + x] == Filtered(now, FilterOf(now, stride, y), stride, bpp, y, x);
      PredictUndone(FilterOf(now, stride, y), was[RowStart(stride, y) + 1 + x], Pixel(now, stride, y, x),
                    Pixel(now, stride, y, x - bpp), Pixel(now, stride, y - 1, x), Pixel(now, stride, y - 1, x - bpp));
    }
  }

  /** A row of two bytes of filter type 1: 5 and, 3 more than that, 8. */
  lemma SubRow(now: seq<byte>)
    requires |now| == 3 && Fits(now, 2, 1) && AllUndone([1, 5, 3], now, 2, 1, 1)
    ensures now[1..] == [5, 8]
  {
    assert ByteUndone([1, 5, 3], now, 2, 1, 0, 0) && ByteUndone([1, 5, 3], now, 2, 1, 0, 1);
  }

  /** `unfilter`: what it leaves in `data` is the image whose filtered form was there before, whatever
      image that was. It fails exactly when a row that is not empty has an unknown filter. */
  method Unfilter(data: array<byte>, height: nat, stride: nat, bpp: nat) returns (res: int)
    requires bpp > 0 && Fits(data[..], stride, height)
    modifies data
    ensures res == 0 || res == -1
    ensures res == -1 <==> stride > 0 && exists y :: 0 <= y < height && FilterOf(old(data[..]), stride, y) > 4
    ensures res == 0 && stride > 0 ==>
              && IsFilterOf(old(data[..]), data[..], stride, bpp, height)
              && Recovers(old(data[..]), data[..], stride, bpp, height)
    ensures res == 0 ==> AllUndone(old(data[..]), data[..], stride, bpp, height)
    ensures res == 0 ==> forall i :: RowStart(stride, height) <= i < data.Length ==> data[i] == old(data[i])
  {
    hide RowStart, Recovers, AllUndone;
    var prev, start := -1, 0;
    RowsFrom0(stride);
    ghost var before := data[..];
    for y := 0 to height
      invariant start == RowStart(stride, y)
      invariant prev == if y == 0 then -1 else RowStart(stride, y - 1) + 1
      invariant forall i :: start <= i < data.Length ==> data[i] == before[i]
      invariant stride > 0 ==> IsFilterOf(before, data[..], stride, bpp, y)
    {
      RowNext(stride, y);
      var filter := data[start];
      ghost var mid := data[..];
      res := UnfilterRow(data, start + 1, prev, filter, stride, bpp);
      if res < 0 {
        assert FilterOf(before, stride, y) > 4;
        return;
      }
      if stride > 0 { RowDone(before, mid, data[..], stride, bpp, y, start + 1, prev, filter); }
      prev := start + 1;
      start := start + stride + 1;
    }
    res := 0;
    if stride == 0 {
      NothingUndone(before, data[..], bpp, height);
    } else {
      RecoversBy(before, data[..], stride, bpp, height);
      FilterUndone(before, data[..], stride, bpp, height);
      forall y | 0 <= y < height ensures FilterOf(before, stride, y) <= 4 {
        assert RowIsFilterOf(before, data[..], stride, bpp, y);
      }
    }
  }

  lemma NothingUndone(was: seq<byte>, now: seq<byte>, bpp: nat, height: nat)
    requires |was| == |now| && Fits(now, 0, height)
    ensures AllUndone(was, now, 0, bpp, height)
  {}

  lemma RowsFrom0(stride: nat)
    ensures RowStart(stride, 0) == 0
  {}

  lemma RowNext(stride: nat, y: nat)
    ensures RowStart(stride, y + 1) == RowStart(stride, y) + stride + 1
    ensures y > 0 ==> RowStart(stride, y) == RowStart(stride, y - 1) + stride + 1
  {
    assert (y + 1) * (stride + 1) == y * (stride + 1) + (stride + 1);
    if y > 0 { assert y * (stride + 1) == (y - 1) * (stride + 1) + (stride + 1); }
  }

  /** Row `y` changed, the rows before it did not. */
  lemma RowDone(before: seq<byte>, mid: seq<byte>, after: seq<byte>, stride: nat, bpp: nat, y: nat, row: nat, prev: int,
                filter: byte)
    requires |before| == |mid| == |after| && Fits(before, stride, y + 1) && stride > 0
    requires prev == if y == 0 then -1 else RowStart(stride, y - 1) + 1
    requires IsFilterOf(before, mid, stride, bpp, y)
    requires forall i :: RowStart(stride, y) <= i < |mid| ==> mid[i] == before[i]
    requires forall i :: 0 <= i < |mid| && !(RowStart(stride, y) < i <= RowStart(stride, y) + stride) ==>
               after[i] == mid[i]
    requires row == RowStart(stride, y) + 1 && filter == mid[row - 1] <= 4
    requires forall x :: 0 <= x < stride ==> mid[row + x] == RowByte(after, row, prev, filter, bpp, x)
    ensures IsFilterOf(before, after, stride, bpp, y + 1)
  {
    hide RowStart, Predict;
    forall z {:trigger RowIsFilterOf(before, after, stride, bpp, z)} | 0 <= z < y + 1
      ensures z > 0 ==> RowStart(stride, z - 1) + stride < |after|
      ensures RowIsFilterOf(before, after, stride, bpp, z)
    {
      if z < y {
        RowsApart(stride, z, y);
        if z > 0 { RowsApart(stride, z - 1, y); }
        assert RowIsFilterOf(before, mid, stride, bpp, z);
        forall x | 0 <= x < stride
          ensures before[RowStart(stride, z) + 1 + x] == Filtered(after, FilterOf(after, stride, z), stride, bpp, z, x)
        {
          assert Filtered(mid, FilterOf(mid, stride, z), stride, bpp, z, x)
                 == Filtered(after, FilterOf(after, stride, z), stride, bpp, z, x);
        }
      } else {
        forall x | 0 <= x < stride
          ensures before[RowStart(stride, y) + 1 + x] == Filtered(after, filter, stride, bpp, y, x)
        {
          assert mid[row + x] == RowByte(after, row, prev, filter, bpp, x);
        }
      }
    }
  }
}
