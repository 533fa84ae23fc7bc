/**
 The streaming area-average downsampler of src/ui/cover_art.c: the source arrives a span
 of pixels at a time, each pixel is added to the sums of the cell it falls in, and every
 output pixel is its cell's mean.
 */
module Resampler {
  import opened Wrappers
  import opened Binning

  datatype Pixel = Pixel(r: byte, g: byte, b: byte) {
    /** A channel by number. */
    function Channel(c: nat): byte {
      if c == 0 then r else if c == 1 then g else b
    }
  }

  /** A cell's three sums. */
  datatype Sums = Sums(r: nat, g: nat, b: nat) {
    function Channel(c: nat): nat {
      if c == 0 then r else if c == 1 then g else b
    }
  }

  // --- What the sums mean ---

  /** How many of the entries of `map` are `d`. */
  function Count(map_: seq<int>, d: int): (n: nat)
    ensures n <= |map_|
  {
    if map_ == [] then 0
    else Count(map_[..|map_| - 1], d) + if map_[|map_| - 1] == d then 1 else 0
  }

  /** The sum of one channel over the pixels of a span that starts at column `x` and that fall in column `d`. */
  function SpanSum(xmap: seq<int>, x: nat, px: seq<Pixel>, d: int, c: nat): (s: nat)
    requires x + |px| <= |xmap|
    decreases |px|
  {
    if px == [] then 0
    else
      var n := |px| - 1;
      SpanSum(xmap, x, px[..n], d, c) + if xmap[x + n] == d then px[n].Channel(c) else 0
  }

  /** Cutting a span in two changes nothing. */
  lemma {:induction false} SpanCut(xmap: seq<int>, x: nat, a: seq<Pixel>, b: seq<Pixel>, d: int, c: nat)
    requires x + |a| + |b| <= |xmap|
    ensures SpanSum(xmap, x, a + b, d, c) == SpanSum(xmap, x, a, d, c) + SpanSum(xmap, x + |a|, b, d, c)
    decreases |b|
  {
    if b == [] {
      assert a + b == a;
    } else {
      var n := |b| - 1;
      assert (a + b)[..|a| + n] == a + b[..n];
      SpanCut(xmap, x, a, b[..n], d, c);
    }
  }

  /** A span as its caller has it: so many pixels, and the bytes they are laid out in. */
  datatype Span = Span(n: nat, px: seq<byte>) {
    predicate Holds(bpp: nat) {
      n * bpp <= |px|
    }
  }

  /** The pixels of spans, one after another. */
  function Joined(spans: seq<Span>, bpp: nat, r: nat, g: nat, b: nat): (s: seq<Pixel>)
    requires r < bpp && g < bpp && b < bpp && forall i :: 0 <= i < |spans| ==> spans[i].Holds(bpp)
  {
    if spans == [] then []
    else
      var k := |spans| - 1;
      assert spans[k].Holds(bpp);
      Joined(spans[..k], bpp, r, g, b) + Pixels(spans[k].px, spans[k].n, bpp, r, g, b)
  }

  /** A source image, row by row. */
  type Image = seq<seq<Pixel>>

  /** The sum of one channel over the pixels of the first `h` rows that fall in the cell (`dy`, `dx`). */
  function CellSum(xmap: seq<int>, ymap: seq<int>, img: Image, h: nat, dy: int, dx: int, c: nat): nat
    requires h <= |img| && h <= |ymap| && forall y :: 0 <= y < h ==> |img[y]| <= |xmap|
  {
    if h == 0 then 0
    else
      CellSum(xmap, ymap, img, h - 1, dy, dx, c)
      + if ymap[h - 1] == dy then SpanSum(xmap, 0, img[h - 1], dx, c) else 0
  }

  /** Every pixel of the cell has a channel value from `lo` to `hi`. */
  predicate CellWithin(xmap: seq<int>, ymap: seq<int>, img: Image, h: nat, dy: int, dx: int, c: nat, lo: nat, hi: nat)
    requires h <= |img| && h <= |ymap| && forall y :: 0 <= y < h ==> |img[y]| <= |xmap|
  {
    forall y, x :: 0 <= y < h && 0 <= x < |img[y]| && ymap[y] == dy && xmap[x] == dx ==> lo <= img[y][x].Channel(c) <= hi
  }

  lemma OneMoreRow(v: nat, a: nat, b: nat)
    ensures v * (a * (b + 1)) == v * (a * b) + v * a
  {
    assert a * (b + 1) == a * b + a;
    Distribute(v, a * b, a);
  }

  lemma Distribute(v: nat, x: nat, y: nat)
    ensures v * (x + y) == v * x + v * y
  {
  }

  lemma {:induction false} SpanBounds(xmap: seq<int>, px: seq<Pixel>, d: int, c: nat, lo: nat, hi: nat)
    requires |px| <= |xmap|
    requires forall x :: 0 <= x < |px| && xmap[x] == d ==> lo <= px[x].Channel(c) <= hi
    ensures lo * Count(xmap[..|px|], d) <= SpanSum(xmap, 0, px, d, c) <= hi * Count(xmap[..|px|], d)
    decreases |px|
  {
    if px != [] {
      var n := |px| - 1;
      SpanBounds(xmap, px[..n], d, c, lo, hi);
      assert xmap[..|px|][..n] == xmap[..n];
      Distribute(lo, Count(xmap[..n], d), 1);
      Distribute(hi, Count(xmap[..n], d), 1);
    }
  }

  /** A cell's sum lies between its least and its greatest value times the number of its pixels. */
  lemma {:induction false} CellBounds(xmap: seq<int>, ymap: seq<int>, img: Image, h: nat, dy: int, dx: int, c: nat, lo: nat, hi: nat)
    requires h <= |img| && h <= |ymap| && forall y :: 0 <= y < h ==> |img[y]| == |xmap|
    requires CellWithin(xmap, ymap, img, h, dy, dx, c, lo, hi)
    ensures var n := Count(xmap, dx) * Count(ymap[..h], dy);
            lo * n <= CellSum(xmap, ymap, img, h, dy, dx, c) <= hi * n
    decreases h
  {
    if h > 0 {
      CellBounds(xmap, ymap, img, h - 1, dy, dx, c, lo, hi);
      assert ymap[..h][..h - 1] == ymap[..h - 1];
      if ymap[h - 1] == dy {
        SpanBounds(xmap, img[h - 1], dx, c, lo, hi);
        assert xmap[..|xmap|] == xmap;
        var a, b := Count(xmap, dx), Count(ymap[..h - 1], dy);
        OneMoreRow(lo, a, b);
        OneMoreRow(hi, a, b);
      }
    } else {
      assert ymap[..0] == [];
    }
  }

  /** The mean of `n` values with this sum, rounded to nearest, halves up. */
  function Mean(sum: nat, n: nat): nat
    requires n > 0
  {
    (sum + n / 2) / n
  }

  /** Rounded to nearest, and between any bounds of the values. */
  lemma MeanIsNearest(sum: nat, n: nat, lo: nat, hi: nat)
    requires n > 0 && lo * n <= sum <= hi * n
    ensures lo <= Mean(sum, n) <= hi
    ensures -(n as int) <= 2 * (sum - Mean(sum, n) * n) <= n
  {
    var x := sum + n / 2;
    QuotientOf(x, n, lo);
    assert (hi + 1) * n == hi * n + n;
    QuotientOf(x, n, hi + 1);
    var m := x / n;
    assert m * n <= x < m * n + n;
  }

  /** Of 16 bits the upper 5 hold red's upper 5 bits, the next 6 green's upper 6 and the last 5 blue's upper 5. */
  function Rgb565(r: nat, g: nat, b: nat): (v: nat)
    ensures r < 256 && g < 256 && b < 256 ==>
              v < 0x1_0000 && v / 2048 == r / 8 && v / 32 % 64 == g / 4 && v % 32 == b / 8
  {
    var x, y, z := r / 8, g / 4, b / 8;
    var v := x * 2048 + y * 32 + z;
    if y < 64 && z < 32 then
      QuotientIs(v, 2048, x);
      QuotientIs(v, 32, x * 64 + y);
      v
    else v
  }

  /** `n` pixels laid out `bpp` bytes apart, their channels at offsets `r`, `g` and `b`. */
  function Pixels(px: seq<byte>, n: nat, bpp: nat, r: nat, g: nat, b: nat): (s: seq<Pixel>)
    requires n * bpp <= |px| && r < bpp && g < bpp && b < bpp
    ensures |s| == n
  {
    if n == 0 then []
    else
      assert (n - 1) * bpp + bpp == n * bpp;
      var p := (n - 1) * bpp;
      Pixels(px, n - 1, bpp, r, g, b) + [Pixel(px[p + r], px[p + g], px[p + b])]
  }

  lemma {:induction false} PixelAt(px: seq<byte>, n: nat, bpp: nat, r: nat, g: nat, b: nat, i: nat)
    requires n * bpp <= |px| && r < bpp && g < bpp && b < bpp && i < n
    ensures 0 <= i * bpp && i * bpp + bpp <= |px|
    ensures Pixels(px, n, bpp, r, g, b)[i] == Pixel(px[i * bpp + r], px[i * bpp + g], px[i * bpp + b])
    decreases n
  {
    assert (n - 1) * bpp + bpp == n * bpp;
    if i < n - 1 {
      PixelAt(px, n - 1, bpp, r, g, b, i);
    }
  }

  /** A run of pixels that all fall in column `d` adds to no other. */
  lemma {:induction false} RunSum(xmap: seq<int>, x: nat, run: seq<Pixel>, d: int, e: int, c: nat)
    requires x + |run| <= |xmap| && e != d
    requires forall k :: x <= k < x + |run| ==> xmap[k] == d
    ensures SpanSum(xmap, x, run, e, c) == 0
    decreases |run|
  {
    if run != [] {
      RunSum(xmap, x, run[..|run| - 1], d, e, c);
    }
  }

  /** The sums of a cell after a span. */
  function Added(s: Sums, xmap: seq<int>, x: nat, px: seq<Pixel>, d: int): Sums
    requires x + |px| <= |xmap|
  {
    Sums(s.r + SpanSum(xmap, x, px, d, 0), s.g + SpanSum(xmap, x, px, d, 1), s.b + SpanSum(xmap, x, px, d, 2))
  }

  lemma AddedCut(s: Sums, xmap: seq<int>, x: nat, a: seq<Pixel>, b: seq<Pixel>, d: int)
    requires x + |a| + |b| <= |xmap|
    ensures Added(s, xmap, x, a + b, d) == Added(Added(s, xmap, x, a, d), xmap, x + |a|, b, d)
  {
    SpanCut(xmap, x, a, b, d, 0);
    SpanCut(xmap, x, a, b, d, 1);
    SpanCut(xmap, x, a, b, d, 2);
  }

  function Plus(a: Sums, b: Sums): Sums {
    Sums(a.r + b.r, a.g + b.g, a.b + b.b)
  }

  /** A run in one column adds its sums there and nothing elsewhere. */
  lemma RunAdded(s: Sums, xmap: seq<int>, sx: nat, all: seq<Pixel>, i0: nat, i: nat, dx: int, d: int, run: Sums)
    requires i0 <= i <= |all| && sx + |all| <= |xmap|
    requires forall k :: sx + i0 <= k < sx + i ==> xmap[k] == dx
    requires dx == d ==> run == Added(Sums(0, 0, 0), xmap, sx + i0, all[i0..i], dx)
    ensures Added(s, xmap, sx, all[..i], d) ==
            if d == dx then Plus(Added(s, xmap, sx, all[..i0], d), run) else Added(s, xmap, sx, all[..i0], d)
  {
    assert all[..i] == all[..i0] + all[i0..i];
    AddedCut(s, xmap, sx, all[..i0], all[i0..i], d);
    if d != dx {
      RunSum(xmap, sx + i0, all[i0..i], dx, d, 0);
      RunSum(xmap, sx + i0, all[i0..i], dx, d, 1);
      RunSum(xmap, sx + i0, all[i0..i], dx, d, 2);
    }
  }

  /** A row of cells after a span. */
  function AddedRow(row: seq<Sums>, xmap: seq<int>, x: nat, px: seq<Pixel>): (r: seq<Sums>)
    requires x + |px| <= |xmap|
    ensures |r| == |row| && forall d :: 0 <= d < |row| ==> r[d] == Added(row[d], xmap, x, px, d)
  {
    seq(|row|, d requires 0 <= d < |row| && x + |px| <= |xmap| => Added(row[d], xmap, x, px, d))
  }

  lemma RowCut(row: seq<Sums>, xmap: seq<int>, x: nat, a: seq<Pixel>, b: seq<Pixel>)
    requires x + |a| + |b| <= |xmap|
    ensures AddedRow(AddedRow(row, xmap, x, a), xmap, x + |a|, b) == AddedRow(row, xmap, x, a + b)
  {
    forall d | 0 <= d < |row| ensures Added(Added(row[d], xmap, x, a, d), xmap, x + |a|, b, d) == Added(row[d], xmap, x, a + b, d) {
      AddedCut(row[d], xmap, x, a, b, d);
    }
  }

  lemma RowRunAdded(row: seq<Sums>, xmap: seq<int>, sx: nat, all: seq<Pixel>, i0: nat, i: nat, dx: int, run: Sums)
    requires i0 <= i <= |all| && sx + |all| <= |xmap| && dx < |row|
    requires forall k :: sx + i0 <= k < sx + i ==> xmap[k] == dx
    requires dx >= 0 ==> run == Added(Sums(0, 0, 0), xmap, sx + i0, all[i0..i], dx)
    ensures var before := AddedRow(row, xmap, sx, all[..i0]);
            AddedRow(row, xmap, sx, all[..i]) == if dx < 0 then before else before[dx := Plus(before[dx], run)]
  {
    forall d | 0 <= d < |row|
      ensures Added(row[d], xmap, sx, all[..i], d) ==
              if d == dx then Plus(Added(row[d], xmap, sx, all[..i0], d), run) else Added(row[d], xmap, sx, all[..i0], d)
    {
      RunAdded(row[d], xmap, sx, all, i0, i, dx, d, run);
    }
  }

  function Min(a: int, b: int): int {
    if a < b then a else b
  }

  lemma {:induction false} CountReached(m: seq<int>, d: int, s: nat)
    requires s < |m| && m[s] == d
    ensures Count(m, d) > 0
    decreases |m|
  {
    if s < |m| - 1 {
      CountReached(m[..|m| - 1], d, s);
    }
  }

  /** The bins of all the coordinates of an axis. */
  function AxisMap(srcN: nat, crop0: nat, cropN: nat, dstN: nat): (m: seq<int>)
    requires cropN > 0
    ensures |m| == srcN
  {
    seq(srcN, s requires 0 <= s && cropN > 0 => Bin(s, crop0, cropN, dstN))
  }

  /** No bin is empty, and no coordinate is past the last. */
  lemma AllReached(srcN: nat, m: seq<int>, crop0: nat, cropN: nat, dstN: nat)
    requires 0 < dstN <= cropN && crop0 + cropN <= srcN && m == AxisMap(srcN, crop0, cropN, dstN)
    ensures forall d :: 0 <= d < dstN ==> Count(m, d) > 0
    ensures forall s :: 0 <= s < |m| ==> -1 <= m[s] < dstN
  {
    forall d | 0 <= d < dstN ensures Count(m, d) > 0 {
      var s := BinReached(d, crop0, cropN, dstN);
      CountReached(m, d, s);
    }
    forall s | 0 <= s < |m| ensures -1 <= m[s] < dstN {
      if crop0 <= s < crop0 + cropN {
        BinInRange(s, crop0, cropN, dstN);
      }
    }
  }

  lemma {:induction false} CountRun(m: seq<int>, d: int, a: nat, n: nat)
    requires a + n <= |m| && forall k :: a <= k < a + n ==> m[k] == d
    ensures Count(m, d) >= n
    decreases |m|
  {
    if n > 0 {
      CountRun(m[..|m| - 1], d, a, if a + n < |m| then n else n - 1);
    }
  }

  /** No more entries are `d` than lie from the first of them to the last. */
  lemma {:induction false} CountSpan(m: seq<int>, d: int) returns (first: nat, last: nat)
    requires Count(m, d) > 0
    ensures first <= last < |m| && m[first] == m[last] == d && Count(m, d) <= last - first + 1
    decreases |m|
  {
    last := |m| - 1;
    first := last;
    if Count(m[..|m| - 1], d) > 0 {
      var l;
      first, l := CountSpan(m[..|m| - 1], d);
      if m[last] != d {
        last := l;
      }
    }
  }

  /** No bin gets more than its share of the window, rounded up. */
  lemma AtMostShare(m: seq<int>, crop0: nat, cropN: nat, dstN: nat, d: nat)
    requires 0 < dstN <= cropN && forall s :: 0 <= s < |m| ==> m[s] == Bin(s, crop0, cropN, dstN)
    ensures Count(m, d) <= CeilDiv(cropN, dstN)
  {
    if Count(m, d) > 0 {
      var s, t := CountSpan(m, d);
      assert Bin(s, crop0, cropN, dstN) == m[s] && Bin(t, crop0, cropN, dstN) == m[t];
      SameBin(s, t, crop0, cropN, dstN);
    }
  }

  /** And the first bin gets that. */
  lemma FirstGetsShare(m: seq<int>, crop0: nat, cropN: nat, dstN: nat)
    requires 0 < dstN <= cropN && crop0 + cropN <= |m| && forall s :: 0 <= s < |m| ==> m[s] == Bin(s, crop0, cropN, dstN)
    ensures Count(m, 0) == CeilDiv(cropN, dstN)
  {
    var most := CeilDiv(cropN, dstN);
    FirstBin(crop0 + most - 1, crop0, cropN, dstN) by {
      assert most >= 1;
    }
    forall s | crop0 <= s < crop0 + most ensures m[s] == 0 {
      FirstBin(s, crop0, cropN, dstN);
    }
    CountRun(m, 0, crop0, most);
    AtMostShare(m, crop0, cropN, dstN, 0);
  }

  /** The fullest bin, and how much it gets. */
  lemma FullestBin(srcN: nat, m: seq<int>, crop0: nat, cropN: nat, dstN: nat)
    requires 0 < dstN <= cropN && crop0 + cropN <= srcN && m == AxisMap(srcN, crop0, cropN, dstN)
    ensures Count(m, 0) == CeilDiv(cropN, dstN)
    ensures forall d :: 0 <= d < dstN ==> Count(m, d) <= CeilDiv(cropN, dstN)
  {
    FirstGetsShare(m, crop0, cropN, dstN);
    forall d | 0 <= d < dstN ensures Count(m, d) <= CeilDiv(cropN, dstN) {
      AtMostShare(m, crop0, cropN, dstN, d);
    }
  }

  lemma FewerFit(a: nat, b: nat, mostA: nat, mostB: nat)
    requires 0 < a <= mostA && 0 < b <= mostB && Fits(mostA, mostB)
    ensures Fits(a, b)
  {
    assert a * b <= mostA * b <= mostA * mostB;
    assert a * b >= b;
  }

  /** An axis's bins and how many coordinates each got; none is empty. */
  predicate AxisOk(m: seq<int>, count: seq<nat>) {
    && (forall s :: 0 <= s < |m| ==> -1 <= m[s] < |count|)
    && (forall d :: 0 <= d < |count| ==> count[d] == Count(m, d) > 0)
  }

  /** Every cell's sums fit. */
  predicate CellsFit(xcount: seq<nat>, ycount: seq<nat>) {
    forall d, e :: 0 <= d < |xcount| && 0 <= e < |ycount| ==> Fits(xcount[d], ycount[e])
  }

  /** Every cell of that window, over those bins, has few enough pixels for its sums. */
  predicate SumsFit(c: Crop, srcW: int, srcH: int, w: int, h: int)
    requires 0 < c.w <= srcW && 0 < c.h <= srcH && w > 0 && h > 0
  {
    BinsFit(AxisMap(srcW, (srcW - c.w) / 2, c.w, Min(c.w, w)), AxisMap(srcH, (srcH - c.h) / 2, c.h, Min(c.h, h)),
            Min(c.w, w), Min(c.h, h))
  }

  predicate BinsFit(xs: seq<int>, ys: seq<int>, columns: int, rows: int) {
    forall d, e :: 0 <= d < columns && 0 <= e < rows ==> Fits(Count(xs, d), Count(ys, e))
  }

  /** The fullest cell decides. */
  lemma FitsIff(xs: seq<int>, ys: seq<int>, columns: nat, rows: nat, mostX: nat, mostY: nat)
    requires columns > 0 && rows > 0 && Count(xs, 0) == mostX && Count(ys, 0) == mostY
    requires forall d :: 0 <= d < columns ==> 0 < Count(xs, d) <= mostX
    requires forall e :: 0 <= e < rows ==> 0 < Count(ys, e) <= mostY
    ensures Fits(mostX, mostY) <==> BinsFit(xs, ys, columns, rows)
  {
    if Fits(mostX, mostY) {
      forall d, e | 0 <= d < columns && 0 <= e < rows ensures Fits(Count(xs, d), Count(ys, e)) {
        FewerFit(Count(xs, d), Count(ys, e), mostX, mostY);
      }
    } else {
      assert !Fits(Count(xs, 0), Count(ys, 0));
    }
  }

  // --- Which sizes are taken ---

  /** No channel sum of any cell outgrows its 32 bits. */
  predicate Acceptable(srcW: int32, srcH: int32, w: int32, h: int32) {
    srcW > 0 && srcH > 0 && w > 0 && h > 0 &&
    (CropInside(srcW, srcH, w, h); SumsFit(CropOf(srcW, srcH, w, h), srcW, srcH, w, h))
  }

  /** How many pixels the fullest cell gets. */
  function FullestCell(c: Crop, w: int, h: int): (n: nat)
    requires c.w > 0 && c.h > 0 && w > 0 && h > 0
  {
    CeilDiv(c.w, Min(c.w, w)) * CeilDiv(c.h, Min(c.h, h))
  }

  /** The test of `resampler_init`: the largest sum there can be, twice, in 64 bits. */
  predicate Passes(cell: nat) {
    cell * 255 * 2 % UINT64 <= UINT32_MAX
  }

  /** `resampler_init` takes those sizes, when it gets its memory. */
  predicate Accepted(srcW: int32, srcH: int32, w: int32, h: int32) {
    srcW > 0 && srcH > 0 && w > 0 && h > 0 &&
    (CropInside(srcW, srcH, w, h); Passes(FullestCell(CropOf(srcW, srcH, w, h), w, h)))
  }

  /** The fullest cell is so full that its product wraps around to a small one. */
  predicate Wraps(srcW: int32, srcH: int32, w: int32, h: int32) {
    srcW > 0 && srcH > 0 && w > 0 && h > 0 &&
    (CropInside(srcW, srcH, w, h);
     var n := FullestCell(CropOf(srcW, srcH, w, h), w, h);
     n * 255 * 2 >= UINT64 && Passes(n))
  }

  lemma SumsFitIff(c: Crop, srcW: int, srcH: int, w: int, h: int)
    requires 0 < c.w <= srcW && 0 < c.h <= srcH && w > 0 && h > 0
    ensures SumsFit(c, srcW, srcH, w, h) <==> FullestCell(c, w, h) * 255 * 2 <= UINT32_MAX
  {
    var nx, ny := Min(c.w, w), Min(c.h, h);
    var xs, ys := AxisMap(srcW, (srcW - c.w) / 2, c.w, nx), AxisMap(srcH, (srcH - c.h) / 2, c.h, ny);
    FullestBin(srcW, xs, (srcW - c.w) / 2, c.w, nx);
    FullestBin(srcH, ys, (srcH - c.h) / 2, c.h, ny);
    AllReached(srcW, xs, (srcW - c.w) / 2, c.w, nx);
    AllReached(srcH, ys, (srcH - c.h) / 2, c.h, ny);
    var mostX, mostY := CeilDiv(c.w, nx), CeilDiv(c.h, ny);
    FitsIff(xs, ys, nx, ny, mostX, mostY);
    FewerTimes(0, mostX * mostY, 1) by {
      MultiplesApart(0, mostX, mostY);
    }
  }

  lemma PassesOrNot(n: nat)
    ensures Passes(n) <==> n * 255 * 2 <= UINT32_MAX || (n * 255 * 2 >= UINT64 && Passes(n))
  {
  }

  /** It takes exactly the sizes whose sums fit, and those whose product wraps around. */
  lemma TakesOrWraps(srcW: int32, srcH: int32, w: int32, h: int32)
    ensures Accepted(srcW, srcH, w, h) <==> Acceptable(srcW, srcH, w, h) || Wraps(srcW, srcH, w, h)
    ensures !(Acceptable(srcW, srcH, w, h) && Wraps(srcW, srcH, w, h))
  {
    if srcW > 0 && srcH > 0 && w > 0 && h > 0 {
      CropInside(srcW, srcH, w, h);
      var c := CropOf(srcW, srcH, w, h);
      SumsFitIff(c, srcW, srcH, w, h);
      PassesOrNot(FullestCell(c, w, h));
    }
  }

  /** No product wraps around for a source of fewer than 2^64 / 510 pixels. */
  lemma NoneWraps(srcW: int32, srcH: int32, w: int32, h: int32)
    requires srcW > 0 && srcH > 0 && srcW * srcH * 255 * 2 < UINT64
    ensures !Wraps(srcW, srcH, w, h)
  {
    if w > 0 && h > 0 {
      CropInside(srcW, srcH, w, h);
      var c := CropOf(srcW, srcH, w, h);
      ShareAtMost(c.w, Min(c.w, w));
      ShareAtMost(c.h, Min(c.h, h));
      ProductsRise(CeilDiv(c.w, Min(c.w, w)), srcW, CeilDiv(c.h, Min(c.h, h)), srcH);
    }
  }

  /** So for no source of the decoders: a PNG has at most 4096 rows and columns, a JPEG at most 65500. */
  lemma DecodersFit(srcW: int32, srcH: int32, w: int32, h: int32)
    requires srcW <= 65500 && srcH <= 65500
    ensures Accepted(srcW, srcH, w, h) <==> Acceptable(srcW, srcH, w, h)
  {
    if srcW > 0 && srcH > 0 {
      ProductsRise(srcW, 65500, srcH, 65500);
      NoneWraps(srcW, srcH, w, h);
    }
    TakesOrWraps(srcW, srcH, w, h);
  }

  lemma ShareAtMost(a: nat, d: nat)
    requires a > 0 && d > 0
    ensures CeilDiv(a, d) <= a
  {
    if CeilDiv(a, d) > a {
      MultiplesApart(a, CeilDiv(a, d), d);
      MultiplesApart(0, d, a);
    }
  }

  lemma ProductsRise(a: nat, b: nat, c: nat, d: nat)
    requires a <= b && c <= d
    ensures a * c <= b * d
  {
    assert a * c <= b * c <= b * d;
  }

  /** There are sizes it takes and must not. */
  lemma WrapsAround()
    ensures Accepted(1920767767, 1920767767, 1, 1) && !Acceptable(1920767767, 1920767767, 1, 1)
  {
    var s: int32 := 1920767767;
    CropInside(s, s, 1, 1);
    assert CropOf(s, s, 1, 1) == Crop(s, s);
    ShareAtMost(s, 1);
    assert FullestCell(Crop(s, s), 1, 1) == 1920767767 * 1920767767;
    TakesOrWraps(s, s, 1, 1);
  }

  // --- The object ---

  class Downsampler {
    var outW: int
    var outH: int
    var midW: int
    var midH: int
    var xmap: array<int>
    var ymap: array<int>
    var xcount: array<nat>
    var ycount: array<nat>
    var acc: array2<Sums>

    constructor ()
    {
    }

    static method CountOne(count: array<nat>, d: nat, was: nat) returns (most: nat)
      requires d < count.Length && exists k :: 0 <= k < count.Length && count[k] == was
      requires forall k :: 0 <= k < count.Length ==> count[k] <= was
      modifies count
      ensures count[d] == old(count[d]) + 1 && forall k :: 0 <= k < count.Length && k != d ==> count[k] == old(count[k])
      ensures forall k :: 0 <= k < count.Length ==> count[k] <= most
      ensures exists k :: 0 <= k < count.Length && count[k] == most
    {
      ghost var top :| 0 <= top < count.Length && count[top] == was;
      count[d] := count[d] + 1;
      most := was;
      if count[d] > most {
        most := count[d];
      }
      assert count[if count[d] == most then d else top] == most;
    }

    /** `map_axis`: the bin of every source coordinate, how many each bin got, and the most any got. */
    static method MapAxis(map_: array<int>, count: array<nat>, crop0: nat, cropN: nat, dstN: nat) returns (most: nat)
      requires cropN > 0 && count.Length == dstN > 0 && crop0 + cropN <= map_.Length
      requires forall d :: 0 <= d < dstN ==> count[d] == 0
      requires map_ as object != count as object
      modifies map_, count
      ensures map_[..] == AxisMap(map_.Length, crop0, cropN, dstN)
      ensures forall d :: 0 <= d < dstN ==> count[d] == Count(map_[..], d) <= most
      ensures exists d :: 0 <= d < dstN && count[d] == most
    {
      most := 0;
      assert count[0] == most;
      var s := 0;
      while s < map_.Length
        invariant 0 <= s <= map_.Length
        invariant forall k :: 0 <= k < s ==> map_[k] == Bin(k, crop0, cropN, dstN)
        invariant forall d :: 0 <= d < dstN ==> count[d] == Count(map_[..s], d) <= most
        invariant exists d :: 0 <= d < dstN && count[d] == most
      {
        ghost var before := map_[..s];
        var d := -1;
        if crop0 <= s < crop0 + cropN {
          BinInRange(s, crop0, cropN, dstN);
          d := (s - crop0) * dstN / cropN;
          most := CountOne(count, d, most);
        }
        map_[s] := d;
        assert map_[..s + 1][..s] == map_[..s] == before;
        s := s + 1;
      }
      assert map_[..map_.Length] == map_[..];
    }

    /** The maps, the counts and the sums belong together. */
    ghost predicate Shaped()
      reads this, xmap, ymap, xcount, ycount
    {
      && outW > 0 && outH > 0 && 0 < midW == xcount.Length == acc.Length1 && 0 < midH == ycount.Length == acc.Length0
      && AxisOk(xmap[..], xcount[..]) && AxisOk(ymap[..], ycount[..])
    }

    /** And no sum can outgrow its 32 bits. */
    ghost predicate Valid()
      reads this, xmap, ymap, xcount, ycount
    {
      Shaped() && CellsFit(xcount[..], ycount[..])
    }

    /** The maps spread that window of the source over the bins, no more of them than the output or the window has. */
    ghost predicate Spreads(c: Crop, srcW: int, srcH: int, w: int, h: int)
      reads this, xmap, ymap
    {
      && 0 < c.w <= srcW && 0 < c.h <= srcH && w > 0 && h > 0
      && outW == w && outH == h && midW == Min(c.w, w) && midH == Min(c.h, h)
      && xmap[..] == AxisMap(srcW, (srcW - c.w) / 2, c.w, midW)
      && ymap[..] == AxisMap(srcH, (srcH - c.h) / 2, c.h, midH)
    }

    /** What `resampler_init` sets up for a source and an output of those sizes. */
    ghost predicate SetUp(srcW: int32, srcH: int32, w: int32, h: int32)
      reads this, xmap, ymap
    {
      srcW > 0 && srcH > 0 && w > 0 && h > 0 && Spreads(CropOf(srcW, srcH, w, h), srcW, srcH, w, h)
    }

    /** An axis's map and counts, made and filled: no bin is empty. */
    static method MakeAxis(srcN: nat, crop0: nat, cropN: nat, dstN: nat) returns (m: array<int>, count: array<nat>, most: nat)
      requires 0 < dstN <= cropN && crop0 + cropN <= srcN
      ensures fresh(m) && fresh(count) && m.Length == srcN && count.Length == dstN
      ensures m[..] == AxisMap(srcN, crop0, cropN, dstN) && AxisOk(m[..], count[..])
      ensures most == CeilDiv(cropN, dstN)
    {
      m := new int[srcN];
      count := new nat[dstN](_ => 0);
      most := MapAxis(m, count, crop0, cropN, dstN);
      AllReached(srcN, m[..], crop0, cropN, dstN);
      FullestBin(srcN, m[..], crop0, cropN, dstN);
    }

    /** Both axes, and whether the product for their fullest cell passes the test. */
    static method MakeAxes(c: Crop, srcW: nat, srcH: nat, nx: nat, ny: nat)
      returns (xm: array<int>, xc: array<nat>, ym: array<int>, yc: array<nat>, passes: bool)
      requires 0 < nx <= c.w <= srcW && 0 < ny <= c.h <= srcH
      ensures fresh(xm) && fresh(xc) && fresh(ym) && fresh(yc)
      ensures xm[..] == AxisMap(srcW, (srcW - c.w) / 2, c.w, nx) && xc.Length == nx && AxisOk(xm[..], xc[..])
      ensures ym[..] == AxisMap(srcH, (srcH - c.h) / 2, c.h, ny) && yc.Length == ny && AxisOk(ym[..], yc[..])
      ensures passes <==> Passes(CeilDiv(c.w, nx) * CeilDiv(c.h, ny))
    {
      var mostX, mostY;
      xm, xc, mostX := MakeAxis(srcW, (srcW - c.w) / 2, c.w, nx);
      ym, yc, mostY := MakeAxis(srcH, (srcH - c.h) / 2, c.h, ny);
      passes := Passes(mostX * mostY);
    }

    /** `calloc`'s sums. */
    static method Zeroed(h: nat, w: nat) returns (a: array2<Sums>)
      ensures fresh(a) && a.Length0 == h && a.Length1 == w
      ensures forall e, d :: 0 <= e < h && 0 <= d < w ==> a[e, d] == Sums(0, 0, 0)
    {
      a := new Sums[h, w]((_, _) => Sums(0, 0, 0));
    }

    /** The part of `resampler_init` after the window is chosen. */
    method Reserve(c: Crop, srcW: int, srcH: int, w: int, h: int, memory: bool) returns (ok: bool)
      requires 0 < c.w <= srcW && 0 < c.h <= srcH && w > 0 && h > 0
      modifies this
      ensures ok <==> memory && Passes(FullestCell(c, w, h))
      ensures ok ==> Spreads(c, srcW, srcH, w, h) && Shaped()
      ensures ok ==> fresh(xmap) && fresh(ymap) && fresh(xcount) && fresh(ycount) && fresh(acc)
      ensures ok ==> forall e, d :: 0 <= e < midH && 0 <= d < midW ==> acc[e, d] == Sums(0, 0, 0)
    {
      outW, outH, midW, midH := w, h, Min(c.w, w), Min(c.h, h);
      if !memory {
        return false;
      }
      var sums := Zeroed(midH, midW);
      xmap, xcount, ymap, ycount, ok := MakeAxes(c, srcW, srcH, midW, midH);
      acc := sums;
    }

    /** `resampler_init`. */
    method Init(srcW: int32, srcH: int32, w: int32, h: int32, memory: bool) returns (ok: bool)
      modifies this
      ensures ok <==> memory && Accepted(srcW, srcH, w, h)
      ensures ok ==> SetUp(srcW, srcH, w, h) && Shaped() && (Valid() <==> Acceptable(srcW, srcH, w, h))
      ensures ok ==> fresh(xmap) && fresh(ymap) && fresh(xcount) && fresh(ycount) && fresh(acc)
      ensures ok ==> forall e, d :: 0 <= e < midH && 0 <= d < midW ==> acc[e, d] == Sums(0, 0, 0)
    {
      if srcW <= 0 || srcH <= 0 || w <= 0 || h <= 0 {
        return false;
      }
      CropInside(srcW, srcH, w, h);
      ghost var c := CropOf(srcW, srcH, w, h);
      ok := Reserve(CropOf(srcW, srcH, w, h), srcW, srcH, w, h, memory);
      if ok {
        SameFit(c, srcW, srcH, w, h);
      }
    }

    /** The counts say what the maps do. */
    lemma SameFit(c: Crop, srcW: int, srcH: int, w: int, h: int)
      requires Shaped() && Spreads(c, srcW, srcH, w, h)
      ensures CellsFit(xcount[..], ycount[..]) <==> SumsFit(c, srcW, srcH, w, h)
    {
      var xc, yc := xcount[..], ycount[..];
      if SumsFit(c, srcW, srcH, w, h) {
        forall d, e | 0 <= d < |xc| && 0 <= e < |yc| ensures Fits(xc[d], yc[e]) {
          assert Fits(Count(xmap[..], d), Count(ymap[..], e));
        }
      } else {
        var d, e :| 0 <= d < midW && 0 <= e < midH && !Fits(Count(xmap[..], d), Count(ymap[..], e));
        assert !Fits(xc[d], yc[e]);
      }
    }

    /** One row of the sums. */
    ghost function Row(e: int): (r: seq<Sums>)
      requires 0 <= e < acc.Length0
      reads this, acc
      ensures |r| == acc.Length1
    {
      seq(acc.Length1, d requires 0 <= d < acc.Length1 && 0 <= e < acc.Length0 reads this, acc => acc[e, d])
    }

    /** The inner loop of `resampler_add`: a run of pixels that fall in one column, summed in registers. */
    method SumRun(sx: nat, px: seq<byte>, n: nat, bpp: nat, r: nat, g: nat, b: nat, i0: nat, ghost all: seq<Pixel>)
      returns (i: nat, run: Sums)
      requires n * bpp <= |px| && r < bpp && g < bpp && b < bpp && i0 < n && sx + n <= xmap.Length
      requires all == Pixels(px, n, bpp, r, g, b)
      ensures i0 < i <= n && forall k :: sx + i0 <= k < sx + i ==> xmap[k] == xmap[sx + i0]
      ensures run == Added(Sums(0, 0, 0), xmap[..], sx + i0, all[i0..i], xmap[sx + i0])
    {
      var dx := xmap[sx + i0];
      run := Sums(0, 0, 0);
      i := i0;
      while i == i0 || (i < n && xmap[sx + i] == dx)
        invariant i0 <= i <= n && forall k :: sx + i0 <= k < sx + i ==> xmap[k] == dx
        invariant run == Added(Sums(0, 0, 0), xmap[..], sx + i0, all[i0..i], dx)
        decreases n - i
      {
        PixelAt(px, n, bpp, r, g, b, i);
        var p := i * bpp;
        OnePixel(xmap[..], sx, all, i0, i, dx, run);
        run := Sums(run.r + px[p + r], run.g + px[p + g], run.b + px[p + b]);
        i := i + 1;
      }
    }

    /** The loop of `resampler_add`: one row of cells takes the whole span. */
    method AddRuns(dy: nat, sx: nat, n: nat, px: seq<byte>, bpp: nat, r: nat, g: nat, b: nat)
      requires dy < acc.Length0 && sx + n <= xmap.Length && forall s :: 0 <= s < xmap.Length ==> xmap[s] < acc.Length1
      requires n * bpp <= |px| && r < bpp && g < bpp && b < bpp
      modifies acc
      ensures Row(dy) == AddedRow(old(Row(dy)), xmap[..], sx, Pixels(px, n, bpp, r, g, b))
      ensures forall e, d :: 0 <= e < acc.Length0 && 0 <= d < acc.Length1 && e != dy ==> acc[e, d] == old(acc[e, d])
    {
      ghost var was := Row(dy);
      ghost var all := Pixels(px, n, bpp, r, g, b);
      var i := 0;
      while i < n
        invariant 0 <= i <= n
        invariant Row(dy) == AddedRow(was, xmap[..], sx, all[..i])
        invariant forall e, d :: 0 <= e < acc.Length0 && 0 <= d < acc.Length1 && e != dy ==> acc[e, d] == old(acc[e, d])
        decreases n - i
      {
        var dx := xmap[sx + i];
        if dx < 0 {
          RowRunAdded(was, xmap[..], sx, all, i, i + 1, dx, Sums(0, 0, 0));
          i := i + 1;
        } else {
          ghost var i0 := i;
          var run: Sums;
          i, run := SumRun(sx, px, n, bpp, r, g, b, i, all);
          RowRunAdded(was, xmap[..], sx, all, i0, i, dx, run);
          AddToCell(dy, dx, run);
        }
      }
      assert all[..n] == all;
    }

    method AddToCell(dy: nat, dx: nat, run: Sums)
      requires dy < acc.Length0 && dx < acc.Length1
      modifies acc
      ensures Row(dy) == old(Row(dy))[dx := Plus(old(Row(dy))[dx], run)]
      ensures forall e, d :: 0 <= e < acc.Length0 && 0 <= d < acc.Length1 && e != dy ==> acc[e, d] == old(acc[e, d])
    {
      acc[dy, dx] := Plus(acc[dy, dx], run);
    }

    /** `resampler_add`: a span of row `sy` from column `sx`, each cell getting exactly its pixels. */
    method AddSpan(sy: nat, sx: nat, n: nat, px: seq<byte>, bpp: nat, r: nat, g: nat, b: nat)
      requires Valid() && sy < ymap.Length && sx + n <= xmap.Length
      requires n * bpp <= |px| && r < bpp && g < bpp && b < bpp
      modifies acc
      ensures forall e :: 0 <= e < midH ==>
                Row(e) == if e == ymap[sy] then AddedRow(old(Row(e)), xmap[..], sx, Pixels(px, n, bpp, r, g, b)) else old(Row(e))
    {
      var dy := ymap[sy];
      if dy < 0 {
        return;
      }
      AddRuns(dy, sx, n, px, bpp, r, g, b);
    }

    /** However a row is cut into spans, its cells get what one span of all their pixels would give them. */
    method AddSpans(sy: nat, sx: nat, spans: seq<Span>, bpp: nat, r: nat, g: nat, b: nat) returns (x: nat)
      requires Valid() && sy < ymap.Length && r < bpp && g < bpp && b < bpp
      requires (forall i :: 0 <= i < |spans| ==> spans[i].Holds(bpp)) && sx + |Joined(spans, bpp, r, g, b)| <= xmap.Length
      modifies acc
      ensures forall e :: 0 <= e < midH ==>
                Row(e) == if e == ymap[sy] then AddedRow(old(Row(e)), xmap[..], sx, Joined(spans, bpp, r, g, b)) else old(Row(e))
      ensures x == sx + |Joined(spans, bpp, r, g, b)|
      decreases |spans|
    {
      x := sx;
      if spans == [] {
        return;
      }
      var k := |spans| - 1;
      ghost var first := Joined(spans[..k], bpp, r, g, b);
      assert spans[k].Holds(bpp);
      x := AddSpans(sy, sx, spans[..k], bpp, r, g, b);
      ghost var last := Pixels(spans[k].px, spans[k].n, bpp, r, g, b);
      if 0 <= ymap[sy] {
        RowCut(old(Row(ymap[sy])), xmap[..], sx, first, last);
      }
      AddSpan(sy, x, spans[k].n, spans[k].px, bpp, r, g, b);
      x := x + spans[k].n;
    }

    method OutputPixel(y: nat, x: nat) returns (v: nat)
      requires Valid() && y < outH && x < outW
      ensures Shows(v, y, x)
    {
      var my := CellOf(y, midH, outH);
      var mx := CellOf(x, midW, outW);
      var a := acc[my, mx];
      assert Fits(xcount[..][mx], ycount[..][my]);
      var n := xcount[mx] * ycount[my];
      v := MeanPixel(a, n);
    }

    /** `resampler_finish`: every output pixel is the mean of the cell it shows. */
    method Finish(dst: array2<nat>)
      requires Valid() && dst.Length0 == outH && dst.Length1 == outW
      requires dst as object != xcount && dst as object != ycount && dst as object != acc
      modifies dst
      ensures forall y, x :: 0 <= y < outH && 0 <= x < outW ==> Shows(dst[y, x], y, x)
    {
      var y := 0;
      while y < outH
        invariant 0 <= y <= outH
        invariant forall j, k :: 0 <= j < y && 0 <= k < outW ==> Shows(dst[j, k], j, k)
      {
        FinishRow(dst, y);
        y := y + 1;
      }
    }

    method FinishRow(dst: array2<nat>, y: nat)
      requires Valid() && y < outH && dst.Length0 == outH && dst.Length1 == outW
      requires dst as object != xcount && dst as object != ycount && dst as object != acc
      modifies dst
      ensures forall x :: 0 <= x < outW ==> Shows(dst[y, x], y, x)
      ensures forall j, k :: 0 <= j < outH && 0 <= k < outW && j != y ==> dst[j, k] == old(dst[j, k])
    {
      var x := 0;
      while x < outW
        invariant 0 <= x <= outW
        invariant forall k :: 0 <= k < x ==> Shows(dst[y, k], y, k)
        invariant forall j, k :: 0 <= j < outH && 0 <= k < outW && j != y ==> dst[j, k] == old(dst[j, k])
      {
        var v := OutputPixel(y, x);
        dst[y, x] := v;
        x := x + 1;
      }
    }

    /** An output pixel is the packed mean of its cell. */
    ghost predicate Shows(v: nat, y: int, x: int)
      requires Valid() && 0 <= y < outH && 0 <= x < outW
      reads this, xmap, ymap, xcount, ycount, acc
    {
      var my, mx := CellOf(y, midH, outH), CellOf(x, midW, outW);
      assert Fits(xcount[..][mx], ycount[..][my]);
      v == MeanPixel(acc[my, mx], xcount[mx] * ycount[my])
    }
  }

  /** The sums of a cell over the first `h` rows. */
  function CellSums(xmap: seq<int>, ymap: seq<int>, img: Image, h: nat, dy: int, dx: int): Sums
    requires h <= |img| && h <= |ymap| && forall y :: 0 <= y < h ==> |img[y]| <= |xmap|
  {
    Sums(CellSum(xmap, ymap, img, h, dy, dx, 0), CellSum(xmap, ymap, img, h, dy, dx, 1), CellSum(xmap, ymap, img, h, dy, dx, 2))
  }

  lemma OnePixel(xmap: seq<int>, sx: nat, all: seq<Pixel>, i0: nat, i: nat, dx: int, run: Sums)
    requires i0 <= i < |all| && sx + |all| <= |xmap| && xmap[sx + i] == dx
    requires run == Added(Sums(0, 0, 0), xmap, sx + i0, all[i0..i], dx)
    ensures Added(Sums(0, 0, 0), xmap, sx + i0, all[i0..i + 1], dx) == Plus(run, Sums(all[i].r, all[i].g, all[i].b))
  {
    assert all[i0..i + 1][..i - i0] == all[i0..i];
  }

  /** The cell an output pixel shows: of those summed, the one its share of the output begins in. */
  function CellOf(y: nat, mid: nat, out: nat): (m: nat)
    requires y < out && mid > 0
    ensures m < mid && m * out <= y * mid < (m + 1) * out
  {
    MultiplesApart(y, out, mid);
    QuotientOf(y * mid, out, mid);
    assert out * mid == mid * out;
    QuotientOf(y * mid, out, y * mid / out);
    QuotientOf(y * mid, out, y * mid / out + 1);
    y * mid / out
  }

  /** A cell's mean colour, packed. */
  function MeanPixel(a: Sums, n: nat): nat
    requires n > 0
  {
    Rgb565(Mean(a.r, n), Mean(a.g, n), Mean(a.b, n))
  }

  const UINT32_MAX: nat := 0xFFFF_FFFF
  const UINT64: nat := 0x1_0000_0000_0000_0000

  /** A channel sum over that many columns and rows, twice, fits 32 bits. */
  predicate Fits(columns: nat, rows: nat) {
    0 < columns * rows && columns * rows * 255 * 2 <= UINT32_MAX
  }

  /** Each channel of a finished cell is its pixels' mean, rounded to nearest; it lies between any bounds of
      theirs, so it is a byte; and neither the sum nor what rounding adds to it ever outgrows 32 bits. */
  lemma CellIsMean(xmap: seq<int>, ymap: seq<int>, img: Image, h: nat, dy: int, dx: int, c: nat, lo: nat, hi: nat)
    requires h <= |img| && h == |ymap| && forall y :: 0 <= y < h ==> |img[y]| == |xmap|
    requires CellWithin(xmap, ymap, img, h, dy, dx, c, lo, hi) && Fits(Count(xmap, dx), Count(ymap, dy))
    ensures var n := Count(xmap, dx) * Count(ymap, dy);
            var sum := CellSum(xmap, ymap, img, h, dy, dx, c);
            n > 0 && lo <= Mean(sum, n) <= hi && -(n as int) <= 2 * (sum - Mean(sum, n) * n) <= n &&
            sum + n / 2 <= UINT32_MAX && Mean(sum, n) <= 255
  {
    var n := Count(xmap, dx) * Count(ymap, dy);
    var sum := CellSum(xmap, ymap, img, h, dy, dx, c);
    assert ymap[..h] == ymap;
    CellBounds(xmap, ymap, img, h, dy, dx, c, lo, hi);
    MeanIsNearest(sum, n, lo, hi);
    CellBounds(xmap, ymap, img, h, dy, dx, c, 0, 255);
    MeanIsNearest(sum, n, 0, 255);
  }

  /** At every moment of the stream too: what a cell has so far is within 32 bits. */
  lemma {:induction false} PartialSumsFit(xmap: seq<int>, ymap: seq<int>, img: Image, h: nat, k: nat, dy: int, dx: int, c: nat)
    requires k <= h <= |img| && h == |ymap| && forall y :: 0 <= y < h ==> |img[y]| == |xmap|
    requires Fits(Count(xmap, dx), Count(ymap, dy))
    ensures CellSum(xmap, ymap, img, k, dy, dx, c) <= CellSum(xmap, ymap, img, h, dy, dx, c) <= UINT32_MAX / 2
    decreases h - k
  {
    if k < h {
      PartialSumsFit(xmap, ymap, img, h, k + 1, dy, dx, c);
    } else {
      assert ymap[..h] == ymap;
      CellBounds(xmap, ymap, img, h, dy, dx, c, 0, 255);
    }
  }
}
