/**
 Whole thumbnails: the decoders' use of the downsampler of src/ui/cover_art.c, and which
 source pixels each output pixel is made of.
 */
module Thumbnails {
  import opened Wrappers
  import opened Binning
  import opened Resampler

  // --- What an output pixel is made of ---

  /** The window of `n` coordinates from `first` on, spread over `out` output coordinates. */
  datatype Axis = Axis(first: nat, n: nat, out: nat)

  /** Source coordinate `s` goes into output coordinate `y`: where there are no more outputs than sources, its place
      in the window begins within the output's share of it; where there are more, the output's share begins within
      its place. */
  predicate Covers(a: Axis, s: nat, y: nat) {
    && a.first <= s < a.first + a.n
    && if a.out <= a.n
       then y * a.n <= (s - a.first) * a.out < (y + 1) * a.n
       else (s - a.first) * a.out <= y * a.n < (s - a.first + 1) * a.out
  }

  /** How many of the first `k` source coordinates go into output coordinate `y`. */
  function Covered(a: Axis, y: nat, k: nat): nat {
    if k == 0 then 0 else Covered(a, y, k - 1) + if Covers(a, k - 1, y) then 1 else 0
  }

  /** The sum of one channel over the first `k` pixels of a row that go into output column `x`. */
  function RowSum(row: seq<Pixel>, a: Axis, x: nat, k: nat, c: nat): nat
    requires k <= |row|
  {
    if k == 0 then 0 else RowSum(row, a, x, k - 1, c) + if Covers(a, k - 1, x) then row[k - 1].Channel(c) else 0
  }

  /** The sum of one channel over the pixels of the first `k` rows that go into output pixel (`y`, `x`). */
  function RegionSum(img: Image, rows: Axis, columns: Axis, y: nat, x: nat, k: nat, c: nat): nat
    requires k <= |img|
  {
    if k == 0 then 0
    else
      RegionSum(img, rows, columns, y, x, k - 1, c)
      + if Covers(rows, k - 1, y) then RowSum(img[k - 1], columns, x, |img[k - 1]|, c) else 0
  }

  /** How many source pixels go into the output pixel. */
  function RegionSize(h: nat, w: nat, rows: Axis, columns: Axis, y: nat, x: nat): nat {
    Covered(rows, y, h) * Covered(columns, x, w)
  }

  /** The rounded mean of one channel over them. */
  function RegionMean(img: Image, w: nat, rows: Axis, columns: Axis, y: nat, x: nat, c: nat): nat
    requires RegionSize(|img|, w, rows, columns, y, x) > 0
  {
    Mean(RegionSum(img, rows, columns, y, x, |img|, c), RegionSize(|img|, w, rows, columns, y, x))
  }

  /** The means of the three channels over the source pixels that go into the output pixel, packed. */
  predicate IsMeanOf(v: nat, img: Image, w: nat, rows: Axis, columns: Axis, y: nat, x: nat) {
    && RegionSize(|img|, w, rows, columns, y, x) > 0
    && v == Rgb565(RegionMean(img, w, rows, columns, y, x, 0),
                   RegionMean(img, w, rows, columns, y, x, 1),
                   RegionMean(img, w, rows, columns, y, x, 2))
  }

  /** The bins that `map_axis` and `resampler_finish` go by say the same. */
  lemma CoversIsCell(a: Axis, s: nat, y: nat)
    requires a.n > 0 && y < a.out
    ensures Covers(a, s, y) <==> Bin(s, a.first, a.n, Min(a.n, a.out)) == CellOf(y, Min(a.n, a.out), a.out)
  {
    if a.first <= s < a.first + a.n {
      if a.out <= a.n {
        FewOutputs(s - a.first, a.n, a.out, y);
      } else {
        ManyOutputs(s - a.first, a.n, a.out, y);
      }
    }
  }

  lemma FewOutputs(t: nat, n: nat, out: nat, y: nat)
    requires n > 0 && y < out
    ensures t * out / n == CellOf(y, out, out) <==> y * n <= t * out < (y + 1) * n
  {
    SameMultiple(CellOf(y, out, out), y, out);
    BetweenMultiples(t * out, n, y);
  }

  lemma ManyOutputs(t: nat, n: nat, out: nat, y: nat)
    requires n > 0 && y < out
    ensures t * n / n == CellOf(y, n, out) <==> t * out <= y * n < (t + 1) * out
  {
    BetweenMultiples(t * n, n, t);
    assert (t + 1) * n == t * n + n;
    BetweenMultiples(y * n, out, t);
    BetweenMultiples(y * n, out, CellOf(y, n, out));
  }

  lemma BetweenMultiples(x: nat, d: nat, q: nat)
    requires d > 0
    ensures x / d == q <==> q * d <= x < (q + 1) * d
  {
    QuotientOf(x, d, q);
    QuotientOf(x, d, q + 1);
  }

  lemma SameMultiple(m: nat, y: nat, d: nat)
    requires d > 0 && m * d <= y * d < (m + 1) * d
    ensures m == y
  {
    FewerTimes(y, m + 1, d);
    if m > y {
      MultiplesApart(y, m, d);
    }
  }

  lemma {:induction false} CoveredIsCount(a: Axis, y: nat, m: seq<int>, k: nat)
    requires a.n > 0 && y < a.out && k <= |m| && m == AxisMap(|m|, a.first, a.n, Min(a.n, a.out))
    ensures Covered(a, y, k) == Count(m[..k], CellOf(y, Min(a.n, a.out), a.out))
  {
    if k > 0 {
      CoveredIsCount(a, y, m, k - 1);
      CoversIsCell(a, k - 1, y);
      assert m[..k][..k - 1] == m[..k - 1];
    }
  }

  lemma {:induction false} RowIsSpan(row: seq<Pixel>, a: Axis, x: nat, m: seq<int>, k: nat, c: nat)
    requires a.n > 0 && x < a.out && k <= |row| <= |m| && m == AxisMap(|m|, a.first, a.n, Min(a.n, a.out))
    ensures RowSum(row, a, x, k, c) == SpanSum(m, 0, row[..k], CellOf(x, Min(a.n, a.out), a.out), c)
  {
    if k > 0 {
      RowIsSpan(row, a, x, m, k - 1, c);
      CoversIsCell(a, k - 1, x);
      assert row[..k][..k - 1] == row[..k - 1];
    }
  }

  lemma {:induction false} RegionIsCell(
      img: Image, rows: Axis, columns: Axis, y: nat, x: nat, ymap: seq<int>, xmap: seq<int>, k: nat, c: nat)
    requires rows.n > 0 && y < rows.out && columns.n > 0 && x < columns.out
    requires ymap == AxisMap(|ymap|, rows.first, rows.n, Min(rows.n, rows.out))
    requires xmap == AxisMap(|xmap|, columns.first, columns.n, Min(columns.n, columns.out))
    requires k <= |img| == |ymap| && forall j :: 0 <= j < |img| ==> |img[j]| == |xmap|
    ensures RegionSum(img, rows, columns, y, x, k, c)
         == CellSum(xmap, ymap, img, k, CellOf(y, Min(rows.n, rows.out), rows.out), CellOf(x, Min(columns.n, columns.out), columns.out), c)
  {
    if k > 0 {
      RegionIsCell(img, rows, columns, y, x, ymap, xmap, k - 1, c);
      CoversIsCell(rows, k - 1, y);
      RowIsSpan(img[k - 1], columns, x, xmap, |xmap|, c);
      assert img[k - 1][..|xmap|] == img[k - 1];
    }
  }

  /** What a source of the output's own size leaves at (`y`, `x`): the pixel there, packed. */
  lemma SamePlace(img: Image, n: nat, m: nat, y: nat, x: nat, v: nat)
    requires y < n == |img| && x < m && forall j :: 0 <= j < n ==> |img[j]| == m
    requires IsMeanOf(v, img, m, Axis(0, n, n), Axis(0, m, m), y, x)
    ensures v == Rgb565(img[y][x].r, img[y][x].g, img[y][x].b)
  {
    OneMean(img, m, y, x, 0);
    OneMean(img, m, y, x, 1);
    OneMean(img, m, y, x, 2);
  }

  lemma OneMean(img: Image, m: nat, y: nat, x: nat, c: nat)
    requires y < |img| && x < m && forall j :: 0 <= j < |img| ==> |img[j]| == m
    ensures RegionSize(|img|, m, Axis(0, |img|, |img|), Axis(0, m, m), y, x) == 1
    ensures RegionMean(img, m, Axis(0, |img|, |img|), Axis(0, m, m), y, x, c) == img[y][x].Channel(c)
  {
    OneCovered(|img|, y, |img|);
    OneCovered(m, x, m);
    OneSummed(img, m, y, x, |img|, c);
    MeanOfOne(img[y][x].Channel(c));
  }

  lemma MeanOfOne(v: nat)
    ensures Mean(v, 1) == v
  {
  }

  lemma CoversItself(n: nat, s: nat, y: nat)
    requires s < n && y < n
    ensures Covers(Axis(0, n, n), s, y) <==> s == y
  {
    if s != y && Covers(Axis(0, n, n), s, y) {
      SameMultiple(y, s, n);
    }
    assert (y + 1) * n == y * n + n;
  }

  lemma {:induction false} OneCovered(n: nat, y: nat, k: nat)
    requires y < n && k <= n
    ensures Covered(Axis(0, n, n), y, k) == if y < k then 1 else 0
  {
    if k > 0 {
      OneCovered(n, y, k - 1);
      CoversItself(n, k - 1, y);
    }
  }

  lemma {:induction false} OneInRow(row: seq<Pixel>, x: nat, k: nat, c: nat)
    requires x < |row| && k <= |row|
    ensures RowSum(row, Axis(0, |row|, |row|), x, k, c) == if x < k then row[x].Channel(c) as nat else 0
  {
    if k > 0 {
      OneInRow(row, x, k - 1, c);
      CoversItself(|row|, k - 1, x);
    }
  }

  lemma {:induction false} OneSummed(img: Image, m: nat, y: nat, x: nat, k: nat, c: nat)
    requires y < |img| && x < m && k <= |img| && forall j :: 0 <= j < |img| ==> |img[j]| == m
    ensures RegionSum(img, Axis(0, |img|, |img|), Axis(0, m, m), y, x, k, c)
         == if y < k then img[y][x].Channel(c) as nat else 0
  {
    if k > 0 {
      OneSummed(img, m, y, x, k - 1, c);
      CoversItself(|img|, k - 1, y);
      OneInRow(img[k - 1], x, m, c);
    }
  }

  /** A source of the output's shape is used whole. */
  lemma SameSizeWhole(w: int32, h: int32)
    requires w > 0 && h > 0
    ensures CropOf(w, h, w, h) == Crop(w, h)
  {
    BetweenMultiples(w * h, w, h);
    assert (h + 1) * w == w * h + w;
  }

  // --- A whole image ---

  /** The image that rows of pixel bytes spell. */
  function ImageOf(rows: seq<seq<byte>>, w: nat, bpp: nat, r: nat, g: nat, b: nat): (img: Image)
    requires r < bpp && g < bpp && b < bpp && forall y :: 0 <= y < |rows| ==> w * bpp <= |rows[y]|
    ensures |img| == |rows|
    ensures forall y :: 0 <= y < |rows| ==> img[y] == Pixels(rows[y], w, bpp, r, g, b)
  {
    seq(|rows|, y requires 0 <= y < |rows| && r < bpp && g < bpp && b < bpp && w * bpp <= |rows[y]| =>
      Pixels(rows[y], w, bpp, r, g, b))
  }

  /** The decoders' use of the downsampler: row after row, then the output. Their sources are too small for the
      product to wrap around. */
  method Thumbnail(rs: Downsampler, rows: seq<seq<byte>>, w: int32, h: int32, bpp: nat, r: nat, g: nat, b: nat,
                   outW: int32, outH: int32, memory: bool, dst: array2<nat>) returns (ok: bool)
    requires |rows| == h && w >= 0 && r < bpp && g < bpp && b < bpp && dst.Length0 == outH && dst.Length1 == outW
    requires forall y :: 0 <= y < |rows| ==> w * bpp <= |rows[y]|
    requires !Wraps(w, h, outW, outH)
    modifies rs, dst
    ensures ok <==> memory && Acceptable(w, h, outW, outH)
    ensures ok ==> rs.Valid() && rs.SetUp(w, h, outW, outH)
    ensures ok ==> Means(dst, ImageOf(rows, w, bpp, r, g, b), w, h, outW, outH)
    ensures ok && w == outW && h == outH ==> SamePixels(dst, rows, w, h, bpp, r, g, b)
  {
    ok := rs.Init(w, h, outW, outH, memory);
    TakesOrWraps(w, h, outW, outH);
    if !ok {
      return;
    }
    AddRows(rs, rows, w, h, bpp, r, g, b);
    rs.Finish(dst);
    ShownAreMeans(rs, dst, ImageOf(rows, w, bpp, r, g, b), w, h, outW, outH);
    if w == outW && h == outH {
      SameSizeSame(dst, rows, w, h, bpp, r, g, b);
    }
  }

  /** Every output pixel is the packed mean of the source pixels of the window that go into it. */
  ghost predicate Means(dst: array2<nat>, img: Image, w: int32, h: int32, outW: int32, outH: int32)
    requires w > 0 && h > 0 && outW > 0 && outH > 0 && dst.Length0 == outH && dst.Length1 == outW
    reads dst
  {
    var c := CropOf(w, h, outW, outH);
    && c.h <= h && c.w <= w
    && forall y, x :: 0 <= y < outH && 0 <= x < outW ==>
         IsMeanOf(dst[y, x], img, w, Axis((h - c.h) / 2, c.h, outH), Axis((w - c.w) / 2, c.w, outW), y, x)
  }

  /** Every output pixel is the source's pixel at its place, packed. */
  ghost predicate SamePixels(dst: array2<nat>, rows: seq<seq<byte>>, w: nat, h: nat, bpp: nat, r: nat, g: nat, b: nat)
    requires |rows| == h == dst.Length0 && dst.Length1 == w && r < bpp && g < bpp && b < bpp
    reads dst
  {
    forall y, x :: 0 <= y < h && 0 <= x < w ==>
      Holds(rows[y], x, bpp) && dst[y, x] == Rgb565(rows[y][x * bpp + r], rows[y][x * bpp + g], rows[y][x * bpp + b])
  }

  lemma ShownAreMeans(rs: Downsampler, dst: array2<nat>, img: Image, w: int32, h: int32, outW: int32, outH: int32)
    requires rs.Valid() && rs.SetUp(w, h, outW, outH) && dst.Length0 == outH && dst.Length1 == outW
    requires |img| == h && forall j :: 0 <= j < |img| ==> |img[j]| == w
    requires forall e, d :: 0 <= e < rs.midH && 0 <= d < rs.midW ==>
               rs.acc[e, d] == CellSums(rs.xmap[..], rs.ymap[..], img, h, e, d)
    requires forall y, x :: 0 <= y < outH && 0 <= x < outW ==> rs.Shows(dst[y, x], y, x)
    ensures Means(dst, img, w, h, outW, outH)
  {
    var c := CropOf(w, h, outW, outH);
    CropInside(w, h, outW, outH);
    forall y, x | 0 <= y < outH && 0 <= x < outW
      ensures IsMeanOf(dst[y, x], img, w, Axis((h - c.h) / 2, c.h, outH), Axis((w - c.w) / 2, c.w, outW), y, x)
    {
      assert rs.Shows(dst[y, x], y, x);
      ShownIsMean(rs, img, w, h, outW, outH, c, dst[y, x], y, x);
    }
  }

  lemma SameSizeSame(dst: array2<nat>, rows: seq<seq<byte>>, w: int32, h: int32, bpp: nat, r: nat, g: nat, b: nat)
    requires w > 0 && h > 0 && |rows| == h == dst.Length0 && dst.Length1 == w && r < bpp && g < bpp && b < bpp
    requires forall y :: 0 <= y < |rows| ==> w * bpp <= |rows[y]|
    requires Means(dst, ImageOf(rows, w, bpp, r, g, b), w, h, w, h)
    ensures SamePixels(dst, rows, w, h, bpp, r, g, b)
  {
    SameSizeWhole(w, h);
    var img := ImageOf(rows, w, bpp, r, g, b);
    forall y, x | 0 <= y < h && 0 <= x < w
      ensures Holds(rows[y], x, bpp) && dst[y, x] == Rgb565(rows[y][x * bpp + r], rows[y][x * bpp + g], rows[y][x * bpp + b])
    {
      SamePlace(img, h, w, y, x, dst[y, x]);
      PixelAt(rows[y], w, bpp, r, g, b, x);
    }
  }

  /** A row's bytes reach to the end of that pixel. */
  predicate Holds(row: seq<byte>, x: nat, bpp: nat) {
    0 <= x * bpp && x * bpp + bpp <= |row|
  }

  /** The cell an output pixel shows has exactly the source pixels that go into it. */
  lemma ShownIsMean(rs: Downsampler, img: Image, w: int32, h: int32, outW: int32, outH: int32, c: Crop, v: nat, y: nat, x: nat)
    requires rs.Valid() && rs.SetUp(w, h, outW, outH) && y < outH && x < outW && c == CropOf(w, h, outW, outH)
    requires |img| == h && forall j :: 0 <= j < |img| ==> |img[j]| == w
    requires forall e, d :: 0 <= e < rs.midH && 0 <= d < rs.midW ==>
               rs.acc[e, d] == CellSums(rs.xmap[..], rs.ymap[..], img, h, e, d)
    requires rs.Shows(v, y, x)
    ensures c.h <= h && c.w <= w
    ensures IsMeanOf(v, img, w, Axis((h - c.h) / 2, c.h, outH), Axis((w - c.w) / 2, c.w, outW), y, x)
  {
    var rows, columns := Axis((h - c.h) / 2, c.h, outH), Axis((w - c.w) / 2, c.w, outW);
    var my, mx := CellOf(y, rs.midH, outH), CellOf(x, rs.midW, outW);
    var n := rs.xcount[mx] * rs.ycount[my];
    assert Fits(rs.xcount[..][mx], rs.ycount[..][my]);
    RegionIsCounted(rs, rows, columns, y, x);
    RegionIsCell(img, rows, columns, y, x, rs.ymap[..], rs.xmap[..], h, 0);
    RegionIsCell(img, rows, columns, y, x, rs.ymap[..], rs.xmap[..], h, 1);
    RegionIsCell(img, rows, columns, y, x, rs.ymap[..], rs.xmap[..], h, 2);
    assert rs.acc[my, mx] == CellSums(rs.xmap[..], rs.ymap[..], img, h, my, mx);
  }

  lemma RegionIsCounted(rs: Downsampler, rows: Axis, columns: Axis, y: nat, x: nat)
    requires rs.Valid() && y < rows.out == rs.outH && x < columns.out == rs.outW && rows.n > 0 && columns.n > 0
    requires rs.midH == Min(rows.n, rows.out) && rs.midW == Min(columns.n, columns.out)
    requires rs.ymap[..] == AxisMap(rs.ymap.Length, rows.first, rows.n, rs.midH)
    requires rs.xmap[..] == AxisMap(rs.xmap.Length, columns.first, columns.n, rs.midW)
    ensures RegionSize(rs.ymap.Length, rs.xmap.Length, rows, columns, y, x)
         == rs.xcount[CellOf(x, rs.midW, rs.outW)] * rs.ycount[CellOf(y, rs.midH, rs.outH)]
  {
    var my, mx := CellOf(y, rs.midH, rs.outH), CellOf(x, rs.midW, rs.outW);
    CoveredIsCount(rows, y, rs.ymap[..], rs.ymap.Length);
    CoveredIsCount(columns, x, rs.xmap[..], rs.xmap.Length);
    assert rs.ymap[..][..rs.ymap.Length] == rs.ymap[..] && rs.xmap[..][..rs.xmap.Length] == rs.xmap[..];
    assert rs.xcount[..][mx] == rs.xcount[mx] && rs.ycount[..][my] == rs.ycount[my];
    Commutes(rs.xcount[mx], rs.ycount[my]);
  }

  lemma Commutes(a: nat, b: nat)
    ensures a * b == b * a
  {
  }

  method AddRows(rs: Downsampler, rows: seq<seq<byte>>, w: nat, h: nat, bpp: nat, r: nat, g: nat, b: nat)
    requires rs.Valid() && |rows| == h == rs.ymap.Length && w == rs.xmap.Length && r < bpp && g < bpp && b < bpp
    requires forall y :: 0 <= y < |rows| ==> w * bpp <= |rows[y]|
    requires forall e, d :: 0 <= e < rs.midH && 0 <= d < rs.midW ==> rs.acc[e, d] == Sums(0, 0, 0)
    modifies rs.acc
    ensures var img := ImageOf(rows, w, bpp, r, g, b);
            forall e, d :: 0 <= e < rs.midH && 0 <= d < rs.midW ==>
              rs.acc[e, d] == CellSums(rs.xmap[..], rs.ymap[..], img, h, e, d)
  {
    ghost var img := ImageOf(rows, w, bpp, r, g, b);
    ghost var xs, ys := rs.xmap[..], rs.ymap[..];
    var y := 0;
    while y < h
      invariant 0 <= y <= h
      invariant forall e, d :: 0 <= e < rs.midH && 0 <= d < rs.midW ==> rs.acc[e, d] == CellSums(xs, ys, img, y, e, d)
    {
      label before:
      rs.AddSpan(y, 0, w, rows[y], bpp, r, g, b);
      forall e, d | 0 <= e < rs.midH && 0 <= d < rs.midW
        ensures rs.acc[e, d] == CellSums(xs, ys, img, y + 1, e, d)
      {
        assert rs.acc[e, d] == rs.Row(e)[d];
        assert old@before(rs.acc[e, d]) == old@before(rs.Row(e))[d];
      }
      y := y + 1;
    }
  }
}
