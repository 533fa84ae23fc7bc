/**
 The arithmetic behind the thumbnail downsampler of src/ui/cover_art.c: which window of
 the source is used, and how its rows and columns are spread over bins.
 */
module Binning {
  /** A C `int`. */
  type int32 = x: int | -0x8000_0000 <= x < 0x8000_0000

  /** The cast of a non-negative 64-bit value to `int`: its low 32 bits as two's complement. */
  function ToInt(x: nat): (r: int32)
    ensures x < 0x8000_0000 ==> r == x
    ensures r >= 0 ==> r <= x
  {
    var low := x % 0x1_0000_0000;
    if low < 0x8000_0000 then low else low - 0x1_0000_0000
  }

  datatype Crop = Crop(w: int, h: int)

  /** The window `resampler_init` takes from a source of that size. */
  function CropOf(srcW: int32, srcH: int32, outW: int32, outH: int32): (c: Crop)
    requires srcW > 0 && srcH > 0 && outW > 0 && outH > 0
  {
    var h := ToInt(srcW * outH / outW);
    var c := if h > srcH then Crop(ToInt(srcH * outW / outH), srcH) else Crop(srcW, h);
    Crop(if c.w < 1 then 1 else c.w, if c.h < 1 then 1 else c.h)
  }

  /** Multiples of `d` are `d` apart. */
  lemma {:induction false} MultiplesApart(p: int, q: int, d: nat)
    requires p < q
    ensures p * d + d <= q * d
    decreases q - p
  {
    if p + 1 < q {
      MultiplesApart(p + 1, q, d);
    }
    assert (p + 1) * d == p * d + d;
  }

  /** Two quotients compare as the multiples of the divisor around their dividends do. */
  lemma QuotientOf(x: nat, d: nat, q: int)
    requires d > 0
    ensures x / d >= q <==> x >= q * d
  {
    var r := x / d;
    assert r * d <= x < r * d + d;
    if q > r {
      MultiplesApart(r, q, d);
    } else if q < r {
      MultiplesApart(q, r, d);
    }
  }

  lemma QuotientBound(a: nat, b: nat, c: nat, q: nat)
    requires b > 0 && c > 0 && a * c / b > q
    ensures q * b / c <= a
  {
    QuotientOf(a * c, b, q + 1);
    QuotientOf(q * b, c, a + 1);
  }

  /** The window is never empty and never reaches past the source, whatever the casts do. */
  lemma CropInside(srcW: int32, srcH: int32, outW: int32, outH: int32)
    requires srcW > 0 && srcH > 0 && outW > 0 && outH > 0
    ensures var c := CropOf(srcW, srcH, outW, outH);
            1 <= c.w <= srcW && 1 <= c.h <= srcH
  {
    var v := srcW * outH / outW;
    if ToInt(v) > srcH {
      QuotientBound(srcW, outW, outH, srcH);
      var w: nat := srcH * outW / outH;
      assert ToInt(w) == w;
    }
  }

  /** Of windows with the output's shape no wider and no taller than the source, it is the largest: one side is the
      whole source's, and the other is the shape's, rounded down but never to nothing. */
  predicate Fills(c: Crop, srcW: int32, srcH: int32, outW: int32, outH: int32)
    requires outW > 0 && outH > 0
  {
    if srcW * outH / outW > srcH
    then c.h == srcH && c.w == Max(1, srcH * outW / outH)
    else c.w == srcW && c.h == Max(1, srcW * outH / outW)
  }

  /** The window fills the source exactly when the height taken for the whole width does fit the source, or is seen not
      to fit after its cast. */
  lemma CropFills(srcW: int32, srcH: int32, outW: int32, outH: int32)
    requires srcW > 0 && srcH > 0 && outW > 0 && outH > 0
    ensures var v := srcW * outH / outW;
            Fills(CropOf(srcW, srcH, outW, outH), srcW, srcH, outW, outH) <==> v <= srcH || ToInt(v) > srcH
  {
    var v := srcW * outH / outW;
    if v > srcH {
      QuotientBound(srcW, outW, outH, srcH);
      if ToInt(v) <= srcH {
        WholeWidthTooTall(srcW, srcH, outW, outH);
      }
    }
  }

  /** When the whole width would need more than 2^31 rows, the largest window is narrower than the source. */
  lemma WholeWidthTooTall(srcW: int32, srcH: int32, outW: int32, outH: int32)
    requires srcW > 0 && srcH > 0 && outW > 0 && outH > 0 && srcW * outH / outW >= 0x8000_0000
    ensures Max(1, srcH * outW / outH) < srcW
  {
    QuotientOf(srcW * outH, outW, 0x8000_0000);
    MultiplesApart(srcH, 0x8000_0000, outW);
    QuotientOf(srcH * outW, outH, srcW);
  }

  /** So it fills the source whenever that height fits an `int`. */
  lemma SmallFills(srcW: int32, srcH: int32, outW: int32, outH: int32)
    requires srcW > 0 && srcH > 0 && outW > 0 && outH > 0 && srcW * outH < 0x8000_0000
    ensures Fills(CropOf(srcW, srcH, outW, outH), srcW, srcH, outW, outH)
  {
    QuotientOf(srcW * outH, outW, srcW * outH + 1);
    MultiplesApart(1, outW + 1, srcW * outH + 1);
    CropFills(srcW, srcH, outW, outH);
  }

  /** It can fail: of a source 2147483647 by 10, an output 1 by 2 gets a window 1 high, not the 5 by 10 there is. */
  lemma CropMisses()
    ensures CropOf(0x7FFF_FFFF, 10, 1, 2) == Crop(0x7FFF_FFFF, 1) && !Fills(Crop(0x7FFF_FFFF, 1), 0x7FFF_FFFF, 10, 1, 2)
    ensures Fills(Crop(5, 10), 0x7FFF_FFFF, 10, 1, 2)
  {
  }

  function Max(a: int, b: int): int {
    if a < b then b else a
  }

  // --- Bins ---

  /** `map_axis`'s bin for one source coordinate, or -1 outside the window. */
  function Bin(s: int, crop0: nat, cropN: nat, dstN: nat): int
    requires cropN > 0
  {
    if crop0 <= s < crop0 + cropN then (s - crop0) * dstN / cropN else -1
  }

  lemma BinInRange(s: int, crop0: nat, cropN: nat, dstN: nat)
    requires crop0 <= s < crop0 + cropN && dstN > 0
    ensures 0 <= Bin(s, crop0, cropN, dstN) < dstN
  {
    var t := s - crop0;
    MultiplesApart(t, cropN, dstN);
    QuotientOf(t * dstN, cropN, dstN);
  }

  /** The bins run in order. */
  lemma BinMonotone(s: int, t: int, crop0: nat, cropN: nat, dstN: nat)
    requires crop0 <= s <= t < crop0 + cropN
    ensures Bin(s, crop0, cropN, dstN) <= Bin(t, crop0, cropN, dstN)
  {
    var a, b := (s - crop0) * dstN, (t - crop0) * dstN;
    assert a <= b;
    QuotientMonotone(a, b, cropN);
  }

  lemma QuotientMonotone(a: nat, b: nat, d: nat)
    requires a <= b && d > 0
    ensures a / d <= b / d
  {
    var p := a / d;
    assert p * d <= a;
    QuotientOf(b, d, p);
  }

  /** Division, rounded up. */
  function CeilDiv(a: nat, d: nat): (r: nat)
    requires d > 0
    ensures a <= r * d < a + d
  {
    QuotientOf(a + d - 1, d, (a + d - 1) / d);
    QuotientOf(a + d - 1, d, (a + d - 1) / d + 1);
    assert ((a + d - 1) / d + 1) * d == (a + d - 1) / d * d + d;
    (a + d - 1) / d
  }

  lemma QuotientIs(x: nat, d: nat, q: nat)
    requires d > 0 && q * d <= x < (q + 1) * d
    ensures x / d == q
  {
    QuotientOf(x, d, q);
    QuotientOf(x, d, q + 1);
  }

  lemma FewerTimes(a: nat, b: nat, d: nat)
    requires a * d < b * d
    ensures a < b
  {
    if b < a {
      MultiplesApart(b, a, d);
    }
  }

  /** With no more bins than coordinates, every bin gets one: the first at or past its share of the window. */
  lemma BinReached(d: nat, crop0: nat, cropN: nat, dstN: nat) returns (s: nat)
    requires d < dstN <= cropN
    ensures crop0 <= s < crop0 + cropN && Bin(s, crop0, cropN, dstN) == d
  {
    var t := CeilDiv(d * cropN, dstN);
    s := crop0 + t;
    assert (d + 1) * cropN == d * cropN + cropN;
    QuotientIs(t * dstN, cropN, d);
    MultiplesApart(d, dstN, cropN);
    FewerTimes(t, cropN, dstN) by {
      assert dstN * cropN == cropN * dstN;
    }
  }

  /** The first bin gets its share of the window, rounded up. */
  lemma FirstBin(s: nat, crop0: nat, cropN: nat, dstN: nat)
    requires 0 < dstN <= cropN && crop0 <= s < crop0 + CeilDiv(cropN, dstN)
    ensures s < crop0 + cropN && Bin(s, crop0, cropN, dstN) == 0
  {
    var t, m := s - crop0, CeilDiv(cropN, dstN);
    MultiplesApart(t, m, dstN);
    FirstQuotient(t, dstN, cropN);
  }

  lemma FirstQuotient(t: nat, n: nat, d: nat)
    requires n > 0 && t * n < d
    ensures t < d && t * n / d == 0
  {
    MultiplesApart(0, n, t);
    assert n * t == t * n;
  }

  /** No two coordinates of one bin are further apart than that. */
  lemma SameBin(s: nat, t: nat, crop0: nat, cropN: nat, dstN: nat)
    requires 0 < dstN <= cropN && crop0 <= s <= t < crop0 + cropN && Bin(s, crop0, cropN, dstN) == Bin(t, crop0, cropN, dstN)
    ensures t - s < CeilDiv(cropN, dstN)
  {
    var a, b, q := (s - crop0) * dstN, (t - crop0) * dstN, Bin(s, crop0, cropN, dstN);
    assert q * cropN <= a && b < q * cropN + cropN;
    assert b - a == (t - s) * dstN;
    FewerTimes(t - s, CeilDiv(cropN, dstN), dstN);
  }
}
