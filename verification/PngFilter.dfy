/**
 PNG scanline reconstruction as src/ui/cover_art.c does it, against the definition of
 the filters in the PNG specification (sections 9.2 and 9.4): what a row is filtered
 to is defined from the original row, and reconstruction must undo that.
 */
module PngFilter {
  import opened Wrappers

  function Abs(x: int): nat {
    if x < 0 then -x else x
  }

  /** The predictor of section 9.4, with its order of ties. */
  function PaethPredictor(a: int, b: int, c: int): int {
    var p := a + b - c;
    var pa, pb, pc := Abs(p - a), Abs(p - b), Abs(p - c);
    if pa <= pb && pa <= pc then a else if pb <= pc then b else c
  }

  /** `paeth`: the distances without p itself, and selects instead of branches. */
  function Paeth(a: int, b: int, c: int): (r: int)
    ensures r == PaethPredictor(a, b, c)
  {
    var pa := Abs(b - c);
    var pb := Abs(a - c);
    var pc := Abs(a + b - 2 * c);
    var best := if pb < pa then b else a;
    var pbest := if pb < pa then pb else pa;
    if pc < pbest then c else best
  }

  /** The byte `bpp` back in a row, or 0 before it starts. */
  function Left(row: seq<byte>, bpp: nat, i: nat): byte
    requires i < |row|
  {
    if i < bpp then 0 else row[i - bpp]
  }

  /** What a filter type predicts for byte `i`, from the original row and the one above. */
  function Predicted(filter: nat, row: seq<byte>, prev: seq<byte>, bpp: nat, i: nat): (p: byte)
    requires filter <= 4 && bpp > 0 && i < |row| == |prev|
  {
    if filter == 0 then 0
    else if filter == 1 then Left(row, bpp, i)
    else if filter == 2 then prev[i]
    else if filter == 3 then (Left(row, bpp, i) + prev[i]) / 2
    else PaethPredictor(Left(row, bpp, i), prev[i], Left(prev, bpp, i))
  }

  /** The specification's filtering: each byte less its prediction, modulo 256. */
  function Filtered(filter: nat, row: seq<byte>, prev: seq<byte>, bpp: nat): (f: seq<byte>)
    requires filter <= 4 && bpp > 0 && |row| == |prev|
    ensures |f| == |row|
  {
    seq(|row|, i requires 0 <= i < |row| && filter <= 4 && bpp > 0 && |row| == |prev| =>
      (row[i] - Predicted(filter, row, prev, bpp, i)) % 256)
  }

  /** Filtering loses nothing: only one row filters to a given one. */
  lemma {:induction false} FilteredInjective(filter: nat, a: seq<byte>, b: seq<byte>, prev: seq<byte>, bpp: nat)
    requires filter <= 4 && bpp > 0 && |a| == |b| == |prev|
    requires Filtered(filter, a, prev, bpp) == Filtered(filter, b, prev, bpp)
    ensures a == b
  {
    FilteredAgree(filter, a, b, prev, bpp, |a|);
  }

  lemma {:induction false} FilteredAgree(filter: nat, a: seq<byte>, b: seq<byte>, prev: seq<byte>, bpp: nat, n: nat)
    requires filter <= 4 && bpp > 0 && |a| == |b| == |prev| && n <= |a|
    requires Filtered(filter, a, prev, bpp) == Filtered(filter, b, prev, bpp)
    ensures forall j :: 0 <= j < n ==> a[j] == b[j]
    decreases n
  {
    if n > 0 {
      var i := n - 1;
      FilteredAgree(filter, a, b, prev, bpp, i);
      assert i >= bpp ==> a[i - bpp] == b[i - bpp];
      assert Predicted(filter, a, prev, bpp, i) == Predicted(filter, b, prev, bpp, i);
      assert Filtered(filter, a, prev, bpp)[i] == Filtered(filter, b, prev, bpp)[i];
    }
  }

  /** Adding a prediction back, in a byte. */
  lemma AddBack(x: byte, p: byte)
    ensures ((x + p) % 256 - p) % 256 == x
  {
  }

  /** The bytes of `cur` below `i` are reconstructed, the others still as they were. */
  ghost predicate Undone(cur: seq<byte>, was: seq<byte>, prev: seq<byte>, filter: nat, bpp: nat, i: nat) {
    && filter <= 4 && bpp > 0
    && |cur| == |was| == |prev| && i <= |cur|
    && Filtered(filter, cur[..i], prev[..i], bpp) == was[..i]
    && cur[i..] == was[i..]
  }

  /** A byte's prediction looks no further than the byte itself. */
  lemma FilteredPrefix(filter: nat, row: seq<byte>, prev: seq<byte>, bpp: nat, i: nat)
    requires filter <= 4 && bpp > 0 && i < |row| == |prev|
    ensures Filtered(filter, row[..i + 1], prev[..i + 1], bpp) ==
            Filtered(filter, row[..i], prev[..i], bpp) + [(row[i] - Predicted(filter, row, prev, bpp, i)) % 256]
  {
  }

  /** Reconstructing one more byte. */
  lemma UndoOne(cur: seq<byte>, was: seq<byte>, prev: seq<byte>, filter: nat, bpp: nat, i: nat, p: byte, x: byte)
    requires i < |cur| && Undone(cur, was, prev, filter, bpp, i)
    requires p == Predicted(filter, cur, prev, bpp, i) && x == (cur[i] as int + p) % 256
    ensures Undone(cur[i := x], was, prev, filter, bpp, i + 1)
  {
    var now := cur[i := x];
    AddBack(cur[i], p);
    FilteredPrefix(filter, now, prev, bpp, i);
    assert now[..i] == cur[..i];
    assert Predicted(filter, now, prev, bpp, i) == p;
    assert cur[i] == cur[i..][0] == was[i..][0] == was[i];
    assert was[..i + 1] == was[..i] + [was[i]];
    assert now[i + 1..] == cur[i..][1..] == was[i..][1..] == was[i + 1..];
  }

  method UndoByte(cur: array<byte>, ghost prev: seq<byte>, ghost was: seq<byte>, ghost filter: nat, ghost bpp: nat, i: nat, p: byte)
    requires i < cur.Length && Undone(cur[..], was, prev, filter, bpp, i) && p == Predicted(filter, cur[..], prev, bpp, i)
    modifies cur
    ensures Undone(cur[..], was, prev, filter, bpp, i + 1)
    ensures cur[..] == old(cur[..])[i := (old(cur[i]) as int + p) % 256]
  {
    UndoOne(cur[..], was, prev, filter, bpp, i, p, (cur[i] as int + p) % 256);
    ghost var before := cur[..];
    cur[i] := (cur[i] as int + p) % 256;
    assert cur[..] == before[i := (before[i] as int + p) % 256];
  }

  lemma UndoneAll(cur: seq<byte>, was: seq<byte>, prev: seq<byte>, filter: nat, bpp: nat)
    requires Undone(cur, was, prev, filter, bpp, |cur|)
    ensures Filtered(filter, cur, prev, bpp) == was
  {
    assert cur[..|cur|] == cur && prev[..|cur|] == prev && was[..|cur|] == was;
  }

  /** Left of the first byte, and of the first `bpp`, nothing is predicted from the row itself. */
  lemma UndoneAtFirst(was: seq<byte>, prev: seq<byte>, filter: nat, bpp: nat)
    requires filter <= 4 && bpp > 0 && |was| == |prev|
    ensures Undone(was, was, prev, filter, bpp, 0)
    ensures filter == 0 ==> Undone(was, was, prev, filter, bpp, |was|)
    ensures filter == 1 && bpp <= |was| ==> Undone(was, was, prev, filter, bpp, bpp)
  {
  }

  /** The first loop of `PAETH_ROW`. */
  method FirstPixel(cur: array<byte>, prev: array<byte>, ch: nat, left: array<int>, upleft: array<int>, ghost was: seq<byte>)
    requires 1 <= ch <= cur.Length == prev.Length && cur != prev && left.Length == upleft.Length == ch && left != upleft
    requires left as object != cur && left as object != prev && upleft as object != cur && upleft as object != prev
    requires cur[..] == was
    modifies cur, left, upleft
    ensures Undone(cur[..], was, prev[..], 4, ch, ch)
    ensures Registers(cur, prev, ch, ch, 0, left, upleft)
  {
    var k := 0;
    UndoneAtFirst(was, prev[..], 4, ch);
    while k < ch
      invariant 0 <= k <= ch && Undone(cur[..], was, prev[..], 4, ch, k)
      invariant forall j :: 0 <= j < k ==> left[j] == cur[j] && upleft[j] == prev[j]
    {
      UndoByte(cur, prev[..], was, 4, ch, k, prev[k]); // Paeth(0, b, 0) is b
      left[k] := cur[k];
      upleft[k] := prev[k];
      k := k + 1;
    }
  }

  /** `PAETH_ROW`: each channel's left and upper-left neighbours are kept in registers. */
  method PaethRow(cur: array<byte>, prev: array<byte>, ch: nat)
    requires 1 <= ch <= 4 && cur != prev && cur.Length == prev.Length >= ch && cur.Length % ch == 0
    modifies cur
    ensures Filtered(4, cur[..], prev[..], ch) == old(cur[..])
  {
    ghost var was := cur[..];
    ghost var above := prev[..];
    var left := new int[ch](_ => 0);
    var upleft := new int[ch](_ => 0);
    FirstPixel(cur, prev, ch, left, upleft, was);
    OtherPixels(cur, prev, ch, left, upleft, was);
    UndoneAll(cur[..], was, above, 4, ch);
  }

  method OtherPixels(cur: array<byte>, prev: array<byte>, ch: nat, left: array<int>, upleft: array<int>, ghost was: seq<byte>)
    requires 1 <= ch <= 4 && cur != prev && left.Length == upleft.Length == ch && left != upleft
    requires left as object != cur && left as object != prev && upleft as object != cur && upleft as object != prev
    requires cur.Length == prev.Length >= ch && cur.Length % ch == 0
    requires Undone(cur[..], was, prev[..], 4, ch, ch) && Registers(cur, prev, ch, ch, 0, left, upleft)
    modifies cur, left, upleft
    ensures Undone(cur[..], was, prev[..], 4, ch, cur.Length)
  {
    var n := cur.Length;
    var x := ch;
    assert Whole(ch, n, ch);
    while x < n
      invariant ch <= x <= n && Whole(x, n, ch) && Undone(cur[..], was, prev[..], 4, ch, x)
      invariant Registers(cur, prev, ch, x, 0, left, upleft)
    {
      WholePixels(x, n, ch);
      PaethPixel(cur, prev, ch, x, left, upleft, was);
      NextRegisters(cur, prev, ch, x, left, upleft);
      x := x + ch;
    }
  }

  lemma NextRegisters(cur: array<byte>, prev: array<byte>, ch: nat, x: nat, left: array<int>, upleft: array<int>)
    requires left.Length == upleft.Length == ch && cur.Length == prev.Length && ch <= x && x + ch <= cur.Length
    requires Registers(cur, prev, ch, x, ch, left, upleft)
    ensures Registers(cur, prev, ch, x + ch, 0, left, upleft)
  {
  }

  /** So many bytes are whole pixels. */
  predicate Whole(x: nat, n: nat, ch: nat)
    requires ch > 0
  {
    x % ch == 0 && n % ch == 0
  }

  lemma WholePixels(x: nat, n: nat, ch: nat)
    requires 1 <= ch <= 4 && Whole(x, n, ch) && x < n
    ensures x + ch <= n && Whole(x + ch, n, ch)
  {
    if ch == 1 {
    } else if ch == 2 {
    } else if ch == 3 {
    } else {
    }
  }

  /** The registers hold the neighbours of the pixel at `x` from channel `k` on, and of the next pixel before it. */
  ghost predicate Registers(cur: array<byte>, prev: array<byte>, ch: nat, x: nat, k: nat, left: array<int>, upleft: array<int>)
    requires left.Length == upleft.Length == ch && cur.Length == prev.Length && k <= ch <= x && x + k <= cur.Length
    reads cur, prev, left, upleft
  {
    && (forall j :: 0 <= j < k ==> left[j] == cur[x + j] && upleft[j] == prev[x + j])
    && (forall j :: k <= j < ch ==> left[j] == cur[x - ch + j] && upleft[j] == prev[x - ch + j])
  }

  /** One channel of one pixel. */
  method PaethByte(cur: array<byte>, prev: array<byte>, ch: nat, x: nat, k: nat, left: array<int>, upleft: array<int>, ghost was: seq<byte>)
    requires k < ch && cur != prev && left.Length == upleft.Length == ch && left != upleft
    requires left as object != cur && left as object != prev && upleft as object != cur && upleft as object != prev
    requires ch <= x && x + k < cur.Length == prev.Length && Undone(cur[..], was, prev[..], 4, ch, x + k)
    requires Registers(cur, prev, ch, x, k, left, upleft)
    modifies cur, left, upleft
    ensures Undone(cur[..], was, prev[..], 4, ch, x + k + 1)
    ensures Registers(cur, prev, ch, x, k + 1, left, upleft)
  {
    var up := prev[x + k];
    var p := Paeth(left[k], up, upleft[k]);
    assert p == Predicted(4, cur[..], prev[..], ch, x + k);
    UndoByte(cur, prev[..], was, 4, ch, x + k, p);
    left[k] := cur[x + k];
    upleft[k] := up;
  }

  /** The inner loop of `PAETH_ROW`. */
  method PaethPixel(cur: array<byte>, prev: array<byte>, ch: nat, x: nat, left: array<int>, upleft: array<int>, ghost was: seq<byte>)
    requires 1 <= ch <= 4 && cur != prev && left.Length == upleft.Length == ch && left != upleft
    requires left as object != cur && left as object != prev && upleft as object != cur && upleft as object != prev
    requires ch <= x && x + ch <= cur.Length == prev.Length && Undone(cur[..], was, prev[..], 4, ch, x)
    requires Registers(cur, prev, ch, x, 0, left, upleft)
    modifies cur, left, upleft
    ensures Undone(cur[..], was, prev[..], 4, ch, x + ch)
    ensures Registers(cur, prev, ch, x, ch, left, upleft)
  {
    var k := 0;
    while k < ch
      invariant 0 <= k <= ch && Undone(cur[..], was, prev[..], 4, ch, x + k)
      invariant Registers(cur, prev, ch, x, k, left, upleft)
    {
      PaethByte(cur, prev, ch, x, k, left, upleft, was);
      k := k + 1;
    }
  }

  method SubRow(cur: array<byte>, prev: array<byte>, bpp: nat)
    requires 1 <= bpp <= cur.Length == prev.Length && cur != prev
    modifies cur
    ensures Filtered(1, cur[..], prev[..], bpp) == old(cur[..])
  {
    ghost var was := cur[..];
    UndoneAtFirst(was, prev[..], 1, bpp);
    var i := bpp;
    while i < cur.Length
      invariant bpp <= i <= cur.Length && Undone(cur[..], was, prev[..], 1, bpp, i)
    {
      UndoByte(cur, prev[..], was, 1, bpp, i, cur[i - bpp]);
      i := i + 1;
    }
    UndoneAll(cur[..], was, prev[..], 1, bpp);
  }

  method UpRow(cur: array<byte>, prev: array<byte>, ghost bpp: nat)
    requires 1 <= bpp <= cur.Length == prev.Length && cur != prev
    modifies cur
    ensures Filtered(2, cur[..], prev[..], bpp) == old(cur[..])
  {
    ghost var was := cur[..];
    UndoneAtFirst(was, prev[..], 2, bpp);
    var i := 0;
    while i < cur.Length
      invariant 0 <= i <= cur.Length && Undone(cur[..], was, prev[..], 2, bpp, i)
    {
      UndoByte(cur, prev[..], was, 2, bpp, i, prev[i]);
      i := i + 1;
    }
    UndoneAll(cur[..], was, prev[..], 2, bpp);
  }

  method AverageRow(cur: array<byte>, prev: array<byte>, bpp: nat)
    requires 1 <= bpp <= cur.Length == prev.Length && cur != prev
    modifies cur
    ensures Filtered(3, cur[..], prev[..], bpp) == old(cur[..])
  {
    ghost var was := cur[..];
    UndoneAtFirst(was, prev[..], 3, bpp);
    var i := 0;
    while i < bpp
      invariant 0 <= i <= bpp && Undone(cur[..], was, prev[..], 3, bpp, i)
    {
      UndoByte(cur, prev[..], was, 3, bpp, i, prev[i] / 2);
      i := i + 1;
    }
    while i < cur.Length
      invariant bpp <= i <= cur.Length && Undone(cur[..], was, prev[..], 3, bpp, i)
    {
      UndoByte(cur, prev[..], was, 3, bpp, i, (cur[i - bpp] as int + prev[i]) / 2);
      i := i + 1;
    }
    UndoneAll(cur[..], was, prev[..], 3, bpp);
  }

  /** `unfilter_row`: false for an unknown filter type, or else the row whose filtering was given. */
  method UnfilterRow(filter: byte, cur: array<byte>, prev: array<byte>, bpp: nat) returns (ok: bool)
    requires 1 <= bpp <= 4 && cur != prev && cur.Length == prev.Length >= bpp && cur.Length % bpp == 0
    modifies cur
    ensures ok == (filter <= 4)
    ensures ok ==> Filtered(filter, cur[..], prev[..], bpp) == old(cur[..])
    ensures !ok ==> cur[..] == old(cur[..])
  {
    match filter {
      case 0 =>
        UndoneAtFirst(cur[..], prev[..], 0, bpp);
        UndoneAll(cur[..], cur[..], prev[..], 0, bpp);
      case 1 => SubRow(cur, prev, bpp);
      case 2 => UpRow(cur, prev, bpp);
      case 3 => AverageRow(cur, prev, bpp);
      case 4 => PaethRow(cur, prev, bpp);
      case _ => return false;
    }
    return true;
  }

  // --- A whole image ---

  datatype Line = Line(filter: byte, bytes: seq<byte>)

  /** A line is the filtering of `row` under `above`. */
  predicate IsLine(line: Line, row: seq<byte>, above: seq<byte>, bpp: nat) {
    bpp > 0 && |row| == |above| && line.filter <= 4 && line.bytes == Filtered(line.filter, row, above, bpp)
  }

  /** The row above the next one: all zeros above the first. */
  function Above(rows: seq<seq<byte>>, n: nat): seq<byte> {
    if rows == [] then seq(n, _ => 0) else rows[|rows| - 1]
  }

  /** Rows of `n` bytes, each filtered with its own type under the row above. */
  predicate IsFilteredImage(lines: seq<Line>, rows: seq<seq<byte>>, n: nat, bpp: nat)
    decreases |rows|
  {
    |lines| == |rows| &&
    (rows == [] ||
     var y := |rows| - 1;
     IsLine(lines[y], rows[y], Above(rows[..y], n), bpp) && IsFilteredImage(lines[..y], rows[..y], n, bpp))
  }

  /** The row loop of `decode_png`: two buffers that change places, so that the row above is the reconstructed
      one. The rows come out exactly when every filter type is known, and they are the ones that were filtered. */
  method DecodeRows(lines: seq<Line>, n: nat, bpp: nat) returns (ok: bool, rows: seq<seq<byte>>)
    requires 1 <= bpp <= 4 && n >= bpp && n % bpp == 0
    requires forall y :: 0 <= y < |lines| ==> |lines[y].bytes| == n
    ensures ok == forall y :: 0 <= y < |lines| ==> lines[y].filter <= 4
    ensures ok ==> IsFilteredImage(lines, rows, n, bpp)
  {
    var cur := new byte[n](_ => 0);
    var prev := new byte[n](_ => 0);
    rows := [];
    assert prev[..] == Above([], n);
    var y := 0;
    while y < |lines|
      invariant 0 <= y <= |lines| && cur.Length == prev.Length == n && cur != prev && fresh(cur) && fresh(prev)
      invariant |rows| == y && prev[..] == Above(rows, n)
      invariant forall k :: 0 <= k < y ==> lines[k].filter <= 4
      invariant IsFilteredImage(lines[..y], rows, n, bpp)
    {
      ReadLine(cur, lines[y].bytes);
      var known := DecodeRow(lines, rows, y, cur, prev, n, bpp);
      if !known {
        return false, rows;
      }
      rows := rows + [cur[..]];
      cur, prev := prev, cur;
      y := y + 1;
    }
    assert lines[..|lines|] == lines;
    return true, rows;
  }

  method DecodeRow(lines: seq<Line>, ghost rows: seq<seq<byte>>, y: nat, cur: array<byte>, prev: array<byte>, n: nat, bpp: nat)
    returns (known: bool)
    requires 1 <= bpp <= 4 && cur != prev && cur.Length == prev.Length == n >= bpp && n % bpp == 0
    requires y < |lines| && |rows| == y && IsFilteredImage(lines[..y], rows, n, bpp)
    requires cur[..] == lines[y].bytes && prev[..] == Above(rows, n)
    modifies cur
    ensures known == (lines[y].filter <= 4)
    ensures known ==> IsFilteredImage(lines[..y + 1], rows + [cur[..]], n, bpp)
  {
    known := UnfilterRow(lines[y].filter, cur, prev, bpp);
    if known {
      OneMoreRow(lines, rows, cur[..], y, n, bpp);
    }
  }

  /** `png_read`, as far as it is not zlib's: the line's bytes are in the buffer. */
  method ReadLine(cur: array<byte>, bytes: seq<byte>)
    requires cur.Length == |bytes|
    modifies cur
    ensures cur[..] == bytes
  {
    forall i | 0 <= i < |bytes| {
      cur[i] := bytes[i];
    }
  }

  lemma OneMoreRow(lines: seq<Line>, rows: seq<seq<byte>>, row: seq<byte>, y: nat, n: nat, bpp: nat)
    requires y < |lines| && |rows| == y && IsFilteredImage(lines[..y], rows, n, bpp)
    requires IsLine(lines[y], row, Above(rows, n), bpp)
    ensures IsFilteredImage(lines[..y + 1], rows + [row], n, bpp)
  {
    assert (rows + [row])[..y] == rows && lines[..y + 1][..y] == lines[..y];
  }

  /** Only one image filters to given lines: what `decode_png` hands on is the image that was encoded. */
  lemma {:induction false} ImageUnique(lines: seq<Line>, a: seq<seq<byte>>, b: seq<seq<byte>>, n: nat, bpp: nat)
    requires IsFilteredImage(lines, a, n, bpp) && IsFilteredImage(lines, b, n, bpp)
    ensures a == b
    decreases |lines|
  {
    if lines != [] {
      var y := |lines| - 1;
      ImageUnique(lines[..y], a[..y], b[..y], n, bpp);
      LineUnique(lines[y], a[y], b[y], Above(a[..y], n), bpp);
      SameButLast(a, b);
    }
  }

  lemma SameButLast<T>(a: seq<T>, b: seq<T>)
    requires |a| == |b| > 0 && a[..|a| - 1] == b[..|a| - 1] && a[|a| - 1] == b[|a| - 1]
    ensures a == b
  {
    assert a == a[..|a| - 1] + [a[|a| - 1]] && b == b[..|a| - 1] + [b[|a| - 1]];
  }

  lemma LineUnique(line: Line, a: seq<byte>, b: seq<byte>, above: seq<byte>, bpp: nat)
    requires IsLine(line, a, above, bpp) && IsLine(line, b, above, bpp)
    ensures a == b
  {
    FilteredInjective(line.filter, a, b, above, bpp);
  }
}
