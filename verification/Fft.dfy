/**
 The visualizer's Fourier transform (src/audio/visualizer.c), in place over an array of
 real parts and one of imaginary parts: bit-reversal swaps, then butterfly stages. For
 every size that is a power of two; arithmetic is exact, and the twiddle table is an
 input that must hold the powers of a root of one.
 */
module Fft {
  import opened Powers
  import opened FourierAlgebra

  datatype Complex = Complex(re: real, im: real)

  function CAdd(a: Complex, b: Complex): Complex {
    Complex(a.re + b.re, a.im + b.im)
  }

  function CNeg(a: Complex): Complex {
    Complex(-a.re, -a.im)
  }

  function CMul(a: Complex, b: Complex): Complex {
    Complex(a.re * b.re - a.im * b.im, a.re * b.im + a.im * b.re)
  }

  /** Complex arithmetic as pairs of reals. */
  const CR: Ring<Complex> := Ring(Complex(0.0, 0.0), Complex(1.0, 0.0), CAdd, CNeg, CMul)

  lemma MulAssoc(a: Complex, b: Complex, c: Complex)
    ensures CMul(CMul(a, b), c) == CMul(a, CMul(b, c))
  {
  }

  lemma MulAdd(a: Complex, b: Complex, c: Complex)
    ensures CMul(a, CAdd(b, c)) == CAdd(CMul(a, b), CMul(a, c))
  {
  }

  lemma MulComm(a: Complex, b: Complex)
    ensures CMul(a, b) == CMul(b, a)
    ensures CMul(CNeg(a), b) == CNeg(CMul(a, b))
    ensures CMul(CR.one, a) == a && CMul(a, CR.zero) == CR.zero
  {
  }

  lemma ComplexLaws()
    ensures Laws(CR)
  {
    forall a: Complex, b: Complex, c: Complex ensures LawsAt(CR, a, b, c) {
      MulAssoc(a, b, c);
      MulAdd(a, b, c);
      MulComm(a, b);
    }
  }

  // --- Bit reversal ---

  /** `reverse_bits`'s loop: `r` takes the low bits of `v` one by one. */
  function RevAcc(r: nat, v: nat, bits: nat): nat
    decreases bits
  {
    if bits == 0 then r else RevAcc(2 * r + v % 2, v / 2, bits - 1)
  }

  /** The low `bits` bits of `v`, the other way round. */
  function Rev(v: nat, bits: nat): (r: nat)
    ensures r < Pow2(bits)
  {
    if bits == 0 then 0 else (if v % 2 == 0 then 0 else Pow2(bits - 1)) + Rev(v / 2, bits - 1)
  }

  lemma TakeBit(r: nat, d: nat, p: nat)
    requires d < 2
    ensures (2 * r + d) * p == r * (2 * p) + if d == 0 then 0 else p
  {
    assert d == 0 ==> (2 * r) * p == r * (2 * p);
    assert d == 1 ==> (2 * r + 1) * p == (2 * r) * p + p;
  }

  lemma {:induction false} RevAccIsRev(r: nat, v: nat, bits: nat)
    ensures RevAcc(r, v, bits) == r * Pow2(bits) + Rev(v, bits)
    decreases bits
  {
    if bits > 0 {
      RevAccIsRev(2 * r + v % 2, v / 2, bits - 1);
      TakeBit(r, v % 2, Pow2(bits - 1));
    }
  }

  method ReverseBits(v: nat, bits: nat) returns (r: nat)
    ensures r == Rev(v, bits)
  {
    r := 0;
    var u := v;
    var i := 0;
    while i < bits
      invariant 0 <= i <= bits
      invariant RevAcc(r, u, bits - i) == RevAcc(0, v, bits)
    {
      r := 2 * r + u % 2;
      u := u / 2;
      i := i + 1;
    }
    RevAccIsRev(0, v, bits);
  }

  /** The top bit becomes the lowest. */
  lemma {:induction false} RevTop(v: nat, top: bool, bits: nat)
    requires v < Pow2(bits)
    ensures Rev(if top then v + Pow2(bits) else v, bits + 1) == if top then 2 * Rev(v, bits) + 1 else 2 * Rev(v, bits)
    decreases bits
  {
    if bits == 0 {
      assert Rev(if top then 1 else 0, 1) == if top then Pow2(0) else 0;
    } else {
      RevTop(v / 2, top, bits - 1);
      var u := if top then v + Pow2(bits) else v;
      assert u / 2 == (if top then v / 2 + Pow2(bits - 1) else v / 2) && u % 2 == v % 2;
    }
  }

  /** Reversing twice is the identity, so the swaps pair indices up. */
  lemma {:induction false} RevTwice(v: nat, bits: nat)
    requires v < Pow2(bits)
    ensures Rev(Rev(v, bits), bits) == v
    decreases bits
  {
    if bits > 0 {
      RevTop(Rev(v / 2, bits - 1), v % 2 == 1, bits - 1);
      RevTwice(v / 2, bits - 1);
    }
  }

  /** An index and its mirror image: the first half is the even points in their order, the second the odd ones. */
  lemma RevHalves(i: nat, bits: nat) returns (h: nat)
    requires bits > 0 && i < Pow2(bits)
    ensures h == Rev(if i < Pow2(bits - 1) then i else i - Pow2(bits - 1), bits - 1) < Pow2(bits - 1)
    ensures Rev(i, bits) == if i < Pow2(bits - 1) then 2 * h else 2 * h + 1
  {
    var m := Pow2(bits - 1);
    if i < m {
      RevTop(i, false, bits - 1);
      h := Rev(i, bits - 1);
    } else {
      RevTop(i - m, true, bits - 1);
      h := Rev(i - m, bits - 1);
    }
  }

  /** The order the swaps leave is the order the butterflies want. */
  lemma {:induction false} ReorderedAt<T>(x: seq<T>, y: seq<T>, bits: nat, i: nat, j: nat)
    requires |x| == Pow2(bits) && i < Pow2(bits) && y == Reordered(x, bits) && j == Rev(i, bits)
    ensures y[i] == x[j]
    decreases bits
  {
    if bits > 0 {
      var m := Pow2(bits - 1);
      var h := RevHalves(i, bits);
      if i < m {
        ReorderedAt(Evens(x, m), Reordered(Evens(x, m), bits - 1), bits - 1, i, h);
      } else {
        ReorderedAt(Odds(x, m), Reordered(Odds(x, m), bits - 1), bits - 1, i - m, h);
      }
    }
  }

  // --- In place ---

  /** The arrays' points. */
  ghost function Points(re: array<real>, im: array<real>): (s: seq<Complex>)
    requires re.Length == im.Length
    reads re, im
    ensures |s| == re.Length
  {
    seq(re.Length, i requires 0 <= i < re.Length && re.Length == im.Length reads re, im => Complex(re[i], im[i]))
  }

  /** Which point stands at `k` once the swaps from the indices below `i` are done. */
  function Swapped(k: nat, i: nat, bits: nat): nat {
    if k < i || Rev(k, bits) < i then Rev(k, bits) else k
  }

  /** The swap from `i` moves the two mirrored points and nothing else. */
  lemma SwapStep(k: nat, i: nat, bits: nat)
    requires k < Pow2(bits) && i < Pow2(bits)
    ensures var j := Rev(i, bits);
            Swapped(k, i + 1, bits) ==
            if j > i && k == i then Swapped(j, i, bits) else if j > i && k == j then Swapped(i, i, bits) else Swapped(k, i, bits)
  {
    RevTwice(i, bits);
    RevTwice(k, bits);
  }

  /** The bit-reversal loop: each pair of mirrored indices is swapped once, from its lower one. */
  method SwapReversed(re: array<real>, im: array<real>, bits: nat)
    requires re != im && re.Length == im.Length == Pow2(bits)
    modifies re, im
    ensures Points(re, im) == Reordered(old(Points(re, im)), bits)
  {
    ghost var x := Points(re, im);
    var n := re.Length;
    var i := 0;
    while i < n
      invariant 0 <= i <= n
      invariant forall k :: 0 <= k < n ==> Swapped(k, i, bits) < n && Complex(re[k], im[k]) == x[Swapped(k, i, bits)]
    {
      var j := ReverseBits(i, bits);
      forall k | 0 <= k < n
        ensures Swapped(k, i + 1, bits) ==
                if j > i && k == i then Swapped(j, i, bits) else if j > i && k == j then Swapped(i, i, bits) else Swapped(k, i, bits)
      {
        SwapStep(k, i, bits);
      }
      if j > i {
        re[i], re[j] := re[j], re[i];
        im[i], im[j] := im[j], im[i];
      }
      i := i + 1;
    }
    forall k | 0 <= k < n ensures Points(re, im)[k] == Reordered(x, bits)[k] {
      ReorderedAt(x, Reordered(x, bits), bits, k, Rev(k, bits));
    }
  }

  // --- The butterflies ---

  /** The twiddle table: the first half turn of powers of `w`. */
  ghost predicate Twiddles(twRe: array<real>, twIm: array<real>, w: Complex, bits: nat)
    reads twRe, twIm
  {
    && twRe.Length == twIm.Length == Pow2(bits) / 2
    && forall j :: 0 <= j < twRe.Length ==> Complex(twRe[j], twIm[j]) == Pow(CR, w, j)
  }

  /** The sum and the difference of a point and another turned by `t`. */
  predicate Turned(p: Complex, q: Complex, t: Complex, sum: Complex, difference: Complex) {
    sum == CAdd(p, CMul(q, t)) && difference == CAdd(p, CNeg(CMul(q, t)))
  }

  /** One butterfly on the points `p` and `q` at `a` and `b`. */
  method Butterfly(re: array<real>, im: array<real>, tre: real, tim: real, a: nat, b: nat,
                   ghost p: Complex, ghost q: Complex, ghost sum: Complex, ghost difference: Complex)
    requires re != im && re.Length == im.Length && a < re.Length && b < re.Length && a != b
    requires Complex(re[a], im[a]) == p && Complex(re[b], im[b]) == q && Turned(p, q, Complex(tre, tim), sum, difference)
    modifies re, im
    ensures Points(re, im) == old(Points(re, im))[a := sum][b := difference]
  {
    var xre := re[b] * tre - im[b] * tim;
    var xim := re[b] * tim + im[b] * tre;
    assert Complex(xre, xim) == CMul(q, Complex(tre, tim));
    re[b] := re[a] - xre;
    im[b] := im[a] - xim;
    re[a] := re[a] + xre;
    im[a] := im[a] + xim;
    assert Complex(re[a], im[a]) == sum && Complex(re[b], im[b]) == difference;
    forall i | 0 <= i < re.Length && i != a && i != b
      ensures Points(re, im)[i] == old(Points(re, im)[i])
    {
    }
  }

  /** The points of a stage that the butterfly at `k` makes. */
  lemma ButterflyMakes(e: seq<Complex>, o: seq<Complex>, v: Complex, k: nat, p: Complex, q: Complex, t: Complex, made: seq<Complex>)
    requires |e| == |o| && k < |e| && p == e[k] && q == o[k] && t == Pow(CR, v, k) && made == Combine(CR, e, o, v)
    ensures Turned(p, q, t, made[k], made[k + |e|])
  {
    CombineAt(CR, e, o, v, k);
  }

  /** The twiddle the inner loop looks up. */
  lemma TwiddleAt(twRe: array<real>, twIm: array<real>, w: Complex, bits: nat, k: nat, half: nat, step: nat)
    requires Twiddles(twRe, twIm, w, bits) && k < half && half * step == Pow2(bits) / 2 && step > 0
    ensures 0 <= k * step < twRe.Length
    ensures Complex(twRe[k * step], twIm[k * step]) == Pow(CR, Pow(CR, w, step), k)
  {
    TwiddleIndex(k, half, step, Pow2(bits) / 2);
    ComplexLaws();
    PowPow(CR, w, step, k);
    assert step * k == k * step;
  }

  /** One turn of the inner loop. */
  method Turn(re: array<real>, im: array<real>, tre: real, tim: real, start: nat, half: nat, k: nat,
              ghost was: seq<Complex>, ghost made: seq<Complex>, ghost v: Complex)
    requires re != im && re.Length == im.Length == |was| && k < half && start + 2 * half <= |was|
    requires made == Combine(CR, was[start..start + half], was[start + half..start + 2 * half], v)
    requires Complex(tre, tim) == Pow(CR, v, k) && Points(re, im) == Partly(was, made, start, half, k)
    modifies re, im
    ensures Points(re, im) == Partly(was, made, start, half, k + 1)
  {
    var a := start + k;
    var b := start + k + half;
    ghost var p, q := was[a], was[b];
    ghost var e, o := was[start..start + half], was[start + half..start + 2 * half];
    assert e[k] == p && o[k] == q;
    ButterflyMakes(e, o, v, k, p, q, Complex(tre, tim), made);
    PartlyStep(was, made, start, half, k);
    assert Points(re, im)[a] == p && Points(re, im)[b] == q;
    Butterfly(re, im, tre, tim, a, b, p, q, made[k], made[k + half]);
  }

  /** The inner loop: a block's halves, each already transformed, become the block's transform. */
  method Butterflies(re: array<real>, im: array<real>, twRe: array<real>, twIm: array<real>,
                     start: nat, half: nat, step: nat, ghost w: Complex, ghost bits: nat)
    requires re != im && re.Length == im.Length
    requires re != twRe && re != twIm && im != twRe && im != twIm
    requires Twiddles(twRe, twIm, w, bits) && half * step == Pow2(bits) / 2 && step > 0
    requires start + 2 * half <= re.Length
    modifies re, im
    ensures var was := old(Points(re, im));
            Points(re, im) ==
            was[..start]
            + Combine(CR, was[start..start + half], was[start + half..start + 2 * half], Pow(CR, w, step))
            + was[start + 2 * half..]
  {
    ghost var was := Points(re, im);
    ghost var v := Pow(CR, w, step);
    ghost var made := Combine(CR, was[start..start + half], was[start + half..start + 2 * half], v);
    var k := 0;
    PartlyEnds(was, made, start, half);
    while k < half
      invariant 0 <= k <= half
      invariant Points(re, im) == Partly(was, made, start, half, k)
      invariant Twiddles(twRe, twIm, w, bits)
    {
      TwiddleAt(twRe, twIm, w, bits, k, half, step);
      Turn(re, im, twRe[k * step], twIm[k * step], start, half, k, was, made, v);
      k := k + 1;
    }
  }

  lemma TwiddleIndex(k: nat, half: nat, step: nat, n: nat)
    requires k < half && half * step == n && step > 0
    ensures 0 <= k * step < n
  {
    assert k * step + step <= half * step by {
      assert (k + 1) * step <= half * step;
    }
  }

  // --- The stages ---

  /** So many blocks make up that many points. */
  predicate Blocked(left: nat, size: nat, points: int) {
    left * size == points
  }

  lemma BlocksLeft(left: nat, size: nat, points: int)
    requires size > 0 && points > 0 && Blocked(left, size, points)
    ensures left > 0 && points >= size && Blocked(left - 1, size, points - size)
  {
    assert left > 0;
    assert (left - 1) * size == left * size - size;
  }

  lemma HalfBlocks(half: nat, step: nat, n: nat)
    requires step * (2 * half) == n
    ensures half * step == n / 2 && Blocked(step, 2 * half, n)
  {
    assert step * (2 * half) == 2 * (half * step);
  }

  /** The middle loop at `start`: blocks of twice the size before it, blocks of 2^level points from it on. */
  ghost predicate Halfway(a: seq<Complex>, y: seq<Complex>, start: nat, level: nat, v: Complex) {
    start <= |a| == |y| && Done(CR, a, y, 0, start, level + 1, v) && Done(CR, a, y, start, |y|, level, CR.mul(v, v))
  }

  lemma AtFirst(a: seq<Complex>, y: seq<Complex>, level: nat, v: Complex)
    requires |a| == |y| && Done(CR, a, y, 0, |y|, level, CR.mul(v, v))
    ensures Halfway(a, y, 0, level, v)
  {
  }

  lemma AtLast(a: seq<Complex>, y: seq<Complex>, level: nat, v: Complex)
    requires Halfway(a, y, |y|, level, v)
    ensures Done(CR, a, y, 0, |y|, level + 1, v)
  {
  }

  /** One turn of the middle loop: a pair of blocks of 2^level points becomes one block. */
  method PairUp(re: array<real>, im: array<real>, twRe: array<real>, twIm: array<real>, start: nat, half: nat, step: nat,
                ghost level: nat, ghost w: Complex, ghost bits: nat, ghost y: seq<Complex>)
    requires re != im && re.Length == im.Length == |y| && start + 2 * half <= |y|
    requires re != twRe && re != twIm && im != twRe && im != twIm
    requires Twiddles(twRe, twIm, w, bits) && step > 0 && half == Pow2(level) && half * step == Pow2(bits) / 2
    requires Halfway(Points(re, im), y, start, level, Pow(CR, w, step))
    modifies re, im
    ensures Halfway(Points(re, im), y, start + 2 * half, level, Pow(CR, w, step))
  {
    ghost var was := Points(re, im);
    Butterflies(re, im, twRe, twIm, start, half, step, w, bits);
    BlockCombines(CR, was, Points(re, im), y, start, half, level, Pow(CR, w, step));
  }

  /** The middle loop: every pair of blocks of 2^level points becomes one block. */
  method Stage(re: array<real>, im: array<real>, twRe: array<real>, twIm: array<real>,
               half: nat, step: nat, ghost level: nat, ghost w: Complex, ghost bits: nat, ghost y: seq<Complex>)
    requires re != im && re.Length == im.Length == |y| == Pow2(bits)
    requires re != twRe && re != twIm && im != twRe && im != twIm
    requires Twiddles(twRe, twIm, w, bits) && step > 0 && half == Pow2(level) && step * (2 * half) == |y|
    requires Done(CR, Points(re, im), y, 0, |y|, level, CR.mul(Pow(CR, w, step), Pow(CR, w, step)))
    modifies re, im
    ensures Done(CR, Points(re, im), y, 0, |y|, level + 1, Pow(CR, w, step))
  {
    var n := re.Length;
    ghost var v := Pow(CR, w, step);
    ghost var left := step;
    HalfBlocks(half, step, n);
    AtFirst(Points(re, im), y, level, v);
    var start := 0;
    while start < n
      invariant 0 <= start <= n && Blocked(left, 2 * half, n - start)
      invariant Halfway(Points(re, im), y, start, level, v)
      invariant Twiddles(twRe, twIm, w, bits)
      decreases n - start
    {
      BlocksLeft(left, 2 * half, n - start);
      PairUp(re, im, twRe, twIm, start, half, step, level, w, bits, y);
      start := start + 2 * half;
      left := left - 1;
    }
    AtLast(Points(re, im), y, level, v);
  }

  /** The outer loop: block sizes 2, 4, 8, ... */
  method AllStages(re: array<real>, im: array<real>, twRe: array<real>, twIm: array<real>, ghost bits: nat, ghost w: Complex)
    requires re != im && re.Length == im.Length == Pow2(bits)
    requires re != twRe && re != twIm && im != twRe && im != twIm
    requires Twiddles(twRe, twIm, w, bits)
    modifies re, im
    ensures Points(re, im) == Stages(CR, old(Points(re, im)), w, bits)
  {
    var n := re.Length;
    ghost var y := Points(re, im);
    ghost var level := 0;
    DoneAtFirst(CR, y, 0, Pow(CR, w, Pow2(bits)));
    var size := 2;
    while size <= n
      invariant 0 <= level <= bits && size == Pow2(level + 1)
      invariant Done(CR, Points(re, im), y, 0, n, level, Pow(CR, w, Pow2(bits - level)))
      invariant Twiddles(twRe, twIm, w, bits)
      decreases n - size
    {
      var half := size / 2;
      var step := n / size;
      StageShape(level, bits, w);
      Stage(re, im, twRe, twIm, half, step, level, w, bits, y);
      level := level + 1;
      size := size * 2;
    }
    LastStage(level, bits, w);
    DoneAtLast(CR, Points(re, im), y, bits, w);
  }

  /** `fft_forward`: the arrays end up holding the discrete Fourier transform of what they held. */
  method FftForward(re: array<real>, im: array<real>, twRe: array<real>, twIm: array<real>, bits: nat, ghost w: Complex)
    requires re != im && re.Length == im.Length == Pow2(bits)
    requires re != twRe && re != twIm && im != twRe && im != twIm
    requires Twiddles(twRe, twIm, w, bits) && Root(CR, w, bits)
    modifies re, im
    ensures forall k :: 0 <= k < Pow2(bits) ==> Points(re, im)[k] == Dft(CR, old(Points(re, im)), w, k)
  {
    ghost var x := Points(re, im);
    SwapReversed(re, im, bits);
    AllStages(re, im, twRe, twIm, bits, w);
    ComplexLaws();
    forall k | 0 <= k < Pow2(bits) ensures Points(re, im)[k] == Dft(CR, x, w, k) {
      StagesTransform(CR, x, w, bits, k);
    }
  }

  /** A stage's block count and its root. */
  lemma StageShape(level: nat, bits: nat, w: Complex)
    requires Pow2(level + 1) <= Pow2(bits)
    ensures level < bits
    ensures var step := Pow2(bits - level - 1);
            Pow2(bits) / Pow2(level + 1) == step && step * Pow2(level + 1) == Pow2(bits) &&
            Pow(CR, w, Pow2(bits - level)) == CR.mul(Pow(CR, w, step), Pow(CR, w, step))
  {
    if level >= bits {
      Pow2Grows(bits, level);
    }
    var step := Pow2(bits - level - 1);
    Pow2Sum(level + 1, bits - level - 1);
    ExactQuotient(step, Pow2(level + 1), Pow2(bits));
    ComplexLaws();
    PowSum(CR, w, step, step);
  }

  lemma AtLeastOnce(k: int, d: int)
    requires k >= 1 && d > 0
    ensures k * d >= d
  {
  }

  lemma SameQuotient(q: int, r: int, d: int, rest: int)
    requires 0 <= rest < d && q * d == r * d + rest
    ensures q == r
  {
    assert (q - r) * d == q * d - r * d && (r - q) * d == r * d - q * d;
    if q > r {
      AtLeastOnce(q - r, d);
    } else if q < r {
      AtLeastOnce(r - q, d);
    }
  }

  lemma ExactQuotient(q: nat, d: nat, n: nat)
    requires d > 0 && d * q == n
    ensures n / d == q && q * d == n
  {
    assert n == n / d * d + n % d;
    SameQuotient(q, n / d, d, n % d);
  }

  /** When the blocks outgrow the arrays there is one, and its root is the root itself. */
  lemma LastStage(level: nat, bits: nat, w: Complex)
    requires level <= bits && Pow2(level + 1) > Pow2(bits)
    ensures level == bits && Pow(CR, w, Pow2(bits - level)) == w
  {
    if level < bits {
      Pow2Grows(level + 1, bits);
    }
    ComplexLaws();
    PowOne(CR, w);
  }
}
