/**
 The algebra of the radix-2 transform: over any commutative ring with a root of one,
 the recursion that the butterflies run over bit-reversed input computes the discrete
 Fourier transform. The ring is a value, so that what its operations are plays no part.
 */
module FourierAlgebra {
  import opened Powers

  datatype Ring<!T> = Ring(zero: T, one: T, add: (T, T) -> T, neg: T -> T, mul: (T, T) -> T)

  ghost predicate LawsAt<T(!new)>(r: Ring<T>, a: T, b: T, c: T) {
    && r.add(r.add(a, b), c) == r.add(a, r.add(b, c))
    && r.add(a, b) == r.add(b, a)
    && r.add(r.zero, a) == a
    && r.mul(r.mul(a, b), c) == r.mul(a, r.mul(b, c))
    && r.mul(a, b) == r.mul(b, a)
    && r.mul(r.one, a) == a
    && r.mul(a, r.zero) == r.zero
    && r.mul(a, r.add(b, c)) == r.add(r.mul(a, b), r.mul(a, c))
    && r.mul(r.neg(a), b) == r.neg(r.mul(a, b))
    && r.neg(r.neg(a)) == a
  }

  /** A commutative ring; the proofs name the instances of the laws they use. */
  ghost predicate Laws<T(!new)>(r: Ring<T>) {
    forall a, b, c :: LawsAt(r, a, b, c)
  }

  function Pow<T>(r: Ring<T>, w: T, n: nat): T {
    if n == 0 then r.one else r.mul(w, Pow(r, w, n - 1))
  }

  lemma {:induction false} PowSum<T(!new)>(r: Ring<T>, w: T, a: nat, b: nat)
    requires Laws(r)
    ensures Pow(r, w, a + b) == r.mul(Pow(r, w, a), Pow(r, w, b))
    decreases a
  {
    if a == 0 {
      assert LawsAt(r, Pow(r, w, b), r.one, r.one);
    } else {
      PowSum(r, w, a - 1, b);
      assert LawsAt(r, w, Pow(r, w, a - 1), Pow(r, w, b));
    }
  }

  lemma {:induction false} PowPow<T(!new)>(r: Ring<T>, w: T, a: nat, b: nat)
    requires Laws(r)
    ensures Pow(r, Pow(r, w, a), b) == Pow(r, w, a * b)
    decreases b
  {
    if b > 0 {
      PowPow(r, w, a, b - 1);
      PowSum(r, w, a, a * (b - 1));
      assert a * b == a + a * (b - 1);
    }
  }

  // --- The transform, and the polynomial it evaluates ---

  /** The sum of x[j] w^(jk) over the first `n` points. */
  function Sum<T>(r: Ring<T>, x: seq<T>, w: T, k: nat, n: nat): T
    requires n <= |x|
  {
    if n == 0 then r.zero else r.add(Sum(r, x, w, k, n - 1), r.mul(x[n - 1], Pow(r, w, (n - 1) * k)))
  }

  /** The k-th point of the discrete Fourier transform. */
  function Dft<T>(r: Ring<T>, x: seq<T>, w: T, k: nat): T {
    Sum(r, x, w, k, |x|)
  }

  /** x[0] + x[1] z + x[2] z^2 + ... */
  function Eval<T>(r: Ring<T>, x: seq<T>, z: T): T {
    if x == [] then r.zero else r.add(x[0], r.mul(z, Eval(r, x[1..], z)))
  }

  lemma {:induction false} EvalAppend<T(!new)>(r: Ring<T>, x: seq<T>, c: T, z: T)
    requires Laws(r)
    ensures Eval(r, x + [c], z) == r.add(Eval(r, x, z), r.mul(c, Pow(r, z, |x|)))
  {
    if x == [] {
      assert x + [c] == [c];
      assert LawsAt(r, c, r.one, c) && LawsAt(r, z, r.zero, c) && LawsAt(r, c, r.zero, c);
      assert Eval(r, [c], z) == r.add(c, r.mul(z, Eval(r, [], z)));
    } else {
      assert (x + [c])[1..] == x[1..] + [c];
      EvalAppend(r, x[1..], c, z);
      var e, p := Eval(r, x[1..], z), Pow(r, z, |x| - 1);
      assert LawsAt(r, z, e, r.mul(c, p));
      assert LawsAt(r, z, c, p) && LawsAt(r, c, z, p);
      assert LawsAt(r, x[0], r.mul(z, e), r.mul(z, r.mul(c, p)));
    }
  }

  /** The transform's k-th point is the polynomial's value at w^k. */
  lemma {:induction false} SumIsEval<T(!new)>(r: Ring<T>, x: seq<T>, w: T, k: nat, n: nat)
    requires Laws(r) && n <= |x|
    ensures Sum(r, x, w, k, n) == Eval(r, x[..n], Pow(r, w, k))
    decreases n
  {
    if n > 0 {
      SumIsEval(r, x, w, k, n - 1);
      assert x[..n] == x[..n - 1] + [x[n - 1]];
      EvalAppend(r, x[..n - 1], x[n - 1], Pow(r, w, k));
      PowPow(r, w, k, n - 1);
      assert k * (n - 1) == (n - 1) * k;
    }
  }

  function Evens<T>(x: seq<T>, m: nat): (h: seq<T>)
    requires |x| == 2 * m
    ensures |h| == m && forall i :: 0 <= i < |h| ==> h[i] == x[2 * i]
  {
    if m == 0 then [] else [x[0]] + Evens(x[2..], m - 1)
  }

  function Odds<T>(x: seq<T>, m: nat): (h: seq<T>)
    requires |x| == 2 * m
    ensures |h| == m && forall i :: 0 <= i < |h| ==> h[i] == x[2 * i + 1]
  {
    if m == 0 then [] else [x[1]] + Odds(x[2..], m - 1)
  }

  /** a + z (b + z (e + z o)) == (a + zz e) + z (b + zz o) */
  lemma SplitStep<T(!new)>(r: Ring<T>, a: T, b: T, z: T, e: T, o: T)
    requires Laws(r)
    ensures r.add(a, r.mul(z, r.add(b, r.mul(z, r.add(e, r.mul(z, o)))))) ==
            r.add(r.add(a, r.mul(r.mul(z, z), e)), r.mul(z, r.add(b, r.mul(r.mul(z, z), o))))
  {
    var zz := r.mul(z, z);
    var ze, zo, zze, zzo := r.mul(z, e), r.mul(z, o), r.mul(zz, e), r.mul(zz, o);
    assert LawsAt(r, z, e, zo) && LawsAt(r, z, z, o);
    var u := r.add(ze, zzo);
    assert LawsAt(r, z, b, u) && LawsAt(r, z, ze, zzo) && LawsAt(r, z, z, e) && LawsAt(r, z, b, zzo);
    var zb, zzzo := r.mul(z, b), r.mul(z, zzo);
    // a + (zb + (zze + zzzo)) == (a + zze) + (zb + zzzo)
    assert LawsAt(r, zb, zze, zzzo) && LawsAt(r, zze, zb, zzzo);
    assert LawsAt(r, a, zze, r.add(zb, zzzo));
  }

  /** A polynomial from its even and odd coefficients. */
  lemma {:induction false} EvalSplit<T(!new)>(r: Ring<T>, x: seq<T>, m: nat, z: T)
    requires Laws(r) && |x| == 2 * m
    ensures Eval(r, x, z) == r.add(Eval(r, Evens(x, m), r.mul(z, z)), r.mul(z, Eval(r, Odds(x, m), r.mul(z, z))))
    decreases m
  {
    if m == 0 {
      assert LawsAt(r, z, r.zero, r.zero) && LawsAt(r, r.zero, r.zero, r.zero);
    } else {
      EvalSplit(r, x[2..], m - 1, z);
      assert x[1..][1..] == x[2..];
      assert Evens(x, m)[1..] == Evens(x[2..], m - 1) && Odds(x, m)[1..] == Odds(x[2..], m - 1);
      SplitStep(r, x[0], x[1], z, Eval(r, Evens(x[2..], m - 1), r.mul(z, z)), Eval(r, Odds(x[2..], m - 1), r.mul(z, z)));
    }
  }

  // --- The butterflies' recursion over bit-reversed input ---

  function Sub<T>(r: Ring<T>, a: T, b: T): T {
    r.add(a, r.neg(b))
  }

  /** One stage's butterflies over a block: from the transforms of its halves to its own. */
  function Combine<T>(r: Ring<T>, e: seq<T>, o: seq<T>, w: T): (c: seq<T>)
    requires |e| == |o|
    ensures |c| == 2 * |e|
  {
    seq(2 * |e|, k requires 0 <= k < 2 * |e| =>
      if k < |e| then r.add(e[k], r.mul(o[k], Pow(r, w, k)))
      else Sub(r, e[k - |e|], r.mul(o[k - |e|], Pow(r, w, k - |e|))))
  }

  /** The two points a stage makes of one point of each half. */
  lemma CombineAt<T>(r: Ring<T>, e: seq<T>, o: seq<T>, w: T, k: nat)
    requires |e| == |o| && k < |e|
    ensures Combine(r, e, o, w)[k] == r.add(e[k], r.mul(o[k], Pow(r, w, k)))
    ensures Combine(r, e, o, w)[k + |e|] == r.add(e[k], r.neg(r.mul(o[k], Pow(r, w, k))))
  {
    var j := k + |e|;
    assert Combine(r, e, o, w)[j] == Sub(r, e[j - |e|], r.mul(o[j - |e|], Pow(r, w, j - |e|)));
  }

  /** A block in the middle of its stage: the first `k` butterflies are done. */
  function Partly<T>(was: seq<T>, made: seq<T>, start: nat, half: nat, k: nat): (s: seq<T>)
    requires start + 2 * half <= |was| && |made| == 2 * half && k <= half
    ensures |s| == |was|
  {
    seq(|was|, i requires 0 <= i < |was| && start + 2 * half <= |was| && |made| == 2 * half && k <= half =>
      if start <= i < start + k || start + half <= i < start + half + k then made[i - start] else was[i])
  }

  lemma PartlyStep<T>(was: seq<T>, made: seq<T>, start: nat, half: nat, k: nat)
    requires start + 2 * half <= |was| && |made| == 2 * half && k < half
    ensures Partly(was, made, start, half, k + 1) ==
            Partly(was, made, start, half, k)[start + k := made[k]][start + k + half := made[k + half]]
  {
  }

  lemma PartlyEnds<T>(was: seq<T>, made: seq<T>, start: nat, half: nat)
    requires start + 2 * half <= |was| && |made| == 2 * half
    ensures Partly(was, made, start, half, 0) == was
    ensures Partly(was, made, start, half, half) == was[..start] + made + was[start + 2 * half..]
  {
  }

  /** All stages over a block of 2^bits points that came in bit-reversed order. */
  function Stages<T>(r: Ring<T>, y: seq<T>, w: T, bits: nat): (s: seq<T>)
    requires |y| == Pow2(bits)
    ensures |s| == |y|
    decreases bits
  {
    if bits == 0 then y
    else
      var m := Pow2(bits - 1);
      Combine(r, Stages(r, y[..m], r.mul(w, w), bits - 1), Stages(r, y[m..], r.mul(w, w), bits - 1), w)
  }

  /** The order the butterflies want their input in. */
  function Reordered<T>(x: seq<T>, bits: nat): (y: seq<T>)
    requires |x| == Pow2(bits)
    ensures |y| == |x|
    decreases bits
  {
    if bits == 0 then x else Reordered(Evens(x, Pow2(bits - 1)), bits - 1) + Reordered(Odds(x, Pow2(bits - 1)), bits - 1)
  }

  /** `w` is a primitive 2^bits-th root of one: half a turn is -1. */
  predicate Root<T(==)>(r: Ring<T>, w: T, bits: nat) {
    bits > 0 ==> Pow(r, w, Pow2(bits - 1)) == r.neg(r.one)
  }

  lemma PowOne<T(!new)>(r: Ring<T>, w: T)
    requires Laws(r)
    ensures Pow(r, w, 1) == w
  {
    assert Pow(r, w, 1) == r.mul(w, Pow(r, w, 0));
    assert LawsAt(r, w, r.one, w) && LawsAt(r, r.one, w, w);
  }

  lemma PowTwo<T(!new)>(r: Ring<T>, w: T)
    requires Laws(r)
    ensures Pow(r, w, 2) == r.mul(w, w)
  {
    PowOne(r, w);
    assert Pow(r, w, 2) == r.mul(w, Pow(r, w, 1));
  }

  lemma SquareRoot<T(!new)>(r: Ring<T>, w: T, bits: nat)
    requires Laws(r) && bits > 0 && Root(r, w, bits)
    ensures Root(r, r.mul(w, w), bits - 1)
  {
    if bits > 1 {
      PowTwo(r, w);
      PowPow(r, w, 2, Pow2(bits - 2));
    }
  }

  lemma PowSquare<T(!new)>(r: Ring<T>, w: T, k: nat)
    requires Laws(r)
    ensures Pow(r, r.mul(w, w), k) == r.mul(Pow(r, w, k), Pow(r, w, k))
  {
    PowTwo(r, w);
    PowPow(r, w, 2, k);
    PowSum(r, w, k, k);
  }

  lemma NegSquare<T(!new)>(r: Ring<T>, z: T)
    requires Laws(r)
    ensures r.mul(r.neg(z), r.neg(z)) == r.mul(z, z)
  {
    var h := r.neg(z);
    assert LawsAt(r, z, h, z);
    assert LawsAt(r, h, z, z);
    assert LawsAt(r, r.mul(z, z), z, z);
    assert LawsAt(r, z, z, z);
  }

  /** Half a turn past a power is its opposite. */
  lemma HalfTurn<T(!new)>(r: Ring<T>, w: T, bits: nat, j: nat)
    requires Laws(r) && Root(r, w, bits) && bits > 0
    ensures Pow(r, w, j + Pow2(bits - 1)) == r.neg(Pow(r, w, j))
  {
    var z := Pow(r, w, j);
    PowSum(r, w, Pow2(bits - 1), j);
    assert LawsAt(r, r.one, z, z) && LawsAt(r, z, r.one, z);
  }

  /** The even and odd parts at a square, put together at its two roots. */
  lemma AtRoot<T(!new)>(r: Ring<T>, x: seq<T>, m: nat, z: T, e: T, o: T)
    requires Laws(r) && |x| == 2 * m && e == Eval(r, Evens(x, m), r.mul(z, z)) && o == Eval(r, Odds(x, m), r.mul(z, z))
    ensures r.add(e, r.mul(o, z)) == Eval(r, x, z)
  {
    EvalSplit(r, x, m, z);
    assert LawsAt(r, o, z, o);
  }

  lemma AtOtherRoot<T(!new)>(r: Ring<T>, x: seq<T>, m: nat, z: T, e: T, o: T)
    requires Laws(r) && |x| == 2 * m && e == Eval(r, Evens(x, m), r.mul(z, z)) && o == Eval(r, Odds(x, m), r.mul(z, z))
    ensures Sub(r, e, r.mul(o, z)) == Eval(r, x, r.neg(z))
  {
    NegSquare(r, z);
    EvalSplit(r, x, m, r.neg(z));
    assert LawsAt(r, z, o, z);
  }

  /** A butterfly is the even and odd parts put together at a power of the root, or half a turn past it. */
  lemma ButterflyEvaluates<T(!new)>(r: Ring<T>, x: seq<T>, w: T, bits: nat, j: nat, e: T, o: T)
    requires Laws(r) && |x| == Pow2(bits) && Root(r, w, bits) && bits > 0
    requires e == Eval(r, Evens(x, Pow2(bits - 1)), Pow(r, r.mul(w, w), j)) && o == Eval(r, Odds(x, Pow2(bits - 1)), Pow(r, r.mul(w, w), j))
    ensures r.add(e, r.mul(o, Pow(r, w, j))) == Eval(r, x, Pow(r, w, j))
    ensures Sub(r, e, r.mul(o, Pow(r, w, j))) == Eval(r, x, Pow(r, w, j + Pow2(bits - 1)))
  {
    PowSquare(r, w, j);
    HalfTurn(r, w, bits, j);
    AtRoot(r, x, Pow2(bits - 1), Pow(r, w, j), e, o);
    AtOtherRoot(r, x, Pow2(bits - 1), Pow(r, w, j), e, o);
  }

  /** The last stage, from its halves' transforms. */
  lemma StagesUnfold<T>(r: Ring<T>, y: seq<T>, w: T, bits: nat, e: seq<T>, o: seq<T>)
    requires |y| == Pow2(bits) && bits > 0
    requires e == Stages(r, y[..Pow2(bits - 1)], r.mul(w, w), bits - 1)
    requires o == Stages(r, y[Pow2(bits - 1)..], r.mul(w, w), bits - 1)
    ensures Stages(r, y, w, bits) == Combine(r, e, o, w)
  {
  }

  /** A sequence's points at `k` are the polynomial's value at a power of the root. */
  ghost predicate IsValue<T(!new)>(r: Ring<T>, s: seq<T>, x: seq<T>, w: T, k: nat) {
    k < |s| && s[k] == Eval(r, x, Pow(r, w, k))
  }

  /** One point of the last stage, from what the halves' transforms are there. */
  lemma StageEvaluates<T(!new)>(r: Ring<T>, x: seq<T>, e: seq<T>, o: seq<T>, w: T, bits: nat, k: nat)
    requires Laws(r) && |x| == Pow2(bits) && bits > 0 && Root(r, w, bits) && k < Pow2(bits)
    requires |e| == |o| == Pow2(bits - 1)
    requires var j := if k < |e| then k else k - |e|;
             IsValue(r, e, Evens(x, |e|), r.mul(w, w), j) && IsValue(r, o, Odds(x, |e|), r.mul(w, w), j)
    ensures IsValue(r, Combine(r, e, o, w), x, w, k)
  {
    var j := if k < |e| then k else k - |e|;
    CombineAt(r, e, o, w, j);
    ButterflyEvaluates(r, x, w, bits, j, e[j], o[j]);
  }

  /** What the recursion makes of a reordered input, from what it makes of the reordered halves. */
  lemma Halves<T>(r: Ring<T>, x: seq<T>, w: T, bits: nat, s: seq<T>)
    returns (xe: seq<T>, xo: seq<T>, e: seq<T>, o: seq<T>)
    requires |x| == Pow2(bits) && bits > 0 && s == Stages(r, Reordered(x, bits), w, bits)
    ensures |x| == 2 * Pow2(bits - 1) && |xe| == |xo| == |e| == |o| == Pow2(bits - 1)
    ensures xe == Evens(x, Pow2(bits - 1)) && xo == Odds(x, Pow2(bits - 1))
    ensures e == Stages(r, Reordered(xe, bits - 1), r.mul(w, w), bits - 1)
    ensures o == Stages(r, Reordered(xo, bits - 1), r.mul(w, w), bits - 1)
    ensures s == Combine(r, e, o, w)
  {
    var m, y := Pow2(bits - 1), Reordered(x, bits);
    xe, xo := Evens(x, m), Odds(x, m);
    ReorderedHalves(x, y, bits);
    e, o := Stages(r, y[..m], r.mul(w, w), bits - 1), Stages(r, y[m..], r.mul(w, w), bits - 1);
    StagesUnfold(r, y, w, bits, e, o);
  }

  /** The recursion over reordered input computes the polynomial's values at the powers of the root. */
  lemma {:induction false} StagesEvaluate<T(!new)>(r: Ring<T>, x: seq<T>, w: T, bits: nat, k: nat, s: seq<T>)
    requires Laws(r) && |x| == Pow2(bits) && Root(r, w, bits) && k < Pow2(bits)
    requires s == Stages(r, Reordered(x, bits), w, bits)
    ensures IsValue(r, s, x, w, k)
    decreases bits
  {
    if bits == 0 {
      OnePoint(r, x, Reordered(x, 0), w);
    } else {
      var xe, xo, e, o := Halves(r, x, w, bits, s);
      var j := if k < |e| then k else k - |e|;
      SquareRoot(r, w, bits);
      StagesEvaluate(r, xe, r.mul(w, w), bits - 1, j, e);
      StagesEvaluate(r, xo, r.mul(w, w), bits - 1, j, o);
      StageEvaluates(r, x, e, o, w, bits, k);
    }
  }

  lemma OnePoint<T(!new)>(r: Ring<T>, x: seq<T>, y: seq<T>, w: T)
    requires Laws(r) && |x| == 1 && y == x
    ensures IsValue(r, Stages(r, y, w, 0), x, w, 0)
  {
    EvalAppend(r, [], x[0], r.one);
    assert [] + [x[0]] == x;
    assert LawsAt(r, x[0], r.one, r.one) && LawsAt(r, r.one, x[0], r.one);
  }

  lemma ReorderedHalves<T>(x: seq<T>, y: seq<T>, bits: nat)
    requires |x| == Pow2(bits) && y == Reordered(x, bits) && bits > 0
    ensures var m := Pow2(bits - 1);
            |y| == 2 * m && |x| == 2 * m && y[..m] == Reordered(Evens(x, m), bits - 1) && y[m..] == Reordered(Odds(x, m), bits - 1)
  {
  }

  /** ...which are the discrete Fourier transform. */
  lemma StagesTransform<T(!new)>(r: Ring<T>, x: seq<T>, w: T, bits: nat, k: nat)
    requires Laws(r) && |x| == Pow2(bits) && Root(r, w, bits) && k < Pow2(bits)
    ensures Stages(r, Reordered(x, bits), w, bits)[k] == Dft(r, x, w, k)
  {
    StagesEvaluate(r, x, w, bits, k, Stages(r, Reordered(x, bits), w, bits));
    assert IsValue(r, Stages(r, Reordered(x, bits), w, bits), x, w, k);
    SumIsEval(r, x, w, k, |x|);
    assert x[..|x|] == x;
  }

  // --- The stages, block by block ---

  /** `p` holds of every block of `size` points of `a` and of `y`, from `lo` to `hi`. */
  ghost predicate Blocks<T(!new)>(p: (seq<T>, seq<T>) -> bool, a: seq<T>, y: seq<T>, lo: nat, hi: nat, size: nat)
    requires lo <= hi <= |a| == |y| && size > 0
    decreases hi - lo
  {
    lo == hi || (lo + size <= hi && p(a[lo..lo + size], y[lo..lo + size]) && Blocks(p, a, y, lo + size, hi, size))
  }

  lemma {:induction false} BlocksSame<T(!new)>(p: (seq<T>, seq<T>) -> bool, a: seq<T>, b: seq<T>, y: seq<T>, lo: nat, hi: nat, size: nat)
    requires lo <= hi <= |a| == |b| == |y| && size > 0 && a[lo..hi] == b[lo..hi] && Blocks(p, a, y, lo, hi, size)
    ensures Blocks(p, b, y, lo, hi, size)
    decreases hi - lo
  {
    if lo < hi {
      var next := lo + size;
      assert a[lo..next] == a[lo..hi][..size] && b[lo..next] == b[lo..hi][..size];
      assert a[next..hi] == a[lo..hi][size..] && b[next..hi] == b[lo..hi][size..];
      BlocksSame(p, a, b, y, next, hi, size);
    }
  }

  lemma {:induction false} BlocksAppend<T(!new)>(p: (seq<T>, seq<T>) -> bool, a: seq<T>, y: seq<T>, lo: nat, mid: nat, size: nat)
    requires lo <= mid && mid + size <= |a| == |y| && size > 0 && Blocks(p, a, y, lo, mid, size)
    requires p(a[mid..mid + size], y[mid..mid + size])
    ensures Blocks(p, a, y, lo, mid + size, size)
    decreases mid - lo
  {
    if lo < mid {
      BlocksAppend(p, a, y, lo + size, mid, size);
    }
  }

  /** The second block is the transform of the first, which came in bit-reversed order. */
  ghost function IsStages<T(!new)>(r: Ring<T>, w: T, level: nat): (seq<T>, seq<T>) -> bool {
    (a: seq<T>, y: seq<T>) => |y| == Pow2(level) && a == Stages(r, y, w, level)
  }

  /** Every block of 2^level points from `lo` to `hi` is the transform of the block of `y` there. */
  ghost predicate Done<T(!new)>(r: Ring<T>, a: seq<T>, y: seq<T>, lo: nat, hi: nat, level: nat, w: T)
    requires lo <= hi <= |a| == |y|
  {
    Blocks(IsStages(r, w, level), a, y, lo, hi, Pow2(level))
  }

  /** Before any stage every point is its own transform. */
  lemma {:induction false} DoneAtFirst<T(!new)>(r: Ring<T>, y: seq<T>, lo: nat, w: T)
    requires lo <= |y|
    ensures Done(r, y, y, lo, |y|, 0, w)
    decreases |y| - lo
  {
    if lo < |y| {
      DoneAtFirst(r, y, lo + 1, w);
    }
  }

  /** Once there is one block it is the transform of the whole. */
  lemma DoneAtLast<T(!new)>(r: Ring<T>, a: seq<T>, y: seq<T>, bits: nat, w: T)
    requires |a| == |y| == Pow2(bits) && Done(r, a, y, 0, |y|, bits, w)
    ensures a == Stages(r, y, w, bits)
  {
    assert a[0..|y|] == a && y[0..|y|] == y;
    assert IsStages(r, w, bits)(a[0..|y|], y[0..|y|]);
  }

  /** Two done blocks, combined, are the block of the next stage. */
  lemma StagesStep<T(!new)>(r: Ring<T>, y: seq<T>, w: T, level: nat, e: seq<T>, o: seq<T>)
    requires |y| == 2 * Pow2(level)
    requires IsStages(r, r.mul(w, w), level)(e, y[..Pow2(level)]) && IsStages(r, r.mul(w, w), level)(o, y[Pow2(level)..])
    ensures IsStages(r, w, level + 1)(Combine(r, e, o, w), y)
  {
    assert Pow2(level + 1) == 2 * Pow2(level);
  }

  lemma Replaced<T>(was: seq<T>, now: seq<T>, made: seq<T>, start: nat, end: nat)
    requires start <= end <= |was| && |made| == end - start && now == was[..start] + made + was[end..]
    ensures |now| == |was| && now[start..end] == made
    ensures now[0..start] == was[0..start] && now[end..|was|] == was[end..|was|]
  {
  }

  /** One turn of the middle loop: a pair of blocks combined, everything else left alone. */
  lemma BlockCombines<T(!new)>(r: Ring<T>, was: seq<T>, now: seq<T>, y: seq<T>, start: nat, half: nat, level: nat, w: T)
    requires half == Pow2(level) && start + 2 * half <= |was| == |y|
    requires Done(r, was, y, 0, start, level + 1, w) && Done(r, was, y, start, |y|, level, r.mul(w, w))
    requires now == was[..start] + Combine(r, was[start..start + half], was[start + half..start + 2 * half], w)
                    + was[start + 2 * half..]
    ensures |now| == |y|
    ensures Done(r, now, y, 0, start + 2 * half, level + 1, w)
    ensures Done(r, now, y, start + 2 * half, |y|, level, r.mul(w, w))
  {
    var p, q := IsStages(r, r.mul(w, w), level), IsStages(r, w, level + 1);
    var end := start + 2 * half;
    var e, o := was[start..start + half], was[start + half..end];
    PairOfBlocks(p, was, y, start, |y|, half);
    PairCombined(r, y, start, half, level, w, e, o);
    Replaced(was, now, Combine(r, e, o, w), start, end);
    AfterReplaced(p, q, was, now, y, start, half);
  }

  lemma PairCombined<T(!new)>(r: Ring<T>, y: seq<T>, start: nat, half: nat, level: nat, w: T, e: seq<T>, o: seq<T>)
    requires half == Pow2(level) && start + 2 * half <= |y|
    requires IsStages(r, r.mul(w, w), level)(e, y[start..start + half])
    requires IsStages(r, r.mul(w, w), level)(o, y[start + half..start + 2 * half])
    ensures IsStages(r, w, level + 1)(Combine(r, e, o, w), y[start..start + 2 * half])
  {
    var block := y[start..start + 2 * half];
    assert block[..half] == y[start..start + half] && block[half..] == y[start + half..start + 2 * half];
    StagesStep(r, block, w, level, e, o);
  }

  lemma PairOfBlocks<T(!new)>(p: (seq<T>, seq<T>) -> bool, a: seq<T>, y: seq<T>, lo: nat, hi: nat, size: nat)
    requires size > 0 && lo + 2 * size <= hi <= |a| == |y| && Blocks(p, a, y, lo, hi, size)
    ensures p(a[lo..lo + size], y[lo..lo + size]) && p(a[lo + size..lo + 2 * size], y[lo + size..lo + 2 * size])
    ensures Blocks(p, a, y, lo + 2 * size, hi, size)
  {
    assert Blocks(p, a, y, lo + size, hi, size);
  }

  /** Blocks of twice the size so far, one more of them, and the small ones after it. */
  lemma AfterReplaced<T(!new)>(p: (seq<T>, seq<T>) -> bool, q: (seq<T>, seq<T>) -> bool,
                               was: seq<T>, now: seq<T>, y: seq<T>, start: nat, half: nat)
    requires half > 0 && start + 2 * half <= |was| == |now| == |y|
    requires Blocks(q, was, y, 0, start, 2 * half) && Blocks(p, was, y, start + 2 * half, |y|, half)
    requires now[0..start] == was[0..start] && now[start + 2 * half..|y|] == was[start + 2 * half..|y|]
    requires q(now[start..start + 2 * half], y[start..start + 2 * half])
    ensures Blocks(q, now, y, 0, start + 2 * half, 2 * half) && Blocks(p, now, y, start + 2 * half, |y|, half)
  {
    BlocksSame(q, was, now, y, 0, start, 2 * half);
    BlocksAppend(q, now, y, 0, start, 2 * half);
    BlocksSame(p, was, now, y, start + 2 * half, |y|, half);
  }
}
