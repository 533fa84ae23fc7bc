/**
 The reader's numbers are those of the grammar: what text of number characters spells,
 and that nothing else is taken for a number.
 */
module JsonNumbers {
  import opened Wrappers
  import opened Powers
  import R = JsonReader
  import opened JsonGrammar

  // --- Digits ---

  lemma {:induction false} DigitRunOf(s: seq<byte>, t: seq<byte>)
    requires R.AllDigits(s) && (t == [] || !R.IsDigit(t[0]))
    ensures R.DigitRun(s + t) == |s|
    ensures (s + t)[..|s|] == s && (s + t)[|s|..] == t
  {
    if s == [] {
      assert s + t == t;
    } else {
      assert (s + t)[1..] == s[1..] + t;
      DigitRunOf(s[1..], t);
    }
  }

  lemma {:induction false} Spelled(ds: seq<digit>)
    ensures R.AllDigits(DigitText(ds))
    ensures ds != [] ==> DigitText(ds)[0] == ds[0] + '0' as int
  {
    if ds != [] {
      Spelled(ds[1..]);
    }
  }

  lemma {:induction false} SpelledBoth(a: seq<digit>, f: seq<digit>)
    ensures DigitText(a) + DigitText(f) == DigitText(a + f)
  {
    if a == [] {
      assert a + f == f;
    } else {
      assert (a + f)[1..] == a[1..] + f;
      SpelledBoth(a[1..], f);
    }
  }

  lemma {:induction false} NatOfDigits(ds: seq<digit>)
    ensures R.AllDigits(DigitText(ds))
    ensures R.NatOf(DigitText(ds)) == Whole(ds)
  {
    Spelled(ds);
    if ds != [] {
      var k := |ds| - 1;
      assert ds[..k] + [ds[k]] == ds;
      SpelledBoth(ds[..k], [ds[k]]);
      NatOfDigits(ds[..k]);
      LastDigit(DigitText(ds[..k]), ds[k]);
    }
  }

  lemma LastDigit(s: seq<byte>, d: digit)
    requires R.AllDigits(s)
    ensures R.AllDigits(s + [d + '0' as int])
    ensures R.NatOf(s + [d + '0' as int]) == 10 * R.NatOf(s) + d
  {
    assert (s + [d + '0' as int])[..|s|] == s;
  }

  /** The digits that bytes spell. */
  function DigitsOf(s: seq<byte>): (ds: seq<digit>)
    requires R.AllDigits(s)
    ensures DigitText(ds) == s
  {
    if s == [] then [] else [s[0] - '0' as int] + DigitsOf(s[1..])
  }

  lemma {:induction false} DigitRunEnds(s: seq<byte>)
    ensures R.DigitRun(s) < |s| ==> !R.IsDigit(s[R.DigitRun(s)])
  {
    if s != [] && R.IsDigit(s[0]) {
      DigitRunEnds(s[1..]);
    }
  }

  // --- Powers of ten ---

  lemma ScaledLess(x: real, e: int)
    ensures R.Scaled(x / 10.0, e) == R.Scaled(x, e - 1)
  {
    if e > 0 {
      assert x / 10.0 * 10.0 == x;
    }
  }

  lemma {:induction false} ShiftTen(x: real, e: int)
    ensures Shifted(x * 10.0, e) == 10.0 * Shifted(x, e)
    decreases if e < 0 then -e else e
  {
    if e > 0 {
      ShiftTen(x, e - 1);
    } else if e < 0 {
      ShiftTen(x, e + 1);
    }
  }

  lemma {:induction false} Scales(x: real, e: int)
    ensures R.Scaled(x, e) == Shifted(x, e)
    decreases if e < 0 then -e else e
  {
    if e > 0 {
      Scales(x * 10.0, e - 1);
      ShiftTen(x, e - 1);
    } else if e < 0 {
      Scales(x / 10.0, e + 1);
      ShiftTen(x / 10.0, e + 1);
    }
  }

  /** Moving the point is multiplying with a power of ten, or dividing by one. */
  lemma {:induction false} ShiftedIs(x: real, e: nat)
    ensures Shifted(x, e) == x * Pow10(e) as real
    ensures Shifted(x, -(e as int)) * Pow10(e) as real == x
    decreases e
  {
    if e > 0 {
      ShiftedIs(x, e - 1);
      TenMore(Pow10(e - 1), x, Shifted(x, 1 - e));
    }
  }

  lemma TenMore(t: nat, x: real, y: real)
    requires y * t as real == x
    ensures 10.0 * (x * t as real) == x * (10 * t) as real
    ensures y / 10.0 * (10 * t) as real == x
  {
    assert (10 * t) as real == 10.0 * t as real;
    assert y / 10.0 * (10.0 * t as real) == y * t as real;
  }

  /** Digits behind the point count as if there were no point and so many powers of ten less. */
  lemma {:induction false} PointMoves(a: seq<digit>, f: seq<digit>, e: int)
    ensures R.Scaled(Whole(a + f) as real, e - |f|) == R.Scaled(Whole(a) as real + Fraction(f), e)
    decreases |f|
  {
    if f == [] {
      assert a + f == a;
    } else {
      assert (a + [f[0]]) + f[1..] == a + f && (a + [f[0]])[..|a|] == a;
      PointMoves(a + [f[0]], f[1..], e - 1);
      ScaledLess(Whole(a + [f[0]]) as real + Fraction(f[1..]), e);
    }
  }

  /** Digits behind the point are worth what they would be before it, divided by ten as often as there are digits. */
  lemma FractionIs(f: seq<digit>)
    ensures Fraction(f) == Shifted(Whole(f) as real, -|f|)
  {
    PointMoves([], f, 0);
    assert [] + f == f;
    Scales(Whole(f) as real, -|f|);
  }

  // --- The grammar's numbers are read ---

  lemma UnsignedExponent(c: byte, digits: seq<byte>)
    requires (c == 'e' as int || c == 'E' as int) && digits != [] && R.AllDigits(digits)
    ensures R.Exponent([c] + digits) == Some(R.NatOf(digits))
  {
    var s := [c] + digits;
    assert s[1] == digits[0] && s[1..] == digits;
    DigitRunOf(digits, []);
    assert digits + [] == digits;
  }

  lemma SignedIs(s: seq<byte>, digits: seq<byte>)
    requires |s| > 2 && (s[0] == 'e' as int || s[0] == 'E' as int) && (s[1] == '-' as int || s[1] == '+' as int)
    requires s[2..] == digits && R.AllDigits(digits) && R.DigitRun(digits) == |digits|
    ensures R.Exponent(s) == Some(if s[1] == '-' as int then -(R.NatOf(digits) as int) else R.NatOf(digits) as int)
  {
  }

  lemma SignedExponent(c: byte, minus: bool, digits: seq<byte>)
    requires (c == 'e' as int || c == 'E' as int) && digits != [] && R.AllDigits(digits)
    ensures R.Exponent([c] + ([if minus then '-' as int else '+' as int] + digits))
         == Some(if minus then -(R.NatOf(digits) as int) else R.NatOf(digits) as int)
  {
    var s := [c] + ([if minus then '-' as int else '+' as int] + digits);
    DigitRunOf(digits, []);
    assert digits + [] == digits;
    SignedIs(s, digits);
  }

  lemma ExponentReads(e: Option<Exponent>)
    requires e.Some? ==> e.value.digits != []
    ensures R.Exponent(ExponentText(e)) == Some(ExponentWorth(e))
  {
    if e.Some? {
      var c := if e.value.capital then 'E' as int else 'e' as int;
      NatOfDigits(e.value.digits);
      if e.value.sign == Unsigned {
        assert [] + DigitText(e.value.digits) == DigitText(e.value.digits);
        UnsignedExponent(c, DigitText(e.value.digits));
      } else {
        SignedExponent(c, e.value.sign == Minus, DigitText(e.value.digits));
      }
    }
  }

  /** Digits, a point, more digits, and what is left. */
  lemma WithPoint(a: seq<byte>, f: seq<byte>, e: seq<byte>)
    requires a != [] && R.AllDigits(a) && R.AllDigits(f) && (e == [] || !R.IsDigit(e[0]))
    ensures R.UnsignedParts(a + (['.' as int] + f + e)) == R.Ended(a + f, |f|, e)
  {
    assert ['.' as int] + f + e == ['.' as int] + (f + e);
    FrontAndPoint(a, f + e);
    DigitRunOf(f, e);
  }

  lemma FrontAndPoint(a: seq<byte>, t: seq<byte>)
    requires a != [] && R.AllDigits(a)
    ensures R.UnsignedParts(a + (['.' as int] + t)) == R.Pointed(a, t)
  {
    var s := a + (['.' as int] + t);
    DigitRunOf(a, ['.' as int] + t);
    assert s[|a| + 1..] == t;
  }

  lemma WithoutPoint(a: seq<byte>, e: seq<byte>)
    requires a != [] && R.AllDigits(a) && (e == [] || (!R.IsDigit(e[0]) && e[0] != '.' as int))
    ensures R.UnsignedParts(a + e) == R.Ended(a, 0, e)
  {
    DigitRunOf(a, e);
  }

  lemma PointShifts(a: seq<digit>, f: seq<digit>, e: int)
    ensures R.Scaled(Whole(a + f) as real, e - |f|) == Shifted(Whole(a) as real + Fraction(f), e)
  {
    PointMoves(a, f, e);
    Scales(Whole(a) as real + Fraction(f), e);
  }

  /** The digits behind the point, if there is one. */
  function Behind(n: Number): seq<digit> {
    if n.fraction.Some? then n.fraction.value else []
  }

  function PartsOf(n: Number): R.Parts {
    R.Parts(DigitText(n.whole + Behind(n)), |Behind(n)|, ExponentWorth(n.exponent))
  }

  lemma PartsRead(n: Number)
    requires ProperNumber(n)
    ensures R.UnsignedParts(UnsignedText(n)) == Some(PartsOf(n))
  {
    ExponentReads(n.exponent);
    SpelledBoth(n.whole, Behind(n));
    Spelled(n.whole);
    Spelled(Behind(n));
    if n.fraction.Some? {
      WithPoint(DigitText(n.whole), DigitText(n.fraction.value), ExponentText(n.exponent));
    } else {
      WithoutPoint(DigitText(n.whole), ExponentText(n.exponent));
      assert n.whole + [] == n.whole;
      assert [] + ExponentText(n.exponent) == ExponentText(n.exponent);
    }
  }

  lemma WorthShifted(n: Number)
    ensures R.Scaled(Whole(n.whole + Behind(n)) as real, ExponentWorth(n.exponent) - |Behind(n)|) == UnsignedWorth(n)
  {
    PointShifts(n.whole, Behind(n), ExponentWorth(n.exponent));
  }

  lemma PartsScaled(n: Number)
    ensures R.AllDigits(PartsOf(n).digits)
    ensures R.Scaled(R.NatOf(PartsOf(n).digits) as real, PartsOf(n).exponent - PartsOf(n).behind) == UnsignedWorth(n)
  {
    NatOfDigits(n.whole + Behind(n));
    WorthShifted(n);
  }

  lemma PartsWorth(s: seq<byte>, p: R.Parts, x: real)
    requires Spells(s, p) && Means(p, x)
    ensures R.UnsignedDecimal(s) == Some(x)
  {
  }

  predicate Spells(s: seq<byte>, p: R.Parts) {
    R.UnsignedParts(s) == Some(p)
  }

  predicate Means(p: R.Parts, x: real) {
    R.AllDigits(p.digits) && R.Scaled(R.NatOf(p.digits) as real, p.exponent - p.behind) == x
  }

  lemma UnsignedReads(n: Number)
    requires ProperNumber(n)
    ensures R.UnsignedDecimal(UnsignedText(n)) == Some(UnsignedWorth(n))
  {
    ghost var s, p, x := UnsignedTriple(n);
    PartsWorth(s, p, x);
  }

  lemma UnsignedTriple(n: Number) returns (s: seq<byte>, p: R.Parts, x: real)
    requires ProperNumber(n)
    ensures s == UnsignedText(n) && x == UnsignedWorth(n) && Spells(s, p) && Means(p, x)
  {
    PartsRead(n);
    PartsScaled(n);
    s, p, x := UnsignedText(n), PartsOf(n), UnsignedWorth(n);
  }

  lemma Negated(s: seq<byte>, x: real)
    requires R.UnsignedDecimal(s) == Some(x)
    ensures R.Decimal(['-' as int] + s) == Some(-x)
  {
    assert (['-' as int] + s)[1..] == s;
  }

  /** Every number of the grammar is read as what it is worth. */
  lemma NumberReads(n: Number)
    requires ProperNumber(n)
    ensures R.Decimal(NumberText(n)) == Some(Worth(n))
  {
    var s, x := UnsignedFound(n);
    if n.minus {
      Negated(s, x);
    } else {
      AsItIs(s, x);
    }
  }

  lemma UnsignedFound(n: Number) returns (s: seq<byte>, x: real)
    requires ProperNumber(n)
    ensures s != [] && R.IsDigit(s[0]) && R.UnsignedDecimal(s) == Some(x)
    ensures NumberText(n) == (if n.minus then ['-' as int] + s else s)
    ensures Worth(n) == (if n.minus then -x else x)
  {
    UnsignedReads(n);
    UnsignedStarts(n);
    s, x := UnsignedText(n), UnsignedWorth(n);
  }

  lemma AsItIs(s: seq<byte>, x: real)
    requires R.UnsignedDecimal(s) == Some(x) && s != [] && R.IsDigit(s[0])
    ensures R.Decimal(s) == Some(x)
  {
  }

  lemma UnsignedStarts(n: Number)
    requires ProperNumber(n)
    ensures UnsignedText(n) != [] && R.IsDigit(UnsignedText(n)[0])
  {
    Spelled(n.whole);
    assert UnsignedText(n)[0] == n.whole[0] + '0' as int;
  }

  /** In other words: all digits as one integer, times ten to the exponent less the number of digits behind the point. */
  lemma WorthIs(n: Number)
    ensures UnsignedWorth(n) == Shifted(Whole(n.whole + Behind(n)) as real, ExponentWorth(n.exponent) - |Behind(n)|)
  {
    WorthShifted(n);
    Scales(Whole(n.whole + Behind(n)) as real, ExponentWorth(n.exponent) - |Behind(n)|);
  }

  // --- And nothing else is ---

  lemma ExponentRead(s: seq<byte>) returns (e: Option<Exponent>)
    requires R.Exponent(s).Some?
    ensures ExponentText(e) == s && (e.Some? ==> e.value.digits != [])
  {
    if s == [] {
      return None;
    }
    var sign, digits := ExponentCut(s);
    e := Some(Exponent(s[0] == 'E' as int, sign, DigitsOf(digits)));
  }

  lemma ExponentCut(s: seq<byte>) returns (sign: Sign, digits: seq<byte>)
    requires R.Exponent(s).Some? && s != []
    ensures s[0] == 'e' as int || s[0] == 'E' as int
    ensures digits != [] && R.AllDigits(digits) && s == [s[0]] + (SignText(sign) + digits)
  {
    if |s| > 1 && (s[1] == '-' as int || s[1] == '+' as int) {
      sign := if s[1] == '-' as int then Minus else Plus;
      digits := s[2..];
    } else {
      sign := Unsigned;
      digits := s[1..];
    }
    assert digits[..|digits|] == digits;
  }

  lemma CutAtPoint(s: seq<byte>) returns (a: seq<byte>, point: bool, b: seq<byte>)
    requires R.UnsignedParts(s).Some?
    ensures a != [] && R.AllDigits(a)
    ensures if point then s == a + (['.' as int] + b) && R.Pointed(a, b).Some? else s == a + b && R.Exponent(b).Some?
  {
    var k := R.DigitRun(s);
    point := k < |s| && s[k] == '.' as int;
    a := s[..k];
    if point {
      b := s[k + 1..];
    } else {
      b := s[k..];
    }
  }

  lemma PartsAre(s: seq<byte>) returns (n: Number)
    requires R.UnsignedParts(s).Some?
    ensures !n.minus && ProperNumber(n) && UnsignedText(n) == s
  {
    var a, point, b := CutAtPoint(s);
    if point {
      n := PointRead(a, b);
    } else {
      n := WholeRead(a, b);
    }
  }

  lemma WholeRead(a: seq<byte>, s: seq<byte>) returns (n: Number)
    requires a != [] && R.AllDigits(a) && R.Exponent(s).Some?
    ensures !n.minus && ProperNumber(n) && UnsignedText(n) == a + s
  {
    var e := ExponentRead(s);
    n := Number(false, DigitsOf(a), None, e);
    assert [] + s == s;
  }

  lemma PointRead(a: seq<byte>, s: seq<byte>) returns (n: Number)
    requires a != [] && R.AllDigits(a) && R.Pointed(a, s).Some?
    ensures !n.minus && ProperNumber(n) && UnsignedText(n) == a + (['.' as int] + s)
  {
    var m := R.DigitRun(s);
    var e := ExponentRead(s[m..]);
    n := Number(false, DigitsOf(a), Some(DigitsOf(s[..m])), e);
    assert ['.' as int] + s == ['.' as int] + s[..m] + s[m..];
  }

  /** What reads as a number is spelled by one of the grammar, and worth that. */
  lemma OnlyNumbersRead(s: seq<byte>) returns (n: Number)
    requires R.Decimal(s).Some?
    ensures ProperNumber(n) && NumberText(n) == s && R.Decimal(s) == Some(Worth(n))
  {
    if s != [] && s[0] == '-' as int {
      n := PartsAre(s[1..]);
      n := n.(minus := true);
      assert UnsignedText(n) == s[1..];
    } else {
      n := PartsAre(s);
    }
    NumberReads(n);
  }

  // --- A number in front of something ---

  lemma DigitsAreNumberChars(ds: seq<digit>)
    ensures forall i :: 0 <= i < |ds| ==> R.IsNumberChar(DigitText(ds)[i])
  {
    Spelled(ds);
  }

  lemma NumberChars(n: Number)
    ensures forall i :: 0 <= i < |NumberText(n)| ==> R.IsNumberChar(NumberText(n)[i])
  {
    DigitsAreNumberChars(n.whole);
    if n.fraction.Some? {
      DigitsAreNumberChars(n.fraction.value);
    }
    if n.exponent.Some? {
      DigitsAreNumberChars(n.exponent.value.digits);
    }
  }

  lemma {:induction false} RunOf(t: seq<byte>, rest: seq<byte>, cap: nat)
    requires |t| <= cap && (forall i :: 0 <= i < |t| ==> R.IsNumberChar(t[i]))
    requires rest == [] || !R.IsNumberChar(rest[0])
    ensures R.NumberRun(t + rest, cap) == |t|
    decreases |t|
  {
    if t == [] {
      assert t + rest == rest;
    } else {
      assert (t + rest)[1..] == t[1..] + rest;
      RunOf(t[1..], rest, cap - 1);
    }
  }

  /** A number that fits, before anything a number does not go on with. */
  lemma NumberReadsOn(n: Number, rest: seq<byte>)
    requires ProperNumber(n) && NumberFits(n)
    requires rest == [] || !R.IsNumberChar(rest[0])
    ensures R.ReadNumber(NumberText(n) + rest) == Some((R.JNum(R.Doubles.Nearest(Worth(n))), rest))
  {
    var t := NumberText(n);
    NumberReads(n);
    NumberChars(n);
    RunOf(t, rest, R.NUMBER_CAP);
    assert (t + rest)[..|t|] == t && (t + rest)[|t|..] == rest;
    NumberStarts(n, rest);
    R.NumberRead(t + rest, |t|, R.FiniteNumber(t));
  }

  lemma NumberStarts(n: Number, rest: seq<byte>)
    requires ProperNumber(n)
    ensures R.StartsNumber(NumberText(n) + rest)
  {
    UnsignedStarts(n);
    assert (NumberText(n) + rest)[if n.minus then 1 else 0] == UnsignedText(n)[0];
  }

  /** Whatever is read as a number at the front of a text is one of the grammar that fits. */
  lemma NumberAtFront(s: seq<byte>) returns (n: Number)
    requires R.ReadNumber(s).Some?
    ensures ProperNumber(n) && NumberFits(n)
    ensures s == NumberText(n) + R.ReadNumber(s).value.1
    ensures R.ReadNumber(s).value.0 == R.JNum(R.Doubles.Nearest(Worth(n)))
  {
    var t := FrontCut(s);
    n := OnlyNumbersRead(t);
  }

  lemma FrontCut(s: seq<byte>) returns (t: seq<byte>)
    requires R.ReadNumber(s).Some?
    ensures |t| <= R.NUMBER_CAP && R.Decimal(t).Some? && R.Finite(R.Decimal(t).value)
    ensures s == t + R.ReadNumber(s).value.1
    ensures R.ReadNumber(s).value.0 == R.JNum(R.Doubles.Nearest(R.Decimal(t).value))
  {
    var n := R.NumberRun(s, R.NUMBER_CAP);
    t := s[..n];
    FrontIs(s, n, t);
    SameTail(s, n, R.ReadNumber(s).value.1);
  }

  lemma FrontIs(s: seq<byte>, n: nat, t: seq<byte>)
    requires R.ReadNumber(s).Some? && n == R.NumberRun(s, R.NUMBER_CAP) && n <= |s| && t == s[..n]
    ensures R.Decimal(t).Some? && R.Finite(R.Decimal(t).value)
    ensures R.ReadNumber(s) == Some((R.JNum(R.Doubles.Nearest(R.Decimal(t).value)), s[n..]))
  {
  }

  // --- A number there is no room for ---

  lemma {:induction false} RunCut(t: seq<byte>, rest: seq<byte>, cap: nat)
    requires |t| > cap && forall i :: 0 <= i < |t| ==> R.IsNumberChar(t[i])
    ensures R.NumberRun(t + rest, cap) == cap
    decreases cap
  {
    if cap > 0 {
      assert (t + rest)[1..] == t[1..] + rest;
      RunCut(t[1..], rest, cap - 1);
    }
  }

  /** One that is too long is refused, or cut where more of it follows; one that rounds to infinity is refused. */
  lemma NumberStuck(n: Number, rest: seq<byte>)
    requires ProperNumber(n) && !NumberFits(n) && (rest == [] || !R.IsNumberChar(rest[0]))
    ensures var r := R.ReadNumber(NumberText(n) + rest);
            r.Some? ==> r.value.1 != [] && R.IsNumberChar(r.value.1[0])
  {
    var t := NumberText(n);
    NumberChars(n);
    NumberStarts(n, rest);
    if |t| > R.NUMBER_CAP {
      RunCut(t, rest, R.NUMBER_CAP);
      CutNumber(t, rest);
    } else {
      RunOf(t, rest, R.NUMBER_CAP);
      NumberReads(n);
      assert (t + rest)[..|t|] == t;
      R.NumberRead(t + rest, |t|, R.FiniteNumber(t));
    }
  }

  lemma CutNumber(t: seq<byte>, rest: seq<byte>)
    requires |t| > R.NUMBER_CAP && R.StartsNumber(t + rest) && R.NumberRun(t + rest, R.NUMBER_CAP) == R.NUMBER_CAP
    requires forall i :: 0 <= i < |t| ==> R.IsNumberChar(t[i])
    ensures var r := R.ReadNumber(t + rest);
            r.Some? ==> r.value.1 != [] && R.IsNumberChar(r.value.1[0])
  {
    var s := t + rest;
    assert s[R.NUMBER_CAP..][0] == t[R.NUMBER_CAP];
    R.NumberRead(s, R.NUMBER_CAP, R.FiniteNumber(s[..R.NUMBER_CAP]));
  }
}
