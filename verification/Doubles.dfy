/**
 IEEE 754 doubles as the reals they stand for: what a decimal becomes when it is read into
 one, to the nearest and ties to even, and which integers come through it unchanged.
 Infinities are left to the caller.
 */
module Doubles {
  /** Numbers from here on have a step of one between doubles, up to twice as much. */
  const ONE_APART: real := 4503599627370496.0
  const TWO_APART: real := 9007199254740992.0
  const TWO_APART_INT: nat := 9007199254740992

  /** How often the smallest double is doubled to come to one, and the largest halved to come below 2^53. */
  const SMALLEST: nat := 1074
  const LARGEST: nat := 971

  /** To the nearest integer, ties to even. */
  function Rounded(x: real): (n: int)
    ensures -0.5 <= n as real - x <= 0.5
    ensures n as real - x == 0.5 || x - n as real == 0.5 ==> n % 2 == 0
    ensures x >= 0.0 ==> n >= 0
  {
    var f := x.Floor;
    var d := x - f as real;
    if d < 0.5 || (d == 0.5 && f % 2 == 0) then f else f + 1
  }

  /** The nearest double to a number from 2^52 on, as long as it is finite. */
  function NearestLarge(v: real, halvings: nat): real
    decreases halvings
  {
    if v < TWO_APART || halvings == 0 then Rounded(v) as real else 2.0 * NearestLarge(v / 2.0, halvings - 1)
  }

  /** The nearest double to a number below 2^53. */
  function NearestSmall(v: real, doublings: nat): real
    decreases doublings
  {
    if v >= ONE_APART || doublings == 0 then Rounded(v) as real else NearestSmall(2.0 * v, doublings - 1) / 2.0
  }

  function Nearest(v: real): real {
    if v < 0.0 then -Magnitude(-v) else Magnitude(v)
  }

  function Magnitude(v: real): real {
    if v < ONE_APART then NearestSmall(v, SMALLEST) else NearestLarge(v, LARGEST)
  }

  // --- How near ---

  /** Rounding moves a number by at most half a step: a 2^53rd of it, unless it is tiny. */
  lemma {:induction false} LargeNear(v: real, halvings: nat)
    requires v >= ONE_APART
    ensures var d := NearestLarge(v, halvings) - v; -v <= d * TWO_APART <= v
    decreases halvings
  {
    if v >= TWO_APART && halvings > 0 {
      LargeNear(v / 2.0, halvings - 1);
    }
  }

  function Halved(x: real, times: nat): real {
    if times == 0 then x else Halved(x, times - 1) / 2.0
  }

  lemma {:induction false} SmallNear(v: real, doublings: nat)
    requires 0.0 <= v < TWO_APART
    ensures var d := NearestSmall(v, doublings) - v;
            -v <= d * TWO_APART <= v || -Halved(0.5, doublings) <= d <= Halved(0.5, doublings)
    decreases doublings
  {
    if v < ONE_APART && doublings > 0 {
      SmallNear(2.0 * v, doublings - 1);
    }
  }

  predicate Near(v: real, d: real) {
    -v <= d * TWO_APART <= v || v <= d * TWO_APART <= -v || -Halved(0.5, SMALLEST) <= d <= Halved(0.5, SMALLEST)
  }

  lemma NearestIsNear(v: real)
    ensures Near(v, Nearest(v) - v)
  {
    var m := if v < 0.0 then -v else v;
    if m < ONE_APART {
      SmallNear(m, SMALLEST);
    } else {
      LargeNear(m, LARGEST);
    }
  }

  // --- Nothing nearer ---

  predicate IsWhole(x: real) {
    x.Floor as real == x
  }

  /** A double below 2^53: doubled until it comes to 2^52, or as often as that goes, it is an integer. */
  predicate SmallDouble(d: real, doublings: nat)
    decreases doublings
  {
    if d >= ONE_APART || doublings == 0 then IsWhole(d) else SmallDouble(2.0 * d, doublings - 1)
  }

  /** A larger one: halved until it is below 2^53, it is an integer. */
  predicate LargeDouble(d: real, halvings: nat)
    decreases halvings
  {
    if d < TWO_APART || halvings == 0 then IsWhole(d) else LargeDouble(d / 2.0, halvings - 1)
  }

  /** A number that has a double of its own. */
  predicate IsDouble(d: real) {
    var m := if d < 0.0 then -d else d;
    if m < ONE_APART then SmallDouble(m, SMALLEST) else LargeDouble(m, LARGEST)
  }

  function Distance(a: real, b: real): (r: real)
    ensures r >= 0.0
  {
    if a < b then b - a else a - b
  }

  lemma NearestWhole(v: real, d: real)
    requires IsWhole(d)
    ensures Distance(Rounded(v) as real, v) <= Distance(d, v)
  {
    var n := d.Floor;
    var r := Rounded(v);
    if r > n {
      assert r as real >= (n + 1) as real;
    } else if r < n {
      assert r as real <= (n - 1) as real;
    }
  }

  /** No integer is nearer, nor anything that is below one that is not above the number. */
  lemma NearestFrom(v: real, d: real)
    requires v >= ONE_APART && (d < ONE_APART || IsWhole(d))
    ensures Distance(Rounded(v) as real, v) <= Distance(d, v)
  {
    NearestWhole(v, if d < ONE_APART then ONE_APART else d);
  }

  lemma {:induction false} SmallNothingNearer(v: real, d: real, doublings: nat)
    requires 0.0 <= v < TWO_APART && 0.0 <= d && (d >= ONE_APART ==> IsWhole(d)) && (d < ONE_APART ==> SmallDouble(d, doublings))
    ensures Distance(NearestSmall(v, doublings), v) <= Distance(d, v)
    decreases doublings
  {
    if v >= ONE_APART {
      NearestFrom(v, d);
    } else if doublings == 0 {
      NearestWhole(v, d);
    } else {
      if d >= ONE_APART {
        TwiceWhole(d);
      }
      SmallNothingNearer(2.0 * v, 2.0 * d, doublings - 1);
    }
  }

  lemma TwiceWhole(d: real)
    requires IsWhole(d)
    ensures IsWhole(2.0 * d)
  {
    assert 2.0 * d == (2 * d.Floor) as real;
  }

  lemma {:induction false} LargeWholeDouble(d: real, halvings: nat)
    requires LargeDouble(d, halvings)
    ensures IsWhole(d)
    decreases halvings
  {
    if d >= TWO_APART && halvings > 0 {
      LargeWholeDouble(d / 2.0, halvings - 1);
      TwiceWhole(d / 2.0);
    }
  }

  lemma {:induction false} LargeNothingNearer(v: real, d: real, halvings: nat)
    requires v >= ONE_APART && 0.0 <= d && (d >= ONE_APART ==> LargeDouble(d, halvings))
    ensures Distance(NearestLarge(v, halvings), v) <= Distance(d, v)
    decreases halvings
  {
    if v < TWO_APART || halvings == 0 {
      if d >= ONE_APART {
        LargeWholeDouble(d, halvings);
      }
      NearestFrom(v, d);
    } else {
      LargeNothingNearer(v / 2.0, d / 2.0, halvings - 1);
    }
  }

  lemma {:induction false} SmallIsDouble(v: real, doublings: nat)
    requires 0.0 <= v < TWO_APART
    ensures var r := NearestSmall(v, doublings);
            0.0 <= r <= TWO_APART && (v < ONE_APART ==> r <= ONE_APART) && (r < ONE_APART ==> SmallDouble(r, doublings)) && (r >= ONE_APART ==> IsWhole(r))
    decreases doublings
  {
    if v < ONE_APART && doublings > 0 {
      SmallIsDouble(2.0 * v, doublings - 1);
    } else {
      RoundedWithin(v);
    }
  }

  lemma RoundedWithin(v: real)
    requires 0.0 <= v < TWO_APART
    ensures 0.0 <= Rounded(v) as real <= TWO_APART && IsWhole(Rounded(v) as real)
    ensures v < ONE_APART ==> Rounded(v) as real <= ONE_APART
    ensures v >= ONE_APART ==> Rounded(v) as real >= ONE_APART
  {
    var n := Rounded(v);
    assert n as real < TWO_APART + 1.0 ==> n <= TWO_APART_INT;
    assert v < ONE_APART ==> n as real < ONE_APART + 1.0;
    assert v >= ONE_APART ==> n as real > ONE_APART - 1.0;
  }

  lemma {:induction false} LargeIsDouble(v: real, halvings: nat)
    requires v >= ONE_APART
    ensures var r := NearestLarge(v, halvings);
            r >= ONE_APART && LargeDouble(r, halvings)
    decreases halvings
  {
    if v < TWO_APART {
      RoundedWithin(v);
      TwoApartIsDouble(halvings);
    } else if halvings == 0 {
      NearestWhole(v, TWO_APART);
    } else {
      LargeIsDouble(v / 2.0, halvings - 1);
    }
  }

  lemma TwoApartIsDouble(halvings: nat)
    ensures LargeDouble(TWO_APART, halvings)
  {
    if halvings > 0 {
      assert TWO_APART / 2.0 == ONE_APART;
      assert LargeDouble(ONE_APART, halvings - 1);
    }
  }

  /** What a number is read as is a double, and no double is nearer to the number; of two that are as near, it is the one
      whose last bit is zero, as `Rounded` takes it. */
  lemma NothingNearer(v: real, d: real)
    requires IsDouble(d)
    ensures IsDouble(Nearest(v)) && Distance(Nearest(v), v) <= Distance(d, v)
  {
    var m, b := if v < 0.0 then -v else v, if d < 0.0 then -d else d;
    if m < ONE_APART {
      SmallIsDouble(m, SMALLEST);
    } else {
      LargeIsDouble(m, LARGEST);
    }
    NearestIsDouble(v);
    if b >= ONE_APART {
      LargeWholeDouble(b, LARGEST);
    }
    if m < ONE_APART {
      SmallNothingNearer(m, b, SMALLEST);
    } else {
      LargeNothingNearer(m, b, LARGEST);
    }
  }

  lemma NearestIsDouble(v: real)
    ensures IsDouble(Nearest(v))
    ensures v < 0.0 ==> Nearest(v) <= 0.0
    ensures v >= 0.0 ==> Nearest(v) >= 0.0
  {
    var m := if v < 0.0 then -v else v;
    if m < ONE_APART {
      SmallIsDouble(m, SMALLEST);
      if Magnitude(m) >= ONE_APART {
        assert Magnitude(m) == ONE_APART;
        assert LargeDouble(ONE_APART, LARGEST);
      }
    } else {
      LargeIsDouble(m, LARGEST);
    }
  }

  // --- Integers ---

  /** At most 53 bits, and zeros after them. */
  predicate Fits(n: nat) {
    n < TWO_APART_INT || (n % 2 == 0 && Fits(n / 2))
  }

  lemma {:induction false} SmallWhole(n: int, doublings: nat)
    ensures NearestSmall(n as real, doublings) == n as real
    decreases doublings
  {
    if n as real < ONE_APART && doublings > 0 {
      SmallWhole(2 * n, doublings - 1);
      assert 2.0 * n as real == (2 * n) as real;
    }
  }

  /** A large double is an integer. */
  lemma {:induction false} LargeIsWhole(v: real, halvings: nat) returns (n: int)
    ensures NearestLarge(v, halvings) == n as real
    decreases halvings
  {
    if v < TWO_APART || halvings == 0 {
      n := Rounded(v);
    } else {
      n := LargeIsWhole(v / 2.0, halvings - 1);
      n := 2 * n;
    }
  }

  function Times2(n: nat, times: nat): (r: nat)
    ensures r >= n
  {
    if times == 0 then n else 2 * Times2(n, times - 1)
  }

  lemma {:induction false} LargeWhole(n: nat, halvings: nat)
    requires n < Times2(TWO_APART_INT, halvings)
    ensures NearestLarge(n as real, halvings) == n as real <==> Fits(n)
    decreases halvings
  {
    if n >= TWO_APART_INT {
      if n % 2 == 0 {
        LargeWhole(n / 2, halvings - 1);
        assert n as real / 2.0 == (n / 2) as real;
      } else {
        var m := LargeIsWhole(n as real / 2.0, halvings - 1);
        OddIsNotTwice(n, m);
      }
    } else {
      assert n as real - n as real == 0.0;
    }
  }

  lemma OddIsNotTwice(n: nat, m: int)
    requires n % 2 == 1
    ensures 2.0 * m as real != n as real
  {
    assert 2.0 * m as real == (2 * m) as real;
  }

  lemma {:induction false} TimesGrow(n: nat, a: nat, b: nat)
    requires a <= b
    ensures Times2(n, a) <= Times2(n, b)
    decreases b
  {
    if a < b {
      TimesGrow(n, a, b - 1);
    }
  }

  /** Which integers of up to 64 bits have a double of their own. */
  lemma WholeComesBack(n: int)
    requires -0x1_0000_0000_0000_0000 <= n <= 0x1_0000_0000_0000_0000
    ensures Nearest(n as real) == n as real <==> Fits(if n < 0 then -n else n)
  {
    if n < 0 {
      SizeComesBack(-n);
      NegativeIs(n);
    } else {
      SizeComesBack(n);
    }
  }

  lemma NegativeIs(n: int)
    requires n < 0
    ensures Nearest(n as real) == -Magnitude((-n) as real) && (-n) as real == -(n as real)
  {
  }

  lemma SizeComesBack(n: nat)
    requires n <= 0x1_0000_0000_0000_0000
    ensures Magnitude(n as real) == n as real <==> Fits(n)
  {
    if n as real < ONE_APART {
      SmallWhole(n, SMALLEST);
    } else {
      Below2To65();
      LargeWhole(n, LARGEST);
    }
  }

  lemma Below2To65()
    ensures Times2(TWO_APART_INT, LARGEST) > 0x1_0000_0000_0000_0000
  {
    assert Times2(TWO_APART_INT, 4) == TWO_APART_INT * 16;
    assert Times2(TWO_APART_INT, 8) == TWO_APART_INT * 256;
    assert Times2(TWO_APART_INT, 12) == TWO_APART_INT * 4096;
    TimesGrow(TWO_APART_INT, 12, LARGEST);
  }
}
