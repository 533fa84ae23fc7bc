/**
 The battery's level of src/power/gauge.c: the discharge curve, and a level that follows
 the averaged voltage down on battery and up on USB power, a point at a time. Exact
 arithmetic; a reading's time is in milliseconds.
 */
module Gauge {
  import opened Reals

  const TAU_MS: real := 30000.0
  const CHARGING_MV: int := 50
  const CHARGE_STEP_MS: nat := 45000
  const SLACK_LEVELS: int := 5
  const CRITICAL_LEVEL: int := 3
  const CRITICAL_MS: nat := 20000

  // --- The curve ---

  datatype Point = Point(mv: int, level: int)

  /** The points, the highest first. */
  function Curve(i: nat): Point
    requires i < 10
  {
    match i
    case 0 => Point(4160, 100)
    case 1 => Point(4050, 95)
    case 2 => Point(4000, 80)
    case 3 => Point(3920, 65)
    case 4 => Point(3860, 40)
    case 5 => Point(3790, 26)
    case 6 => Point(3660, 10)
    case 7 => Point(3520, 7)
    case 8 => Point(3490, 3)
    case 9 => Point(3100, 0)
  }

  /** Between a point and the one above it, rounded to the nearest. */
  function Between(i: nat, mv: int): int
    requires 1 <= i < 10 && Curve(i).mv <= mv < Curve(i - 1).mv
  {
    var dv := Curve(i - 1).mv - Curve(i).mv;
    var dl := Curve(i - 1).level - Curve(i).level;
    Curve(i).level + ((mv - Curve(i).mv) * dl + dv / 2) / dv
  }

  /** From the `i`th point on: the level of a voltage below the point before it. */
  function LevelFrom(i: nat, mv: int): int
    requires 1 <= i <= 10 && mv < Curve(i - 1).mv
    decreases 10 - i
  {
    if i == 10 then 0 else if mv >= Curve(i).mv then Between(i, mv) else LevelFrom(i + 1, mv)
  }

  function LevelFor(mv: int): int {
    if mv >= Curve(0).mv then Curve(0).level else LevelFrom(1, mv)
  }

  /** `rpod_gauge_level_for_mv`. */
  method LevelForMv(mv: int) returns (level: int)
    ensures level == LevelFor(mv)
  {
    if mv >= Curve(0).mv {
      return Curve(0).level;
    }
    var i: nat := 1;
    while i < 10
      invariant 1 <= i <= 10 && mv < Curve(i - 1).mv && LevelFrom(i, mv) == LevelFrom(1, mv)
    {
      if mv >= Curve(i).mv {
        return Between(i, mv);
      }
      i := i + 1;
    }
    return 0;
  }

  lemma BetweenIs(i: nat, mv: int)
    requires 1 <= i < 10 && Curve(i).mv <= mv < Curve(i - 1).mv
    ensures Curve(i).level <= Between(i, mv) <= Curve(i - 1).level
    ensures mv + 1 < Curve(i - 1).mv ==> Between(i, mv) <= Between(i, mv + 1)
  {
  }

  lemma {:induction false} LevelFromIs(i: nat, mv: int)
    requires 1 <= i <= 10 && mv < Curve(i - 1).mv
    ensures 0 <= LevelFrom(i, mv) <= Curve(i - 1).level
    ensures mv + 1 < Curve(i - 1).mv ==> LevelFrom(i, mv) <= LevelFrom(i, mv + 1)
    decreases 10 - i
  {
    if i < 10 {
      if mv >= Curve(i).mv {
        BetweenIs(i, mv);
      } else {
        LevelFromIs(i + 1, mv);
        if mv + 1 == Curve(i).mv {
          BetweenIs(i, mv + 1);
        }
      }
    }
  }

  /** The curve rises from 0 to 100. */
  lemma {:induction false} CurveRises(low: int, high: int)
    requires low <= high
    ensures 0 <= LevelFor(low) <= LevelFor(high) <= 100
    decreases high - low
  {
    if low < Curve(0).mv {
      LevelFromIs(1, low);
    }
    if low < high {
      CurveRises(low + 1, high);
    }
  }

  lemma {:induction false} FoundBetween(i: nat, k: nat, mv: int)
    requires 1 <= i <= k < 10 && Curve(k).mv <= mv < Curve(k - 1).mv
    ensures mv < Curve(i - 1).mv && LevelFrom(i, mv) == Between(k, mv)
    decreases k - i
  {
    Falling(i - 1, k - 1);
    if i < k {
      Falling(i, k - 1);
      FoundBetween(i + 1, k, mv);
    }
  }

  lemma {:induction false} Falling(i: nat, k: nat)
    requires i <= k < 10
    ensures Curve(i).mv >= Curve(k).mv
    decreases k - i
  {
    if i < k {
      Falling(i + 1, k);
    }
  }

  /** At `mv` the straight line between the `k`th point and the one above it comes to `level`, rounded to the nearest. */
  predicate OnLine(k: nat, level: int, mv: int)
    requires 1 <= k < 10
  {
    var dv, dl := Curve(k - 1).mv - Curve(k).mv, Curve(k - 1).level - Curve(k).level;
    -dv <= 2 * ((level - Curve(k).level) * dv - (mv - Curve(k).mv) * dl) <= dv
  }

  /** The curve runs through its points, and between two of them it is the straight line, rounded to the nearest. */
  lemma CurveIs(k: nat, mv: int)
    requires 1 <= k < 10 && Curve(k).mv <= mv < Curve(k - 1).mv
    ensures OnLine(k, LevelFor(mv), mv)
    ensures mv == Curve(k).mv ==> LevelFor(mv) == Curve(k).level
  {
    FoundBetween(1, k, mv);
    LineRounded(k, mv);
  }

  lemma LineRounded(k: nat, mv: int)
    requires 1 <= k < 10 && Curve(k).mv <= mv < Curve(k - 1).mv
    ensures OnLine(k, Between(k, mv), mv)
    ensures mv == Curve(k).mv ==> Between(k, mv) == Curve(k).level
  {
    var dl := Curve(k - 1).level - Curve(k).level;
    QuotientRounded((mv - Curve(k).mv) * dl, Curve(k - 1).mv - Curve(k).mv);
    assert mv == Curve(k).mv ==> (mv - Curve(k).mv) * dl == 0;
  }

  lemma QuotientRounded(a: int, d: int)
    requires d > 1
    ensures var q := (a + d / 2) / d;
            -d <= 2 * (q * d - a) <= d && (a == 0 ==> q == 0)
  {
    var q := (a + d / 2) / d;
    assert q * d <= a + d / 2 < q * d + d;
  }

  /** Outside its points it is flat: full above the first, empty below the last. */
  lemma CurveEnds(mv: int)
    ensures mv >= 4160 ==> LevelFor(mv) == 100
    ensures mv < 3100 ==> LevelFor(mv) == 0
  {
    if mv < 3100 {
      LevelFromEnds(1, mv);
    }
  }

  lemma {:induction false} LevelFromEnds(i: nat, mv: int)
    requires 1 <= i <= 10 && mv < 3100
    ensures mv < Curve(i - 1).mv && LevelFrom(i, mv) == 0
    decreases 10 - i
  {
    if i < 10 {
      LevelFromEnds(i + 1, mv);
    }
  }

  // --- The level ---

  /** `level` is -1 before the first reading; `rise` and `low` are times. */
  datatype State = State(level: int, external: bool, avg: real, rise: nat, low: nat, critical: bool)

  const NONE: State := State(-1, false, 0.0, 0, 0, false)

  datatype Reading = Reading(mv: int, usb: bool, dt: nat)

  function Resting(r: Reading): int {
    r.mv - if r.usb then CHARGING_MV else 0
  }

  /** The average moves towards the reading, the further the longer it has been. */
  function Averaged(avg: real, resting: real, dt: nat): (r: real)
    ensures avg <= resting ==> avg <= r <= resting
    ensures avg >= resting ==> resting <= r <= avg
  {
    var part := dt as real / (TAU_MS + dt as real);
    Part(dt as real);
    Toward(resting - avg, part);
    avg + (resting - avg) * part
  }

  /** The part of the way it goes is the time's share of it and the time constant. */
  lemma AveragedIs(avg: real, resting: real, dt: nat)
    ensures (Averaged(avg, resting, dt) - avg) * (TAU_MS + dt as real) == (resting - avg) * dt as real
  {
    var t := TAU_MS + dt as real;
    Shared(resting - avg, dt as real, t);
  }

  lemma Shared(d: real, a: real, t: real)
    requires t > 0.0
    ensures d * (a / t) * t == d * a
  {
    assert a / t * t == a;
    assert d * (a / t) * t == d * (a / t * t);
  }

  lemma Part(dt: real)
    requires dt >= 0.0
    ensures 0.0 <= dt / (TAU_MS + dt) <= 1.0
  {
    assert dt / (TAU_MS + dt) * (TAU_MS + dt) == dt;
  }

  lemma Toward(d: real, part: real)
    requires 0.0 <= part <= 1.0
    ensures d >= 0.0 ==> 0.0 <= d * part <= d
    ensures d <= 0.0 ==> d <= d * part <= 0.0
  {
    if d >= 0.0 {
      Less(d, part);
    } else {
      Less(0.0 - d, part);
      assert (0.0 - d) * part == 0.0 - d * part;
    }
  }

  function NewAvg(g: State, r: Reading): real {
    if g.level < 0 then Resting(r) as real else Averaged(g.avg, Resting(r) as real, r.dt)
  }

  /** The level of the curve, for the average to the nearest millivolt. */
  function OnCurve(avg: real): int {
    LevelFor(Cast(avg + 0.5))
  }

  /** What the level and the rising time become, when the curve says `level`. */
  function Followed(g: State, usb: bool, rise: nat, level: int): (int, nat) {
    if g.level < 0 then (level, rise)
    else if usb then
      if level <= g.level - SLACK_LEVELS then (level, rise)
      else if level > g.level then if rise >= CHARGE_STEP_MS then (g.level + 1, rise - CHARGE_STEP_MS) else (g.level, rise)
      else (g.level, if rise > CHARGE_STEP_MS then CHARGE_STEP_MS else rise)
    else if level < g.level || level >= g.level + SLACK_LEVELS then (level, rise)
    else (g.level, rise)
  }

  /** `rpod_gauge_feed`. */
  function Feed(g: State, r: Reading): State {
    var avg := NewAvg(g, r);
    var (level, rise) := Followed(g, r.usb, if r.usb then g.rise + r.dt else 0, OnCurve(avg));
    if !r.usb && level <= CRITICAL_LEVEL then
      var low := if g.level < 0 then g.low else g.low + r.dt;
      State(level, r.usb, avg, rise, low, g.critical || low >= CRITICAL_MS)
    else State(level, r.usb, avg, rise, 0, false)
  }

  /** The level is on the scale, and a gauge on battery has no rising time. */
  predicate Valid(g: State) {
    g == NONE || (0 <= g.level <= 100 && (!g.external ==> g.rise == 0))
  }

  lemma FeedValid(g: State, r: Reading)
    requires Valid(g)
    ensures Valid(Feed(g, r)) && Feed(g, r).level >= 0
  {
    var mv := Cast(NewAvg(g, r) + 0.5);
    CurveRises(mv, mv);
    FollowedIs(g, r.usb, if r.usb then g.rise + r.dt else 0, LevelFor(mv));
  }

  lemma FollowedIs(g: State, usb: bool, rise: nat, level: int)
    requires Valid(g) && 0 <= level <= 100
    ensures 0 <= Followed(g, usb, rise, level).0 <= 100 && (rise == 0 ==> Followed(g, usb, rise, level).1 == 0)
  {
  }

  /** Once there is a level, it rises on USB power a point at a time and not past the curve, and on battery only to
      a curve that is well above it. */
  lemma RisesWhy(g: State, r: Reading)
    requires g.level >= 0 && Feed(g, r).level > g.level
    ensures var curve := OnCurve(NewAvg(g, r));
            Feed(g, r).level <= curve
            && (if r.usb then Feed(g, r).level == g.level + 1 else curve >= g.level + SLACK_LEVELS)
  {
  }

  /** On battery the level is never above the curve and less than five points below it: it goes down with the curve at
      once, and up only when it is five points behind. */
  lemma OnBattery(g: State, r: Reading)
    requires Valid(g) && !r.usb
    ensures var curve := OnCurve(NewAvg(g, r));
            var next := Feed(g, r).level;
            curve - SLACK_LEVELS < next <= curve
            && (g.level >= 0 && curve - SLACK_LEVELS < g.level <= curve ==> next == g.level)
            && (next == g.level || next == curve)
  {
  }

  /** On USB power the level goes up a point for every 45 seconds that the curve is above it, keeps what time is left,
      and comes down only to a curve that is five points below it. */
  lemma OnUsb(g: State, r: Reading)
    requires Valid(g) && g.level >= 0 && r.usb
    ensures var curve := OnCurve(NewAvg(g, r));
            var next := Feed(g, r);
            && (curve > g.level && g.rise + r.dt >= CHARGE_STEP_MS ==> next.level == g.level + 1)
            && (curve > g.level ==> next.level * CHARGE_STEP_MS + next.rise == g.level * CHARGE_STEP_MS + g.rise + r.dt)
            && (curve > g.level && g.rise + r.dt < CHARGE_STEP_MS ==> next.level == g.level)
            && (curve <= g.level ==> next.level == if curve <= g.level - SLACK_LEVELS then curve else g.level)
            && (g.level - SLACK_LEVELS < curve <= g.level ==>
                  next.rise == if g.rise + r.dt < CHARGE_STEP_MS then g.rise + r.dt else CHARGE_STEP_MS)
  {
  }

  function Run(g: State, readings: seq<Reading>): State
    decreases |readings|
  {
    if readings == [] then g else Run(Feed(g, readings[0]), readings[1..])
  }

  function Time(readings: seq<Reading>): nat {
    if readings == [] then 0 else readings[0].dt + Time(readings[1..])
  }

  /** A stretch on USB power of a time in all raises the level by no more than that time's share of points. */
  lemma {:induction false} RiseBounded(g: State, readings: seq<Reading>)
    requires Valid(g) && g.level >= 0 && forall i :: 0 <= i < |readings| ==> readings[i].usb
    ensures var end := Run(g, readings);
            end.level * CHARGE_STEP_MS + end.rise <= g.level * CHARGE_STEP_MS + g.rise + Time(readings)
    decreases |readings|
  {
    if readings != [] {
      FeedValid(g, readings[0]);
      RiseBounded(Feed(g, readings[0]), readings[1..]);
    }
  }

  /** Before each of the readings the curve it leads to is above the level. */
  predicate Behind(g: State, readings: seq<Reading>)
    decreases |readings|
  {
    readings == [] || (OnCurve(NewAvg(g, readings[0])) > g.level && Behind(Feed(g, readings[0]), readings[1..]))
  }

  /** While the curve stays above the level no time on USB power is lost: it is all in points gained and time left. */
  lemma {:induction false} ChargesOn(g: State, readings: seq<Reading>)
    requires Valid(g) && g.level >= 0 && (forall i :: 0 <= i < |readings| ==> readings[i].usb) && Behind(g, readings)
    ensures var end := Run(g, readings);
            end.level * CHARGE_STEP_MS + end.rise == g.level * CHARGE_STEP_MS + g.rise + Time(readings)
    decreases |readings|
  {
    if readings != [] {
      FeedValid(g, readings[0]);
      OnUsb(g, readings[0]);
      ChargesOn(Feed(g, readings[0]), readings[1..]);
    }
  }

  /** ...so from battery, or from the first reading of all, over a time T, by at most T / 45000 points. */
  lemma PluggedIn(g: State, readings: seq<Reading>)
    requires Valid(g) && !g.external && readings != [] && forall i :: 0 <= i < |readings| ==> readings[i].usb
    ensures var from := if g == NONE then Feed(g, readings[0]).level else g.level;
            from >= 0 && Run(g, readings).level - from <= Time(readings) / CHARGE_STEP_MS
  {
    if g == NONE {
      FeedValid(g, readings[0]);
      RiseBounded(Feed(g, readings[0]), readings[1..]);
    } else {
      RiseBounded(g, readings);
    }
  }

  /** The average never leaves the range of the readings. */
  lemma {:induction false} AverageWithin(g: State, readings: seq<Reading>, low: int, high: int)
    requires Valid(g) && forall i :: 0 <= i < |readings| ==> low <= Resting(readings[i]) <= high
    requires g == NONE || low as real <= g.avg <= high as real
    ensures readings != [] || g != NONE ==> low as real <= Run(g, readings).avg <= high as real
    decreases |readings|
  {
    if readings != [] {
      FeedValid(g, readings[0]);
      assert low as real <= Resting(readings[0]) as real <= high as real;
      AverageWithin(Feed(g, readings[0]), readings[1..], low, high);
    }
  }

  lemma {:induction false} OneMore(g: State, readings: seq<Reading>, r: Reading)
    ensures Run(g, readings + [r]) == Feed(Run(g, readings), r)
    ensures Time(readings + [r]) == Time(readings) + r.dt
    decreases |readings|
  {
    if readings == [] {
      assert [] + [r] == [r] && [r][1..] == [];
    } else {
      assert (readings + [r])[0] == readings[0] && (readings + [r])[1..] == readings[1..] + [r];
      OneMore(Feed(g, readings[0]), readings[1..], r);
    }
  }

  lemma {:induction false} RunValid(readings: seq<Reading>)
    ensures Valid(Run(NONE, readings)) && (readings != [] <==> Run(NONE, readings).level >= 0)
    decreases |readings|
  {
    if readings != [] {
      var before, r := readings[..|readings| - 1], readings[|readings| - 1];
      assert readings == before + [r];
      RunValid(before);
      OneMore(NONE, before, r);
      FeedValid(Run(NONE, before), r);
    }
  }

  /** After that reading the gauge is on battery and at a critical level. */
  predicate LowAt(readings: seq<Reading>, i: nat)
    requires i < |readings|
  {
    !readings[i].usb && Run(NONE, readings[..i + 1]).level <= CRITICAL_LEVEL
  }

  /** The time from the `k`th reading on: the very first one adds none. */
  function TimeFrom(readings: seq<Reading>, k: nat): nat
    requires k <= |readings|
  {
    if k == 0 && readings != [] then Time(readings[1..]) else Time(readings[k..])
  }

  lemma CriticalStep(g: State, r: Reading)
    requires Valid(g) && (g.critical <==> g.low >= CRITICAL_MS) && (g == NONE ==> g.low == 0)
    ensures var next := Feed(g, r);
            var at := !r.usb && next.level <= CRITICAL_LEVEL;
            && next.low == (if at then g.low + (if g == NONE then 0 else r.dt) else 0)
            && (next.critical <==> next.low >= CRITICAL_MS)
  {
  }

  /** From the `k`th reading on, and not from the one before it, the gauge is on battery and at a critical level. */
  predicate LastStretch(readings: seq<Reading>, k: nat) {
    k <= |readings| && (forall i :: k <= i < |readings| ==> LowAt(readings, i)) && (k > 0 ==> !LowAt(readings, k - 1))
  }

  /** Over every run: the gauge is critical exactly if the last stretch of readings on battery and at a critical level
      took 20 seconds. */
  lemma {:induction false} CriticalWhen(readings: seq<Reading>) returns (k: nat)
    ensures LastStretch(readings, k)
    ensures Run(NONE, readings).critical <==> TimeFrom(readings, k) >= CRITICAL_MS
    ensures Run(NONE, readings).low == TimeFrom(readings, k)
    decreases |readings|
  {
    k := 0;
    if readings != [] {
      var n := |readings| - 1;
      var before, r := readings[..n], readings[n];
      assert readings == before + [r] && readings[..n + 1] == readings;
      k := CriticalWhen(before);
      RunValid(before);
      OneMore(NONE, before, r);
      CriticalStep(Run(NONE, before), r);
      k := StretchGrows(readings, n, k);
    }
  }

  lemma StretchGrows(readings: seq<Reading>, n: nat, k: nat) returns (m: nat)
    requires |readings| == n + 1 && LastStretch(readings[..n], k)
    ensures LastStretch(readings, m)
    ensures TimeFrom(readings, m)
         == if LowAt(readings, n) then TimeFrom(readings[..n], k) + (if n == 0 then 0 else readings[n].dt) else 0
  {
    SameBefore(readings, n);
    if LowAt(readings, n) {
      m := k;
      LongerBy(readings, n, k);
    } else {
      m := n + 1;
      assert readings[m..] == [];
    }
  }

  lemma SameBefore(readings: seq<Reading>, n: nat)
    requires n <= |readings|
    ensures forall i :: 0 <= i < n ==> LowAt(readings, i) == LowAt(readings[..n], i)
  {
    forall i | 0 <= i < n ensures LowAt(readings, i) == LowAt(readings[..n], i) {
      assert readings[..n][..i + 1] == readings[..i + 1];
    }
  }

  lemma LongerBy(readings: seq<Reading>, n: nat, k: nat)
    requires |readings| == n + 1 && k <= n
    ensures TimeFrom(readings, k) == TimeFrom(readings[..n], k) + if n == 0 then 0 else readings[n].dt
  {
    var from := if k == 0 && n > 0 then 1 else k;
    if n > 0 {
      assert readings[from..] == readings[..n][from..] + [readings[n]];
      OneMore(NONE, readings[..n][from..], readings[n]);
    }
  }

  // --- As it runs ---

  class Meter {
    var level: int
    var external: bool
    var avg: real
    var rise: nat
    var low: nat
    var critical: bool

    ghost function View(): State
      reads this
    {
      State(level, external, avg, rise, low, critical)
    }

    constructor ()
      ensures View() == NONE
    {
      level, external, avg, rise, low, critical := -1, false, 0.0, 0, 0, false;
    }

    method Average(r: Reading)
      modifies this`avg
      ensures avg == NewAvg(old(View()), r)
    {
      var resting := Resting(r) as real;
      avg := if level < 0 then resting else Averaged(avg, resting, r.dt);
    }

    method Follow(first: bool, curve: int)
      requires first == (level < 0)
      modifies this`level, this`rise
      ensures (level, rise) == Followed(old(View()), external, old(rise), curve)
    {
      if first {
        level := curve;
      } else if external {
        if curve <= level - SLACK_LEVELS {
          level := curve;
        } else if curve > level {
          if rise >= CHARGE_STEP_MS {
            level := level + 1;
            rise := rise - CHARGE_STEP_MS;
          }
        } else if rise > CHARGE_STEP_MS {
          rise := CHARGE_STEP_MS;
        }
      } else if curve < level || curve >= level + SLACK_LEVELS {
        level := curve;
      }
    }

    /** Whether what is shown of it changed. */
    method FeedReading(r: Reading) returns (changed: bool)
      modifies this
      ensures View() == Feed(old(View()), r)
      ensures changed == (old(level) < 0 || level != old(level) || external != old(external) || critical != old(critical))
    {
      var was := (level, external, critical);
      var first := level < 0;
      Average(r);
      external := r.usb;
      var curve := LevelForMv(Cast(avg + 0.5));
      rise := if external then rise + r.dt else 0;
      Follow(first, curve);
      if !external && level <= CRITICAL_LEVEL {
        if !first {
          low := low + r.dt;
        }
        critical := critical || low >= CRITICAL_MS;
      } else {
        low := 0;
        critical := false;
      }
      changed := first || (level, external, critical) != was;
    }
  }
}
