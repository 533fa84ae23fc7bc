/**
 Scrolling of src/input/wheel_input.c: the turns that the wheel's speed makes of its
 positions, with nothing lost or made up on the way, and the events that come in pieces
 over the socket. Arithmetic is exact.
 */
module Scroll {
  import opened Reals
  import opened Wrappers
  import opened Rings

  const VEL_WINDOW_US: nat := 150000
  const VEL_MIN_SPAN_US: nat := 20000
  const VEL_RING: nat := 64
  const TIMES: nat := 0x1_0000_0000_0000_0000

  /** Microseconds, as an unsigned has them. */
  type Time = t: nat | t < TIMES

  /** An event in the window: when, and by how many positions. */
  datatype Mark = Mark(ts: Time, ticks: nat)

  /** The tuning's ranges start at one position a step and no less than one step a step. */
  datatype Tuning = Tuning(stepTicks: real, v0: real, v1: real, max: real) {
    predicate Valid() {
      stepTicks >= 1.0 && max >= 1.0
    }
  }

  // --- The window ---

  /** The difference of two times, around the end of their range. */
  function Since(ts: Time, from: Time): Time {
    if ts >= from then ts - from else ts + TIMES - from
  }

  function Sum(win: seq<Mark>): nat {
    if win == [] then 0 else win[0].ticks + Sum(win[1..])
  }

  /** The window without what fell out of it. */
  function Kept(win: seq<Mark>, ts: Time): (r: seq<Mark>)
    ensures |r| <= |win| && r == win[|win| - |r|..]
    ensures r != [] ==> Since(ts, r[0].ts) <= VEL_WINDOW_US
  {
    if win != [] && Since(ts, win[0].ts) > VEL_WINDOW_US then Kept(win[1..], ts) else win
  }

  function Room(win: seq<Mark>): seq<Mark> {
    if |win| >= VEL_RING then win[1..] else win
  }

  function Pushed(win: seq<Mark>, ts: Time, ticks: nat): (r: seq<Mark>)
    ensures r != [] && r[|r| - 1] == Mark(ts, ticks)
  {
    Room(Kept(win, ts)) + [Mark(ts, ticks)]
  }

  lemma {:induction false} SumAppend(win: seq<Mark>, m: Mark)
    ensures Sum(win + [m]) == Sum(win) + m.ticks
  {
    if win == [] {
      assert win + [m] == [m];
    } else {
      assert (win + [m])[1..] == win[1..] + [m];
      SumAppend(win[1..], m);
    }
  }

  /** In the order of their times, and all within the window of the newest. */
  predicate InTime(win: seq<Mark>) {
    && (forall i, k :: 0 <= i < k < |win| ==> win[i].ts <= win[k].ts)
    && (win != [] ==> win[|win| - 1].ts - win[0].ts <= VEL_WINDOW_US)
  }

  /** As long as time does not go back, the window is what its name says. */
  lemma PushedInTime(win: seq<Mark>, ts: Time, ticks: nat)
    requires InTime(win) && (win != [] ==> win[|win| - 1].ts <= ts)
    ensures InTime(Pushed(win, ts, ticks))
  {
    var kept := Kept(win, ts);
    LaterPart(win, kept);
    var room := Room(kept);
    LaterPart(kept, room);
    if room != [] {
      WithinWindow(kept[0].ts, room[0].ts, ts);
    }
    Appended(room, Mark(ts, ticks));
  }

  lemma WithinWindow(first: Time, from: Time, ts: Time)
    requires Since(ts, first) <= VEL_WINDOW_US && first <= from <= ts
    ensures ts - from <= VEL_WINDOW_US
  {
  }

  lemma LaterPart(win: seq<Mark>, part: seq<Mark>)
    requires InTime(win) && |part| <= |win| && part == win[|win| - |part|..]
    ensures InTime(part) && (part != [] ==> win[0].ts <= part[0].ts <= part[|part| - 1].ts == win[|win| - 1].ts)
  {
    var d := |win| - |part|;
    forall i, k | 0 <= i < k < |part| ensures part[i].ts <= part[k].ts {
      assert win[d + i].ts <= win[d + k].ts;
    }
    if part != [] {
      assert win[0].ts <= win[d].ts <= win[|win| - 1].ts;
    }
  }

  lemma Appended(win: seq<Mark>, m: Mark)
    requires InTime(win) && (win != [] ==> win[|win| - 1].ts <= m.ts && m.ts - win[0].ts <= VEL_WINDOW_US)
    ensures InTime(win + [m])
  {
    var more := win + [m];
    forall i, k | 0 <= i < k < |more| ensures more[i].ts <= more[k].ts {
      if k < |win| {
        assert win[i].ts <= win[k].ts;
      } else if i < |win| - 1 {
        assert win[i].ts <= win[|win| - 1].ts;
      }
    }
  }

  // --- Turns into steps ---

  /** Positions a second over the time the window covers: the oldest event's were travelled before it. */
  function Speed(win: seq<Mark>): real
    requires win != []
  {
    Rate(Sum(win) - win[0].ticks, Since(win[|win| - 1].ts, win[0].ts))
  }

  function Rate(ticks: int, span: nat): real {
    ticks as real * 1000000.0 / (if span < VEL_MIN_SPAN_US then VEL_MIN_SPAN_US else span) as real
  }

  /** One below V0, the maximum from V1 on, and eased in between. */
  function Gain(speed: real, t: Tuning): (g: real)
    requires t.Valid()
    ensures 1.0 <= g <= t.max
    ensures speed <= t.v0 ==> g == 1.0
  {
    var v1 := if t.v1 > t.v0 then t.v1 else t.v0 + 1.0;
    var x := Part(speed - t.v0, v1 - t.v0);
    1.0 + Eased(t.max - 1.0, x)
  }

  /** The speed from which on the gain is the maximum. */
  function TopSpeed(t: Tuning): real {
    if t.v1 > t.v0 then t.v1 else t.v0 + 1.0
  }

  /** From V1 on the gain is the maximum. */
  lemma FullGain(speed: real, t: Tuning)
    requires t.Valid() && speed >= TopSpeed(t)
    ensures Gain(speed, t) == t.max
  {
    assert Eased(t.max - 1.0, 1.0) == t.max - 1.0;
  }

  /** A faster turn never gains less. */
  lemma GainRises(slow: real, fast: real, t: Tuning)
    requires t.Valid() && slow <= fast
    ensures Gain(slow, t) <= Gain(fast, t)
  {
    var whole := TopSpeed(t) - t.v0;
    var x, y := Part(slow - t.v0, whole), Part(fast - t.v0, whole);
    PartRises(slow - t.v0, fast - t.v0, whole);
    EasedRises(t.max - 1.0, x, y);
  }

  lemma PartRises(a: real, b: real, whole: real)
    requires whole > 0.0 && a <= b
    ensures Part(a, whole) <= Part(b, whole)
  {
    if 0.0 < a && b < whole {
      Shares(a, b, whole);
    }
  }

  lemma Shares(a: real, b: real, whole: real)
    requires whole > 0.0 && a <= b
    ensures a / whole <= b / whole
  {
    assert a / whole * whole == a && b / whole * whole == b;
  }

  lemma EasedRises(m: real, x: real, y: real)
    requires m >= 0.0 && 0.0 <= x <= y <= 1.0
    ensures Eased(m, x) <= Eased(m, y)
  {
    Grows(m, x, y);
    var u, v := m * x, m * y;
    BothGrow(u, v, x, y);
    EasedIs(m, x, u);
    EasedIs(m, y, v);
  }

  lemma EasedIs(m: real, x: real, u: real)
    requires m >= 0.0 && 0.0 <= x <= 1.0 && u == m * x
    ensures Eased(m, x) == u * x
  {
  }

  lemma Grows(c: real, a: real, b: real)
    requires c >= 0.0 && 0.0 <= a <= b
    ensures 0.0 <= c * a <= c * b
  {
    assert c * a >= 0.0;
    assert c * (b - a) >= 0.0;
    assert c * (b - a) == c * b - c * a;
  }

  lemma BothGrow(u: real, v: real, x: real, y: real)
    requires 0.0 <= u <= v && 0.0 <= x <= y
    ensures u * x <= v * y
  {
    assert (v - u) * x >= 0.0 && v * (y - x) >= 0.0;
    assert v * y - u * x == (v - u) * x + v * (y - x);
  }

  /** In between the gain's excess goes with the square of the speed's: at half of the way it is a quarter. */
  lemma GainBetween(speed: real, t: Tuning) returns (x: real)
    requires t.Valid() && t.v0 <= speed <= TopSpeed(t)
    ensures x * (TopSpeed(t) - t.v0) == speed - t.v0
    ensures Gain(speed, t) - 1.0 == (t.max - 1.0) * x * x
  {
    x := Part(speed - t.v0, TopSpeed(t) - t.v0);
    WholeShare(speed - t.v0, TopSpeed(t) - t.v0);
  }

  lemma WholeShare(a: real, whole: real)
    requires whole > 0.0 && 0.0 <= a <= whole
    ensures Part(a, whole) * whole == a
  {
  }

  /** The speed is the positions over the time, which counts as no shorter than the least span. */
  lemma RateIs(ticks: int, span: nat)
    ensures var s := if span < VEL_MIN_SPAN_US then VEL_MIN_SPAN_US else span;
            Rate(ticks, span) * s as real == ticks as real * 1000000.0
  {
    var s := if span < VEL_MIN_SPAN_US then VEL_MIN_SPAN_US else span;
    Quotient(ticks as real * 1000000.0, s as real);
  }

  lemma Quotient(a: real, b: real)
    requires b > 0.0
    ensures a / b * b == a
  {
  }

  function Eased(m: real, x: real): (r: real)
    requires m >= 0.0 && 0.0 <= x <= 1.0
    ensures 0.0 <= r <= m && (x == 0.0 ==> r == 0.0)
  {
    Less(m, x);
    Less(m * x, x);
    m * x * x
  }

  function Part(x: real, whole: real): (r: real)
    requires whole > 0.0
    ensures 0.0 <= r <= 1.0 && (x <= 0.0 ==> r == 0.0)
  {
    if x <= 0.0 then 0.0 else if x >= whole then 1.0 else x / whole
  }

  function Sign(n: int): int {
    if n > 0 then 1 else if n < 0 then -1 else 0
  }

  /** The accelerator: its window, the remainder of a step, and the way it was turned last. */
  datatype State = State(win: seq<Mark>, acc: real, dir: int)

  const REST: State := State([], 0.0, 0)

  function Abs(n: int): nat {
    if n < 0 then -n else n
  }

  /** `accel_feed`: the state after it and the steps. */
  function Feed(st: State, delta: int, ts: Time, t: Tuning): (State, int)
    requires t.Valid()
  {
    if delta == 0 then (st, 0)
    else Moved(TakenIn(st, delta, ts), delta, t)
  }

  function Moved(s: State, delta: int, t: Tuning): (State, int)
    requires t.Valid() && s.win != []
  {
    Stepped(s, Turn(delta, Speed(s.win), t), t)
  }

  /** A reversal starts from rest. */
  function Base(st: State, delta: int): State {
    if st.dir != 0 && Sign(delta) != st.dir then REST else st
  }

  /** The event in the window. */
  function TakenIn(st: State, delta: int, ts: Time): (r: State)
    ensures r.win != []
  {
    Base(st, delta).(win := Pushed(Base(st, delta).win, ts, Abs(delta)), dir := Sign(delta))
  }

  /** The positions with their gain. */
  function Turn(delta: int, speed: real, t: Tuning): (turn: real)
    requires t.Valid()
    ensures (delta > 0 ==> turn > 0.0) && (delta < 0 ==> turn < 0.0)
  {
    SameWay(delta, Gain(speed, t));
    delta as real * Gain(speed, t)
  }

  function StepsIn(acc: real, t: Tuning): int
    requires t.Valid()
  {
    Cast(acc / t.stepTicks)
  }

  function Without(acc: real, steps: int, t: Tuning): real {
    acc - steps as real * t.stepTicks
  }

  /** The steps that come of a turn, and what is left. */
  function Stepped(s: State, turn: real, t: Tuning): (State, int)
    requires t.Valid()
  {
    var steps := StepsIn(s.acc + turn, t);
    (s.(acc := Without(s.acc + turn, steps, t)), steps)
  }

  /** The remainder is less than a step, the way the wheel turns. */
  predicate Balanced(st: State, t: Tuning) {
    && -t.stepTicks < st.acc < t.stepTicks && st.dir in {-1, 0, 1}
    && (st.dir == 0 ==> st == REST) && (st.dir == 1 ==> st.acc >= 0.0) && (st.dir == -1 ==> st.acc <= 0.0)
  }

  /** The steps in it, and what is left. */
  lemma Split(acc: real, step: real, steps: int, taken: real, rest: real)
    requires step > 0.0 && steps == Cast(acc / step) && taken == steps as real * step && rest == acc - taken
    ensures -step < rest < step
    ensures (acc >= 0.0 ==> rest >= 0.0 && steps >= 0) && (acc <= 0.0 ==> rest <= 0.0 && steps <= 0)
  {
    var x := acc / step;
    assert x * step == acc;
    if acc >= 0.0 {
      assert x >= 0.0;
      Scaled(steps as real, x, step, taken, acc);
    } else {
      assert x <= 0.0;
      Scaled(0.0 - steps as real, 0.0 - x, step, 0.0 - taken, 0.0 - acc);
    }
  }

  lemma SameWay(delta: int, gain: real)
    requires gain >= 1.0
    ensures delta > 0 ==> delta as real * gain >= 1.0
    ensures delta < 0 ==> delta as real * gain <= -1.0
  {
    if delta > 0 {
      assert delta as real * gain >= delta as real;
    } else if delta < 0 {
      assert delta as real * gain <= delta as real;
    }
  }

  /** Whatever is fed, the remainder stays less than a step, and the steps given are the way of this turn, or none. */
  lemma FeedBalanced(st: State, delta: int, ts: Time, t: Tuning)
    requires t.Valid() && Balanced(st, t)
    ensures Balanced(Feed(st, delta, ts, t).0, t)
    ensures StepsWay(Feed(st, delta, ts, t).1, delta)
  {
    if delta != 0 {
      StepsTaken(st, delta, TakenIn(st, delta, ts), Turn(delta, Speed(TakenIn(st, delta, ts).win), t), t, Feed(st, delta, ts, t));
    }
  }

  predicate StepsWay(steps: int, delta: int) {
    steps == 0 || Sign(steps) == Sign(delta)
  }

  lemma StepsTaken(st: State, delta: int, s: State, turn: real, t: Tuning, result: (State, int))
    requires t.Valid() && Balanced(st, t) && delta != 0
    requires s == Base(st, delta).(win := s.win, dir := Sign(delta)) && result == Stepped(s, turn, t)
    requires (delta > 0 ==> turn > 0.0) && (delta < 0 ==> turn < 0.0)
    ensures Balanced(result.0, t) && StepsWay(result.1, delta)
  {
    var steps := result.1;
    Split(s.acc + turn, t.stepTicks, steps, steps as real * t.stepTicks, result.0.acc);
  }

  datatype Event = Turned(delta: int, ts: Time) | Reset

  function Apply(st: State, e: Event, t: Tuning): State
    requires t.Valid()
  {
    match e
    case Turned(delta, ts) => Feed(st, delta, ts, t).0
    case Reset => REST
  }

  function Exec(st: State, events: seq<Event>, t: Tuning): State
    requires t.Valid()
    decreases |events|
  {
    if events == [] then st else Exec(Apply(st, events[0], t), events[1..], t)
  }

  lemma {:induction false} RunBalanced(st: State, events: seq<Event>, t: Tuning)
    requires t.Valid() && Balanced(st, t)
    ensures Balanced(Exec(st, events, t), t)
    decreases |events|
  {
    if events != [] {
      if events[0].Turned? {
        FeedBalanced(st, events[0].delta, events[0].ts, t);
      }
      RunBalanced(Apply(st, events[0], t), events[1..], t);
    }
  }

  // --- The account of a run ---

  /** A reset, or a turn the other way: what came before is forgotten. */
  predicate Restarts(st: State, e: Event) {
    e.Reset? || (e.delta != 0 && st.dir != 0 && Sign(e.delta) != st.dir)
  }

  predicate Smooth(st: State, events: seq<Event>, t: Tuning)
    requires t.Valid()
    decreases |events|
  {
    events == [] || (!Restarts(st, events[0]) && Smooth(Apply(st, events[0], t), events[1..], t))
  }

  /** The positions an event turns, with their gain. */
  function TurnOf(st: State, e: Event, t: Tuning): real
    requires t.Valid()
  {
    if e.Turned? && e.delta != 0 then Turn(e.delta, Speed(TakenIn(st, e.delta, e.ts).win), t) else 0.0
  }

  function StepsOf(st: State, e: Event, t: Tuning): int
    requires t.Valid()
  {
    if e.Turned? then Feed(st, e.delta, e.ts, t).1 else 0
  }

  /** All that the events turn, and all the steps they give. */
  function Travelled(st: State, events: seq<Event>, t: Tuning): real
    requires t.Valid()
    decreases |events|
  {
    if events == [] then 0.0 else TurnOf(st, events[0], t) + Travelled(Apply(st, events[0], t), events[1..], t)
  }

  function Given(st: State, events: seq<Event>, t: Tuning): int
    requires t.Valid()
    decreases |events|
  {
    if events == [] then 0 else StepsOf(st, events[0], t) + Given(Apply(st, events[0], t), events[1..], t)
  }

  /** So many steps' worth of positions: a product, counted out (`WorthIs`). */
  function Worth(n: int, step: real): (r: real)
    decreases if n < 0 then -n else n
  {
    if n == 0 then 0.0 else if n > 0 then Worth(n - 1, step) + step else Worth(n + 1, step) - step
  }

  lemma {:induction false} WorthIs(n: int, step: real)
    ensures Worth(n, step) == n as real * step
    decreases if n < 0 then -n else n
  {
    if n > 0 {
      WorthIs(n - 1, step);
      Shared((n - 1) as real, 1.0, step);
    } else if n < 0 {
      WorthIs(n + 1, step);
      Shared(n as real, 1.0, step);
    }
  }

  lemma WorthNext(n: int, step: real)
    ensures Worth(n + 1, step) == Worth(n, step) + step
  {
  }

  lemma {:induction false} WorthAdds(a: int, b: int, step: real)
    ensures Worth(a + b, step) == Worth(a, step) + Worth(b, step)
    decreases if b < 0 then -b else b
  {
    if b > 0 {
      WorthAdds(a, b - 1, step);
      WorthNext(a + (b - 1), step);
    } else if b < 0 {
      WorthAdds(a, b + 1, step);
      WorthNext(a + b, step);
    }
  }

  lemma StepAccount(s: State, turn: real, t: Tuning)
    requires t.Valid()
    ensures s.acc + turn == Worth(Stepped(s, turn, t).1, t.stepTicks) + Stepped(s, turn, t).0.acc
  {
    WorthIs(StepsIn(s.acc + turn, t), t.stepTicks);
  }

  lemma EventAccount(st: State, e: Event, t: Tuning)
    requires t.Valid() && !Restarts(st, e)
    ensures st.acc + TurnOf(st, e, t) == Worth(StepsOf(st, e, t), t.stepTicks) + Apply(st, e, t).acc
  {
    if e.delta != 0 {
      StepAccount(TakenIn(st, e.delta, e.ts), TurnOf(st, e, t), t);
    }
  }

  /** As long as nothing restarts it, what was left over before and what is turned come to the steps given and what is
      left over after. */
  lemma {:induction false} Account(st: State, events: seq<Event>, t: Tuning)
    requires t.Valid() && Smooth(st, events, t)
    ensures st.acc + Travelled(st, events, t) == Worth(Given(st, events, t), t.stepTicks) + Exec(st, events, t).acc
    decreases |events|
  {
    if events != [] {
      var next, rest := Apply(st, events[0], t), events[1..];
      EventAccount(st, events[0], t);
      Account(next, rest, t);
      WorthAdds(StepsOf(st, events[0], t), Given(next, rest, t), t.stepTicks);
    }
  }

  lemma {:induction false} OneMore(st: State, events: seq<Event>, e: Event, t: Tuning)
    requires t.Valid()
    ensures Exec(st, events + [e], t) == Apply(Exec(st, events, t), e, t)
    ensures Smooth(st, events + [e], t) <==> Smooth(st, events, t) && !Restarts(Exec(st, events, t), e)
    decreases |events|
  {
    var all := events + [e];
    if events == [] {
      assert all[1..] == [];
      assert Exec(st, all, t) == Exec(Apply(st, e, t), [], t);
      assert Smooth(Apply(st, e, t), [], t);
    } else {
      assert all[0] == events[0] && all[1..] == events[1..] + [e];
      OneMore(Apply(st, events[0], t), events[1..], e, t);
    }
  }

  lemma FromRest(st: State, e: Event, t: Tuning)
    requires t.Valid() && Restarts(st, e) && e.Turned?
    ensures Apply(st, e, t) == Apply(REST, e, t)
  {
    assert Base(st, e.delta) == REST == Base(REST, e.delta);
  }

  /** `since` is the end of `events`, from its last restart on. */
  predicate SinceRestart(events: seq<Event>, since: seq<Event>, t: Tuning)
    requires t.Valid()
  {
    && |since| <= |events| && since == events[|events| - |since|..] && Smooth(REST, since, t)
    && (|since| < |events| ==> Cuts(events, |events| - |since|, t))
  }

  /** The run is restarted just before that event, or by it. */
  predicate Cuts(events: seq<Event>, k: nat, t: Tuning)
    requires t.Valid() && 0 < k <= |events|
  {
    events[k - 1].Reset? || (k < |events| && Restarts(Exec(REST, events[..k], t), events[k]))
  }

  lemma CutsOn(before: seq<Event>, e: Event, k: nat, t: Tuning)
    requires t.Valid() && 0 < k <= |before| && Cuts(before, k, t)
    ensures Cuts(before + [e], k, t)
  {
    assert (before + [e])[..k] == before[..k];
  }

  lemma RunsOn(before: seq<Event>, since: seq<Event>, e: Event, t: Tuning)
    requires t.Valid() && SinceRestart(before, since, t) && Exec(REST, since, t) == Exec(REST, before, t)
    requires !Restarts(Exec(REST, before, t), e)
    ensures SinceRestart(before + [e], since + [e], t) && Exec(REST, since + [e], t) == Exec(REST, before + [e], t)
  {
    OneMore(REST, before, e, t);
    OneMore(REST, since, e, t);
    if |since| < |before| {
      CutsOn(before, e, |before| - |since|, t);
    }
  }

  lemma RestartsAt(before: seq<Event>, e: Event, t: Tuning)
    requires t.Valid() && Restarts(Exec(REST, before, t), e) && e.Turned?
    ensures SinceRestart(before + [e], [e], t) && Exec(REST, [e], t) == Exec(REST, before + [e], t)
  {
    OneMore(REST, before, e, t);
    OneMore(REST, [], e, t);
    assert [] + [e] == [e];
    FromRest(Exec(REST, before, t), e, t);
    assert (before + [e])[..|before|] == before;
  }

  /** Every run comes down to the part of it since its last restart, taken from rest. */
  lemma {:induction false} LastRestart(events: seq<Event>, t: Tuning) returns (since: seq<Event>)
    requires t.Valid()
    ensures SinceRestart(events, since, t) && Exec(REST, since, t) == Exec(REST, events, t)
    decreases |events|
  {
    since := [];
    if events != [] {
      var before, e := events[..|events| - 1], events[|events| - 1];
      assert events == before + [e];
      if e.Reset? {
        OneMore(REST, before, e, t);
      } else if Restarts(Exec(REST, before, t), e) {
        RestartsAt(before, e, t);
        since := [e];
      } else {
        since := LastRestart(before, t);
        RunsOn(before, since, e, t);
        since := since + [e];
      }
    }
  }

  /** Over every run of turns and resets under one tuning: the steps given since the last reset or reversal, and less
      than a step left over, come to the positions turned since, each with its gain. */
  lemma NoneLost(events: seq<Event>, t: Tuning) returns (since: seq<Event>)
    requires t.Valid()
    ensures SinceRestart(events, since, t) && Balanced(Exec(REST, events, t), t)
    ensures Travelled(REST, since, t) == Worth(Given(REST, since, t), t.stepTicks) + Exec(REST, events, t).acc
  {
    since := LastRestart(events, t);
    Account(REST, since, t);
    RunBalanced(REST, events, t);
  }

  // --- The window of a run ---

  /** Time does not go back from turn to turn. */
  predicate Forward(events: seq<Event>) {
    forall i, k :: 0 <= i < k < |events| && events[i].Turned? && events[k].Turned? ==> events[i].ts <= events[k].ts
  }

  predicate NotBefore(events: seq<Event>, win: seq<Mark>) {
    win != [] ==> forall i :: 0 <= i < |events| && events[i].Turned? ==> win[|win| - 1].ts <= events[i].ts
  }

  lemma StepInTime(st: State, e: Event, t: Tuning)
    requires t.Valid() && InTime(st.win) && (st.win != [] && e.Turned? ==> st.win[|st.win| - 1].ts <= e.ts)
    ensures var win := Apply(st, e, t).win;
            InTime(win) && (win != [] ==> if e.Turned? && e.delta != 0 then win[|win| - 1].ts == e.ts else win == st.win)
  {
    if e.Turned? && e.delta != 0 {
      PushedInTime(Base(st, e.delta).win, e.ts, Abs(e.delta));
    }
  }

  lemma {:induction false} StaysInTime(st: State, events: seq<Event>, t: Tuning)
    requires t.Valid() && InTime(st.win) && NotBefore(events, st.win) && Forward(events)
    ensures InTime(Exec(st, events, t).win)
    decreases |events|
  {
    if events != [] {
      var e, rest := events[0], events[1..];
      StepInTime(st, e, t);
      assert forall i :: 0 <= i < |rest| ==> rest[i] == events[i + 1];
      StaysInTime(Apply(st, e, t), rest, t);
    }
  }

  /** As long as time does not go back, the window holds events of the last 150 ms only, in the order of their times. */
  lemma WindowInTime(events: seq<Event>, t: Tuning)
    requires t.Valid() && Forward(events)
    ensures InTime(Exec(REST, events, t).win)
  {
    StaysInTime(REST, events, t);
  }

  // --- As it runs ---

  lemma UnrolledEnds(ring: seq<Mark>, head: nat, count: nat)
    requires |ring| == VEL_RING && head < VEL_RING && 0 < count <= VEL_RING
    ensures var all := Unrolled(ring, head, count);
            all[0] == ring[head] && all[count - 1] == ring[Around(head + count - 1, VEL_RING)]
  {
  }

  class Accel {
    const win: array<Mark>
    var head: nat
    var count: nat
    var sum: int
    var acc: real
    var lastDir: int
    var speed: real

    /** The running sum is that of the window's entries. */
    ghost predicate Valid()
      reads this, win
    {
      && win.Length == VEL_RING && head < VEL_RING && count <= VEL_RING
      && sum == Sum(Unrolled(win[..], head, count))
    }

    ghost function View(): State
      requires Valid()
      reads this, win
    {
      State(Unrolled(win[..], head, count), acc, lastDir)
    }

    constructor ()
      ensures Valid() && fresh(win) && View() == REST
    {
      win := new Mark[VEL_RING](_ => Mark(0, 0));
      head, count, sum, acc, lastDir, speed := 0, 0, 0, 0.0, 0, 0.0;
    }

    method AccelReset()
      requires Valid()
      modifies this`head, this`count, this`sum, this`acc, this`lastDir, this`speed
      ensures Valid() && View() == REST
    {
      head, count, sum := 0, 0, 0;
      acc, lastDir, speed := 0.0, 0, 0.0;
    }

    method DropOldest()
      requires Valid() && count > 0
      modifies this`head, this`count, this`sum
      ensures Valid() && View() == old(View()).(win := old(View()).win[1..])
    {
      UnrolledRest(win[..], head, count);
      sum := sum - win[head].ticks;
      head := Around(head + 1, VEL_RING);
      count := count - 1;
    }

    method Add(ts: Time, ticks: nat)
      requires Valid() && count < VEL_RING
      modifies this`count, this`sum, win
      ensures Valid() && count > 0 && View() == old(View()).(win := old(View()).win + [Mark(ts, ticks)])
    {
      ghost var was := Unrolled(win[..], head, count);
      ghost var ring := win[..];
      SumAppend(was, Mark(ts, ticks));
      UnrolledMore(ring, head, count, Mark(ts, ticks));
      win[Around(head + count, VEL_RING)] := Mark(ts, ticks);
      assert win[..] == ring[Around(head + count, VEL_RING) := Mark(ts, ticks)];
      count := count + 1;
      sum := sum + ticks;
    }

    method Expire(ts: Time)
      requires Valid()
      modifies this`head, this`count, this`sum
      ensures Valid() && View() == old(View()).(win := Kept(old(View()).win, ts))
    {
      ghost var st := View();
      while count > 0 && Since(ts, win[head].ts) > VEL_WINDOW_US
        invariant Valid() && View() == st.(win := View().win) && Kept(View().win, ts) == Kept(st.win, ts)
        decreases count
      {
        UnrolledRest(win[..], head, count);
        DropOldest();
      }
      if count > 0 {
        UnrolledRest(win[..], head, count);
      }
    }

    method Push(ts: Time, ticks: nat)
      requires Valid()
      modifies this`head, this`count, this`sum, win
      ensures Valid() && count > 0 && View() == old(View()).(win := Pushed(old(View()).win, ts, ticks))
    {
      Expire(ts);
      if count == VEL_RING {
        DropOldest();
      }
      Add(ts, ticks);
    }

    method SpeedNow()
      requires Valid() && count > 0
      modifies this`speed
      ensures speed == Speed(View().win)
    {
      UnrolledEnds(win[..], head, count);
      var span := Since(win[Around(head + count - 1, VEL_RING)].ts, win[head].ts);
      speed := Rate(sum - win[head].ticks, span);
    }

    /** `accel_feed`. */
    method FeedTurn(delta: int, ts: Time, t: Tuning) returns (steps: int)
      requires Valid() && t.Valid()
      modifies this, win
      ensures Valid() && (View(), steps) == Feed(old(View()), delta, ts, t)
    {
      if delta == 0 {
        return 0;
      }
      TakeIn(delta, ts);
      steps := Move(delta, t);
    }

    method Move(delta: int, t: Tuning) returns (steps: int)
      requires Valid() && count > 0 && t.Valid()
      modifies this`speed, this`acc
      ensures Valid() && (View(), steps) == Moved(old(View()), delta, t)
    {
      SpeedNow();
      steps := TakeSteps(Turn(delta, speed, t), t);
    }

    /** A reversal starts from rest; then the event joins the window. */
    method TakeIn(delta: int, ts: Time)
      requires Valid() && delta != 0
      modifies this, win
      ensures Valid() && count > 0
      ensures View() == TakenIn(old(View()), delta, ts)
    {
      var dir := if delta > 0 then 1 else -1;
      if lastDir != 0 && dir != lastDir {
        AccelReset();
      }
      lastDir := dir;
      Push(ts, Abs(delta));
    }

    method TakeSteps(turn: real, t: Tuning) returns (steps: int)
      requires Valid() && t.Valid()
      modifies this`acc
      ensures Valid() && (View(), steps) == Stepped(old(View()), turn, t)
    {
      acc := acc + turn;
      steps := StepsIn(acc, t);
      acc := Without(acc, steps, t);
    }
  }

  // --- Events in pieces ---

  const EVENT_SIZE: nat := 16
  const RX_SIZE: nat := EVENT_SIZE * 32

  /** What the stream's bytes are as events, and what is left over. */
  function Whole(bytes: seq<byte>): seq<seq<byte>>
    decreases |bytes|
  {
    if |bytes| < EVENT_SIZE then [] else [bytes[..EVENT_SIZE]] + Whole(bytes[EVENT_SIZE..])
  }

  function Rest(bytes: seq<byte>): (r: seq<byte>)
    ensures |r| < EVENT_SIZE
    decreases |bytes|
  {
    if |bytes| < EVENT_SIZE then bytes else Rest(bytes[EVENT_SIZE..])
  }

  lemma {:induction false} InPieces(a: seq<byte>, b: seq<byte>)
    ensures Whole(a + b) == Whole(a) + Whole(Rest(a) + b)
    ensures Rest(a + b) == Rest(Rest(a) + b)
    decreases |a|
  {
    if |a| >= EVENT_SIZE {
      assert (a + b)[..EVENT_SIZE] == a[..EVENT_SIZE];
      assert (a + b)[EVENT_SIZE..] == a[EVENT_SIZE..] + b;
      InPieces(a[EVENT_SIZE..], b);
    }
  }

  class Receiver {
    const rx: array<byte>
    var rxLen: nat
    ghost var received: seq<byte>
    ghost var handled: seq<seq<byte>>

    /** However the bytes came, the events handled are those of the whole stream so far. */
    ghost predicate Valid()
      reads this, rx
    {
      rx.Length == RX_SIZE && rxLen < EVENT_SIZE && handled == Whole(received) && rx[..rxLen] == Rest(received)
    }

    constructor ()
      ensures Valid() && fresh(rx) && received == [] && handled == []
    {
      rx := new byte[RX_SIZE](_ => 0);
      rxLen, received, handled := 0, [], [];
    }

    method Handle(event: seq<byte>)
      modifies this`handled
      ensures handled == old(handled) + [event]
    {
      handled := handled + [event];
    }

    method Append(chunk: seq<byte>)
      requires rx.Length == RX_SIZE && rxLen + |chunk| <= RX_SIZE
      modifies this`rxLen, rx
      ensures rxLen == old(rxLen) + |chunk| && rx[..rxLen] == old(rx[..rxLen]) + chunk
    {
      forall i | 0 <= i < |chunk| {
        rx[rxLen + i] := chunk[i];
      }
      rxLen := rxLen + |chunk|;
    }

    /** The events in the buffer; where they end. */
    method HandleWhole() returns (off: nat)
      requires rx.Length == RX_SIZE && rxLen <= RX_SIZE
      modifies this`handled
      ensures off <= rxLen && rx[off..rxLen] == Rest(rx[..rxLen]) && handled == old(handled) + Whole(rx[..rxLen])
    {
      ghost var before, pending := handled, rx[..rxLen];
      off := 0;
      while rxLen - off >= EVENT_SIZE
        invariant 0 <= off <= rxLen
        invariant handled + Whole(pending[off..]) == before + Whole(pending) && Rest(pending[off..]) == Rest(pending)
      {
        SliceOf(pending, off, off + EVENT_SIZE);
        FrontSlice(rx[..], rxLen, off, off + EVENT_SIZE);
        Handle(rx[off..off + EVENT_SIZE]);
        off := off + EVENT_SIZE;
      }
      FrontSlice(rx[..], rxLen, off, rxLen);
      assert pending[off..] == pending[off..rxLen];
    }

    /** One `recv` and what it completes. */
    method Receive(chunk: seq<byte>)
      requires Valid() && |chunk| <= RX_SIZE - rxLen
      modifies this, rx
      ensures Valid() && received == old(received) + chunk
    {
      InPieces(received, chunk);
      Append(chunk);
      received := received + chunk;
      var off := HandleWhole();
      MoveUp(off);
    }

    /** What is left over goes to the front. */
    method MoveUp(off: nat)
      requires rx.Length == RX_SIZE && off <= rxLen <= RX_SIZE
      modifies this`rxLen, rx
      ensures rxLen == old(rxLen) - off && rx[..rxLen] == old(rx[off..rxLen])
    {
      forall i | 0 <= i < rxLen - off {
        rx[i] := rx[off + i];
      }
      rxLen := rxLen - off;
    }
  }
}
