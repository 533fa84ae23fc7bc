/**
 What presses and releases of the five buttons come to mean in src/input/gestures.c, and
 what holds over every run of them.
 */
module GestureRules {
  import opened Wrappers

  const TICKS: nat := 0x1_0000_0000
  const SEEK_HOLD_MS: nat := 500
  const DEVICE_HOLD_MS: nat := 700
  const SLEEP_HOLD_MS: nat := 1500

  /** A millisecond tick, which wraps around. */
  type Tick = t: nat | t < TICKS

  const CENTER: nat := 0
  const MENU: nat := 1
  const PLAY_PAUSE: nat := 2
  const PREV: nat := 3
  const NEXT: nat := 4
  const COUNT: nat := 5

  datatype Button = Button(down: bool, swallow: bool, held: bool, offered: bool, since: Tick)

  type Buttons = b: seq<Button> | |b| == COUNT witness seq(COUNT, _ => Button(false, false, false, false, 0))

  /** What the app is told, and where a press of Play/Pause began. */
  datatype Action =
    | Pressed
    | Wake
    | CenterLevel(down: bool)
    | Menu
    | PlayPause
    | Devices(taken: bool)
    | Sleep
    | Next
    | Prev
    | Seek(dir: int)

  datatype State = State(asleep: bool, dim: bool, btn: Buttons, log: seq<Action>)

  const START: State := State(false, false, seq(COUNT, _ => Button(false, false, false, false, 0)), [])

  predicate Due(now: Tick, since: Tick, hold: nat) {
    (now - (since + hold)) % TICKS < TICKS / 2
  }

  function Act(st: State, a: Action): State {
    st.(log := st.log + [a])
  }

  function Set(st: State, i: nat, b: Button): State
    requires i < COUNT
  {
    st.(btn := st.btn[i := b])
  }

  // --- The steps ---

  /** `rpod_gestures_feed`, of a press. */
  function Press(st: State, i: nat, now: Tick): State
    requires i < COUNT
  {
    var acts := st.dim && i != CENTER && i != MENU;
    var s := if i == PLAY_PAUSE then Act(st, Pressed) else st;
    var b := Button(true, st.asleep && !acts, false, false, now);
    var woken := if st.asleep then Act(s.(asleep := false, dim := false), Wake) else s;
    var set_ := Set(woken, i, b);
    if b.swallow then set_
    else if i == CENTER then Act(set_, CenterLevel(true))
    else if i == MENU then Act(set_, Menu)
    else set_
  }

  /** ...and of a release. */
  function Release(st: State, i: nat): State
    requires i < COUNT
  {
    var b := st.btn[i];
    var s := Set(st, i, b.(down := false, swallow := false));
    if b.swallow then s
    else if i == CENTER then Act(s, CenterLevel(false))
    else if i == PLAY_PAUSE then if b.held then s else Act(s, PlayPause)
    else if i == MENU then s
    else Act(s, if b.held then Seek(0) else if i == NEXT then Next else Prev)
  }

  function Feed(st: State, i: nat, pressed: bool, now: Tick): State {
    if i >= COUNT || st.btn[i].down == pressed then st
    else if pressed then Press(st, i, now)
    else Release(st, i)
  }

  predicate Scanning(b: Button) {
    b.down && b.held && !b.swallow
  }

  predicate CanSeek(i: nat) {
    i == PREV || i == NEXT
  }

  /** `let_go`, of one button. */
  function Let(st: State, i: nat): State
    requires i < COUNT
  {
    var b := st.btn[i];
    if !b.down || b.swallow then st
    else Set(if CanSeek(i) && b.held then Act(st, Seek(0)) else st, i, b.(swallow := true))
  }

  function LetGo(st: State, i: nat): State
    requires i <= COUNT
    decreases COUNT - i
  {
    if i == COUNT then st else LetGo(Let(st, i), i + 1)
  }

  function PutToSleep(st: State, dim: bool): State {
    LetGo(st.(dim := dim, asleep := true), 0)
  }

  /** `rpod_gestures_tick`, of one button. The device list's answer and whether the app's sleep action puts the
      input to sleep are inputs. */
  function TickOne(st: State, i: nat, now: Tick, taken: bool, sleeps: bool): State
    requires i < COUNT
  {
    var b := st.btn[i];
    if !b.down || b.swallow then st
    else if i == PLAY_PAUSE && !b.held && !b.offered && Due(now, b.since, DEVICE_HOLD_MS) then
      Act(Set(st, i, b.(offered := true, held := taken)), Devices(taken))
    else if i == PLAY_PAUSE && !b.held && Due(now, b.since, SLEEP_HOLD_MS) then
      var s := Act(Set(st, i, b.(held := true)), Sleep);
      if sleeps then PutToSleep(s, false) else s
    else if CanSeek(i) && !b.held && Due(now, b.since, SEEK_HOLD_MS) then
      Act(Set(st, i, b.(held := true)), Seek(if i == NEXT then 1 else -1))
    else st
  }

  function TickFrom(st: State, i: nat, now: Tick, taken: bool, sleeps: bool): State
    requires i <= COUNT
    decreases COUNT - i
  {
    if i == COUNT then st else TickFrom(TickOne(st, i, now, taken, sleeps), i + 1, now, taken, sleeps)
  }

  function Waken(st: State): State {
    if st.asleep then Act(st.(asleep := false, dim := false), Wake) else st
  }

  function Turn(st: State): State {
    if st.asleep && st.dim then Waken(st) else st
  }

  function Cleared(b: Button): Button {
    b.(down := false, swallow := false)
  }

  function Clear(st: State): (r: State)
    ensures r == st.(btn := r.btn) && forall i :: 0 <= i < COUNT ==> r.btn[i] == Cleared(st.btn[i])
  {
    st.(btn := seq(COUNT, i requires 0 <= i < COUNT => Cleared(st.btn[i])))
  }

  datatype Event =
    | Fed(button: nat, pressed: bool, now: Tick)
    | Ticked(now: Tick, taken: bool, sleeps: bool)
    | Slept(dim: bool)
    | Turned
    | Woken
    | Cancelled

  function Apply(st: State, e: Event): State {
    match e
    case Fed(i, pressed, now) => Feed(st, i, pressed, now)
    case Ticked(now, taken, sleeps) => TickFrom(st, 0, now, taken, sleeps)
    case Slept(dim) => PutToSleep(st, dim)
    case Turned => Turn(st)
    case Woken => Waken(st)
    case Cancelled => Clear(LetGo(st, 0))
  }

  // --- What every run keeps ---

  function Weight(a: Action): int {
    if a.Seek? then if a.dir == 0 then -1 else 1 else 0
  }

  /** Scans begun less scans ended. */
  function Scans(log: seq<Action>): int {
    if log == [] then 0 else Scans(log[..|log| - 1]) + Weight(log[|log| - 1])
  }

  predicate Outcome(a: Action) {
    a == PlayPause || a == Devices(true) || a == Sleep
  }

  /** What the latest press of Play/Pause has come to. */
  function Outcomes(log: seq<Action>): nat {
    if log == [] || log[|log| - 1] == Pressed then 0
    else Outcomes(log[..|log| - 1]) + if Outcome(log[|log| - 1]) then 1 else 0
  }

  lemma Acted(log: seq<Action>, a: Action)
    ensures Scans(log + [a]) == Scans(log) + Weight(a)
    ensures Outcomes(log + [a]) == if a == Pressed then 0 else Outcomes(log) + if Outcome(a) then 1 else 0
  {
    assert (log + [a])[..|log|] == log;
  }

  function One(b: bool): nat {
    if b then 1 else 0
  }

  /** Buttons scanning, for the two that can. */
  function ScanningNow(btn: Buttons): nat {
    One(Scanning(btn[PREV])) + One(Scanning(btn[NEXT]))
  }

  /** Asleep, every button down is swallowed; a swallowed one is down; the scans begun and not ended are those of
      buttons held; and Play/Pause comes to at most one thing, to none while that is still open. */
  predicate Inv(st: State) {
    && (st.asleep ==> forall i :: 0 <= i < COUNT && st.btn[i].down ==> st.btn[i].swallow)
    && Sound(st)
  }

  predicate Sound(st: State) {
    Tally(st.btn, Scans(st.log), Outcomes(st.log))
  }

  predicate Open(b: Button) {
    b.down && !b.swallow && !b.held
  }

  predicate Tally(btn: Buttons, scans: int, outcomes: nat) {
    && (forall i :: 0 <= i < COUNT && btn[i].swallow ==> btn[i].down)
    && scans == ScanningNow(btn)
    && outcomes <= 1 && (Open(btn[PLAY_PAUSE]) ==> outcomes == 0)
  }

  /** One button's change and what it adds to the accounts. */
  lemma TallyKept(btn: Buttons, i: nat, b: Button, scans: int, outcomes: nat, newScans: int, newOutcomes: nat)
    requires i < COUNT && Tally(btn, scans, outcomes) && (b.swallow ==> b.down)
    requires newScans == scans + (if CanSeek(i) then One(Scanning(b)) - One(Scanning(btn[i])) else 0)
    requires newOutcomes <= 1 && (i == PLAY_PAUSE && Open(b) ==> newOutcomes == 0) && (i != PLAY_PAUSE ==> newOutcomes == outcomes)
    ensures Tally(btn[i := b], newScans, newOutcomes)
  {
  }

  /** What was told in this step, and the accounts after it. */
  lemma Told(st: State, s: State, i: nat, b: Button)
    requires i < COUNT && Sound(st) && s.btn == st.btn[i := b] && (b.swallow ==> b.down)
    requires Scans(s.log) == Scans(st.log) + (if CanSeek(i) then One(Scanning(b)) - One(Scanning(st.btn[i])) else 0)
    requires Outcomes(s.log) <= 1 && (i == PLAY_PAUSE && Open(b) ==> Outcomes(s.log) == 0)
    requires i != PLAY_PAUSE ==> Outcomes(s.log) == Outcomes(st.log)
    ensures Sound(s)
  {
    TallyKept(st.btn, i, b, Scans(st.log), Outcomes(st.log), Scans(s.log), Outcomes(s.log));
  }

  lemma PressInv(st: State, i: nat, now: Tick)
    requires Inv(st) && i < COUNT && !st.btn[i].down
    ensures Inv(Press(st, i, now))
  {
    var acts := st.dim && i != CENTER && i != MENU;
    PressTold(st, i, now);
    Told(st, Press(st, i, now), i, Button(true, st.asleep && !acts, false, false, now));
  }

  /** A press tells of a waking, a level or the menu: nothing that counts. */
  lemma PressTold(st: State, i: nat, now: Tick)
    requires i < COUNT
    ensures var log := Press(st, i, now).log;
            Scans(log) == Scans(st.log) && Outcomes(log) == if i == PLAY_PAUSE then 0 else Outcomes(st.log)
  {
    var s := if i == PLAY_PAUSE then Act(st, Pressed) else st;
    Acted(st.log, Pressed);
    WakeTold(s.log, Press(st, i, now).log);
  }

  lemma WakeTold(log: seq<Action>, after: seq<Action>)
    requires after in [log, log + [Wake], log + [CenterLevel(true)], log + [Menu],
                       log + [Wake] + [CenterLevel(true)], log + [Wake] + [Menu]]
    ensures Scans(after) == Scans(log) && Outcomes(after) == Outcomes(log)
  {
    if after == log + [Wake] {
      Acted(log, Wake);
    } else if after == log + [Wake] + [CenterLevel(true)] {
      ToldTwo(log, Wake, CenterLevel(true));
    } else if after == log + [Wake] + [Menu] {
      ToldTwo(log, Wake, Menu);
    } else if after == log + [CenterLevel(true)] {
      Acted(log, CenterLevel(true));
    } else if after == log + [Menu] {
      Acted(log, Menu);
    }
  }

  lemma ToldTwo(log: seq<Action>, a: Action, b: Action)
    requires Weight(a) == Weight(b) == 0 && !Outcome(a) && !Outcome(b) && a != Pressed && b != Pressed
    ensures Scans(log + [a] + [b]) == Scans(log) && Outcomes(log + [a] + [b]) == Outcomes(log)
  {
    Acted(log, a);
    Acted(log + [a], b);
  }

  lemma ReleaseInv(st: State, i: nat)
    requires Inv(st) && i < COUNT && st.btn[i].down
    ensures Inv(Release(st, i))
  {
    var b := st.btn[i];
    ReleaseTold(st, i);
    Told(st, Release(st, i), i, b.(down := false, swallow := false));
  }

  /** What a release tells, if anything. */
  function ReleaseTells(b: Button, i: nat): Option<Action> {
    if b.swallow || i == MENU || (i == PLAY_PAUSE && b.held) then None
    else if i == CENTER then Some(CenterLevel(false))
    else if i == PLAY_PAUSE then Some(PlayPause)
    else Some(if b.held then Seek(0) else if i == NEXT then Next else Prev)
  }

  function With(log: seq<Action>, a: Option<Action>): seq<Action> {
    if a.Some? then log + [a.value] else log
  }

  lemma ReleaseIs(st: State, i: nat)
    requires i < COUNT
    ensures Release(st, i).log == With(st.log, ReleaseTells(st.btn[i], i))
  {
  }

  lemma WithTold(log: seq<Action>, a: Option<Action>)
    requires a != Some(Pressed)
    ensures Scans(With(log, a)) == Scans(log) + if a.Some? then Weight(a.value) else 0
    ensures Outcomes(With(log, a)) == Outcomes(log) + if a.Some? && Outcome(a.value) then 1 else 0
  {
    if a.Some? {
      Acted(log, a.value);
    }
  }

  lemma ReleaseTold(st: State, i: nat)
    requires i < COUNT
    ensures var b := st.btn[i];
            var log := Release(st, i).log;
            && Scans(log) == Scans(st.log) - (if CanSeek(i) && b.held && !b.swallow then 1 else 0)
            && Outcomes(log) == Outcomes(st.log) + (if i == PLAY_PAUSE && !b.held && !b.swallow then 1 else 0)
  {
    ReleaseIs(st, i);
    WithTold(st.log, ReleaseTells(st.btn[i], i));
  }

  lemma LetOk(st: State, i: nat)
    requires Sound(st) && i < COUNT
    ensures var next := Let(st, i);
            && Sound(next) && next.asleep == st.asleep && next.dim == st.dim
            && (next.btn[i].down ==> next.btn[i].swallow)
            && (forall k :: 0 <= k < COUNT && k != i ==> next.btn[k] == st.btn[k])
            && next.btn[i].down == st.btn[i].down
  {
    LetSound(st, i);
  }

  /** What letting go tells. */
  function LetTells(b: Button, i: nat): Option<Action> {
    if CanSeek(i) && b.held then Some(Seek(0)) else None
  }

  lemma LetIs(st: State, i: nat)
    requires i < COUNT && st.btn[i].down && !st.btn[i].swallow
    ensures Let(st, i).btn == st.btn[i := st.btn[i].(swallow := true)]
    ensures Let(st, i).log == With(st.log, LetTells(st.btn[i], i))
  {
  }

  lemma LetSound(st: State, i: nat)
    requires Sound(st) && i < COUNT
    ensures Sound(Let(st, i))
  {
    var b := st.btn[i];
    if b.down && !b.swallow {
      LetIs(st, i);
      WithTold(st.log, LetTells(b, i));
      Told(st, Let(st, i), i, b.(swallow := true));
    }
  }

  lemma {:induction false} LetGoOk(st: State, i: nat)
    requires i <= COUNT && Sound(st) && forall k :: 0 <= k < i && st.btn[k].down ==> st.btn[k].swallow
    ensures var next := LetGo(st, i);
            && Sound(next) && next.asleep == st.asleep && next.dim == st.dim
            && forall k :: 0 <= k < COUNT && next.btn[k].down ==> next.btn[k].swallow
    decreases COUNT - i
  {
    if i < COUNT {
      LetOk(st, i);
      LetGoOk(Let(st, i), i + 1);
    }
  }

  lemma SleepInv(st: State, dim: bool)
    requires Sound(st)
    ensures Inv(PutToSleep(st, dim))
  {
    LetGoOk(st.(dim := dim, asleep := true), 0);
  }

  lemma TickOneInv(st: State, i: nat, now: Tick, taken: bool, sleeps: bool)
    requires Inv(st) && i < COUNT
    ensures Inv(TickOne(st, i, now, taken, sleeps))
  {
    var b := st.btn[i];
    if b.down && !b.swallow && !b.held {
      if i == PLAY_PAUSE {
        HoldInv(st, now, taken, sleeps);
      } else if CanSeek(i) && Due(now, b.since, SEEK_HOLD_MS) {
        Acted(st.log, Seek(if i == NEXT then 1 else -1));
        Told(st, TickOne(st, i, now, taken, sleeps), i, b.(held := true));
      }
    }
  }

  lemma HoldInv(st: State, now: Tick, taken: bool, sleeps: bool)
    requires Inv(st) && Open(st.btn[PLAY_PAUSE])
    ensures Inv(TickOne(st, PLAY_PAUSE, now, taken, sleeps))
  {
    var b := st.btn[PLAY_PAUSE];
    if !b.offered && Due(now, b.since, DEVICE_HOLD_MS) {
      OfferInv(st, taken);
    } else if Due(now, b.since, SLEEP_HOLD_MS) {
      SleepHoldInv(st, sleeps);
    }
  }

  lemma OfferInv(st: State, taken: bool)
    requires Inv(st) && Open(st.btn[PLAY_PAUSE])
    ensures Inv(Act(Set(st, PLAY_PAUSE, st.btn[PLAY_PAUSE].(offered := true, held := taken)), Devices(taken)))
  {
    var b := st.btn[PLAY_PAUSE].(offered := true, held := taken);
    Acted(st.log, Devices(taken));
    Told(st, Act(Set(st, PLAY_PAUSE, b), Devices(taken)), PLAY_PAUSE, b);
  }

  lemma SleepHoldInv(st: State, sleeps: bool)
    requires Inv(st) && Open(st.btn[PLAY_PAUSE])
    ensures var s := Act(Set(st, PLAY_PAUSE, st.btn[PLAY_PAUSE].(held := true)), Sleep);
            Inv(if sleeps then PutToSleep(s, false) else s)
  {
    var b := st.btn[PLAY_PAUSE].(held := true);
    var s := Act(Set(st, PLAY_PAUSE, b), Sleep);
    Acted(st.log, Sleep);
    Told(st, s, PLAY_PAUSE, b);
    SleepInv(s, false);
  }

  lemma {:induction false} TickInv(st: State, i: nat, now: Tick, taken: bool, sleeps: bool)
    requires Inv(st) && i <= COUNT
    ensures Inv(TickFrom(st, i, now, taken, sleeps))
    decreases COUNT - i
  {
    if i < COUNT {
      TickOneInv(st, i, now, taken, sleeps);
      TickInv(TickOne(st, i, now, taken, sleeps), i + 1, now, taken, sleeps);
    }
  }

  lemma WakeInv(st: State)
    requires Inv(st)
    ensures Inv(Waken(st))
  {
    Acted(st.log, Wake);
  }

  lemma CancelInv(st: State)
    requires Inv(st)
    ensures Inv(Clear(LetGo(st, 0)))
  {
    LetGoOk(st, 0);
  }

  lemma StepInv(st: State, e: Event)
    requires Inv(st)
    ensures Inv(Apply(st, e))
  {
    match e {
      case Fed(i, pressed, now) =>
        if i < COUNT && st.btn[i].down != pressed {
          if pressed {
            PressInv(st, i, now);
          } else {
            ReleaseInv(st, i);
          }
        }
      case Ticked(now, taken, sleeps) => TickInv(st, 0, now, taken, sleeps);
      case Slept(dim) => SleepInv(st, dim);
      case Turned => WakeInv(st);
      case Woken => WakeInv(st);
      case Cancelled => CancelInv(st);
    }
  }

  function Exec(st: State, events: seq<Event>): State
    decreases |events|
  {
    if events == [] then st else Exec(Apply(st, events[0]), events[1..])
  }

  lemma {:induction false} RunInv(st: State, events: seq<Event>)
    requires Inv(st)
    ensures Inv(Exec(st, events))
    decreases |events|
  {
    if events != [] {
      StepInv(st, events[0]);
      RunInv(Apply(st, events[0]), events[1..]);
    }
  }

  /** Over every run: no button acts in sleep, a swallowed button is down, scans begun less scans ended are the Prev
      and Next buttons down, held and not swallowed, and a press of Play/Pause comes to at most one of a tap, the
      device list taken, and sleep. */
  lemma EveryRun(events: seq<Event>)
    ensures var r := Exec(START, events);
            && (r.asleep ==> forall i :: 0 <= i < COUNT && r.btn[i].down ==> r.btn[i].swallow)
            && (forall i :: 0 <= i < COUNT && r.btn[i].swallow ==> r.btn[i].down)
            && Scans(r.log) == ScanningNow(r.btn)
            && Outcomes(r.log) <= 1
  {
    RunInv(START, events);
  }

  /** The press that wakes does nothing else, nor does its release; but from a dim sleep the buttons that need no
      screen act. */
  lemma WakingPress(st: State, i: nat, now: Tick)
    requires Inv(st) && st.asleep && i < COUNT && !st.btn[i].down
    ensures var s := Press(st, i, now);
            && !s.asleep
            && s.log == st.log + (if i == PLAY_PAUSE then [Pressed, Wake] else [Wake])
            && (s.btn[i].swallow <==> !(st.dim && i in {PLAY_PAUSE, PREV, NEXT}))
            && (s.btn[i].swallow ==> Release(s, i).log == s.log)
  {
  }

  /** While a button is swallowed, ticks do not act for it, however long it is down. */
  lemma SwallowedIsQuiet(st: State, i: nat, now: Tick, taken: bool, sleeps: bool)
    requires i < COUNT && st.btn[i].swallow
    ensures TickOne(st, i, now, taken, sleeps) == st
  {
  }

  /** Sleeping, a turn, a waking and a cancel, but for the buttons let go of: a turn wakes from a dim sleep alone, and a
      waking is told if there was a sleep. */
  lemma SleepAndWake(st: State, dim: bool)
    ensures var s := Apply(st, Slept(dim)); s.asleep && s.dim == dim
    ensures var s := Apply(st, Turned);
            if st.asleep && st.dim then !s.asleep && !s.dim && s.log == st.log + [Wake] else s == st
    ensures var s := Apply(st, Woken);
            if st.asleep then !s.asleep && !s.dim && s.log == st.log + [Wake] else s == st
    ensures var s := Apply(st, Cancelled);
            s.asleep == st.asleep && s.dim == st.dim && forall i :: 0 <= i < COUNT ==> !s.btn[i].down && !s.btn[i].swallow
  {
    LetGoKeeps(st.(dim := dim, asleep := true), 0);
    LetGoKeeps(st, 0);
  }

  lemma {:induction false} LetGoKeeps(st: State, i: nat)
    requires i <= COUNT
    ensures LetGo(st, i).asleep == st.asleep && LetGo(st, i).dim == st.dim
    decreases COUNT - i
  {
    if i < COUNT {
      LetGoKeeps(Let(st, i), i + 1);
    }
  }

  // --- What one button's press comes to ---

  predicate OthersUp(st: State, i: nat) {
    forall k :: 0 <= k < COUNT && k != i ==> !st.btn[k].down
  }

  /** Nothing of the button's is due: it does not act, has been held already, or its hold has not come. */
  predicate Quiet(b: Button, i: nat, now: Tick) {
    || !b.down || b.swallow || b.held || i == CENTER || i == MENU
    || (CanSeek(i) && !Due(now, b.since, SEEK_HOLD_MS))
    || (i == PLAY_PAUSE && !Due(now, b.since, SLEEP_HOLD_MS) && (b.offered || !Due(now, b.since, DEVICE_HOLD_MS)))
  }

  lemma QuietTick(st: State, i: nat, now: Tick, taken: bool, sleeps: bool)
    requires i < COUNT && Quiet(st.btn[i], i, now)
    ensures TickOne(st, i, now, taken, sleeps) == st
  {
  }

  lemma {:induction false} RestQuiet(st: State, i: nat, now: Tick, taken: bool, sleeps: bool)
    requires i <= COUNT && forall k :: i <= k < COUNT ==> !st.btn[k].down
    ensures TickFrom(st, i, now, taken, sleeps) == st
    decreases COUNT - i
  {
    if i < COUNT {
      QuietTick(st, i, now, taken, sleeps);
      RestQuiet(st, i + 1, now, taken, sleeps);
    }
  }

  lemma {:induction false} LetGoDown(st: State, i: nat)
    requires i <= COUNT
    ensures forall k :: 0 <= k < COUNT ==> LetGo(st, i).btn[k].down == st.btn[k].down
    decreases COUNT - i
  {
    if i < COUNT {
      LetGoDown(Let(st, i), i + 1);
    }
  }

  lemma TickDown(st: State, i: nat, now: Tick, taken: bool, sleeps: bool)
    requires i < COUNT && OthersUp(st, i)
    ensures OthersUp(TickOne(st, i, now, taken, sleeps), i)
  {
    var s := Act(Set(st, i, st.btn[i].(held := true)), Sleep);
    LetGoDown(s.(dim := false, asleep := true), 0);
  }

  /** A tick with one button down is that button's. */
  lemma {:induction false} OneTicks(st: State, i: nat, from: nat, now: Tick, taken: bool, sleeps: bool)
    requires from <= i < COUNT && OthersUp(st, i)
    ensures TickFrom(st, from, now, taken, sleeps) == TickOne(st, i, now, taken, sleeps)
    decreases i - from
  {
    if from < i {
      QuietTick(st, from, now, taken, sleeps);
      OneTicks(st, i, from + 1, now, taken, sleeps);
    } else {
      TickDown(st, i, now, taken, sleeps);
      RestQuiet(TickOne(st, i, now, taken, sleeps), i + 1, now, taken, sleeps);
    }
  }

  /** Ticks at which nothing of the one button down is due. */
  predicate AllQuiet(b: Button, i: nat, ticks: seq<Event>) {
    forall k :: 0 <= k < |ticks| ==> ticks[k].Ticked? && Quiet(b, i, ticks[k].now)
  }

  lemma {:induction false} Waits(st: State, i: nat, ticks: seq<Event>)
    requires i < COUNT && OthersUp(st, i) && AllQuiet(st.btn[i], i, ticks)
    ensures Exec(st, ticks) == st
    decreases |ticks|
  {
    if ticks != [] {
      var e := ticks[0];
      OneTicks(st, i, 0, e.now, e.taken, e.sleeps);
      QuietTick(st, i, e.now, e.taken, e.sleeps);
      Waits(st, i, ticks[1..]);
    }
  }

  /** Awake and with no button down. */
  predicate AtRest(st: State) {
    !st.asleep && forall k :: 0 <= k < COUNT ==> !st.btn[k].down
  }

  function Fresh(now: Tick): Button {
    Button(true, false, false, false, now)
  }

  /** A press and release with nothing due in between is a tap: the centre's level goes up and down, the menu is
      asked for at the press, and Play/Pause, Prev and Next act at the release. */
  lemma Tap(st: State, i: nat, down: Tick, ticks: seq<Event>)
    requires AtRest(st) && i < COUNT && AllQuiet(Fresh(down), i, ticks)
    ensures Release(Exec(Press(st, i, down), ticks), i).log == st.log + (
              if i == CENTER then [CenterLevel(true), CenterLevel(false)]
              else if i == MENU then [Menu]
              else if i == PLAY_PAUSE then [Pressed, PlayPause]
              else if i == PREV then [Prev]
              else [Next])
  {
    Waits(Press(st, i, down), i, ticks);
  }

  lemma {:induction false} ExecMore(st: State, a: seq<Event>, b: seq<Event>)
    ensures Exec(st, a + b) == Exec(Exec(st, a), b)
    decreases |a|
  {
    if a == [] {
      assert a + b == b;
    } else {
      assert (a + b)[1..] == a[1..] + b;
      ExecMore(Apply(st, a[0]), a[1..], b);
    }
  }

  /** Quiet ticks, one that is not, and what comes then. */
  lemma WaitsThen(st: State, i: nat, before: seq<Event>, due: Event, after: seq<Event>)
    requires i < COUNT && OthersUp(st, i) && AllQuiet(st.btn[i], i, before) && due.Ticked?
    ensures Exec(st, before + [due] + after) == Exec(TickOne(st, i, due.now, due.taken, due.sleeps), after)
  {
    Waits(st, i, before);
    assert before + [due] + after == before + ([due] + after);
    ExecMore(st, before, [due] + after);
    assert ([due] + after)[1..] == after;
    OneTicks(st, i, 0, due.now, due.taken, due.sleeps);
  }

  predicate OnlyTicks(events: seq<Event>) {
    forall k :: 0 <= k < |events| ==> events[k].Ticked?
  }

  /** Held until its time comes, Next seeks forwards and Prev backwards, once, however many ticks follow, until it is
      let go; it does not skip. */
  lemma HoldSeeks(st: State, i: nat, down: Tick, before: seq<Event>, due: Event, after: seq<Event>)
    requires AtRest(st) && (i == PREV || i == NEXT) && AllQuiet(Fresh(down), i, before) && OnlyTicks(after)
    requires due.Ticked? && Due(due.now, down, SEEK_HOLD_MS)
    ensures var s := Exec(Press(st, i, down), before + [due] + after);
            && s.log == st.log + [Seek(if i == NEXT then 1 else -1)]
            && Release(s, i).log == st.log + [Seek(if i == NEXT then 1 else -1), Seek(0)]
  {
    var s := Press(st, i, down);
    WaitsThen(s, i, before, due, after);
    TickDown(s, i, due.now, due.taken, due.sleeps);
    var held := TickOne(s, i, due.now, due.taken, due.sleeps);
    assert held.btn[i].held;
    Waits(held, i, after);
    assert s.log == st.log;
  }

  /** Play/Pause held until the device list takes it opens that, and neither plays nor sleeps any more. */
  lemma HoldOpensDevices(st: State, down: Tick, before: seq<Event>, due: Event, after: seq<Event>)
    requires AtRest(st) && AllQuiet(Fresh(down), PLAY_PAUSE, before) && OnlyTicks(after)
    requires due.Ticked? && Due(due.now, down, DEVICE_HOLD_MS) && due.taken
    ensures var s := Exec(Press(st, PLAY_PAUSE, down), before + [due] + after);
            s.log == Release(s, PLAY_PAUSE).log == st.log + [Pressed, Devices(true)]
  {
    var s := Press(st, PLAY_PAUSE, down);
    WaitsThen(s, PLAY_PAUSE, before, due, after);
    TickDown(s, PLAY_PAUSE, due.now, due.taken, due.sleeps);
    var held := TickOne(s, PLAY_PAUSE, due.now, due.taken, due.sleeps);
    assert held.btn[PLAY_PAUSE].held;
    Waits(held, PLAY_PAUSE, after);
    assert s.log == st.log + [Pressed];
  }

  /** Where the device list does not take it, Play/Pause let go before the sleep is due still plays, and held until then
      puts to sleep, and does not play. */
  lemma HoldSleeps(st: State, down: Tick, before: seq<Event>, offer: Event, between: seq<Event>, due: Event, after: seq<Event>)
    requires AtRest(st) && AllQuiet(Fresh(down), PLAY_PAUSE, before) && OnlyTicks(after)
    requires offer.Ticked? && Due(offer.now, down, DEVICE_HOLD_MS) && !offer.taken
    requires AllQuiet(Fresh(down).(offered := true), PLAY_PAUSE, between)
    requires due.Ticked? && Due(due.now, down, SLEEP_HOLD_MS)
    ensures var s := Exec(Press(st, PLAY_PAUSE, down), before + [offer] + between);
            && Release(s, PLAY_PAUSE).log == st.log + [Pressed, Devices(false), PlayPause]
            && (var z := Exec(s, [due] + after);
                z.log == Release(z, PLAY_PAUSE).log == st.log + [Pressed, Devices(false), Sleep] && z.asleep == due.sleeps)
  {
    var s := Press(st, PLAY_PAUSE, down);
    var offered := Act(Set(s, PLAY_PAUSE, Fresh(down).(offered := true)), Devices(false));
    WaitsThen(s, PLAY_PAUSE, before, offer, between);
    assert TickOne(s, PLAY_PAUSE, offer.now, offer.taken, offer.sleeps) == offered;
    Waits(offered, PLAY_PAUSE, between);
    assert offered.log == st.log + [Pressed, Devices(false)];
    SleepComes(offered, due, after);
  }

  lemma SleepComes(st: State, due: Event, after: seq<Event>)
    requires OthersUp(st, PLAY_PAUSE) && Open(st.btn[PLAY_PAUSE]) && st.btn[PLAY_PAUSE].offered && !st.asleep
    requires due.Ticked? && Due(due.now, st.btn[PLAY_PAUSE].since, SLEEP_HOLD_MS) && OnlyTicks(after)
    ensures var z := Exec(st, [due] + after);
            z.log == Release(z, PLAY_PAUSE).log == st.log + [Sleep] && z.asleep == due.sleeps
  {
    var held := Act(Set(st, PLAY_PAUSE, st.btn[PLAY_PAUSE].(held := true)), Sleep);
    assert [] + [due] + after == [due] + after;
    WaitsThen(st, PLAY_PAUSE, [], due, after);
    TickDown(st, PLAY_PAUSE, due.now, due.taken, due.sleeps);
    var next := TickOne(st, PLAY_PAUSE, due.now, due.taken, due.sleeps);
    if due.sleeps {
      LetOne(held.(dim := false, asleep := true), PLAY_PAUSE, 0);
    }
    Waits(next, PLAY_PAUSE, after);
  }

  /** With one button down that is not seeking, letting all go swallows it and tells nothing. */
  lemma {:induction false} LetOne(st: State, i: nat, from: nat)
    requires i < COUNT && from <= COUNT && OthersUp(st, i) && !CanSeek(i) && st.btn[i].down
    ensures LetGo(st, from) == if from <= i then Set(st, i, st.btn[i].(swallow := true)) else st
    decreases COUNT - from
  {
    if from < COUNT {
      if from == i {
        var s := Let(st, i);
        assert s == Set(st, i, st.btn[i].(swallow := true));
        LetOne(s, i, from + 1);
      } else {
        LetOne(st, i, from + 1);
      }
    }
  }
}

/** The gesture machine as it runs: the fields of `rpod_gestures_t`, each call of it proved to do what
    GestureRules says. */
module Gestures {
  import opened Wrappers
  import opened GestureRules

  class Machine {
    var asleep: bool
    var dim: bool
    const btn: array<Button>
    ghost var log: seq<Action>

    ghost predicate Valid()
      reads this
    {
      btn.Length == COUNT
    }

    ghost function View(): State
      reads this, btn
      requires Valid()
    {
      State(asleep, dim, btn[..], log)
    }

    constructor ()
      ensures Valid() && fresh(btn) && View() == START
    {
      asleep, dim, log := false, false, [];
      btn := new Button[COUNT](_ => Button(false, false, false, false, 0));
      new;
      assert btn[..] == START.btn;
    }

    method Call(a: Action)
      modifies this`log
      ensures log == old(log) + [a]
    {
      log := log + [a];
    }

    method Feed(i: nat, pressed: bool, now: Tick)
      requires Valid()
      modifies this`asleep, this`dim, this`log, btn
      ensures View() == GestureRules.Feed(old(View()), i, pressed, now)
    {
      if i >= COUNT || btn[i].down == pressed {
        return;
      }
      if pressed {
        PressOne(i, now);
      } else {
        ReleaseOne(i);
      }
    }

    method PressOne(i: nat, now: Tick)
      requires Valid() && i < COUNT && !btn[i].down
      modifies this`asleep, this`dim, this`log, btn
      ensures View() == Press(old(View()), i, now)
    {
      ghost var st := View();
      if i == PLAY_PAUSE {
        Call(Pressed);
      }
      btn[i] := Button(true, btn[i].swallow, false, false, now);
      if asleep {
        var acts := dim && i != CENTER && i != MENU;
        asleep, dim := false, false;
        Call(Wake);
        if !acts {
          btn[i] := btn[i].(swallow := true);
          assert btn[..] == st.btn[i := btn[i]];
          return;
        }
      }
      btn[i] := btn[i].(swallow := false);
      assert btn[..] == st.btn[i := btn[i]];
      if i == CENTER {
        Call(CenterLevel(true));
      } else if i == MENU {
        Call(Menu);
      }
    }

    method ReleaseOne(i: nat)
      requires Valid() && i < COUNT && btn[i].down
      modifies this`log, btn
      ensures View() == Release(old(View()), i)
    {
      ghost var st := View();
      var b := btn[i];
      btn[i] := b.(down := false, swallow := false);
      assert btn[..] == st.btn[i := btn[i]];
      if b.swallow {
        return;
      }
      if i == CENTER {
        Call(CenterLevel(false));
      } else if i == PLAY_PAUSE {
        if !b.held {
          Call(PlayPause);
        }
      } else if i == PREV || i == NEXT {
        if b.held {
          Call(Seek(0));
        } else if i == NEXT {
          Call(Next);
        } else {
          Call(Prev);
        }
      }
    }

    method TickButton(i: nat, now: Tick, taken: bool, sleeps: bool)
      requires Valid() && i < COUNT
      modifies this`asleep, this`dim, this`log, btn
      ensures View() == TickOne(old(View()), i, now, taken, sleeps)
    {
      ghost var st := View();
      var b := btn[i];
      if !b.down || b.swallow {
        return;
      }
      if i == PLAY_PAUSE && !b.held && !b.offered && Due(now, b.since, DEVICE_HOLD_MS) {
        btn[i] := b.(offered := true);
        Call(Devices(taken));
        if taken {
          btn[i] := btn[i].(held := true);
        }
        assert btn[..] == st.btn[i := b.(offered := true, held := taken)];
      } else if i == PLAY_PAUSE && !b.held && Due(now, b.since, SLEEP_HOLD_MS) {
        btn[i] := b.(held := true);
        assert btn[..] == st.btn[i := btn[i]];
        Call(Action.Sleep);
        if sleeps {
          var center := GoToSleep(false);
        }
      } else if (i == PREV || i == NEXT) && !b.held && Due(now, b.since, SEEK_HOLD_MS) {
        btn[i] := b.(held := true);
        assert btn[..] == st.btn[i := btn[i]];
        Call(Seek(if i == NEXT then 1 else -1));
      }
    }

    method Tick(now: Tick, taken: bool, sleeps: bool)
      requires Valid()
      modifies this`asleep, this`dim, this`log, btn
      ensures View() == TickFrom(old(View()), 0, now, taken, sleeps)
    {
      ghost var end := TickFrom(View(), 0, now, taken, sleeps);
      var i := 0;
      while i < COUNT
        invariant 0 <= i <= COUNT && TickFrom(View(), i, now, taken, sleeps) == end
      {
        TickButton(i, now, taken, sleeps);
        i := i + 1;
      }
    }

    /** Whether a button that is down could still come to a hold. */
    method Timing() returns (timing: bool)
      requires Valid()
      ensures timing <==> exists i :: PLAY_PAUSE <= i <= NEXT && btn[i].down && !btn[i].swallow && !btn[i].held
    {
      var i := PLAY_PAUSE;
      while i <= NEXT
        invariant PLAY_PAUSE <= i <= NEXT + 1
        invariant forall k :: PLAY_PAUSE <= k < i ==> !(btn[k].down && !btn[k].swallow && !btn[k].held)
      {
        if btn[i].down && !btn[i].swallow && !btn[i].held {
          return true;
        }
        i := i + 1;
      }
      return false;
    }

    /** Whether the centre was among the buttons let go of. */
    method LetAllGo() returns (center: bool)
      requires Valid()
      modifies this`log, btn
      ensures View() == LetGo(old(View()), 0)
      ensures center <==> old(btn[CENTER].down && !btn[CENTER].swallow)
    {
      ghost var end := LetGo(View(), 0);
      center := false;
      var i := 0;
      while i < COUNT
        invariant 0 <= i <= COUNT && LetGo(View(), i) == end
        invariant i == 0 ==> !center && btn[CENTER] == old(btn[CENTER])
        invariant i > 0 ==> (center <==> old(btn[CENTER].down && !btn[CENTER].swallow))
      {
        ghost var st := View();
        if btn[i].down && !btn[i].swallow {
          if (i == PREV || i == NEXT) && btn[i].held {
            Call(Seek(0));
          }
          if i == CENTER {
            center := true;
          }
          btn[i] := btn[i].(swallow := true);
          assert btn[..] == st.btn[i := btn[i]];
        }
        i := i + 1;
      }
    }

    method GoToSleep(darkOnly: bool) returns (center: bool)
      requires Valid()
      modifies this`asleep, this`dim, this`log, btn
      ensures View() == PutToSleep(old(View()), darkOnly)
      ensures center <==> old(btn[CENTER].down && !btn[CENTER].swallow)
    {
      dim := darkOnly;
      asleep := true;
      center := LetAllGo();
    }

    /** Whether the turn should move the selection. */
    method Turn() returns (moves: bool)
      requires Valid()
      modifies this`asleep, this`dim, this`log
      ensures View() == GestureRules.Turn(old(View())) && moves == !old(asleep)
    {
      if !asleep {
        return true;
      }
      if dim {
        asleep, dim := false, false;
        Call(Wake);
      }
      return false;
    }

    method WakeUp() returns (was: bool)
      requires Valid()
      modifies this`asleep, this`dim, this`log
      ensures View() == Waken(old(View())) && was == old(asleep)
    {
      was := asleep;
      if asleep {
        asleep, dim := false, false;
        Call(Wake);
      }
    }

    method Cancel() returns (center: bool)
      requires Valid()
      modifies this`log, btn
      ensures View() == Clear(LetGo(old(View()), 0))
      ensures center <==> old(btn[CENTER].down && !btn[CENTER].swallow)
    {
      center := LetAllGo();
      ForgetAll();
    }

    method ForgetAll()
      requires Valid()
      modifies btn
      ensures View() == Clear(old(View()))
    {
      ghost var st := View();
      var i := 0;
      while i < COUNT
        invariant 0 <= i <= COUNT
        invariant forall k :: 0 <= k < COUNT ==> btn[k] == if k < i then Cleared(st.btn[k]) else st.btn[k]
      {
        btn[i] := btn[i].(down := false, swallow := false);
        i := i + 1;
      }
      assert btn[..] == Clear(st).btn;
    }
  }
}
