/**
 The decoder of daemon/rpod-wheel.c as it runs: its fields are the framing and the state
 last told to the clients, updated in place by every sample of the two lines.
 */
module WheelDaemon {
  import opened Wrappers
  import opened WheelFraming
  import opened WheelEvents

  const TICKS: nat := 0x1_0000_0000
  const RESYNC_GAP_US: nat := 150

  type Tick = t: nat | t < TICKS

  /** The two lines, the time in microseconds, which wraps around, and the hold switch. */
  datatype Sample = Sample(clock: bool, data: bool, tick: Tick, hold: bool)

  /** A rising edge, and the hold switch at that time. */
  datatype Rise = Rise(edge: Edge, hold: bool)

  predicate Late(tick: Tick, last: Tick) {
    (tick - last) % TICKS > RESYNC_GAP_US
  }

  /** The rising clock edges among the samples, after a clock level and an edge at `last`. */
  function Rises(samples: seq<Sample>, clock: bool, last: Tick): seq<Rise> {
    if samples == [] then []
    else
      var s := samples[0];
      if s.clock && !clock then [Rise(Edge(s.data, Late(s.tick, last)), s.hold)] + Rises(samples[1..], s.clock, s.tick)
      else Rises(samples[1..], s.clock, last)
  }

  function LastRise(samples: seq<Sample>, clock: bool, last: Tick): Tick {
    if samples == [] then last
    else LastRise(samples[1..], samples[0].clock, if samples[0].clock && !clock then samples[0].tick else last)
  }

  function EdgesIn(rises: seq<Rise>): (edges: seq<Edge>)
    ensures |edges| == |rises| && forall i :: 0 <= i < |edges| ==> edges[i] == rises[i].edge
  {
    seq(|rises|, i requires 0 <= i < |rises| => rises[i].edge)
  }

  function Handed(o: Option<Word>, hold: bool): seq<Packet> {
    if o.Some? then [Packet(o.value, hold)] else []
  }

  /** The packets handed on. */
  function Packets(f: Framing, rises: seq<Rise>): seq<Packet>
    requires f.Valid()
    decreases |rises|
  {
    if rises == [] then []
    else Handed(OnEdge(f, rises[0].edge).1, rises[0].hold) + Packets(OnEdge(f, rises[0].edge).0, rises[1..])
  }

  function WordsIn(packets: seq<Packet>): (words: seq<Word>)
    ensures |words| == |packets| && forall i :: 0 <= i < |words| ==> words[i] == packets[i].word
  {
    seq(|packets|, i requires 0 <= i < |packets| => packets[i].word)
  }

  /** They are the words of the edges. */
  lemma {:induction false} PacketsAreWords(f: Framing, rises: seq<Rise>)
    requires f.Valid()
    ensures WordsIn(Packets(f, rises)) == Words(f, EdgesIn(rises))
    decreases |rises|
  {
    if rises != [] {
      PacketsAreWords(OnEdge(f, rises[0].edge).0, rises[1..]);
      assert EdgesIn(rises)[1..] == EdgesIn(rises[1..]);
    }
  }

  /** Whatever the decoder was at: after 32 one-bits, the packets handed on are those of the stream and no
      others, but for at most one that the one-bits themselves completed. */
  lemma HandsOnTheStream(f: Framing, rises: seq<Rise>, lates: seq<bool>, bursts: seq<Burst>)
    requires f.Valid() && |lates| >= 32 && forall i :: 0 <= i < |bursts| ==> bursts[i].Proper()
    requires EdgesIn(rises) == OnesOf(lates) + StreamOf(bursts)
    ensures |Words(f, OnesOf(lates))| <= 1
    ensures WordsIn(Packets(f, rises)) == Words(f, OnesOf(lates)) + WordsOf(bursts)
  {
    PacketsAreWords(f, rises);
    SynchronisedByOnes(f, lates, bursts);
  }

  // --- The two lines ---

  /** A bit on the lines: the clock is low for some samples, rises, and is high for some more. */
  datatype Pulse = Pulse(lows: seq<Sample>, rise: Sample, highs: seq<Sample>) {
    predicate Proper() {
      && lows != [] && (forall i :: 0 <= i < |lows| ==> !lows[i].clock)
      && rise.clock && (forall i :: 0 <= i < |highs| ==> highs[i].clock)
    }
  }

  function Wave(pulses: seq<Pulse>): seq<Sample> {
    if pulses == [] then [] else pulses[0].lows + ([pulses[0].rise] + (pulses[0].highs + Wave(pulses[1..])))
  }

  /** A clock that does not rise tells nothing. */
  lemma {:induction false} LevelRead(samples: seq<Sample>, level: bool, rest: seq<Sample>, clock: bool, last: Tick)
    requires (forall i :: 0 <= i < |samples| ==> samples[i].clock == level) && (level ==> clock)
    ensures Rises(samples + rest, clock, last) == Rises(rest, if samples == [] then clock else level, last)
    decreases |samples|
  {
    if samples == [] {
      assert samples + rest == rest;
    } else {
      assert (samples + rest)[1..] == samples[1..] + rest;
      LevelRead(samples[1..], level, rest, samples[0].clock, last);
    }
  }

  lemma RiseRead(s: Sample, rest: seq<Sample>, last: Tick)
    requires s.clock
    ensures Rises([s] + rest, false, last) == [Rise(Edge(s.data, Late(s.tick, last)), s.hold)] + Rises(rest, true, s.tick)
  {
    assert ([s] + rest)[1..] == rest;
  }

  /** What the pulses say: each the bit and the hold switch at its rise, late if that comes more than 150 microseconds
      after the one before. */
  function Told(pulses: seq<Pulse>, last: Tick): seq<Rise> {
    if pulses == [] then []
    else
      var s := pulses[0].rise;
      [Rise(Edge(s.data, (s.tick - last) % 0x1_0000_0000 > 150), s.hold)] + Told(pulses[1..], s.tick)
  }

  /** However long the clock stays low and high, the rises are what the pulses say. */
  lemma {:induction false} WaveRead(pulses: seq<Pulse>, clock: bool, last: Tick)
    requires forall i :: 0 <= i < |pulses| ==> pulses[i].Proper()
    ensures Rises(Wave(pulses), clock, last) == Told(pulses, last)
    decreases |pulses|
  {
    if pulses != [] {
      var p := pulses[0];
      assert p.Proper();
      var after := p.highs + Wave(pulses[1..]);
      LevelRead(p.lows, false, [p.rise] + after, clock, last);
      RiseRead(p.rise, after, last);
      LevelRead(p.highs, true, Wave(pulses[1..]), true, p.rise.tick);
      WaveRead(pulses[1..], true, p.rise.tick);
    }
  }

  /** Whatever went before: once the packet of a state is handed on, with the hold switch off, that is the state told. */
  lemma {:induction false} StateLearnt(was: Wheel, packets: seq<Packet>, w: Wheel, spare: Word)
    requires was.position < 128 && w.position < 128
    ensures Last(was, packets + [Packet(Encoded(w, spare), false)]) == w
    decreases |packets|
  {
    var p := Packet(Encoded(w, spare), false);
    if packets == [] {
      EncodedDecodes(w, spare);
      assert packets + [p] == [p] && [p][1..] == [];
    } else {
      assert (packets + [p])[1..] == packets[1..] + [p];
      StateLearnt(Next(was, packets[0]), packets[1..], w, spare);
    }
  }

  class Decoder {
    var recording: bool
    var bitIndex: nat
    var packet: Word
    var onesRun: nat
    var prevClock: bool
    var lastRise: Tick
    var state: Wheel
    ghost var sent: seq<Event>

    ghost function Frame(): Framing
      reads this
    {
      Framing(recording, bitIndex, packet, onesRun)
    }

    ghost predicate Valid()
      reads this
    {
      Frame().Valid() && state.position < 128
    }

    constructor ()
      ensures Valid() && Frame() == Framing(false, 0, ZERO, 0) && prevClock
      ensures state == Wheel(NONE_DOWN, false, 0) && sent == []
    {
      recording, bitIndex, packet, onesRun := false, 0, ZERO, 0;
      prevClock, lastRise := true, 0;
      state, sent := Wheel(NONE_DOWN, false, 0), [];
    }

    method Emit(e: Event)
      modifies this`sent
      ensures sent == old(sent) + [e]
    {
      sent := sent + [e];
    }

    method EmitButtons(next: Wheel)
      modifies this`sent
      ensures sent == old(sent) + ButtonEvents(state.buttons, next, 0)
    {
      var i := 0;
      ghost var buttons, before := state.buttons, sent;
      while i < 5
        invariant 0 <= i <= 5 && state.buttons == buttons
        invariant ToEmit(buttons, next, i, before, sent)
      {
        OneButton(buttons, next, i, before, sent);
        if state.buttons[i] != next.buttons[i] {
          Emit(Button(i, next.buttons[i], next.position));
        }
        i := i + 1;
      }
    }

    method ApplyState(next: Wheel, rotate: bool)
      requires state.position < 128 && next.position < 128
      modifies this`state, this`sent
      ensures state == next && sent == old(sent) + Report(old(state), next, rotate)
    {
      EmitButtons(next);
      if state.touched != next.touched {
        Emit(Touch(next.touched, next.position));
      }
      if rotate && state.touched && next.touched && next.position != state.position {
        Emit(Turn(Delta(next.position, state.position), next.position));
      }
      state := next;
    }

    method DecodeButtons(word: Word) returns (buttons: Buttons)
      ensures buttons == Decoded(word).buttons
    {
      buttons := NONE_DOWN;
      var i := 0;
      while i < 5
        invariant 0 <= i <= 5
        invariant forall k :: 0 <= k < 5 ==> buttons[k] == (k < i && word[ButtonBit(k)])
      {
        if word[ButtonBit(i)] {
          buttons := buttons[i := true];
        }
        i := i + 1;
      }
    }

    method HandlePacket(word: Word, hold: bool)
      requires state.position < 128
      modifies this`state, this`sent
      ensures state == Next(old(state), Packet(word, hold)) && state.position < 128
      ensures sent == old(sent) + Sent(old(state), Packet(word, hold))
    {
      if !Preamble(word) {
        return;
      }
      var buttons := DecodeButtons(word);
      if hold {
        ApplyState(Wheel(NONE_DOWN, false, Position(word)), false);
      } else {
        ApplyState(Wheel(buttons, word[30], Position(word)), true);
      }
    }

    method FramingReset()
      modifies this`recording, this`bitIndex, this`packet
      ensures Frame() == Reset(old(Frame()))
    {
      recording, bitIndex, packet := false, 0, ZERO;
    }

    method OnBit(bit: bool, hold: bool)
      requires Valid()
      modifies this`recording, this`bitIndex, this`packet, this`onesRun, this`state, this`sent
      ensures var r := WheelFraming.OnBit(old(Frame()), bit);
              && Valid() && Frame() == r.0
              && state == Last(old(state), Handed(r.1, hold))
              && sent == old(sent) + AllSent(old(state), Handed(r.1, hold))
    {
      if bit {
        onesRun := onesRun + 1;
        if onesRun >= 32 {
          FramingReset();
          onesRun := 32;
          return;
        }
      } else {
        onesRun := 0;
      }
      if !recording {
        if bit {
          return;
        }
        recording, bitIndex, packet := true, 0, ZERO;
      }
      if bit {
        packet := packet[bitIndex := true];
      }
      bitIndex := bitIndex + 1;
      if bitIndex == 32 {
        HandleWhole(hold);
        FramingReset();
      }
    }

    method HandleWhole(hold: bool)
      requires state.position < 128
      modifies this`state, this`sent
      ensures state == Last(old(state), [Packet(packet, hold)]) && state.position < 128
      ensures sent == old(sent) + AllSent(old(state), [Packet(packet, hold)])
    {
      ghost var w := state;
      assert [Packet(packet, hold)][1..] == [];
      assert AllSent(w, [Packet(packet, hold)]) == Sent(w, Packet(packet, hold)) + [];
      HandlePacket(packet, hold);
    }

    method OnSample(s: Sample)
      requires Valid()
      modifies this
      ensures Valid() && prevClock == s.clock
      ensures if s.clock && !old(prevClock) then
                var r := OnEdge(old(Frame()), Edge(s.data, Late(s.tick, old(lastRise))));
                && lastRise == s.tick && Frame() == r.0
                && state == Last(old(state), Handed(r.1, s.hold))
                && sent == old(sent) + AllSent(old(state), Handed(r.1, s.hold))
              else lastRise == old(lastRise) && Frame() == old(Frame()) && state == old(state) && sent == old(sent)
    {
      if s.clock && !prevClock {
        if recording && Late(s.tick, lastRise) {
          FramingReset();
        }
        lastRise := s.tick;
        OnBit(s.data, s.hold);
      }
      prevClock := s.clock;
    }

    /** A batch of samples: the framing, the state and what is sent are those of the edges and packets in it. */
    method SamplesCb(samples: seq<Sample>)
      requires Valid()
      modifies this
      ensures Valid()
      ensures var rises := Rises(samples, old(prevClock), old(lastRise));
              && Frame() == After(old(Frame()), EdgesIn(rises))
              && state == Last(old(state), Packets(old(Frame()), rises))
              && sent == old(sent) + AllSent(old(state), Packets(old(Frame()), rises))
      ensures prevClock == (if samples == [] then old(prevClock) else samples[|samples| - 1].clock)
      ensures lastRise == LastRise(samples, old(prevClock), old(lastRise))
    {
      var i := 0;
      ghost var all := Rises(samples, prevClock, lastRise);
      ghost var rest := all;
      ghost var end := Ending(After(Frame(), EdgesIn(all)), Last(state, Packets(Frame(), all)), sent + AllSent(state, Packets(Frame(), all)));
      while i < |samples|
        invariant 0 <= i <= |samples| && Valid()
        invariant rest == Rises(samples[i..], prevClock, lastRise)
        invariant StillToCome(Frame(), state, sent, rest, end)
        invariant prevClock == (if i == 0 then old(prevClock) else samples[i - 1].clock)
        invariant LastRise(samples[i..], prevClock, lastRise) == LastRise(samples, old(prevClock), old(lastRise))
      {
        assert samples[i..][1..] == samples[i + 1..];
        ghost var f, w, told := Frame(), state, sent;
        ghost var rise := Rise(Edge(samples[i].data, Late(samples[i].tick, lastRise)), samples[i].hold);
        ghost var rises := samples[i].clock && !prevClock;
        OnSample(samples[i]);
        ghost var tail := Rises(samples[i + 1..], prevClock, lastRise);
        if rises {
          OneRise(f, w, told, rise, tail, end);
        }
        rest := tail;
        i := i + 1;
      }
    }
  }

  /** With the buttons from the `i`th on still to do, what is sent comes to all of them. */
  predicate ToEmit(was: Buttons, next: Wheel, i: nat, before: seq<Event>, sent: seq<Event>) {
    i <= 5 && sent + ButtonEvents(was, next, i) == before + ButtonEvents(was, next, 0)
  }

  lemma OneButton(was: Buttons, next: Wheel, i: nat, before: seq<Event>, sent: seq<Event>)
    requires i < 5 && ToEmit(was, next, i, before, sent)
    ensures ToEmit(was, next, i + 1, before,
                   if was[i] != next.buttons[i] then sent + [Button(i, next.buttons[i], next.position)] else sent)
  {
    var rest := ButtonEvents(was, next, i + 1);
    if was[i] != next.buttons[i] {
      var e := Button(i, next.buttons[i], next.position);
      assert sent + ([e] + rest) == (sent + [e]) + rest;
    } else {
      assert [] + rest == rest;
    }
  }

  datatype Ending = Ending(frame: Framing, wheel: Wheel, sent: seq<Event>)

  /** With the rises still to come, this is the end. */
  ghost predicate StillToCome(f: Framing, w: Wheel, sent: seq<Event>, rest: seq<Rise>, end: Ending) {
    && f.Valid() && w.position < 128
    && After(f, EdgesIn(rest)) == end.frame
    && Last(w, Packets(f, rest)) == end.wheel
    && sent + AllSent(w, Packets(f, rest)) == end.sent
  }

  lemma OneRise(f: Framing, w: Wheel, sent: seq<Event>, rise: Rise, tail: seq<Rise>, end: Ending)
    requires StillToCome(f, w, sent, [rise] + tail, end)
    ensures var r := OnEdge(f, rise.edge);
            var handed := Handed(r.1, rise.hold);
            StillToCome(r.0, Last(w, handed), sent + AllSent(w, handed), tail, end)
  {
    var r := OnEdge(f, rise.edge);
    FirstRise(f, rise, tail);
    SentInTurn(w, Handed(r.1, rise.hold), Packets(r.0, tail), sent);
  }

  lemma FirstRise(f: Framing, rise: Rise, tail: seq<Rise>)
    requires f.Valid()
    ensures var r := OnEdge(f, rise.edge);
            && Packets(f, [rise] + tail) == Handed(r.1, rise.hold) + Packets(r.0, tail)
            && After(f, EdgesIn([rise] + tail)) == After(r.0, EdgesIn(tail))
  {
    assert ([rise] + tail)[1..] == tail;
    assert EdgesIn([rise] + tail)[1..] == EdgesIn(tail);
  }

  /** Packets one after another, after what was sent before. */
  lemma {:induction false} SentInTurn(w: Wheel, a: seq<Packet>, b: seq<Packet>, before: seq<Event>)
    requires w.position < 128
    ensures Last(w, a + b) == Last(Last(w, a), b)
    ensures before + AllSent(w, a + b) == before + AllSent(w, a) + AllSent(Last(w, a), b)
    decreases |a|
  {
    if a == [] {
      assert a + b == b;
      assert before + [] == before;
    } else {
      assert (a + b)[1..] == a[1..] + b;
      var first := Sent(w, a[0]);
      SentInTurn(Next(w, a[0]), a[1..], b, before + first);
      Regroup(before, first, AllSent(Next(w, a[0]), a[1..] + b));
      Regroup(before, first, AllSent(Next(w, a[0]), a[1..]));
    }
  }

  lemma Regroup(a: seq<Event>, b: seq<Event>, c: seq<Event>)
    ensures a + (b + c) == a + b + c
  {
  }
}
