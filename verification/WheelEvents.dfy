/**
 What daemon/rpod-wheel.c tells its clients: the differences between one packet's state
 and the next, and what a client that only sees these events can rely on.
 */
module WheelEvents {
  import opened Wrappers
  import opened WheelFraming
  import opened Powers

  /** Buttons by code: centre, left, right, up, down. */
  type Buttons = b: seq<bool> | |b| == 5 witness [false, false, false, false, false]

  const NONE_DOWN: Buttons := [false, false, false, false, false]
  const RING: nat := 96

  datatype Wheel = Wheel(buttons: Buttons, touched: bool, position: nat)

  datatype Event = Button(code: nat, down: bool, position: nat) | Touch(down: bool, position: nat) | Turn(delta: int, position: nat)

  /** The packet's bit for each button, by code. */
  function ButtonBit(code: nat): nat
    requires code < 5
  {
    if code == 0 then 8 else if code == 1 then 10 else if code == 2 then 9 else if code == 3 then 12 else 11
  }

  function Bit(b: bool): nat {
    if b then 1 else 0
  }

  /** The low byte is 0x1A and the top bit set. */
  predicate Preamble(w: Word) {
    !w[0] && w[1] && !w[2] && w[3] && w[4] && !w[5] && !w[6] && !w[7] && w[31]
  }

  /** Bits 16 to 22, the lowest first. */
  function Position(w: Word): (p: nat)
    ensures p < 128
  {
    Bit(w[16]) + 2 * Bit(w[17]) + 4 * Bit(w[18]) + 8 * Bit(w[19]) + 16 * Bit(w[20]) + 32 * Bit(w[21]) + 64 * Bit(w[22])
  }

  function Decoded(w: Word): Wheel {
    Wheel([w[8], w[10], w[9], w[12], w[11]], w[30], Position(w))
  }

  /** The bit number `k` of a number, the lowest being 0. */
  function FlagAt(p: nat, k: nat): bool
    decreases k
  {
    if k == 0 then p % 2 == 1 else FlagAt(p / 2, k - 1)
  }

  function Flags(p: nat, n: nat): (s: seq<bool>)
    ensures |s| == n && forall k :: 0 <= k < n ==> s[k] == FlagAt(p, k)
  {
    seq(n, k requires 0 <= k < n => FlagAt(p, k))
  }

  /** The number whose bits are those of the word from the `i`th on, the lowest first. */
  function ValueAt(word: Word, i: nat, n: nat): (v: nat)
    requires i + n <= 32
    decreases n
  {
    if n == 0 then 0 else Bit(word[i]) + 2 * ValueAt(word, i + 1, n - 1)
  }

  lemma {:induction false} FlagsValue(word: Word, i: nat, n: nat, p: nat)
    requires i + n <= 32 && p < Pow2(n) && forall k :: 0 <= k < n ==> word[i + k] == FlagAt(p, k)
    ensures ValueAt(word, i, n) == p
    decreases n
  {
    if n > 0 {
      assert word[i + 0] == FlagAt(p, 0);
      forall k | 0 <= k < n - 1 ensures word[i + 1 + k] == FlagAt(p / 2, k) {
        assert word[i + (k + 1)] == FlagAt(p, k + 1);
      }
      FlagsValue(word, i + 1, n - 1, p / 2);
    }
  }

  lemma {:induction false} ValueFlags(word: Word, i: nat, n: nat, k: nat)
    requires i + n <= 32 && k < n
    ensures FlagAt(ValueAt(word, i, n), k) == word[i + k]
    decreases n
  {
    if k > 0 {
      ValueFlags(word, i + 1, n - 1, k - 1);
    }
  }

  /** The packet of a wheel's state, with whatever the bits hold that mean nothing. */
  function Encoded(w: Wheel, spare: Word): (word: Word)
    requires w.position < 128
  {
    PREAMBLE + ButtonBits(w.buttons, spare) + (Flags(w.position, 7) + spare[23..30]) + [w.touched, true]
  }

  const PREAMBLE: seq<bool> := [false, true, false, true, true, false, false, false]

  function ButtonBits(b: Buttons, spare: Word): (s: seq<bool>)
    ensures |s| == 8
  {
    [b[0], b[2], b[1], b[4], b[3], spare[13], spare[14], spare[15]]
  }

  lemma PositionIs(word: Word)
    ensures Position(word) == ValueAt(word, 16, 7)
  {
    assert ValueAt(word, 20, 3) == Bit(word[20]) + 2 * (Bit(word[21]) + 2 * (Bit(word[22]) + 2 * ValueAt(word, 23, 0)));
    assert ValueAt(word, 16, 7)
        == Bit(word[16]) + 2 * (Bit(word[17]) + 2 * (Bit(word[18]) + 2 * (Bit(word[19]) + 2 * ValueAt(word, 20, 3))));
  }

  /** The parts of a packet that say what the wheel is at. */
  predicate SaysOf(word: Word, w: Wheel) {
    && Preamble(word) && word[30] == w.touched && (forall k :: 0 <= k < 7 ==> word[16 + k] == FlagAt(w.position, k))
    && word[8] == w.buttons[0] && word[9] == w.buttons[2] && word[10] == w.buttons[1]
    && word[11] == w.buttons[4] && word[12] == w.buttons[3]
  }

  lemma EncodedSays(w: Wheel, spare: Word)
    requires w.position < 128
    ensures SaysOf(Encoded(w, spare), w)
  {
    var word := Encoded(w, spare);
    InPlace(PREAMBLE, ButtonBits(w.buttons, spare), Flags(w.position, 7) + spare[23..30], [w.touched, true]);
    forall k | 0 <= k < 7 ensures word[16 + k] == FlagAt(w.position, k) {
      assert word[16 + k] == word[16..30][k];
    }
    SaidByParts(word, w, spare);
  }

  lemma InPlace(a: seq<bool>, b: seq<bool>, c: seq<bool>, d: seq<bool>)
    requires |a| == |b| == 8 && |c| == 14 && |d| == 2
    ensures var word := a + b + c + d;
            word[..8] == a && word[8..16] == b && word[16..30] == c && word[30..] == d
  {
  }

  lemma SaidByParts(word: Word, w: Wheel, spare: Word)
    requires word[..8] == PREAMBLE && word[8..16] == ButtonBits(w.buttons, spare) && word[30..] == [w.touched, true]
    requires (forall k :: 0 <= k < 7 ==> word[16 + k] == FlagAt(w.position, k))
    ensures SaysOf(word, w)
  {
    var a, b := word[..8], word[8..16];
    assert word[0] == a[0] && word[1] == a[1] && word[2] == a[2] && word[3] == a[3];
    assert word[4] == a[4] && word[5] == a[5] && word[6] == a[6] && word[7] == a[7];
    assert word[8] == b[0] && word[9] == b[1] && word[10] == b[2] && word[11] == b[3] && word[12] == b[4];
    assert word[30..][0] == word[30] && word[30..][1] == word[31];
  }

  lemma SaidDecodes(word: Word, w: Wheel)
    requires w.position < 128 && SaysOf(word, w)
    ensures Decoded(word) == w
  {
    PositionIs(word);
    assert Pow2(7) == 128;
    FlagsValue(word, 16, 7, w.position);
    assert w.buttons == [w.buttons[0], w.buttons[1], w.buttons[2], w.buttons[3], w.buttons[4]];
  }

  /** Every state's packet is taken for one, and decodes to that state. */
  lemma EncodedDecodes(w: Wheel, spare: Word)
    requires w.position < 128
    ensures Preamble(Encoded(w, spare)) && Decoded(Encoded(w, spare)) == w
  {
    EncodedSays(w, spare);
    SaidDecodes(Encoded(w, spare), w);
  }

  /** And whatever is taken for a packet is the packet of the state it decodes to. */
  lemma DecodedEncodes(word: Word)
    requires Preamble(word)
    ensures Encoded(Decoded(word), word) == word
  {
    PositionIs(word);
    forall k | 0 <= k < 7 ensures FlagAt(Position(word), k) == word[16 + k] {
      ValueFlags(word, 16, 7, k);
    }
    assert word[16..23] == Flags(Position(word), 7);
    assert word[..8] == PREAMBLE;
    assert word[8..16] == ButtonBits(Decoded(word).buttons, word);
    assert word[16..30] == word[16..23] + word[23..30];
    assert word[30..] == [word[30], true];
    assert word == word[..8] + word[8..16] + word[16..30] + word[30..];
  }

  /** `wheel_delta`: the way round the ring that is the shorter. */
  function Delta(curr: nat, prev: nat): (d: int)
    requires curr < 128 && prev < 128
    ensures -48 <= d <= 48 && (d - (curr - prev)) % RING == 0
    ensures -48 <= curr - prev <= 48 ==> d == curr - prev
  {
    var d := curr - prev;
    if d > RING / 2 then d - RING else if d < -(RING / 2) then d + RING else d
  }

  // --- What is sent ---

  /** The buttons' events from the `i`th on. */
  function ButtonEvents(was: Buttons, next: Wheel, i: nat): seq<Event>
    requires i <= 5
    decreases 5 - i
  {
    if i == 5 then []
    else (if was[i] != next.buttons[i] then [Button(i, next.buttons[i], next.position)] else []) + ButtonEvents(was, next, i + 1)
  }

  predicate Turned(was: Wheel, next: Wheel, rotate: bool) {
    rotate && was.touched && next.touched && next.position != was.position
  }

  function TouchEvents(was: Wheel, next: Wheel): seq<Event> {
    if was.touched != next.touched then [Touch(next.touched, next.position)] else []
  }

  function TurnEvents(was: Wheel, next: Wheel, rotate: bool): seq<Event>
    requires was.position < 128 && next.position < 128
  {
    if Turned(was, next, rotate) then [Turn(Delta(next.position, was.position), next.position)] else []
  }

  /** `apply_state`. */
  function Report(was: Wheel, next: Wheel, rotate: bool): seq<Event>
    requires was.position < 128 && next.position < 128
  {
    ButtonEvents(was.buttons, next, 0) + (TouchEvents(was, next) + TurnEvents(was, next, rotate))
  }

  /** A packet, and whether the hold switch is on as it comes. */
  datatype Packet = Packet(word: Word, hold: bool)

  /** What the packet makes of the wheel: under hold, an idle one. */
  function Taken(p: Packet): (w: Wheel)
    ensures w.position < 128
  {
    if p.hold then Wheel(NONE_DOWN, false, Position(p.word)) else Decoded(p.word)
  }

  /** `handle_packet`. */
  function Next(w: Wheel, p: Packet): Wheel {
    if Preamble(p.word) then Taken(p) else w
  }

  function Sent(w: Wheel, p: Packet): seq<Event>
    requires w.position < 128
  {
    if Preamble(p.word) then Report(w, Taken(p), !p.hold) else []
  }

  function Last(w: Wheel, packets: seq<Packet>): (r: Wheel)
    requires w.position < 128
    ensures r.position < 128
    decreases |packets|
  {
    if packets == [] then w else Last(Next(w, packets[0]), packets[1..])
  }

  function AllSent(w: Wheel, packets: seq<Packet>): seq<Event>
    requires w.position < 128
    decreases |packets|
  {
    if packets == [] then [] else Sent(w, packets[0]) + AllSent(Next(w, packets[0]), packets[1..])
  }

  // --- What a client makes of it ---

  /** A client's picture: the buttons and the touch, and where the turns since the touch have brought it from
      where the finger came down. */
  datatype Picture = Picture(buttons: Buttons, touched: bool, at: int)

  /** An event is news: a press of a button that was up, a release of one that was down, a turn under a finger,
      by no more than half the ring. */
  predicate IsNews(p: Picture, e: Event) {
    match e
    case Button(code, down, _) => code < 5 && p.buttons[code] != down
    case Touch(down, _) => p.touched != down
    case Turn(delta, _) => p.touched && -48 <= delta <= 48
  }

  function See(p: Picture, e: Event): Picture
    requires IsNews(p, e)
  {
    match e
    case Button(code, down, _) => p.(buttons := p.buttons[code := down])
    case Touch(down, position) => p.(touched := down, at := position)
    case Turn(delta, _) => p.(at := p.at + delta)
  }

  /** Every event is news in its turn, so a button's presses and releases strictly alternate. */
  predicate AllNews(p: Picture, events: seq<Event>)
    decreases |events|
  {
    events == [] || (IsNews(p, events[0]) && AllNews(See(p, events[0]), events[1..]))
  }

  function SeeAll(p: Picture, events: seq<Event>): Picture
    requires AllNews(p, events)
    decreases |events|
  {
    if events == [] then p else SeeAll(See(p, events[0]), events[1..])
  }

  /** The picture is the wheel as the daemon has it, the position up to whole turns of the ring. */
  predicate Shows(p: Picture, w: Wheel) {
    p.buttons == w.buttons && p.touched == w.touched && (w.touched ==> SamePlace(p.at, w.position))
  }

  predicate SamePlace(at: int, position: nat) {
    (at - position) % RING == 0
  }

  lemma {:induction false} SeenInTurn(p: Picture, a: seq<Event>, b: seq<Event>)
    requires AllNews(p, a) && AllNews(SeeAll(p, a), b)
    ensures AllNews(p, a + b) && SeeAll(p, a + b) == SeeAll(SeeAll(p, a), b)
    decreases |a|
  {
    if a == [] {
      assert a + b == b;
    } else {
      assert (a + b)[1..] == a[1..] + b;
      SeenInTurn(See(p, a[0]), a[1..], b);
    }
  }

  lemma SeenOne(p: Picture, e: Event)
    requires IsNews(p, e)
    ensures AllNews(p, [e]) && SeeAll(p, [e]) == See(p, e)
  {
    assert [e][1..] == [];
  }

  lemma {:induction false} ButtonsSeen(p: Picture, was: Buttons, next: Wheel, i: nat)
    requires i <= 5 && p.buttons == next.buttons[..i] + was[i..]
    ensures AllNews(p, ButtonEvents(was, next, i))
    ensures SeeAll(p, ButtonEvents(was, next, i)) == p.(buttons := next.buttons)
    decreases 5 - i
  {
    if i < 5 {
      var rest := ButtonEvents(was, next, i + 1);
      Mixed(next.buttons, was, i);
      if was[i] != next.buttons[i] {
        var e := Button(i, next.buttons[i], next.position);
        SeenOne(p, e);
        ButtonsSeen(See(p, e), was, next, i + 1);
        SeenInTurn(p, [e], rest);
      } else {
        assert p.buttons[i := next.buttons[i]] == p.buttons;
        ButtonsSeen(p, was, next, i + 1);
        assert [] + rest == rest;
      }
    }
  }

  lemma TouchSeen(p: Picture, was: Wheel, next: Wheel, rotate: bool)
    requires was.position < 128 && next.position < 128 && p.buttons == next.buttons && p.touched == was.touched
    requires was.touched ==> SamePlace(p.at, was.position)
    requires was.touched && next.touched ==> rotate
    ensures var events := TouchEvents(was, next) + TurnEvents(was, next, rotate);
            AllNews(p, events) && Shows(SeeAll(p, events), next)
  {
    var events := TouchEvents(was, next) + TurnEvents(was, next, rotate);
    if was.touched != next.touched {
      assert events == [Touch(next.touched, next.position)];
      SeenOne(p, events[0]);
    } else if Turned(was, next, rotate) {
      assert events == [Turn(Delta(next.position, was.position), next.position)];
      SeenOne(p, events[0]);
      SameTurn(p.at, was.position, next.position);
    } else {
      assert events == [];
    }
  }

  lemma SameTurn(at: int, prev: nat, curr: nat)
    requires prev < 128 && curr < 128 && SamePlace(at, prev)
    ensures SamePlace(at + Delta(curr, prev), curr)
  {
    var d := Delta(curr, prev);
    assert at + d - curr == (at - prev) + (d - (curr - prev));
  }

  lemma PacketSeen(p: Picture, w: Wheel, packet: Packet)
    requires w.position < 128 && Shows(p, w)
    ensures AllNews(p, Sent(w, packet)) && Shows(SeeAll(p, Sent(w, packet)), Next(w, packet))
  {
    if Preamble(packet.word) {
      var next := Taken(packet);
      ButtonsSeen(p, w.buttons, next, 0);
      TouchSeen(p.(buttons := next.buttons), w, next, !packet.hold);
      SeenInTurn(p, ButtonEvents(w.buttons, next, 0), TouchEvents(w, next) + TurnEvents(w, next, !packet.hold));
    }
  }

  /** Through any packets, good, corrupt or under hold: every event is news to a client that has seen all before
      it, and what the client then pictures is what the daemon last took from the wheel. */
  lemma {:induction false} ClientsKnow(p: Picture, w: Wheel, packets: seq<Packet>)
    requires w.position < 128 && Shows(p, w)
    ensures AllNews(p, AllSent(w, packets)) && Shows(SeeAll(p, AllSent(w, packets)), Last(w, packets))
    decreases |packets|
  {
    if packets != [] {
      var first := Sent(w, packets[0]);
      PacketSeen(p, w, packets[0]);
      ClientsKnow(SeeAll(p, first), Next(w, packets[0]), packets[1..]);
      SeenInTurn(p, first, AllSent(Next(w, packets[0]), packets[1..]));
    }
  }

  /** While the hold switch is on nothing is pressed, touched or turned, and only the first packet under it
      says anything. */
  lemma HoldIsQuiet(w: Wheel, packet: Packet)
    requires w.position < 128 && packet.hold
    ensures forall e :: e in Sent(w, packet) ==> !e.Turn? && !e.down
    ensures w.buttons == NONE_DOWN && !w.touched ==> Sent(w, packet) == []
  {
    OnlyReleases(w.buttons, Taken(packet), 0);
  }

  lemma {:induction false} OnlyReleases(was: Buttons, next: Wheel, i: nat)
    requires i <= 5 && next.buttons == NONE_DOWN
    ensures forall e :: e in ButtonEvents(was, next, i) ==> e.Button? && !e.down
    ensures was == NONE_DOWN ==> ButtonEvents(was, next, i) == []
    decreases 5 - i
  {
    if i < 5 {
      OnlyReleases(was, next, i + 1);
    }
  }

  /** A packet like the last one says nothing, whatever it was. */
  lemma RepeatIsQuiet(w: Wheel, packet: Packet)
    requires w.position < 128
    ensures Sent(Next(w, packet), packet) == []
  {
    if Preamble(packet.word) {
      NoButtons(Taken(packet), 0);
    }
  }

  lemma {:induction false} NoButtons(w: Wheel, i: nat)
    requires i <= 5
    ensures ButtonEvents(w.buttons, w, i) == []
    decreases 5 - i
  {
    if i < 5 {
      NoButtons(w, i + 1);
    }
  }
}
