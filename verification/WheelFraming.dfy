/**
 How daemon/rpod-wheel.c finds the packets in the click wheel's bits: 32 one-bits, or a
 pause between two clock edges, end whatever was being recorded, and a packet begins with
 the first zero after that. A packet is its 32 bits in the order they arrive.
 */
module WheelFraming {
  import opened Wrappers

  /** The word whose bit n is the (n+1)th to arrive. */
  type Word = w: seq<bool> | |w| == 32 witness seq(32, _ => false)

  const ZERO: Word := Zeros(32)

  function Zeros(n: nat): (z: seq<bool>)
    ensures |z| == n && forall i :: 0 <= i < n ==> !z[i]
  {
    seq(n, _ => false)
  }

  /** A rising clock edge: the data line, and whether it comes late after the one before. */
  datatype Edge = Edge(bit: bool, late: bool)

  datatype Framing = Framing(recording: bool, index: nat, packet: Word, ones: nat) {
    predicate Valid() {
      index < 32 && ones <= 32
    }
  }

  /** `framing_reset`. */
  function Reset(f: Framing): Framing {
    f.(recording := false, index := 0, packet := ZERO)
  }

  /** `on_bit`: the framing after it, and the packet it completes. */
  function OnBit(f: Framing, bit: bool): (r: (Framing, Option<Word>))
    requires f.Valid()
    ensures r.0.Valid()
  {
    var ones := if bit then f.ones + 1 else 0;
    if ones >= 32 then (Reset(f).(ones := 32), None)
    else if !f.recording && bit then (f.(ones := ones), None)
    else
      var index := if f.recording then f.index else 0;
      var was := if f.recording then f.packet else ZERO;
      var packet: Word := if bit then was[index := true] else was;
      if index + 1 == 32 then (Reset(f).(ones := ones), Some(packet))
      else (Framing(true, index + 1, packet, ones), None)
  }

  function OnEdge(f: Framing, e: Edge): (r: (Framing, Option<Word>))
    requires f.Valid()
    ensures r.0.Valid()
  {
    OnBit(if e.late && f.recording then Reset(f) else f, e.bit)
  }

  function After(f: Framing, edges: seq<Edge>): (r: Framing)
    requires f.Valid()
    ensures r.Valid()
    decreases |edges|
  {
    if edges == [] then f else After(OnEdge(f, edges[0]).0, edges[1..])
  }

  function Found(o: Option<Word>): seq<Word> {
    if o.Some? then [o.value] else []
  }

  /** The packets a stretch of edges completes. */
  function Words(f: Framing, edges: seq<Edge>): seq<Word>
    requires f.Valid()
    decreases |edges|
  {
    if edges == [] then [] else Found(OnEdge(f, edges[0]).1) + Words(OnEdge(f, edges[0]).0, edges[1..])
  }

  lemma {:induction false} Joined(f: Framing, a: seq<Edge>, b: seq<Edge>)
    requires f.Valid()
    ensures After(f, a + b) == After(After(f, a), b)
    ensures Words(f, a + b) == Words(f, a) + Words(After(f, a), b)
    decreases |a|
  {
    if a == [] {
      assert a + b == b;
    } else {
      assert (a + b)[0] == a[0] && (a + b)[1..] == a[1..] + b;
      Joined(OnEdge(f, a[0]).0, a[1..], b);
    }
  }

  // --- Streams of packets ---

  /** A packet on the wire: one-bits before it, with pauses anywhere among them and before its first bit, and then
      its bits, of which the first is zero, without a pause. */
  datatype Burst = Burst(before: seq<bool>, late: bool, word: Word) {
    predicate Proper() {
      !word[0]
    }
  }

  function OnesOf(lates: seq<bool>): (r: seq<Edge>)
    ensures |r| == |lates| && forall i :: 0 <= i < |r| ==> r[i] == Edge(true, lates[i])
  {
    seq(|lates|, i requires 0 <= i < |lates| => Edge(true, lates[i]))
  }

  function BitsOf(bits: seq<bool>): (r: seq<Edge>)
    ensures |r| == |bits| && forall i :: 0 <= i < |r| ==> r[i] == Edge(bits[i], false)
  {
    seq(|bits|, i requires 0 <= i < |bits| => Edge(bits[i], false))
  }

  function EdgesOf(b: Burst): seq<Edge> {
    OnesOf(b.before) + PacketEdges(b.late, b.word)
  }

  function PacketEdges(late: bool, w: Word): seq<Edge> {
    [Edge(w[0], late)] + BitsOf(w[1..])
  }

  function StreamOf(bursts: seq<Burst>): seq<Edge> {
    if bursts == [] then [] else EdgesOf(bursts[0]) + StreamOf(bursts[1..])
  }

  function WordsOf(bursts: seq<Burst>): seq<Word> {
    if bursts == [] then [] else [bursts[0].word] + WordsOf(bursts[1..])
  }

  /** One-bits between packets do nothing. */
  lemma {:induction false} OnesPass(f: Framing, lates: seq<bool>)
    requires f.Valid() && !f.recording
    ensures Words(f, OnesOf(lates)) == [] && !After(f, OnesOf(lates)).recording
    decreases |lates|
  {
    if lates != [] {
      var edges := OnesOf(lates);
      assert edges[1..] == OnesOf(lates[1..]);
      OnesPass(OnEdge(f, edges[0]).0, lates[1..]);
    }
  }

  predicate Recorded(f: Framing, w: Word, k: nat) {
    1 <= k < 32 && f.recording && f.index == k && f.ones < k && f.packet == w[..k] + Zeros(32 - k)
  }

  /** From its first bit on, a packet is recorded to its last, and can not be taken for 32 one-bits. */
  lemma {:induction false} PacketPasses(f: Framing, w: Word, k: nat)
    requires f.Valid() && Recorded(f, w, k)
    ensures Words(f, BitsOf(w[k..])) == [w] && !After(f, BitsOf(w[k..])).recording
    decreases 32 - k
  {
    var edges := BitsOf(w[k..]);
    var next := OnEdge(f, edges[0]).0;
    assert edges[0] == Edge(w[k], false);
    assert edges[1..] == BitsOf(w[k + 1..]);
    var packet := if w[k] then f.packet[k := true] else f.packet;
    assert packet == w[..k + 1] + Zeros(31 - k);
    if k == 31 {
      assert w[..32] + Zeros(0) == w;
      assert w[k + 1..] == [];
    } else {
      PacketPasses(next, w, k + 1);
    }
  }

  lemma PacketGives(f: Framing, late: bool, w: Word)
    requires f.Valid() && !f.recording && !w[0]
    ensures Words(f, PacketEdges(late, w)) == [w] && !After(f, PacketEdges(late, w)).recording
  {
    var first := [Edge(w[0], late)];
    FirstBit(f, late, w);
    PacketPasses(After(f, first), w, 1);
    Joined(f, first, BitsOf(w[1..]));
  }

  lemma BurstPasses(f: Framing, b: Burst)
    requires f.Valid() && !f.recording && b.Proper()
    ensures Words(f, EdgesOf(b)) == [b.word] && !After(f, EdgesOf(b)).recording
  {
    OnesPass(f, b.before);
    PacketGives(After(f, OnesOf(b.before)), b.late, b.word);
    Joined(f, OnesOf(b.before), PacketEdges(b.late, b.word));
  }

  lemma FirstBit(f: Framing, late: bool, w: Word)
    requires f.Valid() && !f.recording && !w[0]
    ensures Words(f, [Edge(false, late)]) == [] && Recorded(After(f, [Edge(false, late)]), w, 1)
  {
    var edges := [Edge(false, late)];
    assert edges[1..] == [];
    assert ZERO == w[..1] + Zeros(31);
  }

  /** Between packets, a stream of packets gives exactly those, once each and in order. */
  lemma {:induction false} StreamPasses(f: Framing, bursts: seq<Burst>)
    requires f.Valid() && !f.recording && forall i :: 0 <= i < |bursts| ==> bursts[i].Proper()
    ensures Words(f, StreamOf(bursts)) == WordsOf(bursts) && !After(f, StreamOf(bursts)).recording
    decreases |bursts|
  {
    if bursts != [] {
      BurstPasses(f, bursts[0]);
      StreamPasses(After(f, EdgesOf(bursts[0])), bursts[1..]);
      Joined(f, EdgesOf(bursts[0]), StreamOf(bursts[1..]));
    }
  }

  // --- Synchronising ---

  /** After 32 one-bits the decoder is between packets, whatever it was at before; at most one packet that it
      was at comes of them. */
  lemma {:induction false} OnesSettle(f: Framing, lates: seq<bool>)
    requires f.Valid()
    ensures f.ones + |lates| >= 32 && |lates| > 0 ==> !After(f, OnesOf(lates)).recording
    ensures |Words(f, OnesOf(lates))| <= (if f.recording then 1 else 0)
    decreases |lates|
  {
    if lates != [] {
      var edges := OnesOf(lates);
      assert edges[1..] == OnesOf(lates[1..]);
      var g := OnEdge(f, edges[0]).0;
      if g.recording {
        OnesSettle(g, lates[1..]);
      } else {
        OnesPass(g, lates[1..]);
      }
    }
  }

  /** From any state, 32 one-bits and then a stream of packets: exactly those packets follow the one-bits. */
  lemma SynchronisedByOnes(f: Framing, lates: seq<bool>, bursts: seq<Burst>)
    requires f.Valid() && |lates| >= 32 && forall i :: 0 <= i < |bursts| ==> bursts[i].Proper()
    ensures |Words(f, OnesOf(lates))| <= 1
    ensures Words(f, OnesOf(lates) + StreamOf(bursts)) == Words(f, OnesOf(lates)) + WordsOf(bursts)
  {
    OnesSettle(f, lates);
    Joined(f, OnesOf(lates), StreamOf(bursts));
    StreamPasses(After(f, OnesOf(lates)), bursts);
  }

  /** From any state, a stream of packets whose first edge is late gives exactly those packets. */
  lemma SynchronisedByPause(f: Framing, bursts: seq<Burst>)
    requires f.Valid() && bursts != [] && forall i :: 0 <= i < |bursts| ==> bursts[i].Proper()
    requires StreamOf(bursts)[0].late
    ensures Words(f, StreamOf(bursts)) == WordsOf(bursts)
  {
    var edges := StreamOf(bursts);
    if f.recording {
      assert OnEdge(f, edges[0]) == OnEdge(Reset(f), edges[0]);
      StreamPasses(Reset(f), bursts);
    } else {
      StreamPasses(f, bursts);
    }
  }

  /** A packet cut short by a pause is lost, and nothing else: the next is taken whole. */
  lemma CutShort(f: Framing, w: Word, k: nat, bursts: seq<Burst>)
    requires f.Valid() && !f.recording && !w[0] && 1 <= k < 32
    requires bursts != [] && StreamOf(bursts)[0].late && forall i :: 0 <= i < |bursts| ==> bursts[i].Proper()
    ensures Words(f, BitsOf(w[..k]) + StreamOf(bursts)) == WordsOf(bursts)
  {
    Joined(f, BitsOf(w[..k]), StreamOf(bursts));
    NoneYet(f, w, k);
    SynchronisedByPause(After(f, BitsOf(w[..k])), bursts);
  }

  lemma {:induction false} NoneYet(f: Framing, w: Word, k: nat)
    requires f.Valid() && !f.recording && !w[0] && 1 <= k < 32
    ensures Words(f, BitsOf(w[..k])) == [] && Recorded(After(f, BitsOf(w[..k])), w, k)
    decreases k
  {
    if k == 1 {
      FirstBit(f, false, w);
      assert BitsOf(w[..1]) == [Edge(false, false)];
    } else {
      NoneYet(f, w, k - 1);
      OneMore(After(f, BitsOf(w[..k - 1])), w, k - 1);
      Joined(f, BitsOf(w[..k - 1]), [Edge(w[k - 1], false)]);
      BitsOn(w, k - 1);
    }
  }

  lemma BitsOn(w: seq<bool>, k: nat)
    requires k < |w|
    ensures BitsOf(w[..k + 1]) == BitsOf(w[..k]) + [Edge(w[k], false)]
  {
    assert w[..k + 1] == w[..k] + [w[k]];
  }

  lemma OneMore(f: Framing, w: Word, k: nat)
    requires f.Valid() && Recorded(f, w, k) && k < 31
    ensures Words(f, [Edge(w[k], false)]) == [] && Recorded(After(f, [Edge(w[k], false)]), w, k + 1)
  {
    var edges := [Edge(w[k], false)];
    assert edges[1..] == [];
    var packet := if w[k] then f.packet[k := true] else f.packet;
    assert packet == w[..k + 1] + Zeros(31 - k);
  }
}
