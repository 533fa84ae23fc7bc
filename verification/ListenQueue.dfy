/**
 The durable queue of src/audio/listenbrainz.c: listens appended to a file, and a worker
 that posts them oldest first and then takes out of the file what it posted, while more
 may be appended. Each event is one section under the lock, or one post.
 */
module ListenQueue {
  import opened Wrappers

  const FILE_CAP: nat := 2000

  type Line = seq<byte>

  /** What a flush is at: the lines it read, how many of them were accepted, and whether a post failed. */
  datatype Flush = Idle | Posting(lines: seq<Line>, sent: nat, stopped: bool)

  /** The file and the flush; and for the proofs: all that was ever appended, where in it the flush began, the
      positions accepted by the server in the order they were, and those the cap pushed out. */
  datatype State = State(
    file: seq<Line>, flush: Flush,
    appended: seq<Line>, base: nat, posts: seq<nat>, evicted: set<int>)

  datatype Event = Append(line: Line, written: bool) | Read | Post(accepted: bool) | Write(written: bool) | Crash

  /** Where in all that was appended the file begins. */
  function Start(st: State): int {
    |st.appended| - |st.file|
  }

  /** The newest lines, as many as the cap lets in. */
  function Capped(lines: seq<Line>): seq<Line> {
    if |lines| > FILE_CAP then lines[|lines| - FILE_CAP..] else lines
  }

  predicate Overflows(st: State, e: Event) {
    e.Append? && e.written && |st.file| >= FILE_CAP
  }

  function Least(a: nat, b: nat): nat {
    if a < b then a else b
  }

  /** The positions from one up to another. */
  function Span(low: int, high: int): (r: set<int>)
    ensures forall j :: j in r <==> low <= j < high
    decreases high - low
  {
    if low >= high then {} else {low} + Span(low + 1, high)
  }

  predicate Enabled(st: State, e: Event) {
    match e
    case Append(_, _) => true
    case Read => st.flush == Idle
    case Post(_) => st.flush.Posting? && !st.flush.stopped && st.flush.sent < |st.flush.lines|
    case Write(_) => st.flush.Posting? && (st.flush.stopped || st.flush.sent == |st.flush.lines|)
    case Crash => true
  }

  predicate Wf(st: State) {
    Start(st) >= 0
  }

  function Apply(st: State, e: Event): State
    requires Enabled(st, e) && Wf(st)
  {
    match e
    case Append(line, written) =>
      if !written then st
      else st.(file := Capped(st.file + [line]), appended := st.appended + [line],
               evicted := st.evicted + Span(Start(st), Start(st) + |st.file| + 1 - |Capped(st.file + [line])|))
    case Read => st.(flush := Posting(st.file, 0, false), base := Start(st))
    case Post(accepted) =>
      if accepted then st.(flush := st.flush.(sent := st.flush.sent + 1), posts := st.posts + [st.base + st.flush.sent])
      else st.(flush := st.flush.(stopped := true))
    case Write(written) =>
      var remove := Least(st.flush.sent, |st.file|);
      st.(flush := Idle, file := if written then st.file[remove..] else st.file)
    case Crash => st.(flush := Idle)
  }

  // --- What every run keeps ---

  predicate Inv(st: State) {
    && Wf(st) && |st.file| <= FILE_CAP && st.file == st.appended[Start(st)..]
    && (st.flush.Posting? ==>
          && st.base <= Start(st) && st.base + |st.flush.lines| <= |st.appended| && st.flush.sent <= |st.flush.lines|
          && st.flush.lines == st.appended[st.base..st.base + |st.flush.lines|]
          && |st.flush.lines| <= FILE_CAP && (st.base < Start(st) ==> |st.file| == FILE_CAP))
    && (forall k :: 0 <= k < |st.posts| ==> st.posts[k] < |st.appended|)
    && (forall j :: j in st.evicted ==> j < Start(st))
  }

  const START: State := State([], Idle, [], 0, [], {})

  lemma AppendInv(st: State, line: Line)
    requires Inv(st)
    ensures Inv(Apply(st, Append(line, true)))
  {
    var next := Apply(st, Append(line, true));
    var start := Start(next);
    assert next.appended[..|st.appended|] == st.appended;
    assert st.file + [line] == next.appended[Start(st)..];
    if st.flush.Posting? {
      assert next.appended[st.base..st.base + |st.flush.lines|] == st.appended[st.base..st.base + |st.flush.lines|];
    }
  }

  lemma StepInv(st: State, e: Event)
    requires Inv(st) && Enabled(st, e)
    ensures Inv(Apply(st, e))
  {
    match e {
      case Append(line, written) =>
        if written {
          AppendInv(st, line);
        }
      case Read =>
      case Post(accepted) =>
      case Write(written) => WriteInv(st, written);
      case Crash =>
    }
  }

  lemma WriteInv(st: State, written: bool)
    requires Inv(st) && Enabled(st, Write(written))
    ensures Inv(Apply(st, Write(written)))
  {
    var remove := Least(st.flush.sent, |st.file|);
    assert st.file[remove..] == st.appended[Start(st) + remove..];
  }

  predicate Possible(st: State, events: seq<Event>)
    requires Wf(st)
    decreases |events|
  {
    events == [] || (Enabled(st, events[0]) && Wf(Apply(st, events[0])) && Possible(Apply(st, events[0]), events[1..]))
  }

  function Exec(st: State, events: seq<Event>): State
    requires Wf(st) && Possible(st, events)
    decreases |events|
  {
    if events == [] then st else Exec(Apply(st, events[0]), events[1..])
  }

  lemma {:induction false} RunInv(st: State, events: seq<Event>)
    requires Inv(st) && Possible(st, events)
    ensures Inv(Exec(st, events))
    decreases |events|
  {
    if events != [] {
      StepInv(st, events[0]);
      RunInv(Apply(st, events[0]), events[1..]);
    }
  }

  predicate Newest(file: seq<Line>, appended: seq<Line>) {
    |file| <= FILE_CAP && |file| <= |appended| && file == appended[|appended| - |file|..]
  }

  /** Whatever happens, the file is the newest part of what was appended, in order, and within the cap. */
  lemma FileIsNewest(events: seq<Event>)
    requires Possible(START, events)
    ensures Newest(Exec(START, events).file, Exec(START, events).appended)
  {
    RunInv(START, events);
    InvNewest(Exec(START, events));
  }

  lemma InvNewest(st: State)
    requires Inv(st)
    ensures Newest(st.file, st.appended)
  {
  }

  // --- Below the cap ---

  /** Every listen before this one has been accepted. */
  predicate AllBefore(posts: seq<nat>, n: nat) {
    forall j :: 0 <= j < n ==> j in posts
  }

  /** Nothing was pushed out, what is no longer in the file was accepted, and so was every listen older than one
      accepted, and before it. */
  predicate Durable(st: State) {
    && Inv(st) && st.evicted == {}
    && AllBefore(st.posts, Start(st))
    && (st.flush.Posting? ==> st.base == Start(st) && AllBefore(st.posts, st.base + st.flush.sent))
    && (forall k :: 0 <= k < |st.posts| ==> AllBefore(st.posts[..k], st.posts[k]))
  }

  lemma StepDurable(st: State, e: Event)
    requires Durable(st) && Enabled(st, e) && !Overflows(st, e)
    ensures Durable(Apply(st, e))
  {
    StepInv(st, e);
    var next := Apply(st, e);
    if e.Post? && e.accepted {
      PostDurable(st);
    }
  }

  lemma PostDurable(st: State)
    requires Durable(st) && Enabled(st, Post(true))
    ensures Durable(Apply(st, Post(true)))
  {
    StepInv(st, Post(true));
    var next := Apply(st, Post(true));
    var n := st.base + st.flush.sent;
    forall k | 0 <= k < |next.posts| ensures AllBefore(next.posts[..k], next.posts[k]) {
      if k < |st.posts| {
        assert next.posts[..k] == st.posts[..k];
      } else {
        assert next.posts[..k] == st.posts;
      }
    }
    forall j | 0 <= j < n + 1 ensures j in next.posts {
      if j == n {
        assert next.posts[|st.posts|] == n;
      } else {
        assert j in st.posts;
      }
    }
    forall j | 0 <= j < Start(next) ensures j in next.posts {
      assert j in st.posts;
    }
  }

  /** No append finds the file full. */
  predicate BelowCap(st: State, events: seq<Event>)
    requires Wf(st) && Possible(st, events)
    decreases |events|
  {
    events == [] || (!Overflows(st, events[0]) && BelowCap(Apply(st, events[0]), events[1..]))
  }

  lemma {:induction false} RunDurable(st: State, events: seq<Event>)
    requires Durable(st) && Possible(st, events) && BelowCap(st, events)
    ensures Durable(Exec(st, events))
    decreases |events|
  {
    if events != [] {
      StepDurable(st, events[0]);
      RunDurable(Apply(st, events[0]), events[1..]);
    }
  }

  /** Below the cap, under every interleaving of appends with the worker's flushes, crashes included: each listen
      is in the file until it is accepted, and they are accepted oldest first. */
  lemma NoneIsLost(events: seq<Event>, i: nat)
    requires Possible(START, events) && BelowCap(START, events)
    ensures var r := Exec(START, events);
            && (i < |r.appended| && i !in r.posts ==> |r.appended| - |r.file| <= i && r.file[i - (|r.appended| - |r.file|)] == r.appended[i])
            && (forall k, j :: 0 <= k < |r.posts| && 0 <= j < r.posts[k] ==> j in r.posts[..k])
  {
    RunDurable(START, events);
    var r := Exec(START, events);
    forall k, j | 0 <= k < |r.posts| && 0 <= j < r.posts[k] ensures j in r.posts[..k] {
      assert AllBefore(r.posts[..k], r.posts[k]);
    }
  }

  /** No crash, and no write fails. */
  predicate Untroubled(e: Event) {
    e != Crash && e != Write(false)
  }

  /** The listens accepted are the first, each once and in order, and the file is what comes after those taken out. */
  predicate Once(st: State) {
    && Inv(st) && (forall k :: 0 <= k < |st.posts| ==> st.posts[k] == k)
    && (if st.flush.Posting? then st.base == Start(st) && |st.posts| == st.base + st.flush.sent else |st.posts| == Start(st))
  }

  lemma StepOnce(st: State, e: Event)
    requires Once(st) && Enabled(st, e) && !Overflows(st, e) && Untroubled(e)
    ensures Once(Apply(st, e))
  {
    StepInv(st, e);
  }

  lemma {:induction false} RunOnce(st: State, events: seq<Event>)
    requires Once(st) && Possible(st, events) && BelowCap(st, events) && forall i :: 0 <= i < |events| ==> Untroubled(events[i])
    ensures Once(Exec(st, events))
    decreases |events|
  {
    if events != [] {
      StepOnce(st, events[0]);
      RunOnce(Apply(st, events[0]), events[1..]);
    }
  }

  /** Below the cap, as long as nothing crashes and no write fails: every listen is accepted at most once, and between
      flushes the file holds just those not accepted yet. */
  lemma NoneTwice(events: seq<Event>)
    requires Possible(START, events) && BelowCap(START, events) && forall i :: 0 <= i < |events| ==> Untroubled(events[i])
    ensures var r := Exec(START, events);
            && (forall i, k :: 0 <= i < k < |r.posts| ==> r.posts[i] != r.posts[k])
            && (r.flush == Idle ==> |r.posts| <= |r.appended| && r.file == r.appended[|r.posts|..])
  {
    RunOnce(START, events);
  }

  // --- What a flush takes out ---

  /** The write takes as many lines off the front as were posted, or all there are; one that fails takes none. */
  lemma WriteTakesOff(st: State, written: bool)
    requires Inv(st) && Enabled(st, Write(written))
    ensures var next, k := Apply(st, Write(written)), if written then Least(st.flush.sent, |st.file|) else 0;
            next.file == st.file[k..] && Start(next) == Start(st) + k && next.appended == st.appended && next.posts == st.posts
  {
  }

  /** After a flush in which all posts were accepted, with nothing pushed out, the file holds what came since it read it. */
  lemma CompleteFlush(st: State)
    requires Inv(st) && Enabled(st, Write(true)) && st.flush.sent == |st.flush.lines| && Start(st) == st.base
    ensures Apply(st, Write(true)).file == st.appended[st.base + |st.flush.lines|..]
  {
    WriteTakesOff(st, true);
  }

  /** The positions the file holds. */
  function HeldBy(st: State): set<int>
    requires Wf(st)
  {
    Span(Start(st), |st.appended|)
  }

  /** Those that go out of it from one state to another. */
  function TakenOut(st: State, next: State): set<int>
    requires Wf(st) && Wf(next)
  {
    HeldBy(st) - HeldBy(next)
  }

  /** Those the flush had accepted. */
  function Accepted(st: State): set<int>
    requires st.flush.Posting?
  {
    Span(st.base, st.base + st.flush.sent)
  }

  /** A flush takes out exactly what it posted, if and only if it posted nothing or no append has pushed a line out
      since it read the file. */
  lemma RemovesWhatItPosted(st: State, next: State)
    requires Inv(st) && Enabled(st, Write(true)) && next == Apply(st, Write(true)) && Wf(next)
    ensures TakenOut(st, next) == Accepted(st) <==> st.flush.sent == 0 || Start(st) == st.base
  {
    WriteTakesOff(st, true);
    assert TakenOut(st, next) == Span(Start(st), Start(next));
    if st.flush.sent > 0 && Start(st) != st.base {
      assert st.base in Accepted(st) && st.base !in TakenOut(st, next);
    }
  }

  /** When some were, the write takes as many listens more out of the file, which were not posted, up to the number
      it posted: none of these is kept. */
  lemma PushedOutTwice(st: State, next: State)
    requires Inv(st) && Enabled(st, Write(true)) && next == Apply(st, Write(true)) && Wf(next) && Start(st) > st.base
    ensures TakenOut(st, next) - Accepted(st) ==
            Span(Start(st) + st.flush.sent - Least(st.flush.sent, Start(st) - st.base), Start(st) + st.flush.sent)
    ensures Start(next) == Start(st) + st.flush.sent
  {
    WriteTakesOff(st, true);
    assert TakenOut(st, next) == Span(Start(st), Start(next));
  }

  // --- At the cap ---

  function Copies(line: Line, n: nat): (r: seq<Line>)
    ensures |r| == n && forall i :: 0 <= i < n ==> r[i] == line
  {
    seq(n, _ => line)
  }

  /** The queue after as many appends as it has room for. */
  function Filled(line: Line, n: nat): State {
    State(Copies(line, n), Idle, Copies(line, n), 0, [], {})
  }

  ghost predicate Reachable(st: State) {
    exists events :: Possible(START, events) && Exec(START, events) == st
  }

  lemma {:induction false} OneMore(st: State, events: seq<Event>, e: Event)
    requires Wf(st) && Possible(st, events) && Wf(Exec(st, events)) && Enabled(Exec(st, events), e)
    requires Wf(Apply(Exec(st, events), e))
    ensures Possible(st, events + [e]) && Exec(st, events + [e]) == Apply(Exec(st, events), e)
    decreases |events|
  {
    if events == [] {
      assert [] + [e] == [e] && [e][1..] == [];
    } else {
      assert (events + [e])[0] == events[0] && (events + [e])[1..] == events[1..] + [e];
      OneMore(Apply(st, events[0]), events[1..], e);
    }
  }

  lemma Reach(st: State, e: Event, next: State)
    requires Reachable(st) && Wf(st) && Enabled(st, e) && next == Apply(st, e) && Wf(next)
    ensures Reachable(next)
  {
    var events :| Possible(START, events) && Exec(START, events) == st;
    OneMore(START, events, e);
    assert Exec(START, events + [e]) == next;
  }

  lemma FilledOn(line: Line, n: nat)
    requires n < FILE_CAP
    ensures Wf(Filled(line, n)) && Apply(Filled(line, n), Append(line, true)) == Filled(line, n + 1)
  {
    assert Copies(line, n) + [line] == Copies(line, n + 1);
  }

  lemma {:induction false} Fills(line: Line, n: nat)
    requires n <= FILE_CAP
    ensures Reachable(Filled(line, n))
  {
    if n == 0 {
      assert Possible(START, []) && Exec(START, []) == START;
      assert Filled(line, 0) == START;
    } else {
      Fills(line, n - 1);
      FilledOn(line, n - 1);
      Reach(Filled(line, n - 1), Append(line, true), Filled(line, n));
    }
  }

  /** It happens: the file is full, one more listen comes while the flush posts the oldest, and then the second oldest
      is gone from the file though it was neither posted nor pushed out. */
  lemma LostUnposted(line: Line) returns (st: State)
    ensures Reachable(st) && 1 < |st.appended| && 1 < Start(st) && 1 !in st.posts && 1 !in st.evicted
  {
    Fills(line, FILE_CAP);
    var s0 := Filled(line, FILE_CAP);
    var s1 := Apply(s0, Read);
    Reach(s0, Read, s1);
    var s2 := Apply(s1, Append(line, true));
    Reach(s1, Append(line, true), s2);
    assert s2.evicted == {0} && Start(s2) == 1 && |s2.file| == FILE_CAP;
    st := TakesTheSecond(s2);
  }

  lemma TakesTheSecond(st: State) returns (end: State)
    requires Reachable(st) && st.evicted == {0} && Start(st) == 1 && |st.file| == FILE_CAP && st.posts == [] && st.base == 0
    requires st.flush.Posting? && |st.flush.lines| == FILE_CAP && st.flush.sent == 0 && !st.flush.stopped
    ensures Reachable(end) && 1 < |end.appended| && 1 < Start(end) && 1 !in end.posts && 1 !in end.evicted
  {
    var s1 := Apply(st, Post(true));
    Reach(st, Post(true), s1);
    var s2 := Apply(s1, Post(false));
    Reach(s1, Post(false), s2);
    end := Apply(s2, Write(true));
    Reach(s2, Write(true), end);
    assert end.posts == [0] && end.evicted == {0};
  }

  // --- The file ---

  const NEWLINE: byte := 10
  const RETURN: byte := 13

  /** `write_all_lines`. */
  function Text(lines: seq<Line>): seq<byte> {
    if lines == [] then [] else lines[0] + [NEWLINE] + Text(lines[1..])
  }

  /** `getline`: up to and with the newline, or to the end. */
  function LineEnd(text: seq<byte>): (n: nat)
    ensures n <= |text| && (text != [] ==> n > 0)
  {
    if text == [] then 0 else if text[0] == NEWLINE then 1 else 1 + LineEnd(text[1..])
  }

  function Stripped(line: Line): Line {
    if line != [] && (line[|line| - 1] == NEWLINE || line[|line| - 1] == RETURN) then Stripped(line[..|line| - 1]) else line
  }

  /** `read_all_lines`. */
  function Lines(text: seq<byte>): seq<Line>
    decreases |text|
  {
    if text == [] then []
    else
      var line := Stripped(text[..LineEnd(text)]);
      (if line == [] then [] else [line]) + Lines(text[LineEnd(text)..])
  }

  /** What a payload is: not blank, no line break within, no carriage return at its end. */
  predicate Proper(line: Line) {
    line != [] && NEWLINE !in line && line[|line| - 1] != RETURN
  }

  lemma {:induction false} LineEnds(line: Line, rest: seq<byte>)
    requires NEWLINE !in line
    ensures LineEnd(line + [NEWLINE] + rest) == |line| + 1
  {
    if line == [] {
      assert (line + [NEWLINE] + rest)[0] == NEWLINE;
    } else {
      assert (line + [NEWLINE] + rest)[0] == line[0];
      assert (line + [NEWLINE] + rest)[1..] == line[1..] + [NEWLINE] + rest;
      LineEnds(line[1..], rest);
    }
  }

  /** What is written is read back. */
  lemma {:induction false} ReadsBack(lines: seq<Line>)
    requires forall i :: 0 <= i < |lines| ==> Proper(lines[i])
    ensures Lines(Text(lines)) == lines
  {
    if lines != [] {
      var line, rest := lines[0], Text(lines[1..]);
      var text := line + [NEWLINE] + rest;
      LineEnds(line, rest);
      assert text[..|line| + 1] == line + [NEWLINE];
      assert text[|line| + 1..] == rest;
      assert Stripped(line + [NEWLINE]) == line by {
        assert (line + [NEWLINE])[..|line|] == line && line[|line| - 1] in line;
      }
      ReadsBack(lines[1..]);
    }
  }
}

/** The queues of src/audio/listenbrainz.c as they run: the worker's ring of entries that are not kept, and the
    sections under the lock on the file. */
module Listens {
  import opened Wrappers
  import opened Rings
  import opened ListenQueue

  /** The in-memory ring. */
  class Ring<T(0)> {
    const slots: array<T>
    var head: nat
    var count: nat

    ghost predicate Valid()
      reads this, slots
    {
      slots.Length > 0 && head < slots.Length && count <= slots.Length
    }

    /** The slot `k` places on from the head, around the ring. */
    function Slot(k: nat): (i: nat)
      requires Valid() && k <= slots.Length
      reads this, slots
      ensures i < slots.Length && i == (head + k) % slots.Length
    {
      Around(head + k, slots.Length)
    }

    /** The entries waiting, oldest first. */
    ghost function Contents(): (s: seq<T>)
      requires Valid()
      reads this, slots
      ensures |s| == count
    {
      Unrolled(slots[..], head, count)
    }

    constructor (capacity: nat)
      requires capacity > 0
      ensures Valid() && fresh(slots) && slots.Length == capacity && Contents() == []
    {
      slots := new T[capacity];
      head, count := 0, 0;
    }

    /** Full, the newest is dropped. */
    method Enqueue(x: T) returns (ok: bool)
      requires Valid()
      modifies this`count, slots
      ensures Valid() && ok == (old(count) < slots.Length)
      ensures Contents() == if ok then old(Contents()) + [x] else old(Contents())
    {
      ok := count < slots.Length;
      if ok {
        UnrolledMore(slots[..], head, count, x);
        ghost var was := slots[..];
        slots[Slot(count)] := x;
        assert slots[..] == was[Slot(count) := x];
        count := count + 1;
      }
    }

    method Dequeue() returns (x: T)
      requires Valid() && count > 0
      modifies this`head, this`count
      ensures Valid() && [x] + Contents() == old(Contents())
    {
      UnrolledFirst(slots[..], head, count);
      x := slots[head];
      head := if head + 1 == slots.Length then 0 else head + 1;
      count := count - 1;
    }
  }

  /** The file's lines and the flush; the histories are the proofs'. */
  class Queue {
    var file: seq<Line>
    var flush: Flush
    ghost var appended: seq<Line>
    ghost var base: nat
    ghost var posts: seq<nat>
    ghost var evicted: set<int>

    ghost function View(): State
      reads this
    {
      State(file, flush, appended, base, posts, evicted)
    }

    constructor ()
      ensures View() == START
    {
      file, flush, appended, base, posts, evicted := [], Idle, [], 0, [], {};
    }

    /** `append_capped`: the file is read, a line added, and the newest lines written back, if it can be. */
    method AppendCapped(line: Line, written: bool)
      requires Inv(View())
      modifies this`file, this`appended, this`evicted
      ensures View() == Apply(old(View()), Append(line, written)) && Inv(View())
    {
      StepInv(View(), Append(line, written));
      var lines := file + [line];
      var start := if |lines| > FILE_CAP then |lines| - FILE_CAP else 0;
      if written {
        evicted := evicted + Span(|appended| - |file|, |appended| - |file| + start);
        file := lines[start..];
        appended := appended + [line];
      }
    }

    /** The flush in three parts: the file read under the lock, the posts without it, and the removal under it
        again. */
    method FlushRead()
      requires Inv(View()) && flush == Idle
      modifies this`flush, this`base
      ensures View() == Apply(old(View()), Read) && Inv(View())
    {
      StepInv(View(), Read);
      flush := Posting(file, 0, false);
      base := |appended| - |file|;
    }

    method FlushPost(accepted: bool)
      requires Inv(View()) && Enabled(View(), Post(accepted))
      modifies this`flush, this`posts
      ensures View() == Apply(old(View()), Post(accepted)) && Inv(View())
    {
      StepInv(View(), Post(accepted));
      if accepted {
        posts := posts + [base + flush.sent];
        flush := flush.(sent := flush.sent + 1);
      } else {
        flush := flush.(stopped := true);
      }
    }

    method FlushWrite(written: bool)
      requires Inv(View()) && Enabled(View(), Write(written))
      modifies this`flush, this`file
      ensures View() == Apply(old(View()), Write(written)) && Inv(View())
    {
      StepInv(View(), Write(written));
      var remove := if flush.sent < |file| then flush.sent else |file|;
      flush := Idle;
      if remove > 0 && written {
        file := file[remove..];
      }
    }
  }
}
