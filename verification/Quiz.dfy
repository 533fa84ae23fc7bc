/**
 The Music Quiz's pick of src/games/quiz.c: with the random numbers it happens to draw, it
 finds a round whenever the library has one.
 */
module Quiz {
  import opened Wrappers

  const CHOICES: nat := 5
  const ROUND_MS: nat := 10000
  const TAIL_MS: nat := 2000
  const MIN_SONG_MS: nat := ROUND_MS + TAIL_MS + 10000
  const START_MIN_PCT: nat := 20
  const START_MAX_PCT: nat := 60
  const TRIES: nat := 64
  const WORD: nat := 0x1_0000_0000

  /** A C unsigned. */
  type Unsigned = u: nat | u < WORD

  /** A song: its title, if it has one, and its length in seconds. */
  datatype Song = Song(title: Option<seq<byte>>, duration: Unsigned)

  predicate Titled(s: Song) {
    s.title.Some? && s.title.value != []
  }

  /** The length in milliseconds, as an unsigned has it. */
  function Millis(s: Song): Unsigned {
    s.duration * 1000 % WORD
  }

  predicate LongEnough(s: Song) {
    Titled(s) && Millis(s) >= MIN_SONG_MS
  }

  function Small(b: byte): byte {
    if 'A' as int <= b <= 'Z' as int then b + 32 else b
  }

  /** What `strcasecmp` compares. */
  function Folded(t: seq<byte>): (r: seq<byte>)
    ensures |r| == |t| && forall i :: 0 <= i < |r| ==> r[i] == Small(t[i])
  {
    seq(|t|, i requires 0 <= i < |t| => Small(t[i]))
  }

  function TitleOf(s: Song): seq<byte>
    requires Titled(s)
  {
    Folded(s.title.value)
  }

  /** The different titles among the first `n` songs. */
  function Titles(songs: seq<Song>, n: nat): set<seq<byte>>
    requires n <= |songs|
  {
    if n == 0 then {} else Titles(songs, n - 1) + if Titled(songs[n - 1]) then {TitleOf(songs[n - 1])} else {}
  }

  lemma {:induction false} TitlesAre(songs: seq<Song>, n: nat)
    requires n <= |songs|
    ensures forall i :: 0 <= i < n && Titled(songs[i]) ==> TitleOf(songs[i]) in Titles(songs, n)
    ensures forall t :: t in Titles(songs, n) ==> exists i :: 0 <= i < n && Titled(songs[i]) && TitleOf(songs[i]) == t
    ensures |Titles(songs, n)| <= n
  {
    if n > 0 {
      TitlesAre(songs, n - 1);
      forall t | t in Titles(songs, n) ensures exists i :: 0 <= i < n && Titled(songs[i]) && TitleOf(songs[i]) == t {
        if t in Titles(songs, n - 1) {
          var i :| 0 <= i < n - 1 && Titled(songs[i]) && TitleOf(songs[i]) == t;
        } else {
          assert Titled(songs[n - 1]) && TitleOf(songs[n - 1]) == t;
        }
      }
    }
  }

  /** A library that can make a round. */
  predicate CanAsk(songs: seq<Song>) {
    (exists i :: 0 <= i < |songs| && LongEnough(songs[i])) && |Titles(songs, |songs|)| >= CHOICES
  }

  // --- Random numbers ---

  /** `rpod_quiz_rand`: xorshift32. */
  function NextRandom(state: bv32): bv32 {
    var x := if state != 0 then state else 0x9e3779b9;
    var y := x ^ (x << 13);
    var z := y ^ (y >> 17);
    z ^ (z << 5)
  }

  /** It never comes to zero, from which it would not move. */
  lemma NeverZero(state: bv32)
    ensures NextRandom(state) != 0
  {
    var x := if state != 0 then state else 0x9e3779b9;
    var y := x ^ (x << 13);
    var z := y ^ (y >> 17);
    assert y != 0;
    assert z != 0;
  }

  class Random {
    var state: bv32

    constructor (seed: bv32)
      ensures state == seed
    {
      state := seed;
    }

    method Below(n: nat) returns (r: nat)
      requires 0 < n
      modifies this
      ensures r < n && state == NextRandom(old(state))
    {
      state := NextRandom(state);
      r := state as nat % n;
    }
  }

  // --- The pick ---

  predicate Answers(songs: seq<Song>, used: seq<nat>, allowUsed: bool, i: nat) {
    i < |songs| && LongEnough(songs[i]) && (allowUsed || i !in used)
  }

  method PickAnswer(songs: seq<Song>, used: seq<nat>, rng: Random) returns (answer: Option<nat>)
    requires |songs| > 0
    modifies rng
    ensures answer.Some? ==> Answers(songs, used, true, answer.value)
    ensures answer.Some? && answer.value in used ==> forall i :: 0 <= i < |songs| ==> !Answers(songs, used, false, i)
    ensures answer.None? ==> forall i :: 0 <= i < |songs| ==> !LongEnough(songs[i])
  {
    answer := PickOne(songs, used, false, rng);
    if answer.None? {
      answer := PickOne(songs, used, true, rng);
    }
    if answer.None? {
      forall i | 0 <= i < |songs| ensures !LongEnough(songs[i]) {
        assert !Answers(songs, used, true, i);
      }
    }
  }

  /** One pass: random tries, and then all of them from a random one on, around. */
  method PickOne(songs: seq<Song>, used: seq<nat>, allowUsed: bool, rng: Random) returns (answer: Option<nat>)
    requires |songs| > 0
    modifies rng
    ensures answer.Some? ==> Answers(songs, used, allowUsed, answer.value)
    ensures answer.None? ==> forall i :: 0 <= i < |songs| ==> !Answers(songs, used, allowUsed, i)
  {
    var t := 0;
    while t < TRIES
    {
      var i := rng.Below(|songs|);
      if Answers(songs, used, allowUsed, i) {
        return Some(i);
      }
      t := t + 1;
    }
    var from := rng.Below(|songs|);
    var k := 0;
    while k < |songs|
      invariant 0 <= k <= |songs|
      invariant forall m :: 0 <= m < k ==> !Answers(songs, used, allowUsed, Around(from, m, |songs|))
    {
      var i := Around(from, k, |songs|);
      if Answers(songs, used, allowUsed, i) {
        return Some(i);
      }
      k := k + 1;
    }
    forall i | 0 <= i < |songs| ensures !Answers(songs, used, allowUsed, i) {
      AllAround(from, i, |songs|);
    }
    return None;
  }

  /** The `k`th of `n` from one on, around. */
  function Around(from: nat, k: nat, n: nat): (i: nat)
    requires from < n && k < n
    ensures i < n && i == (from + k) % n
  {
    if from + k < n then from + k else from + k - n
  }

  /** Each comes up. */
  lemma AllAround(from: nat, i: nat, n: nat)
    requires from < n && i < n
    ensures exists k :: 0 <= k < n && Around(from, k, n) == i
  {
    var k := if i >= from then i - from else i + n - from;
    assert Around(from, k, n) == i;
  }

  /** Songs picked, of different titles. */
  predicate Different(songs: seq<Song>, picked: seq<nat>) {
    && (forall k :: 0 <= k < |picked| ==> picked[k] < |songs| && Titled(songs[picked[k]]))
    && (forall j, k :: 0 <= j < k < |picked| ==> TitleOf(songs[picked[j]]) != TitleOf(songs[picked[k]]))
  }

  predicate NewTitle(songs: seq<Song>, i: nat, picked: seq<nat>)
    requires i < |songs| && Different(songs, picked)
  {
    Titled(songs[i]) && forall k :: 0 <= k < |picked| ==> TitleOf(songs[i]) != TitleOf(songs[picked[k]])
  }

  method IsNewTitle(songs: seq<Song>, i: nat, picked: seq<nat>) returns (r: bool)
    requires i < |songs| && Different(songs, picked)
    ensures r == NewTitle(songs, i, picked)
  {
    if !Titled(songs[i]) {
      return false;
    }
    var k := 0;
    while k < |picked|
      invariant 0 <= k <= |picked|
      invariant forall m :: 0 <= m < k ==> TitleOf(songs[i]) != TitleOf(songs[picked[m]])
    {
      if TitleOf(songs[i]) == TitleOf(songs[picked[k]]) {
        return false;
      }
      k := k + 1;
    }
    return true;
  }

  /** Songs of more titles, up to as many as are wanted; fewer only if the library has no other title. */
  method PickOthers(songs: seq<Song>, first: nat, rng: Random) returns (picked: seq<nat>)
    requires first < |songs| && Titled(songs[first])
    modifies rng
    ensures Different(songs, picked) && 1 <= |picked| <= CHOICES && picked[0] == first
    ensures |picked| < CHOICES ==> |Titles(songs, |songs|)| < CHOICES
  {
    picked := [first];
    var t := 0;
    while t < TRIES && |picked| < CHOICES
      invariant Different(songs, picked) && 1 <= |picked| <= CHOICES && picked[0] == first
    {
      var i := rng.Below(|songs|);
      var isNew := IsNewTitle(songs, i, picked);
      if isNew {
        picked := picked + [i];
      }
      t := t + 1;
    }
    var from := rng.Below(|songs|);
    var k := 0;
    while k < |songs| && |picked| < CHOICES
      invariant 0 <= k <= |songs|
      invariant Different(songs, picked) && 1 <= |picked| <= CHOICES && picked[0] == first
      invariant forall m :: 0 <= m < k ==> !NewTitle(songs, Around(from, m, |songs|), picked)
    {
      var i := Around(from, k, |songs|);
      var isNew := IsNewTitle(songs, i, picked);
      if isNew {
        OldStaysOld(songs, picked, i);
        picked := picked + [i];
      }
      k := k + 1;
    }
    if |picked| < CHOICES {
      forall i | 0 <= i < |songs| ensures !NewTitle(songs, i, picked) {
        AllAround(from, i, |songs|);
      }
      NoOtherTitle(songs, picked);
    }
  }

  lemma OldStaysOld(songs: seq<Song>, picked: seq<nat>, i: nat)
    requires i < |songs| && Different(songs, picked) && NewTitle(songs, i, picked)
    ensures Different(songs, picked + [i]) && !NewTitle(songs, i, picked + [i])
    ensures forall j :: 0 <= j < |songs| && !NewTitle(songs, j, picked) ==> !NewTitle(songs, j, picked + [i])
  {
    var more := picked + [i];
    assert more[|picked|] == i;
    forall j | 0 <= j < |songs| && !NewTitle(songs, j, picked) ensures !NewTitle(songs, j, more) {
      if Titled(songs[j]) {
        var k :| 0 <= k < |picked| && TitleOf(songs[j]) == TitleOf(songs[picked[k]]);
        assert more[k] == picked[k];
      }
    }
  }

  /** With no new title left, those picked have them all. */
  lemma NoOtherTitle(songs: seq<Song>, picked: seq<nat>)
    requires Different(songs, picked) && forall i :: 0 <= i < |songs| ==> !NewTitle(songs, i, picked)
    ensures |Titles(songs, |songs|)| <= |picked|
  {
    TitlesAre(songs, |songs|);
    var all := PickedTitles(songs, picked);
    forall t | t in Titles(songs, |songs|) ensures t in all {
      var i :| 0 <= i < |songs| && Titled(songs[i]) && TitleOf(songs[i]) == t;
      assert !NewTitle(songs, i, picked);
    }
    Fewer(Titles(songs, |songs|), all);
  }

  function PickedTitles(songs: seq<Song>, picked: seq<nat>): (r: set<seq<byte>>)
    requires Different(songs, picked)
    ensures |r| <= |picked| && forall k :: 0 <= k < |picked| ==> TitleOf(songs[picked[k]]) in r
  {
    if picked == [] then {}
    else
      var rest := picked[..|picked| - 1];
      assert forall k :: 0 <= k < |rest| ==> rest[k] == picked[k];
      PickedTitles(songs, rest) + {TitleOf(songs[picked[|picked| - 1]])}
  }

  lemma {:induction false} Fewer<T>(a: set<T>, b: set<T>)
    requires a <= b
    ensures |a| <= |b|
  {
    if a != {} {
      var x :| x in a;
      Fewer(a - {x}, b - {x});
    }
  }

  /** A round: the answer and where it starts, the titles to choose from, and which of them is the answer. */
  datatype Round = Round(answer: nat, choice: seq<nat>, correct: nat, startMs: nat)

  /** A round is right: five songs of different titles, the answer among them, and from its start on, a whole round
      and the tail. */
  predicate Right(songs: seq<Song>, r: Round) {
    && |r.choice| == CHOICES && Different(songs, r.choice)
    && r.correct < CHOICES && r.choice[r.correct] == r.answer
    && LongEnough(songs[r.answer]) && r.startMs + ROUND_MS + TAIL_MS <= Millis(songs[r.answer])
  }

  /** `rpod_quiz_pick`. */
  method Pick(songs: seq<Song>, used: seq<nat>, rng: Random) returns (round: Option<Round>)
    modifies rng
    ensures round.Some? <==> CanAsk(songs)
    ensures round.Some? ==> Right(songs, round.value)
    ensures round.Some? && round.value.answer in used ==> forall i :: 0 <= i < |songs| ==> !Answers(songs, used, false, i)
  {
    TitlesAre(songs, |songs|);
    if |songs| < CHOICES {
      return None;
    }
    var answer := PickAnswer(songs, used, rng);
    if answer.None? {
      return None;
    }
    var picked := PickOthers(songs, answer.value, rng);
    if |picked| < CHOICES {
      return None;
    }
    EnoughTitles(songs, picked);
    var correct := rng.Below(CHOICES);
    var choice := Arrange(songs, picked, correct);
    var start := StartOf(songs[answer.value], rng);
    round := Some(Round(answer.value, choice, correct, start));
  }

  lemma EnoughTitles(songs: seq<Song>, picked: seq<nat>)
    requires Different(songs, picked)
    ensures |Titles(songs, |songs|)| >= |picked|
  {
    TitlesAre(songs, |songs|);
    NoFewer(songs, picked, Titles(songs, |songs|));
  }

  lemma {:induction false} NoFewer(songs: seq<Song>, picked: seq<nat>, titles: set<seq<byte>>)
    requires Different(songs, picked) && forall k :: 0 <= k < |picked| ==> TitleOf(songs[picked[k]]) in titles
    ensures |picked| <= |titles|
    decreases |picked|
  {
    if picked != [] {
      var last := |picked| - 1;
      var t := TitleOf(songs[picked[last]]);
      var rest := picked[..last];
      forall k | 0 <= k < |rest| ensures TitleOf(songs[rest[k]]) in titles - {t} {
        assert rest[k] == picked[k];
      }
      assert forall j, k :: 0 <= j < k < |rest| ==> rest[j] == picked[j] && rest[k] == picked[k];
      NoFewer(songs, rest, titles - {t});
    }
  }

  /** The answer put at its place, the others before and after it in their order. */
  method Arrange(songs: seq<Song>, picked: seq<nat>, correct: nat) returns (choice: seq<nat>)
    requires Different(songs, picked) && |picked| == CHOICES && correct < CHOICES
    ensures |choice| == CHOICES && choice[correct] == picked[0] && Different(songs, choice)
    ensures multiset(choice) == multiset(picked)
  {
    choice := [];
    var c, k := 0, 1;
    while c < CHOICES
      invariant 0 <= c <= CHOICES && |choice| == c && k == (if c <= correct then c + 1 else c)
      invariant forall j :: 0 <= j < c ==> choice[j] == picked[Place(correct, j)]
    {
      if c == correct {
        choice := choice + [picked[0]];
      } else {
        choice := choice + [picked[k]];
        k := k + 1;
      }
      c := c + 1;
    }
    Reordered(songs, picked, correct, choice);
  }

  /** Where the one shown at `c` was picked. */
  function Place(correct: nat, c: nat): nat {
    if c < correct then c + 1 else if c == correct then 0 else c
  }

  lemma Reordered(songs: seq<Song>, picked: seq<nat>, correct: nat, choice: seq<nat>)
    requires Different(songs, picked) && |picked| == CHOICES && correct < CHOICES
    requires |choice| == CHOICES && forall j :: 0 <= j < CHOICES ==> choice[j] == picked[Place(correct, j)]
    ensures Different(songs, choice) && multiset(choice) == multiset(picked)
  {
    assert choice == picked[1..correct + 1] + [picked[0]] + picked[correct + 1..];
    assert picked == [picked[0]] + picked[1..correct + 1] + picked[correct + 1..];
    forall c | 0 <= c < CHOICES ensures choice[c] == picked[Place(correct, c)] {
    }
    StillDifferent(songs, picked, correct, choice);
  }

  lemma StillDifferent(songs: seq<Song>, picked: seq<nat>, correct: nat, choice: seq<nat>)
    requires Different(songs, picked) && |picked| == |choice| == CHOICES && correct < CHOICES
    requires forall c :: 0 <= c < CHOICES ==> choice[c] == picked[Place(correct, c)]
    ensures Different(songs, choice)
  {
    forall j, k | 0 <= j < k < |choice| ensures TitleOf(songs[choice[j]]) != TitleOf(songs[choice[k]]) {
      var p, q := Place(correct, j), Place(correct, k);
      if p < q {
        assert TitleOf(songs[picked[p]]) != TitleOf(songs[picked[q]]);
      } else {
        assert TitleOf(songs[picked[q]]) != TitleOf(songs[picked[p]]);
      }
    }
  }

  method StartOf(song: Song, rng: Random) returns (start: nat)
    requires LongEnough(song)
    modifies rng
    ensures start + ROUND_MS + TAIL_MS <= Millis(song)
    ensures start * 100 <= Millis(song) * START_MAX_PCT
    ensures Millis(song) * START_MIN_PCT < (start + 1) * 100 || start + ROUND_MS + TAIL_MS == Millis(song)
  {
    var above := rng.Below(START_MAX_PCT - START_MIN_PCT + 1);
    var pct := START_MIN_PCT + above;
    var at := Millis(song) * pct / 100;
    var latest := Millis(song) - ROUND_MS - TAIL_MS;
    start := if at < latest then at else latest;
    PartOf(Millis(song), pct, at);
  }

  lemma PartOf(ms: nat, pct: nat, at: nat)
    requires START_MIN_PCT <= pct <= START_MAX_PCT && at == ms * pct / 100
    ensures at * 100 <= ms * START_MAX_PCT && ms * START_MIN_PCT < (at + 1) * 100
  {
    assert ms * START_MIN_PCT <= ms * pct <= ms * START_MAX_PCT;
  }
}
