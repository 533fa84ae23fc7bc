/**
 The alphabetical order of src/ui/alpha_sort.c: what a name files under, the comparison as
 a total order on names, and the jump between letters in a list sorted by it.
 A name is a C string: bytes, none of them zero.
 */
module AlphaSort {
  import opened Wrappers
  import opened Utf8

  predicate NonZero(s: seq<byte>) {
    forall i :: 0 <= i < |s| ==> s[i] != 0
  }

  type Name = s: seq<byte> | NonZero(s)

  const REPLACEMENT: nat := 0xFFFD

  // --- Code points ---

  datatype Point = Point(cp: nat, len: nat)

  predicate Continues(b: byte) {
    0x80 <= b < 0xC0
  }

  function Extra(c: byte): nat {
    if c >= 0xF0 then 3 else if c >= 0xE0 then 2 else if c >= 0xC0 then 1 else 0
  }

  /** The lead byte's bits. */
  function Lead(c: byte): nat {
    if c >= 0xF0 then c % 8 else if c >= 0xE0 then c % 16 else c % 32
  }

  /** The continuation bytes from the `i`th to the last. */
  function Tail(s: Name, i: nat, extra: nat, cp: nat): Option<nat>
    requires i <= extra + 1
    decreases extra + 1 - i
  {
    if i > extra then Some(cp)
    else if i < |s| && Continues(s[i]) then Tail(s, i + 1, extra, cp * 64 + (s[i] - 0x80))
    else None
  }

  /** What `next_cp` reads at the front of `s`: nothing at its end. An overlong form reads as its value, so it can
      read as 0 before the end. */
  function First(s: Name): (p: Point)
    ensures p.len <= |s| && (s != [] ==> p.len > 0) && (s == [] ==> p.cp == 0)
  {
    if s == [] then Point(0, 0)
    else if s[0] < 0x80 then Point(s[0], 1)
    else if Extra(s[0]) == 0 then Point(REPLACEMENT, 1)
    else
      var t := Tail(s, 1, Extra(s[0]), Lead(s[0]));
      if t.Some? then (TailFits(s, 1, Extra(s[0]), Lead(s[0])); Point(t.value, 1 + Extra(s[0]))) else Point(REPLACEMENT, 1)
  }

  lemma {:induction false} TailFits(s: Name, i: nat, extra: nat, cp: nat)
    requires i <= extra + 1 && Tail(s, i, extra, cp).Some? && s != []
    requires i <= |s|
    ensures extra < |s|
    decreases extra + 1 - i
  {
    if i <= extra {
      TailFits(s, i + 1, extra, cp * 64 + (s[i] - 0x80));
    }
  }

  function Drop(s: Name, n: nat): (r: Name)
    requires n <= |s|
    ensures r == s[n..]
  {
    s[n..]
  }

  /** `next_cp`, at a place in a name: what is there, and the place after it. */
  method NextCp(name: Name, at: nat) returns (cp: nat, next: nat)
    requires at <= |name|
    ensures var p := First(Drop(name, at)); cp == p.cp && next == at + p.len
    ensures next <= |name|
  {
    ghost var s := Drop(name, at);
    if at == |name| {
      return 0, at;
    }
    var c := name[at];
    if c < 0x80 {
      return c, at + 1;
    }
    var extra := Extra(c);
    if extra == 0 {
      return REPLACEMENT, at + 1;
    }
    cp := Lead(c);
    var i := 1;
    while i <= extra
      invariant 1 <= i <= extra + 1 && i <= |s|
      invariant Tail(s, 1, extra, Lead(c)) == Tail(s, i, extra, cp)
    {
      if at + i == |name| || !Continues(name[at + i]) {
        return REPLACEMENT, at + 1;
      }
      cp := cp * 64 + (name[at + i] - 0x80);
      i := i + 1;
    }
    next := at + 1 + extra;
  }

  // --- Letters ---

  /** The base letters of U+00C0 to U+00DF, and of U+00E0 to U+00FF but for the last: runs of `k_latin1`. */
  function Latin1(i: nat): char
    requires i < 32
  {
    if i <= 6 then 'A' else if i == 7 then 'C' else if i <= 11 then 'E' else if i <= 15 then 'I' else if i == 16 then 'D'
    else if i == 17 then 'N' else if i <= 22 then 'O' else if i == 23 then '.' else if i == 24 then 'O' else if i <= 28 then 'U'
    else if i == 29 then 'Y' else if i == 30 then 'T' else 'S'
  }

  /** Those of U+0100 to U+017F: runs of `k_latin_ext_a`. */
  function LatinExtA(i: nat): char
    requires i < 128
  {
    if i <= 5 then 'A' else if i <= 13 then 'C' else if i <= 17 then 'D' else if i <= 27 then 'E' else if i <= 35 then 'G'
    else if i <= 39 then 'H' else if i <= 51 then 'I' else if i <= 53 then 'J' else if i <= 56 then 'K' else if i <= 66 then 'L'
    else if i <= 75 then 'N' else if i <= 83 then 'O' else if i <= 89 then 'R' else if i <= 97 then 'S' else if i <= 103 then 'T'
    else if i <= 115 then 'U' else if i <= 117 then 'W' else if i <= 120 then 'Y' else if i <= 126 then 'Z' else 'S'
  }

  /** `base_letter`: a capital letter's code, or 0. */
  function Base(cp: nat): (b: nat)
    ensures b == 0 || 'A' as int <= b <= 'Z' as int
    ensures cp == 0 ==> b == 0
  {
    if 'a' as int <= cp <= 'z' as int then cp - 'a' as int + 'A' as int
    else if 'A' as int <= cp <= 'Z' as int then cp
    else if 0xC0 <= cp <= 0xFF then
      var b := if cp == 0xFF then 'Y' else Latin1((cp - 0xC0) % 32);
      if b == '.' then 0 else b as int
    else if 0x100 <= cp <= 0x17F then LatinExtA(cp - 0x100) as int
    else 0
  }

  predicate Counts(cp: nat) {
    cp == 0 || Base(cp) != 0 || '0' as int <= cp <= '9' as int
  }

  function SkipOthers(s: Name): (r: Name)
    ensures |r| <= |s|
    ensures Counts(First(r).cp)
    decreases |s|
  {
    if Counts(First(s).cp) then s else SkipOthers(Drop(s, First(s).len))
  }

  predicate HasThe(s: Name) {
    && |s| >= 4 && s[0] in {'T' as int, 't' as int} && s[1] in {'H' as int, 'h' as int}
    && s[2] in {'E' as int, 'e' as int} && s[3] == ' ' as int
  }

  function SkipSpaces(s: Name): (r: Name)
    ensures |r| <= |s|
  {
    if s != [] && s[0] == ' ' as int then SkipSpaces(Drop(s, 1)) else s
  }

  /** `significant`: where sorting starts. */
  function Significant(name: Name): (r: Name)
    ensures |r| <= |name|
    decreases |name|
  {
    var s := SkipOthers(name);
    if HasThe(s) && SkipSpaces(Drop(s, 4)) != [] then Significant(SkipSpaces(Drop(s, 4))) else s
  }

  method FindSignificant(name: Name, from: nat) returns (at: nat)
    requires from <= |name|
    ensures from <= at <= |name| && Drop(name, at) == Significant(Drop(name, from))
    decreases |name| - from
  {
    at := FindCounting(name, from);
    ghost var s := Drop(name, at);
    if HasThe(Drop(name, at)) {
      assert Drop(s, 4) == Drop(name, at + 4);
      var rest := PastSpaces(name, at + 4);
      if rest < |name| {
        at := FindSignificant(name, rest);
      }
    }
  }

  method FindCounting(name: Name, from: nat) returns (at: nat)
    requires from <= |name|
    ensures from <= at <= |name| && Drop(name, at) == SkipOthers(Drop(name, from))
  {
    at := from;
    while true
      invariant from <= at <= |name|
      invariant SkipOthers(Drop(name, at)) == SkipOthers(Drop(name, from))
      decreases |name| - at
    {
      var cp, next := NextCp(name, at);
      if Counts(cp) {
        break;
      }
      assert Drop(Drop(name, at), next - at) == Drop(name, next);
      at := next;
    }
  }

  method PastSpaces(name: Name, from: nat) returns (rest: nat)
    requires from <= |name|
    ensures from <= rest <= |name| && Drop(name, rest) == SkipSpaces(Drop(name, from))
  {
    rest := from;
    while rest < |name| && name[rest] == ' ' as int
      invariant from <= rest <= |name|
      invariant SkipSpaces(Drop(name, rest)) == SkipSpaces(Drop(name, from))
    {
      assert Drop(Drop(name, rest), 1) == Drop(name, rest + 1);
      rest := rest + 1;
    }
  }

  /** `letter_rank`: 0 to 25 for a letter, 26 for anything else. */
  function RankAt(s: Name): (r: nat)
    ensures r <= 26
  {
    var b := Base(First(s).cp);
    if b != 0 then b - 'A' as int else 26
  }

  function Rank(name: Name): nat {
    RankAt(Significant(name))
  }

  /** `rpod_alpha_letter`. */
  method Letter(name: Name) returns (c: char)
    ensures c == LetterOf(name)
  {
    var at := FindSignificant(name, 0);
    assert Drop(name, 0) == name;
    var rank := LetterRank(name, at);
    c := if rank < 26 then ('A' as int + rank) as char else '#';
  }

  function LetterOf(name: Name): char {
    if Rank(name) < 26 then ('A' as int + Rank(name)) as char else '#'
  }

  // --- The order ---

  function Key(cp: nat): (k: nat)
    ensures cp != 0 ==> k != 0
  {
    if Base(cp) != 0 then Base(cp) else cp
  }

  /** What a name is compared by, letter by letter, up to its end or a zero. */
  function Keys(s: Name): (r: seq<nat>)
    ensures forall i :: 0 <= i < |r| ==> r[i] != 0
    decreases |s|
  {
    var p := First(s);
    if p.cp == 0 then [] else [Key(p.cp)] + Keys(Drop(s, p.len))
  }

  /** The dictionary order of sequences: -1, 0 or 1. */
  function Lex(x: seq<nat>, y: seq<nat>): (r: int)
    ensures r == -1 || r == 0 || r == 1
    decreases |x|
  {
    if x == [] then if y == [] then 0 else -1
    else if y == [] then 1
    else if x[0] != y[0] then if x[0] < y[0] then -1 else 1
    else Lex(x[1..], y[1..])
  }

  function Numbers(s: Name): (r: seq<nat>)
    ensures r == s
  {
    s
  }

  /** The order the comparison is to be: by letter, then by what counts of the name, then by its bytes. */
  function Order(a: Name, b: Name): (r: int)
    ensures r == -1 || r == 0 || r == 1
  {
    if Rank(a) != Rank(b) then if Rank(a) < Rank(b) then -1 else 1
    else if Lex(Keys(Significant(a)), Keys(Significant(b))) != 0 then Lex(Keys(Significant(a)), Keys(Significant(b)))
    else Lex(Numbers(a), Numbers(b))
  }

  /** `rpod_alpha_compare`. */
  method Compare(a: Name, b: Name) returns (r: int)
    ensures r == Order(a, b)
  {
    var sa := FindSignificant(a, 0);
    var sb := FindSignificant(b, 0);
    assert Drop(a, 0) == a && Drop(b, 0) == b;
    var ra := LetterRank(a, sa);
    var rb := LetterRank(b, sb);
    if ra != rb {
      return if ra < rb then -1 else 1;
    }
    r := CompareFrom(a, b, sa, sb, Lex(Keys(Significant(a)), Keys(Significant(b))));
    if r == 0 {
      r := Lex(Numbers(a), Numbers(b));
    }
  }

  method LetterRank(name: Name, at: nat) returns (r: nat)
    requires at <= |name|
    ensures r == RankAt(Drop(name, at))
  {
    var cp, next := NextCp(name, at);
    var b := Base(cp);
    r := if b != 0 then b - 'A' as int else 26;
  }

  /** What is left of both names from two places on compares as the whole does. */
  predicate StillDecides(a: Name, b: Name, sa: nat, sb: nat, order: int) {
    sa <= |a| && sb <= |b| && Lex(Keys(Drop(a, sa)), Keys(Drop(b, sb))) == order
  }

  /** The comparison's loop. */
  method CompareFrom(a: Name, b: Name, fromA: nat, fromB: nat, ghost order: int) returns (r: int)
    requires StillDecides(a, b, fromA, fromB, order)
    ensures r == order
  {
    var sa: nat, sb: nat := fromA, fromB;
    while true
      invariant StillDecides(a, b, sa, sb, order)
      decreases |a| - sa
    {
      var decided: Option<int>;
      decided, sa, sb := CompareNext(a, b, sa, sb, order);
      if decided.Some? {
        return decided.value;
      }
    }
  }

  /** One round of it: the result, or the places to go on from. */
  method CompareNext(a: Name, b: Name, sa: nat, sb: nat, ghost order: int) returns (r: Option<int>, na: nat, nb: nat)
    requires StillDecides(a, b, sa, sb, order)
    ensures r.Some? ==> r.value == order
    ensures r.None? ==> sa < na && StillDecides(a, b, na, nb, order)
  {
    var ca, cb;
    ca, na := NextCp(a, sa);
    cb, nb := NextCp(b, sb);
    CompareStep(a, b, sa, sb, First(Drop(a, sa)), First(Drop(b, sb)), na, nb, order);
    r := if Key(ca) != Key(cb) then Some(if Key(ca) < Key(cb) then -1 else 1) else if ca == 0 then Some(0) else None;
  }

  /** One round of the comparison: the keys differ, or both names end, or the rest decides. */
  lemma CompareStep(a: Name, b: Name, sa: nat, sb: nat, pa: Point, pb: Point, na: nat, nb: nat, order: int)
    requires StillDecides(a, b, sa, sb, order) && pa == First(Drop(a, sa)) && pb == First(Drop(b, sb))
    requires na == sa + pa.len && nb == sb + pb.len
    ensures Key(pa.cp) != Key(pb.cp) ==> order == if Key(pa.cp) < Key(pb.cp) then -1 else 1
    ensures Key(pa.cp) == Key(pb.cp) && pa.cp == 0 ==> order == 0
    ensures Key(pa.cp) == Key(pb.cp) && pa.cp != 0 ==> sa < na && StillDecides(a, b, na, nb, order)
  {
    assert Drop(Drop(a, sa), pa.len) == Drop(a, na);
    assert Drop(Drop(b, sb), pb.len) == Drop(b, nb);
    var x, y := Keys(Drop(a, sa)), Keys(Drop(b, sb));
    if pa.cp != 0 {
      assert x == [Key(pa.cp)] + Keys(Drop(a, na));
      assert x[1..] == Keys(Drop(a, na));
    }
    if pb.cp != 0 {
      assert y == [Key(pb.cp)] + Keys(Drop(b, nb));
      assert y[1..] == Keys(Drop(b, nb));
    }
  }

  lemma {:induction false} LexOpposite(x: seq<nat>, y: seq<nat>)
    ensures Lex(y, x) == -Lex(x, y)
    decreases |x|
  {
    if x != [] && y != [] && x[0] == y[0] {
      LexOpposite(x[1..], y[1..]);
    }
  }

  lemma {:induction false} LexZero(x: seq<nat>, y: seq<nat>)
    ensures Lex(x, y) == 0 <==> x == y
    decreases |x|
  {
    if x != [] && y != [] && x[0] == y[0] {
      LexZero(x[1..], y[1..]);
      assert x == [x[0]] + x[1..] && y == [y[0]] + y[1..];
    }
  }

  lemma {:induction false} LexTransitive(x: seq<nat>, y: seq<nat>, z: seq<nat>)
    requires Lex(x, y) <= 0 && Lex(y, z) <= 0
    ensures Lex(x, z) <= 0
    ensures Lex(x, z) == 0 ==> Lex(x, y) == 0 && Lex(y, z) == 0
    decreases |x|
  {
    if x != [] && y != [] && z != [] && x[0] == y[0] && y[0] == z[0] {
      LexTransitive(x[1..], y[1..], z[1..]);
    }
  }

  /** The order is total: opposite ways round it is opposite, only a name itself is level with it, and it is
      transitive. */
  lemma OrderOpposite(a: Name, b: Name)
    ensures Order(b, a) == -Order(a, b)
  {
    LexOpposite(Keys(Significant(a)), Keys(Significant(b)));
    LexOpposite(Numbers(a), Numbers(b));
  }

  lemma OrderZero(a: Name, b: Name)
    ensures Order(a, b) == 0 <==> a == b
  {
    LexZero(Numbers(a), Numbers(b));
    LexZero(Keys(Significant(a)), Keys(Significant(b)));
  }

  lemma OrderTransitive(a: Name, b: Name, c: Name)
    requires Order(a, b) <= 0 && Order(b, c) <= 0
    ensures Order(a, c) <= 0
  {
    if Rank(a) == Rank(b) == Rank(c) {
      var x, y, z := Keys(Significant(a)), Keys(Significant(b)), Keys(Significant(c));
      LexTransitive(x, y, z);
      if Lex(x, z) == 0 {
        LexTransitive(Numbers(a), Numbers(b), Numbers(c));
      }
    }
  }

  // --- Sorted lists ---

  predicate Sorted(names: seq<Name>) {
    forall i, k :: 0 <= i < k < |names| ==> Order(names[i], names[k]) <= 0
  }

  /** In a sorted list every letter's entries sit together, A to Z and then the rest. */
  lemma LettersTogether(names: seq<Name>, i: nat, j: nat, k: nat)
    requires Sorted(names) && i < j < k < |names|
    ensures Rank(names[i]) <= Rank(names[j]) <= Rank(names[k])
    ensures LetterOf(names[i]) == LetterOf(names[k]) ==> LetterOf(names[j]) == LetterOf(names[i])
  {
    assert Order(names[i], names[j]) <= 0 && Order(names[j], names[k]) <= 0;
    SameLetter(names[i], names[k]);
    SameLetter(names[i], names[j]);
  }

  lemma SameLetter(a: Name, b: Name)
    ensures LetterOf(a) == LetterOf(b) <==> Rank(a) == Rank(b)
  {
  }

  lemma RanksRise(names: seq<Name>, i: nat, k: nat)
    requires Sorted(names) && i <= k < |names|
    ensures Rank(names[i]) <= Rank(names[k])
  {
    if i < k {
      assert Order(names[i], names[k]) <= 0;
    }
  }

  /** The first entry of its letter. */
  predicate Heads(names: seq<Name>, i: nat) {
    i < |names| && forall k :: 0 <= k < i ==> Rank(names[k]) < Rank(names[i])
  }

  /** No entry's letter lies strictly between the two. */
  predicate NoneBetween(names: seq<Name>, low: nat, high: nat) {
    forall k :: 0 <= k < |names| ==> !(low < Rank(names[k]) < high)
  }

  predicate NextLetter(names: seq<Name>, cur: nat, r: nat) {
    && cur < |names| && r < |names|
    && (if r == cur then forall k :: 0 <= k < |names| ==> Rank(names[k]) <= Rank(names[cur])
        else Heads(names, r) && Rank(names[cur]) < Rank(names[r]) && NoneBetween(names, Rank(names[cur]), Rank(names[r])))
  }

  predicate PreviousLetter(names: seq<Name>, cur: nat, r: nat) {
    && cur < |names| && Heads(names, r)
    && (if Rank(names[r]) == Rank(names[cur]) then r == 0
        else Rank(names[r]) < Rank(names[cur]) && NoneBetween(names, Rank(names[r]), Rank(names[cur])))
  }

  /** `rpod_alpha_jump`: to the first entry of the next letter, or it stays; to that of the letter before, or to
      the top. */
  method Jump(names: seq<Name>, current: nat, dir: int) returns (r: nat)
    requires Sorted(names)
    ensures names == [] || dir == 0 ==> r == current
    ensures names != [] && dir != 0 ==>
              (var cur := if current < |names| then current else |names| - 1;
               if dir > 0 then NextLetter(names, cur, r) else PreviousLetter(names, cur, r))
  {
    var cur := current;
    if names == [] || dir == 0 {
      return cur;
    }
    if cur >= |names| {
      cur := |names| - 1;
    }
    if dir > 0 {
      r := JumpOn(names, cur);
    } else {
      r := JumpBack(names, cur);
    }
  }

  method JumpOn(names: seq<Name>, cur: nat) returns (r: nat)
    requires Sorted(names) && cur < |names|
    ensures NextLetter(names, cur, r)
  {
    var here := Letter(names[cur]);
    var i := cur + 1;
    while i < |names|
      invariant cur < i <= |names|
      invariant forall k :: cur <= k < i ==> Rank(names[k]) == Rank(names[cur])
    {
      var there := Letter(names[i]);
      SameLetter(names[i], names[cur]);
      if there != here {
        JumpedOn(names, cur, i);
        return i;
      }
      i := i + 1;
    }
    forall k | 0 <= k < |names| ensures Rank(names[k]) <= Rank(names[cur]) {
      if k < cur {
        RanksRise(names, k, cur);
      }
    }
    return cur;
  }

  lemma JumpedOn(names: seq<Name>, cur: nat, i: nat)
    requires Sorted(names) && cur < i < |names| && Rank(names[i]) != Rank(names[cur])
    requires forall k :: cur <= k < i ==> Rank(names[k]) == Rank(names[cur])
    ensures NextLetter(names, cur, i)
  {
    forall k | 0 <= k < |names|
      ensures (k < i ==> Rank(names[k]) <= Rank(names[cur])) && (k >= i ==> Rank(names[k]) >= Rank(names[i]))
    {
      if k < cur {
        RanksRise(names, k, cur);
      } else if k >= i {
        RanksRise(names, i, k);
      }
    }
    RanksRise(names, cur, i);
  }

  /** The top of the letter that the entry is of. */
  method TopOf(names: seq<Name>, cur: nat) returns (i: nat)
    requires Sorted(names) && cur < |names|
    ensures i <= cur && Heads(names, i) && Rank(names[i]) == Rank(names[cur])
  {
    var here := Letter(names[cur]);
    i := cur;
    while i > 0
      invariant 0 <= i <= cur
      invariant Rank(names[i]) == Rank(names[cur])
    {
      var before := Letter(names[i - 1]);
      SameLetter(names[i - 1], names[cur]);
      if before != here {
        break;
      }
      i := i - 1;
    }
    HeadsThere(names, i);
  }

  lemma HeadsThere(names: seq<Name>, i: nat)
    requires Sorted(names) && i < |names| && (i > 0 ==> Rank(names[i - 1]) != Rank(names[i]))
    ensures Heads(names, i)
  {
    forall k | 0 <= k < i ensures Rank(names[k]) < Rank(names[i]) {
      RanksRise(names, k, i - 1);
      RanksRise(names, i - 1, i);
    }
  }

  method JumpBack(names: seq<Name>, cur: nat) returns (r: nat)
    requires Sorted(names) && cur < |names|
    ensures PreviousLetter(names, cur, r)
  {
    var i := TopOf(names, cur);
    if i == 0 {
      return 0;
    }
    r := TopOf(names, i - 1);
    forall k | 0 <= k < |names| ensures !(Rank(names[r]) < Rank(names[k]) < Rank(names[cur])) {
      if k < i {
        RanksRise(names, k, i - 1);
      } else {
        RanksRise(names, i, k);
      }
    }
  }

  // --- What files where ---

  lemma RanksDiffer(a: Name, b: Name)
    requires Rank(a) < Rank(b)
    ensures Order(a, b) == -1
  {
  }

  /** A name files under the capital of the ASCII letter that its sorting starts with. */
  lemma FilesUnderCapital(name: Name, c: byte)
    requires Significant(name) != [] && Significant(name)[0] == c
    ensures 'A' as int <= c <= 'Z' as int ==> LetterOf(name) as int == c
    ensures 'a' as int <= c <= 'z' as int ==> LetterOf(name) as int == c - 32
    ensures '0' as int <= c <= '9' as int ==> LetterOf(name) == '#'
  {
  }

  /** Sorting starts with a letter or a digit right away, unless an article begins the name. */
  lemma StartsAtOnce(name: Name)
    requires name != [] && name[0] < 0x80 && Counts(name[0]) && !HasThe(name)
    ensures Significant(name) == name
  {
  }

  /** From A to Z the order of the letters is that of the alphabet, whatever the rest of the names; what files under no
      letter comes after them all. */
  lemma LettersInOrder(a: Name, b: Name)
    ensures LetterOf(a) != '#' && LetterOf(b) != '#' && LetterOf(a) < LetterOf(b) ==> Order(a, b) == -1
    ensures LetterOf(a) != '#' && LetterOf(b) == '#' ==> Order(a, b) == -1
  {
    if LetterOf(a) != '#' && (LetterOf(b) == '#' || LetterOf(a) < LetterOf(b)) {
      RanksDiffer(a, b);
    }
  }

  lemma EncodedIsName(cp: scalar)
    requires cp != 0
    ensures NonZero(Encode(cp))
  {
  }

  lemma TailRead(s: Name, extra: nat, cp: nat, b: nat, c: nat, d: nat)
    requires 1 <= extra <= 3 && |s| > extra && b < 64 && c < 64 && d < 64
    requires s[extra] == 0x80 + d && (extra > 1 ==> s[extra - 1] == 0x80 + c) && (extra > 2 ==> s[extra - 2] == 0x80 + b)
    ensures Tail(s, 1, extra, cp) == Some(
              if extra == 1 then cp * 64 + d else if extra == 2 then (cp * 64 + c) * 64 + d else ((cp * 64 + b) * 64 + c) * 64 + d)
  {
    if extra == 1 {
      assert Tail(s, 2, 1, cp * 64 + d) == Some(cp * 64 + d);
    } else if extra == 2 {
      assert Tail(s, 2, 2, cp * 64 + c) == Tail(s, 3, 2, (cp * 64 + c) * 64 + d);
    } else {
      assert Tail(s, 2, 3, cp * 64 + b) == Tail(s, 3, 3, (cp * 64 + b) * 64 + c);
      assert Tail(s, 3, 3, (cp * 64 + b) * 64 + c) == Tail(s, 4, 3, ((cp * 64 + b) * 64 + c) * 64 + d);
    }
  }

  lemma TwoRead(s: Name, l: nat, d: nat)
    requires |s| >= 2 && l < 32 && d < 64 && s[0] == 0xC0 + l && s[1] == 0x80 + d
    ensures First(s) == Point(l * 64 + d, 2)
  {
    TailRead(s, 1, l, 0, 0, d);
  }

  lemma ThreeRead(s: Name, l: nat, c: nat, d: nat)
    requires |s| >= 3 && l < 16 && c < 64 && d < 64 && s[0] == 0xE0 + l && s[1] == 0x80 + c && s[2] == 0x80 + d
    ensures First(s) == Point((l * 64 + c) * 64 + d, 3)
  {
    TailRead(s, 2, l, 0, c, d);
  }

  lemma FourRead(s: Name, l: nat, b: nat, c: nat, d: nat)
    requires |s| >= 4 && l < 8 && b < 64 && c < 64 && d < 64
    requires s[0] == 0xF0 + l && s[1] == 0x80 + b && s[2] == 0x80 + c && s[3] == 0x80 + d
    ensures First(s) == Point(((l * 64 + b) * 64 + c) * 64 + d, 4)
  {
    TailRead(s, 3, l, b, c, d);
  }

  /** A well-formed character is read as the code point it encodes, whole. */
  lemma EncodedRead(cp: scalar, rest: Name)
    requires cp != 0
    ensures NonZero(Encode(cp) + rest) && First(Encode(cp) + rest) == Point(cp, |Encode(cp)|)
  {
    EncodedIsName(cp);
    SixBitShifts(cp);
    var s: Name := Encode(cp) + rest;
    var b, c, d := cp / 4096 % 64, cp / 64 % 64, cp % 64;
    if cp < 0x80 {
      assert s[0] == cp;
    } else if cp < 0x800 {
      TwoRead(s, cp / 64, d);
    } else if cp < 0x1_0000 {
      ThreeRead(s, cp / 4096, c, d);
    } else {
      FourRead(s, cp / 262144, b, c, d);
    }
  }

  /** The tables as the source writes them: a base letter for each of U+00C0 to U+00FF, and of U+0100 to U+017F. */
  const LATIN1_TEXT0: string := "AAAAAAACEEEEIIIIDNOOOOO.OUUUUYTS"
  const LATIN1_TEXT1: string := "AAAAAAACEEEEIIIIDNOOOOO.OUUUUYTY"
  const EXT_A_TEXT0: string := "AAAAAACCCCCCCCDDDDEEEEEEEEEEGGGG"
  const EXT_A_TEXT1: string := "GGGGHHHHIIIIIIIIIIIIJJKKKLLLLLLL"
  const EXT_A_TEXT2: string := "LLLNNNNNNNNNOOOOOOOORRRRRRSSSSSS"
  const EXT_A_TEXT3: string := "SSTTTTTTUUUUUUUUUUUUWWYYYZZZZZZS"

  lemma Latin1Text0(i: nat)
    requires i < 32
    ensures LATIN1_TEXT0[i] == Latin1(i)
  {
  }

  lemma Latin1Text1(i: nat)
    requires i < 32
    ensures LATIN1_TEXT1[i] == if i == 31 then 'Y' else Latin1(i)
  {
  }

  lemma ExtAText0(i: nat)
    requires i < 32
    ensures EXT_A_TEXT0[i] == LatinExtA(0 + i)
  {
  }

  lemma ExtAText1(i: nat)
    requires i < 32
    ensures EXT_A_TEXT1[i] == LatinExtA(32 + i)
  {
  }

  lemma ExtAText2(i: nat)
    requires i < 32
    ensures EXT_A_TEXT2[i] == LatinExtA(64 + i)
  {
  }

  lemma ExtAText3(i: nat)
    requires i < 32
    ensures EXT_A_TEXT3[i] == LatinExtA(96 + i)
  {
  }

  /** The base letter that the tables' text has at that place, if it has one. */
  function Lettered(text: string, i: nat): nat
    requires i < |text|
  {
    if text[i] == '.' then 0 else text[i] as int
  }

  /** A letter with an accent counts as the tables' base letter. */
  lemma AccentsFold(i: nat)
    requires i < 32
    ensures Base(0xC0 + i) == Lettered(LATIN1_TEXT0, i) && Base(0xE0 + i) == Lettered(LATIN1_TEXT1, i)
  {
    Latin1Text0(i);
    Latin1Text1(i);
  }

  lemma ExtendedFold(i: nat)
    requires i < 32
    ensures Base(0x100 + i) == Lettered(EXT_A_TEXT0, i) && Base(0x120 + i) == Lettered(EXT_A_TEXT1, i)
    ensures Base(0x140 + i) == Lettered(EXT_A_TEXT2, i) && Base(0x160 + i) == Lettered(EXT_A_TEXT3, i)
  {
    ExtAText0(i);
    ExtAText1(i);
    ExtAText2(i);
    ExtAText3(i);
  }

  // --- What is skipped ---

  /** A leading article counts for nothing when a word follows: "The Beatles" sorts with "Beatles". */
  lemma ArticleSkipped(the: Name, rest: Name)
    requires |the| == 4 && HasThe(the) && rest != [] && rest[0] != ' ' as int
    ensures Significant(the + rest) == Significant(rest)
  {
    var s: Name := the + rest;
    assert First(s).cp == the[0] && Counts(the[0]);
    assert Drop(s, 4) == rest;
    assert SkipSpaces(rest) == rest;
  }

  /** An article with nothing after it counts. */
  lemma ArticleAlone(the: Name)
    requires |the| == 4 && HasThe(the)
    ensures Significant(the) == the
  {
    assert First(the).cp == the[0] && Counts(the[0]);
    assert Drop(the, 4) == [];
  }

  /** An ASCII character that is neither letter nor digit counts for nothing in front. */
  lemma PunctuationSkipped(c: byte, rest: Name)
    requires 0 < c < 0x80 && !Counts(c)
    ensures NonZero([c] + rest) && Significant([c] + rest) == Significant(rest)
  {
    var s: Name := [c] + rest;
    assert First(s) == Point(c, 1) && Drop(s, 1) == rest;
  }

  /** Where sorting starts is found once and for all: starting from there finds the same place. */
  lemma {:induction false} SignificantAgain(name: Name)
    ensures Significant(Significant(name)) == Significant(name)
    decreases |name|
  {
    var s := SkipOthers(name);
    if HasThe(s) && SkipSpaces(Drop(s, 4)) != [] {
      SignificantAgain(SkipSpaces(Drop(s, 4)));
    }
  }

  function LowerByte(b: byte): byte {
    if 'A' as int <= b <= 'Z' as int then b + 32 else b
  }

  function Lower(s: Name): (r: Name)
    ensures |r| == |s| && forall i :: 0 <= i < |r| ==> r[i] == LowerByte(s[i])
  {
    seq(|s|, i requires 0 <= i < |s| => LowerByte(s[i]))
  }

  lemma {:induction false} TailLower(s: Name, i: nat, extra: nat, cp: nat)
    requires i <= extra + 1
    ensures Tail(Lower(s), i, extra, cp) == Tail(s, i, extra, cp)
    decreases extra + 1 - i
  {
    if i <= extra && i < |s| && Continues(s[i]) {
      TailLower(s, i + 1, extra, cp * 64 + (s[i] - 0x80));
    }
  }

  lemma FirstLower(s: Name)
    ensures var p, q := First(Lower(s)), First(s);
            p.len == q.len && Key(p.cp) == Key(q.cp) && Base(p.cp) == Base(q.cp)
            && (p.cp == 0 <==> q.cp == 0) && (Counts(p.cp) <==> Counts(q.cp))
  {
    if s != [] && s[0] >= 0xC0 {
      TailLower(s, 1, Extra(s[0]), Lead(s[0]));
    }
  }

  lemma LowerDrop(s: Name, n: nat)
    requires n <= |s|
    ensures Drop(Lower(s), n) == Lower(Drop(s, n))
  {
  }

  lemma {:induction false} KeysLower(s: Name)
    ensures Keys(Lower(s)) == Keys(s)
    decreases |s|
  {
    FirstLower(s);
    if First(s).cp != 0 {
      LowerDrop(s, First(s).len);
      KeysLower(Drop(s, First(s).len));
    }
  }

  lemma {:induction false} SkipsLower(s: Name)
    ensures SkipOthers(Lower(s)) == Lower(SkipOthers(s))
    decreases |s|
  {
    FirstLower(s);
    if !Counts(First(s).cp) {
      LowerDrop(s, First(s).len);
      SkipsLower(Drop(s, First(s).len));
    }
  }

  lemma {:induction false} SpacesLower(s: Name)
    ensures SkipSpaces(Lower(s)) == Lower(SkipSpaces(s))
    decreases |s|
  {
    if s != [] && s[0] == ' ' as int {
      LowerDrop(s, 1);
      SpacesLower(Drop(s, 1));
    }
  }

  lemma {:induction false} SignificantLower(name: Name)
    ensures Significant(Lower(name)) == Lower(Significant(name))
    decreases |name|
  {
    var s := SkipOthers(name);
    SkipsLower(name);
    if HasThe(s) {
      LowerDrop(s, 4);
      SpacesLower(Drop(s, 4));
      if SkipSpaces(Drop(s, 4)) != [] {
        SignificantLower(SkipSpaces(Drop(s, 4)));
      }
    }
  }

  /** Case folds away: a name in small letters files where it did, and against any other name, the two are
      ordered alike unless the bytes have to decide. */
  lemma CaseFolds(name: Name, other: Name)
    ensures LetterOf(Lower(name)) == LetterOf(name)
    ensures Keys(Significant(name)) != Keys(Significant(other)) ==> Order(Lower(name), other) == Order(name, other)
  {
    SignificantLower(name);
    KeysLower(Significant(name));
    FirstLower(Significant(name));
    LexZero(Keys(Significant(name)), Keys(Significant(other)));
  }
}
