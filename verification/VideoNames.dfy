/**
 What an uploaded video may be called and what it becomes: web/videos.c and the name
 check of web/library.c.
 */
module VideoNames {
  import opened Wrappers
  import opened Utf8

  const FORBIDDEN: seq<byte> := ['/' as int, '\\' as int, '"' as int, '*' as int, ':' as int, '<' as int, '>' as int, '?' as int, '|' as int]

  predicate PlainByte(b: byte) {
    b >= 0x20 && b != 0x7F && b !in FORBIDDEN
  }

  /** `rpod_lib_name_ok`. */
  predicate NameOk(name: seq<byte>) {
    && 1 <= |name| <= 255 && name[0] != '.' as int
    && name[|name| - 1] != ' ' as int && name[|name| - 1] != '.' as int
    && (forall i :: 0 <= i < |name| ==> PlainByte(name[i]))
    && Valid(name)
  }

  lemma PlainName(name: seq<byte>)
    requires 1 <= |name| <= 255 && forall i :: 0 <= i < |name| ==> PlainByte(name[i]) && name[i] < 0x80
    requires name[0] != '.' as int && name[|name| - 1] != ' ' as int && name[|name| - 1] != '.' as int
    ensures NameOk(name)
  {
    ValidAscii(name);
  }

  /** `strrchr(name, '.')`: where the last dot is, or the length if there is none. */
  function LastDot(name: seq<byte>): (i: nat)
    ensures i <= |name| && (i < |name| ==> name[i] == '.' as int)
    ensures forall k :: i < k < |name| ==> name[k] != '.' as int
    ensures i == |name| ==> forall k :: 0 <= k < |name| ==> name[k] != '.' as int
  {
    if name == [] then 0
    else if name[|name| - 1] == '.' as int then |name| - 1
    else
      var i := LastDot(name[..|name| - 1]);
      if i < |name| - 1 then i else |name|
  }

  const MP4: seq<byte> := ['.' as int, 'm' as int, 'p' as int, '4' as int]

  /** The name without its extension. */
  function Stem(name: seq<byte>): seq<byte> {
    var dot := LastDot(name);
    if 0 < dot < |name| then name[..dot] else name
  }

  function Cut(s: seq<byte>, n: nat): (r: seq<byte>)
    ensures |r| <= n && |r| <= |s| && r == s[..|r|]
  {
    if |s| > n then s[..n] else s
  }

  /** `rpod_videos_target`: the stem, cut at 251 bytes, and ".mp4". */
  function Target(name: seq<byte>): seq<byte> {
    Cut(Stem(name), 251) + MP4
  }

  /** The name an upload becomes passes the name check that recovery makes exactly when the byte after the cut, if
      there is one, does not continue a character. */
  lemma TargetOk(name: seq<byte>)
    requires NameOk(name)
    ensures NameOk(Target(name)) <==> |Stem(name)| <= 251 || !IsCont(Stem(name)[251])
  {
    StemValid(name);
    var c := Cut(Stem(name), 251);
    if |Stem(name)| > 251 {
      ValidCut(Stem(name), 251);
    }
    TargetValid(c);
    TargetPlain(name, c);
  }

  lemma StemValid(name: seq<byte>)
    requires NameOk(name)
    ensures Valid(Stem(name)) && Stem(name) != [] && Stem(name) <= name
  {
    var dot := LastDot(name);
    if 0 < dot < |name| {
      ValidCut(name, dot);
    }
  }

  lemma TargetValid(c: seq<byte>)
    ensures Valid(c + MP4) <==> Valid(c)
  {
    ValidAscii(MP4);
    if Valid(c) {
      ValidConcat(c, MP4);
    }
    if Valid(c + MP4) {
      ValidCut(c + MP4, |c|);
      assert (c + MP4)[..|c|] == c;
    }
  }

  lemma TargetPlain(name: seq<byte>, c: seq<byte>)
    requires NameOk(name) && c != [] && c <= name && |c| <= 251
    ensures NameOk(c + MP4) <==> Valid(c + MP4)
  {
    var t := c + MP4;
    assert t[0] == name[0] && t[|t| - 1] == '4' as int;
    forall i | 0 <= i < |t| ensures PlainByte(t[i]) {
      assert t[i] == if i < |c| then name[i] else MP4[i - |c|];
    }
  }

  /** A well-formed text cut short is well-formed exactly when the first byte cut off does not continue a character. */
  lemma {:induction false} ValidCut(s: seq<byte>, k: nat)
    requires Valid(s) && k < |s|
    ensures Valid(s[..k]) <==> !IsCont(s[k])
    decreases |s|
  {
    var n := SeqLen(s);
    if k >= n {
      AcceptedIsEncoded(s);
      EncodeAccepted(Bits(s, n), s[n..k]);
      CutCut(s, n, k);
      ValidCut(s[n..], k - n);
    }
  }

  const E_ACUTE: seq<byte> := [0xC3, 0xA9]
  const TS: seq<byte> := ['.' as int, 't' as int, 's' as int]

  /** It can: an upload of 250 letters, one two-byte letter and ".ts" is a good name, and what it becomes is not. */
  lemma CutCanSplit() returns (name: seq<byte>)
    ensures NameOk(name) && !NameOk(Target(name))
  {
    var a: seq<byte> := seq(250, _ => 'a' as int);
    name := a + E_ACUTE + TS;
    LongNameOk(a);
    LongNameStem(a);
    SplitInvalid(a);
    TargetOk(name);
  }

  lemma LongNameOk(a: seq<byte>)
    requires |a| == 250 && forall i :: 0 <= i < 250 ==> a[i] == 'a' as int
    ensures NameOk(a + E_ACUTE + TS)
  {
    LongNameValid(a);
    LongNamePlain(a, a + E_ACUTE + TS);
  }

  lemma LongNameValid(a: seq<byte>)
    requires forall i :: 0 <= i < |a| ==> a[i] == 'a' as int
    ensures Valid(a + E_ACUTE + TS)
  {
    ValidAscii(a);
    EndValid();
    ValidConcat(a, E_ACUTE + TS);
    Associative(a, E_ACUTE, TS);
  }

  lemma EndValid()
    ensures Valid(E_ACUTE + TS)
  {
    assert E_ACUTE == Encode(0xE9);
    ValidEncode(0xE9);
    ValidAscii(TS);
    ValidConcat(Encode(0xE9), TS);
  }

  lemma LongNamePlain(a: seq<byte>, name: seq<byte>)
    requires |a| == 250 && (forall i :: 0 <= i < 250 ==> a[i] == 'a' as int) && name == a + E_ACUTE + TS && Valid(name)
    ensures NameOk(name)
  {
    forall i | 0 <= i < |name| ensures PlainByte(name[i]) {
      assert name[i] == if i < 250 then 'a' as int else if i < 252 then E_ACUTE[i - 250] else TS[i - 252];
    }
    assert name[0] == 'a' as int && name[|name| - 1] == TS[2];
  }

  lemma LongNameStem(a: seq<byte>)
    requires |a| == 250 && forall i :: 0 <= i < 250 ==> a[i] == 'a' as int
    ensures Cut(Stem(a + E_ACUTE + TS), 251) == a + [0xC3]
  {
    var name := a + E_ACUTE + TS;
    assert name[252] == '.' as int && name[253] == 't' as int && name[254] == 's' as int;
    var dot := LastDot(name);
    assert dot == 252;
    assert name[..252] == a + E_ACUTE;
  }

  lemma {:induction false} SplitInvalid(a: seq<byte>)
    requires forall i :: 0 <= i < |a| ==> a[i] < 0x80
    ensures !Valid(a + [0xC3])
  {
    if a == [] {
      assert a + [0xC3] == [0xC3];
    } else {
      assert SeqLen(a + [0xC3]) == 1;
      assert (a + [0xC3])[1..] == a[1..] + [0xC3];
      SplitInvalid(a[1..]);
    }
  }

  /** `install`'s names in turn: the target, then "<stem> 2.mp4", "<stem> 3.mp4"... */
  function Candidate(target: seq<byte>, n: nat): seq<byte>
    requires 1 <= n < 100
  {
    if n == 1 || |target| < 4 then target
    else Cut(target[..|target| - 4], 240) + [' ' as int] + (if n < 10 then ['0' as int + n] else ['0' as int + n / 10, '0' as int + n % 10]) + MP4
  }

  // --- The names tried ---

  /** The digits of a number of a try, the first of them not a zero. */
  predicate Numeral(s: seq<byte>, n: nat) {
    if |s| == 1 then s[0] == '0' as int + n && 0 < n < 10
    else |s| == 2 && '1' as int <= s[0] <= '9' as int && '0' as int <= s[1] <= '9' as int
         && n == (s[0] - '0' as int) * 10 + (s[1] - '0' as int)
  }

  /** The first name is the target, and each later one keeps its stem, cut to 240 bytes, and adds its number. */
  lemma CandidateIs(stem: seq<byte>, n: nat) returns (num: seq<byte>)
    requires 1 <= n < 100
    ensures Numeral(num, n)
    ensures Candidate(stem + MP4, n) == if n == 1 then stem + MP4 else Cut(stem, 240) + [' ' as int] + num + MP4
  {
    num := if n < 10 then ['0' as int + n] else ['0' as int + n / 10, '0' as int + n % 10];
    assert (stem + MP4)[..|stem|] == stem;
  }

  lemma NumeralsDiffer(s: seq<byte>, n: nat, t: seq<byte>, m: nat)
    requires Numeral(s, n) && Numeral(t, m) && n != m
    ensures s != t
  {
  }

  lemma SameMiddle(a: seq<byte>, s: seq<byte>, t: seq<byte>)
    requires a + [' ' as int] + s + MP4 == a + [' ' as int] + t + MP4
    ensures s == t
  {
    var x, y := a + [' ' as int] + s + MP4, a + [' ' as int] + t + MP4;
    assert |x| == |a| + 1 + |s| + |MP4| && |y| == |a| + 1 + |t| + |MP4|;
    assert x[|a| + 1..|a| + 1 + |s|] == s && y[|a| + 1..|a| + 1 + |t|] == t;
  }

  /** Two later names are never the same. */
  lemma LaterDiffer(stem: seq<byte>, n: nat, m: nat)
    requires 2 <= n < m < 100
    ensures Candidate(stem + MP4, n) != Candidate(stem + MP4, m)
  {
    var s := CandidateIs(stem, n);
    var u := CandidateIs(stem, m);
    NumeralsDiffer(s, n, u, m);
    if Candidate(stem + MP4, n) == Candidate(stem + MP4, m) {
      SameMiddle(Cut(stem, 240), s, u);
    }
  }

  /** A later name is the target again exactly if the stem is its own first 240 bytes, a space and that number. */
  lemma FirstDiffers(stem: seq<byte>, n: nat) returns (num: seq<byte>)
    requires 2 <= n < 100
    ensures Numeral(num, n)
    ensures Candidate(stem + MP4, n) == Candidate(stem + MP4, 1) <==> |stem| > 240 && stem == stem[..240] + [' ' as int] + num
  {
    num := CandidateIs(stem, n);
    var first := CandidateIs(stem, 1);
    SameFront(stem, Cut(stem, 240) + [' ' as int] + num);
  }

  lemma SameFront(a: seq<byte>, b: seq<byte>)
    ensures a + MP4 == b + MP4 <==> a == b
  {
    if a + MP4 == b + MP4 {
      assert |a + MP4| == |a| + |MP4| && |b + MP4| == |b| + |MP4|;
      assert a == (a + MP4)[..|a|] && b == (b + MP4)[..|b|];
    }
  }

  /** So the 99 names are 99 different ones exactly if the stem does not end in a try's number at that very place. */
  lemma NamesDiffer(stem: seq<byte>)
    ensures (forall n, m :: 1 <= n < m < 100 ==> Candidate(stem + MP4, n) != Candidate(stem + MP4, m))
       <==> !(|stem| > 240 && exists n, num :: 2 <= n < 100 && Numeral(num, n) && stem == stem[..240] + [' ' as int] + num)
  {
    forall n, m | 2 <= n < m < 100 ensures Candidate(stem + MP4, n) != Candidate(stem + MP4, m) {
      LaterDiffer(stem, n, m);
    }
    if |stem| > 240 {
      if n, num :| 2 <= n < 100 && Numeral(num, n) && stem == stem[..240] + [' ' as int] + num {
        var its := FirstDiffers(stem, n);
        SameNumeral(num, its, n);
      }
    }
    forall m | 2 <= m < 100 && Candidate(stem + MP4, 1) == Candidate(stem + MP4, m)
      ensures |stem| > 240 && exists n, num :: 2 <= n < 100 && Numeral(num, n) && stem == stem[..240] + [' ' as int] + num
    {
      var num := FirstDiffers(stem, m);
    }
  }

  lemma SameNumeral(s: seq<byte>, u: seq<byte>, n: nat)
    requires Numeral(s, n) && Numeral(u, n)
    ensures s == u
  {
  }

  // --- What an upload becomes ---

  /** A name with an extension becomes its part before the last dot, cut to 251 bytes, as an MP4. */
  lemma TargetIs(stem: seq<byte>, extension: seq<byte>)
    requires stem != [] && '.' as int !in extension
    ensures Target(stem + ['.' as int] + extension) == Cut(stem, 251) + MP4
  {
    var name := stem + ['.' as int] + extension;
    assert name[|stem|] == '.' as int && name[..|stem|] == stem;
    forall i | |stem| < i < |name| ensures name[i] != '.' as int {
      assert name[i] == extension[i - |stem| - 1];
      assert extension[i - |stem| - 1] in extension;
    }
    assert LastDot(name) == |stem|;
  }

  /** One without becomes itself, so cut, as an MP4. */
  lemma TargetWithout(name: seq<byte>)
    requires '.' as int !in name
    ensures Target(name) == Cut(name, 251) + MP4
  {
    assert name[..|name|] == name;
  }

  /** The first free name from the `n`th on. */
  function FirstFree(taken: set<seq<byte>>, target: seq<byte>, n: nat): (r: Option<seq<byte>>)
    requires 1 <= n <= 100
    ensures r.Some? ==> r.value !in taken
    decreases 100 - n
  {
    if n == 100 then None
    else if Candidate(target, n) !in taken then Some(Candidate(target, n))
    else FirstFree(taken, target, n + 1)
  }

  /** All names before it are taken, and if there is none, all are. */
  lemma {:induction false} FirstFreeIsFirst(taken: set<seq<byte>>, target: seq<byte>, n: nat) returns (m: nat)
    requires 1 <= n <= 100
    ensures n <= m <= 100 && forall k :: n <= k < m ==> Candidate(target, k) in taken
    ensures FirstFree(taken, target, n) == if m < 100 then Some(Candidate(target, m)) else None
    ensures m < 100 ==> Candidate(target, m) !in taken
    decreases 100 - n
  {
    m := n;
    if n < 100 && Candidate(target, n) in taken {
      m := FirstFreeIsFirst(taken, target, n + 1);
    }
  }
}
