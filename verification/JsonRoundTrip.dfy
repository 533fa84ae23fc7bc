/**
 The reader of src/ha/json_read.c undoes the writer of web/json.c.
 */
module JsonRoundTrip {
  import opened Wrappers
  import opened Utf8
  import W = JsonWriter
  import R = JsonReader
  import opened JsonTrees
  import opened Doubles
  import opened Powers

  /** The value a printed tree reads back as: the same tree, its strings with every stray byte replaced and its
      integers to the nearest double. */
  function Expected(t: Tree): R.Json
    decreases t, 0
  {
    match t
    case TNull => R.JNull
    case TBool(b) => R.JBool(b)
    case TInt(n) => R.JNum(Nearest(n as real))
    case TStr(s) => R.JStr(Sanitize(s))
    case TArr(items) => R.JArr(ExpectedItems(items))
    case TObj(members) => R.JObj(ExpectedMembers(members))
  }

  function ExpectedItems(items: seq<Tree>): seq<R.Json> {
    if items == [] then [] else [Expected(items[0])] + ExpectedItems(items[1..])
  }

  function ExpectedMembers(members: seq<Member>): seq<R.JMember> {
    if members == [] then []
    else [R.JMember(Sanitize(members[0].key), Expected(members[0].value))] + ExpectedMembers(members[1..])
  }

  // --- Strings ---

  lemma HexDigitsRead(c: byte, rest: seq<byte>)
    requires c < 0x20
    ensures R.UnicodeEscape(['0' as int, '0' as int, W.HexDigit(c / 16), W.HexDigit(c % 16)] + rest) == Some((c, 4))
  {
    var s := ['0' as int, '0' as int, W.HexDigit(c / 16), W.HexDigit(c % 16)] + rest;
    assert R.HexVal(s[0]) == 0 && R.HexVal(s[1]) == 0;
    assert R.HexVal(s[2]) == c / 16 && R.HexVal(s[3]) == c % 16;
    assert R.Hex4(s) == c;
  }

  /** An escaped ASCII byte reads back as itself. */
  lemma AsciiRead(c: byte, rest: seq<byte>)
    requires 0 < c < 0x80
    ensures R.ReadString(W.EscapeAscii(c) + rest) == R.Prepend([c], R.ReadString(rest))
  {
    var e := W.EscapeAscii(c);
    var s := e + rest;
    if |e| == 1 {
      assert s[1..] == rest;
    } else if |e| == 2 {
      assert s[2..] == rest;
    } else {
      var hex := ['0' as int, '0' as int, W.HexDigit(c / 16), W.HexDigit(c % 16)];
      assert s[2..] == hex + rest;
      HexDigitsRead(c, rest);
      assert s[6..] == rest;
      assert Encode(c) == [c];
    }
  }

  /** Bytes past ASCII are copied as they are. */
  lemma {:induction false} RawRead(b: seq<byte>, rest: seq<byte>)
    requires forall i :: 0 <= i < |b| ==> b[i] >= 0x80
    ensures R.ReadString(b + rest) == R.Prepend(b, R.ReadString(rest))
  {
    if b == [] {
      assert b + rest == rest;
      R.PrependNothing(R.ReadString(rest));
    } else {
      assert (b + rest)[1..] == b[1..] + rest;
      RawRead(b[1..], rest);
      R.PrependTwice([b[0]], b[1..], R.ReadString(rest));
      assert [b[0]] + b[1..] == b;
    }
  }

  lemma SequenceIsRaw(v: seq<byte>)
    requires v != [] && v[0] >= 0x80 && SeqLen(v) > 0
    ensures forall i :: 0 <= i < SeqLen(v) ==> v[i] >= 0x80
  {
    forall i | 1 <= i < SeqLen(v) ensures v[i] >= 0x80 {
      assert IsCont(v[i]);
    }
  }

  /** The first piece of an escaped string reads back as what `Sanitize` puts there. */
  lemma PieceRead(v: seq<byte>, rest: seq<byte>) returns (piece: seq<byte>, raw: seq<byte>, n: nat)
    requires v != [] && 0 !in v
    ensures 1 <= n <= |v| && n == if SeqLen(v) == 0 then 1 else SeqLen(v)
    ensures W.Escaped(v) == piece + W.Escaped(v[n..]) && Sanitize(v) == raw + Sanitize(v[n..])
    ensures R.ReadString(piece + rest) == R.Prepend(raw, R.ReadString(rest))
  {
    n := 1;
    if v[0] < 0x80 {
      piece, raw := W.EscapeAscii(v[0]), [v[0]];
      AsciiRead(v[0], rest);
      assert SeqLen(v) == 1 && v[..1] == [v[0]];
    } else if SeqLen(v) == 0 {
      piece, raw := REPLACEMENT, REPLACEMENT;
      RawRead(REPLACEMENT, rest);
    } else {
      n := SeqLen(v);
      piece, raw := v[..n], v[..n];
      SequenceIsRaw(v);
      RawRead(v[..n], rest);
    }
  }

  /** Reading the first piece and then the others. */
  lemma PieceFirst(piece: seq<byte>, raw: seq<byte>, others: seq<byte>, tail: seq<byte>, r: (seq<byte>, seq<byte>))
    requires R.ReadString(others + tail) == Some(r)
    requires R.ReadString(piece + (others + tail)) == R.Prepend(raw, R.ReadString(others + tail))
    ensures R.ReadString(piece + others + tail) == Some((raw + r.0, r.1))
  {
    assert piece + others + tail == piece + (others + tail);
  }

  /** A whole escaped string reads back with its stray bytes replaced, whatever follows it. */
  lemma {:induction false} EscapedRead(v: seq<byte>, rest: seq<byte>)
    requires 0 !in v
    ensures R.ReadString(W.Escaped(v) + (['"' as int] + rest)) == Some((Sanitize(v), rest))
    decreases |v|
  {
    var tail := ['"' as int] + rest;
    if v == [] {
      assert [] + tail == tail && tail[1..] == rest;
    } else {
      var m := if SeqLen(v) == 0 then 1 else SeqLen(v);
      var piece, raw, n := PieceRead(v, W.Escaped(v[m..]) + tail);
      EscapedRead(v[m..], rest);
      PieceFirst(piece, raw, W.Escaped(v[m..]), tail, (Sanitize(v[m..]), rest));
    }
  }

  // --- Numbers ---

  lemma {:induction false} DigitsLength(n: nat, k: nat, bound: nat)
    requires n < bound && bound == Pow10(k) && k >= 1
    ensures |W.Digits(n)| <= k
    decreases k
  {
    if n >= 10 {
      var less := Pow10(k - 1);
      assert bound == 10 * less && n / 10 < less;
      DigitsLength(n / 10, k - 1, less);
    }
  }

  lemma {:induction false} DigitsSpell(n: nat)
    ensures R.NatOf(W.Digits(n)) == n
  {
    if n < 10 {
      assert W.Digits(n)[..0] == [];
    } else {
      var d := W.Digits(n);
      DigitsSpell(n / 10);
      assert d[..|d| - 1] == W.Digits(n / 10);
    }
  }

  lemma {:induction false} DigitRunAll(s: seq<byte>)
    requires forall i :: 0 <= i < |s| ==> R.IsDigit(s[i])
    ensures R.DigitRun(s) == |s|
  {
    if s != [] {
      DigitRunAll(s[1..]);
    }
  }

  lemma {:induction false} NumberRunAll(s: seq<byte>, rest: seq<byte>, cap: nat)
    requires forall i :: 0 <= i < |s| ==> R.IsNumberChar(s[i])
    requires |s| <= cap && (rest == [] || !R.IsNumberChar(rest[0]))
    ensures R.NumberRun(s + rest, cap) == |s|
  {
    if s == [] {
      assert s + rest == rest;
    } else {
      assert (s + rest)[1..] == s[1..] + rest;
      NumberRunAll(s[1..], rest, cap - 1);
    }
  }

  lemma DigitsDecimal(n: nat)
    ensures R.UnsignedDecimal(W.Digits(n)) == Some(n as real)
  {
    var d := W.Digits(n);
    forall i | 0 <= i < |d| ensures R.IsDigit(d[i]) {}
    DigitRunAll(d);
    DigitsSpell(n);
    assert d[..|d|] == d && d[|d|..] == [];
    assert d + [] == d;
    assert R.Exponent([]) == Some(0);
  }

  lemma LargestDouble()
    ensures Pow2(1024) - Pow2(970) >= 0x1_0000_0000_0000_0000
  {
    Pow2Grows(970, 1023);
    Pow2Grows(64, 1023);
    assert Pow2(1024) == 2 * Pow2(1023);
    Pow2At64();
  }

  lemma Pow2At64()
    ensures Pow2(64) == 0x1_0000_0000_0000_0000
  {
    assert Pow2(8) == 256;
    Pow2Sum(8, 8);
    Pow2Sum(16, 16);
    Pow2Sum(32, 32);
  }

  lemma LongsAreFinite(n: W.longlong)
    ensures R.Finite(n as real)
  {
    LargestDouble();
    var limit := Pow2(1024) - Pow2(970);
    assert -limit < n < limit;
  }

  /** "%lld" prints at most twenty number characters. */
  lemma IntTextShape(n: W.longlong)
    ensures var t := W.IntText(n);
            1 <= |t| <= 20 && R.StartsNumber(t) && forall i :: 0 <= i < |t| ==> R.IsNumberChar(t[i])
  {
    var m: nat := if n < 0 then -(n as int) else n as int;
    var d := W.Digits(m);
    assert Pow10(10) == 10_000_000_000;
    assert Pow10(19) == 10_000_000_000_000_000_000;
    DigitsLength(m, 19, Pow10(19));
  }

  /** ...and they spell the number. */
  lemma IntTextValue(n: W.longlong)
    ensures R.Decimal(W.IntText(n)) == Some(n as real)
  {
    var m: nat := if n < 0 then -(n as int) else n as int;
    var t := W.IntText(n);
    DigitsDecimal(m);
    if n < 0 {
      assert t[1..] == W.Digits(m);
    }
  }

  /** What "%lld" prints reads back as the double nearest to the number. */
  lemma IntRead(n: W.longlong, rest: seq<byte>)
    requires rest == [] || !R.IsNumberChar(rest[0])
    ensures R.ReadNumber(W.IntText(n) + rest) == Some((R.JNum(Nearest(n as real)), rest))
  {
    var t := W.IntText(n);
    IntTextShape(n);
    IntFinite(n);
    NumberRunAll(t, rest, R.NUMBER_CAP);
    assert (t + rest)[..|t|] == t && (t + rest)[|t|..] == rest;
    R.NumberRead(t + rest, |t|, Some(Nearest(n as real)));
  }

  lemma IntFinite(n: W.longlong)
    ensures R.FiniteNumber(W.IntText(n)) == Some(Nearest(n as real))
  {
    IntTextValue(n);
    LongsAreFinite(n);
  }

  /** It is the number itself exactly if 53 bits and zeros after them are enough for it, as they are up to 2^53. */
  lemma IntComesBack(n: W.longlong)
    ensures R.JNum(Nearest(n as real)) == R.JNum(n as real) <==> IntFits(n)
    ensures -9007199254740992 <= n <= 9007199254740992 ==> IntFits(n)
  {
    WholeComesBack(n);
  }

  predicate IntFits(n: W.longlong) {
    Fits(if n < 0 then -(n as int) else n as int)
  }

  // --- Trees ---

  /** What may follow a value: the end, or a byte that cannot be taken for more of a number. */
  predicate Follows(rest: seq<byte>) {
    rest == [] || !R.IsNumberChar(rest[0])
  }

  lemma PrintStarts(t: Tree)
    ensures var p := Print(t);
            p != [] && !R.IsWs(p[0]) && p[0] != ']' as int && p[0] != '}' as int
  {
  }

  lemma NoSpace(s: seq<byte>)
    requires s == [] || !R.IsWs(s[0])
    ensures R.SkipWs(s) == s
  {
  }

  /** A quoted string at the front of a text. */
  lemma QuotedRead(v: seq<byte>, rest: seq<byte>)
    requires 0 !in v
    ensures var s := W.Quoted(v) + rest;
            s != [] && s[0] == '"' as int && R.ReadString(s[1..]) == Some((Sanitize(v), rest))
  {
    EscapedRead(v, rest);
    assert (W.Quoted(v) + rest)[1..] == W.Escaped(v) + (['"' as int] + rest);
  }

  /** A word at the front of a text. */
  lemma WordRead(word: seq<byte>, v: R.Json, rest: seq<byte>)
    requires |word| > 0
    ensures R.ReadWord(word + rest, word, v) == Some((v, rest))
  {
    assert (word + rest)[..|word|] == word && (word + rest)[|word|..] == rest;
  }

  lemma ScalarRead(t: Tree, rest: seq<byte>, depth: nat)
    requires !t.TArr? && !t.TObj? && Follows(rest)
    ensures R.ReadValue(Print(t) + rest, depth) == Some((Expected(t), rest))
  {
    PrintStarts(t);
    NoSpace(Print(t) + rest);
    match t {
      case TNull => WordRead(NULL, R.JNull, rest);
      case TBool(b) => WordRead(if b then TRUE else FALSE, R.JBool(b), rest);
      case TInt(n) => IntValueRead(n, rest, depth);
      case TStr(v) => QuotedRead(v, rest);
    }
  }

  lemma IntValueRead(n: W.longlong, rest: seq<byte>, depth: nat)
    requires Follows(rest)
    ensures R.ReadValue(W.IntText(n) + rest, depth) == Some((R.JNum(Nearest(n as real)), rest))
  {
    var s := W.IntText(n) + rest;
    IntTextShape(n);
    IntRead(n, rest);
    NoSpace(s);
    R.NumberDispatched(s, depth, Some((R.JNum(Nearest(n as real)), rest)));
  }

  /** Children of an array as the reader collects them. */
  function Keyless(items: seq<R.Json>): seq<R.JMember> {
    if items == [] then [] else [R.JMember([], items[0])] + Keyless(items[1..])
  }

  lemma {:induction false} KeylessValues(items: seq<R.Json>)
    ensures R.Values(Keyless(items)) == items
  {
    if items != [] {
      KeylessValues(items[1..]);
      assert Keyless(items)[1..] == Keyless(items[1..]);
    }
  }

  /** Every printed tree, wherever it stands, reads back as it should and leaves the rest alone. */
  lemma {:induction false} TreeRead(t: Tree, rest: seq<byte>, depth: nat)
    requires depth + Depth(t) <= R.MAX_DEPTH && Follows(rest)
    ensures R.ReadValue(Print(t) + rest, depth) == Some((Expected(t), rest))
    decreases t, 0
  {
    match t {
      case TArr(items) => ArrayRead(items, rest, depth);
      case TObj(members) => ObjectRead(members, rest, depth);
      case _ => ScalarRead(t, rest, depth);
    }
  }

  /** A container whose children read back reads back itself. */
  lemma ContainerRead(obj: bool, inner: seq<byte>, children: seq<R.JMember>, rest: seq<byte>, depth: nat)
    requires depth < R.MAX_DEPTH && inner != [] && !R.IsWs(inner[0])
    requires if inner[0] == R.CloseOf(obj) then children == [] && rest == inner[1..]
             else R.ReadChildren(inner, depth + 1, obj) == Some((children, rest))
    ensures R.ReadValue([if obj then '{' as int else '[' as int] + inner, depth) == Some((R.Collect(obj, children), rest))
  {
    var s := [if obj then '{' as int else '[' as int] + inner;
    NoSpace(s);
    assert s[1..] == inner;
    NoSpace(inner);
    assert R.ReadContainer(inner, depth, obj) == Some((R.Collect(obj, children), rest));
  }

  /** The first child, then those after its comma or the closing bracket. */
  lemma ChildrenRead(text: seq<byte>, depth: nat, obj: bool, child: R.JMember, after: seq<byte>,
                     more: seq<R.JMember>, rest: seq<byte>)
    requires R.ReadChild(text, depth, obj) == Some((child, after)) && after != []
    requires if more == [] then after == [R.CloseOf(obj)] + rest
             else after[0] == ',' as int && R.ReadChildren(after[1..], depth, obj) == Some((more, rest))
    ensures R.ReadChildren(text, depth, obj) == Some(([child] + more, rest))
  {
    if more == [] {
      assert after[1..] == rest && [child] + more == [child];
    }
  }

  lemma BracketText(open_: byte, inner: seq<byte>, close: byte, rest: seq<byte>)
    ensures [open_] + inner + [close] + rest == [open_] + (inner + ([close] + rest))
  {
  }

  lemma {:induction false} ArrayRead(items: seq<Tree>, rest: seq<byte>, depth: nat)
    requires depth + 1 + ItemsDepth(items) <= R.MAX_DEPTH
    ensures R.ReadValue(Print(TArr(items)) + rest, depth) == Some((Expected(TArr(items)), rest))
    decreases items, 3
  {
    var inner := PrintItems(items, true) + ([']' as int] + rest);
    BracketText('[' as int, PrintItems(items, true), ']' as int, rest);
    if items == [] {
      assert inner[1..] == rest;
    } else {
      PrintStarts(items[0]);
      ItemsRead(items, rest, depth + 1);
    }
    KeylessValues(ExpectedItems(items));
    ContainerRead(false, inner, Keyless(ExpectedItems(items)), rest, depth);
  }

  lemma {:induction false} ItemRead(item: Tree, after: seq<byte>, depth: nat)
    requires depth + Depth(item) <= R.MAX_DEPTH && after != [] && !R.IsWs(after[0]) && Follows(after)
    ensures R.ReadChild(Print(item) + after, depth, false) == Some((R.JMember([], Expected(item)), after))
    decreases item, 1
  {
    PrintStarts(item);
    NoSpace(Print(item) + after);
    TreeRead(item, after, depth);
    NoSpace(after);
  }

  /** A printed array's items: the first, then the others; and those after a comma start like any. */
  lemma ItemsText(items: seq<Tree>, tail: seq<byte>)
    requires items != []
    ensures PrintItems(items, true) + tail == Print(items[0]) + (PrintItems(items[1..], false) + tail)
    ensures (PrintItems(items, false) + tail)[..1] == [',' as int]
    ensures (PrintItems(items, false) + tail)[1..] == PrintItems(items, true) + tail
  {
    CommaText([], Print(items[0]), PrintItems(items[1..], false), tail);
    assert Comma(true) + [] == Comma(true) && Comma(false) + [] == Comma(false);
  }

  lemma CommaText(k: seq<byte>, v: seq<byte>, more: seq<byte>, tail: seq<byte>)
    ensures Comma(true) + k + v + more + tail == k + (v + (more + tail))
    ensures var t := Comma(false) + k + v + more + tail;
            t[..1] == [',' as int] && t[1..] == Comma(true) + k + v + more + tail
  {
  }

  lemma {:induction false} ItemsRead(items: seq<Tree>, rest: seq<byte>, depth: nat)
    requires items != [] && depth + ItemsDepth(items) <= R.MAX_DEPTH
    ensures R.ReadChildren(PrintItems(items, true) + ([']' as int] + rest), depth, false) ==
            Some((Keyless(ExpectedItems(items)), rest))
    decreases items, 2
  {
    var tail := [']' as int] + rest;
    var after := PrintItems(items[1..], false) + tail;
    ItemsText(items, tail);
    ItemRead(items[0], after, depth);
    if items[1..] != [] {
      ItemsRead(items[1..], rest, depth);
      ItemsText(items[1..], tail);
    }
    assert ExpectedItems(items)[1..] == ExpectedItems(items[1..]);
    ChildrenRead(Print(items[0]) + after, depth, false, R.JMember([], Expected(items[0])), after,
                 Keyless(ExpectedItems(items[1..])), rest);
  }

  lemma {:induction false} ObjectRead(members: seq<Member>, rest: seq<byte>, depth: nat)
    requires depth + 1 + MembersDepth(members) <= R.MAX_DEPTH
    ensures R.ReadValue(Print(TObj(members)) + rest, depth) == Some((Expected(TObj(members)), rest))
    decreases members, 3
  {
    var inner := PrintMembers(members, true) + (['}' as int] + rest);
    BracketText('{' as int, PrintMembers(members, true), '}' as int, rest);
    if members == [] {
      assert inner[1..] == rest;
    } else {
      MembersRead(members, rest, depth + 1);
    }
    ContainerRead(true, inner, ExpectedMembers(members), rest, depth);
  }

  lemma {:induction false} MemberRead(m: Member, after: seq<byte>, depth: nat)
    requires depth + Depth(m.value) <= R.MAX_DEPTH && after != [] && !R.IsWs(after[0]) && Follows(after)
    ensures R.ReadChild(W.Quoted(m.key) + [':' as int] + (Print(m.value) + after), depth, true) ==
            Some((R.JMember(Sanitize(m.key), Expected(m.value)), after))
    decreases m, 1
  {
    PrintStarts(m.value);
    KeyRead(m.key, Print(m.value) + after);
    TreeRead(m.value, after, depth);
    NoSpace(after);
  }

  lemma KeyRead(key: W.cstring, rest: seq<byte>)
    requires rest != [] && !R.IsWs(rest[0])
    ensures R.ReadKey(W.Quoted(key) + [':' as int] + rest, true) == Some((Sanitize(key), rest))
  {
    var s := W.Quoted(key) + [':' as int] + rest;
    assert s == W.Quoted(key) + ([':' as int] + rest);
    NoSpace(s);
    QuotedRead(key, [':' as int] + rest);
    NoSpace([':' as int] + rest);
    assert ([':' as int] + rest)[1..] == rest;
  }

  /** A printed object's members: the first, then the others; and those after a comma start like any. */
  lemma MembersText(members: seq<Member>, tail: seq<byte>)
    requires members != []
    ensures PrintMembers(members, true) + tail ==
            W.Quoted(members[0].key) + [':' as int] + (Print(members[0].value) + (PrintMembers(members[1..], false) + tail))
    ensures (PrintMembers(members, false) + tail)[..1] == [',' as int]
    ensures (PrintMembers(members, false) + tail)[1..] == PrintMembers(members, true) + tail
  {
    CommaText(W.Quoted(members[0].key) + [':' as int], Print(members[0].value), PrintMembers(members[1..], false), tail);
  }

  lemma {:induction false} MembersRead(members: seq<Member>, rest: seq<byte>, depth: nat)
    requires members != [] && depth + MembersDepth(members) <= R.MAX_DEPTH
    ensures R.ReadChildren(PrintMembers(members, true) + (['}' as int] + rest), depth, true) ==
            Some((ExpectedMembers(members), rest))
    decreases members, 2
  {
    var m := members[0];
    var tail := ['}' as int] + rest;
    var after := PrintMembers(members[1..], false) + tail;
    var text := W.Quoted(m.key) + [':' as int] + (Print(m.value) + after);
    MembersText(members, tail);
    MemberRead(m, after, depth);
    if members[1..] != [] {
      MembersRead(members[1..], rest, depth);
      MembersText(members[1..], tail);
    }
    ChildrenRead(text, depth, true, R.JMember(Sanitize(m.key), Expected(m.value)), after, ExpectedMembers(members[1..]), rest);
  }

  /** The round trip: any balanced sequence of calls that the writer takes without giving up leaves a text
      that the reader accepts, and it reads back as the tree the calls meant. */
  lemma RoundTrip(calls: seq<W.Call>)
    requires Balanced(calls) && !W.Run(W.INIT, calls).oom
    ensures R.Parse(W.Run(W.INIT, calls).text) == Some(Expected(Printed(calls)))
  {
    var t := Printed(calls);
    BalancedIsTree(calls, t);
    CallsPrint(W.INIT, t);
    var text := W.Run(W.INIT, calls).text;
    assert text == Print(t) + [];
    TreeRead(t, [], 0);
  }

  /** The writer gives up on a balanced sequence exactly when it nests containers too deep. */
  lemma GivesUpWhenTooDeep(calls: seq<W.Call>)
    requires Balanced(calls)
    ensures W.Run(W.INIT, calls).oom <==> Depth(Printed(calls)) >= W.MAX_DEPTH
  {
    BalancedIsTree(calls, Printed(calls));
    CallsPrint(W.INIT, Printed(calls));
  }

  // --- What is lost ---

  /** The tree with its strings and integers as they are. */
  function Same(t: Tree): R.Json
    decreases t, 0
  {
    match t
    case TNull => R.JNull
    case TBool(b) => R.JBool(b)
    case TInt(n) => R.JNum(n as real)
    case TStr(s) => R.JStr(s)
    case TArr(items) => R.JArr(SameItems(items))
    case TObj(members) => R.JObj(SameMembers(members))
  }

  function SameItems(items: seq<Tree>): seq<R.Json> {
    if items == [] then [] else [Same(items[0])] + SameItems(items[1..])
  }

  function SameMembers(members: seq<Member>): seq<R.JMember> {
    if members == [] then [] else [R.JMember(members[0].key, Same(members[0].value))] + SameMembers(members[1..])
  }

  /** Every string and key is well-formed, and every integer fits a double. */
  predicate Lossless(t: Tree)
    decreases t, 0
  {
    match t
    case TInt(n) => IntFits(n)
    case TStr(s) => Valid(s)
    case TArr(items) => LosslessItems(items)
    case TObj(members) => LosslessMembers(members)
    case _ => true
  }

  predicate LosslessItems(items: seq<Tree>) {
    items == [] || (Lossless(items[0]) && LosslessItems(items[1..]))
  }

  predicate LosslessMembers(members: seq<Member>) {
    members == [] || (Valid(members[0].key) && Lossless(members[0].value) && LosslessMembers(members[1..]))
  }

  lemma {:induction false} NothingLost(t: Tree)
    ensures Expected(t) == Same(t) <==> Lossless(t)
    decreases t, 0
  {
    match t {
      case TInt(n) => IntComesBack(n);
      case TStr(s) => SanitizeValid(s);
      case TArr(items) => NoItemLost(items);
      case TObj(members) => NoMemberLost(members);
      case _ =>
    }
  }

  lemma SameConcat<T>(a: T, b: T, x: seq<T>, y: seq<T>)
    ensures [a] + x == [b] + y <==> a == b && x == y
  {
    if [a] + x == [b] + y {
      assert ([a] + x)[0] == ([b] + y)[0] && ([a] + x)[1..] == x && ([b] + y)[1..] == y;
    }
  }

  lemma {:induction false} NoItemLost(items: seq<Tree>)
    ensures ExpectedItems(items) == SameItems(items) <==> LosslessItems(items)
  {
    if items != [] {
      NothingLost(items[0]);
      NoItemLost(items[1..]);
      SameConcat(Expected(items[0]), Same(items[0]), ExpectedItems(items[1..]), SameItems(items[1..]));
    }
  }

  lemma {:induction false} NoMemberLost(members: seq<Member>)
    ensures ExpectedMembers(members) == SameMembers(members) <==> LosslessMembers(members)
  {
    if members != [] {
      var m := members[0];
      SanitizeValid(m.key);
      NothingLost(m.value);
      NoMemberLost(members[1..]);
      SameConcat(R.JMember(Sanitize(m.key), Expected(m.value)), R.JMember(m.key, Same(m.value)),
                 ExpectedMembers(members[1..]), SameMembers(members[1..]));
    }
  }

  /** So what was printed reads back unchanged exactly if all its strings are UTF-8 and all its integers fit a double. */
  lemma LosslessRoundTrip(calls: seq<W.Call>)
    requires Balanced(calls) && !W.Run(W.INIT, calls).oom
    ensures R.Parse(W.Run(W.INIT, calls).text) == Some(Same(Printed(calls))) <==> Lossless(Printed(calls))
  {
    RoundTrip(calls);
    NothingLost(Printed(calls));
  }

  // --- The object ---

  method Perform(w: W.Writer, c: W.Call)
    requires w.Valid()
    modifies w, w.s, w.first
    ensures w.Valid() && w.first == old(w.first) && (w.s == old(w.s) || fresh(w.s))
    ensures W.Tracks(w.View(), W.Step(old(w.View()), c))
  {
    match c {
      case CObj => w.Obj();
      case CEndObj => w.EndObj();
      case CArr => w.Arr();
      case CEndArr => w.EndArr();
      case CKey(key) => w.Key(key);
      case CStr(str) => w.Str(str);
      case CInt(n) => w.Int(n);
      case CBool(b) => w.Bool(b);
      case CNull => w.Null();
    }
  }

  /** A caller's use of the writer's object: after balanced calls, unless memory ran out or it nested too deep, the buffer
      holds text that the reader takes for the tree the calls meant. */
  method WriteAll(w: W.Writer, calls: seq<W.Call>)
    requires w.Valid() && w.View() == W.INIT
    modifies w, w.s, w.first
    ensures w.Valid()
    ensures Balanced(calls) && !w.oom ==> R.Parse(w.s[..w.len]) == Some(Expected(Printed(calls)))
  {
    var i := 0;
    while i < |calls|
      invariant 0 <= i <= |calls| && w.Valid() && w.first == old(w.first) && (w.s == old(w.s) || fresh(w.s))
      invariant W.Tracks(w.View(), W.Run(W.INIT, calls[..i]))
    {
      ghost var before := w.View();
      Perform(w, calls[i]);
      W.TracksStep(w.View(), before, W.Run(W.INIT, calls[..i]), calls[i]);
      OneMore(W.INIT, calls, i);
      i := i + 1;
    }
    assert calls[..i] == calls;
    if Balanced(calls) && !w.oom {
      RoundTrip(calls);
    }
  }

  lemma OneMore(st: W.State, calls: seq<W.Call>, i: nat)
    requires st.Ok() && i < |calls|
    ensures W.Run(st, calls[..i + 1]) == W.Step(W.Run(st, calls[..i]), calls[i])
  {
    assert calls[..i + 1] == calls[..i] + [calls[i]];
    RunConcat(st, calls[..i], [calls[i]]);
    RunOne(W.Run(st, calls[..i]), calls[i]);
  }
}
