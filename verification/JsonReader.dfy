/**
 The JSON reader of src/ha/json_read.c: a cursor over the text and a nesting count.
 The functions say what is read from the front of a text and what is left of it;
 `Reader` moves the cursor.
 */
module JsonReader {
  import opened Wrappers
  import opened Utf8
  import opened Powers
  import Doubles

  const MAX_DEPTH: nat := 24

  /** The longest number the reader's buffer takes. */
  const NUMBER_CAP: nat := 39

  /** A number is the double nearest to the decimal it spells. */
  datatype Json =
    | JNull
    | JBool(b: bool)
    | JNum(n: real)
    | JStr(s: seq<byte>)
    | JArr(items: seq<Json>)
    | JObj(members: seq<JMember>)

  datatype JMember = JMember(key: seq<byte>, value: Json)

  predicate IsWs(c: byte) {
    c == ' ' as int || c == 9 || c == 10 || c == 13
  }

  function SkipWs(s: seq<byte>): (rest: seq<byte>)
    ensures |rest| <= |s|
    ensures rest != [] ==> !IsWs(rest[0])
  {
    if s != [] && IsWs(s[0]) then SkipWs(s[1..]) else s
  }

  function HexVal(c: byte): int {
    if '0' as int <= c <= '9' as int then c - '0' as int
    else if 'a' as int <= c <= 'f' as int then c - 'a' as int + 10
    else if 'A' as int <= c <= 'F' as int then c - 'A' as int + 10
    else -1
  }

  /** `hex4`: the value of four hex digits, or -1. */
  function Hex4(s: seq<byte>): (v: int)
    requires |s| >= 4
    ensures -1 <= v < 0x10000
  {
    if HexVal(s[0]) < 0 || HexVal(s[1]) < 0 || HexVal(s[2]) < 0 || HexVal(s[3]) < 0 then -1
    else ((HexVal(s[0]) * 16 + HexVal(s[1])) * 16 + HexVal(s[2])) * 16 + HexVal(s[3])
  }

  /** One `\u` escape, from after the `u`: its code point and how many bytes it took. A surrogate
      without its other half reads as U+FFFD. */
  function UnicodeEscape(s: seq<byte>): (r: Option<(scalar, nat)>)
    ensures r.Some? ==> (r.value.1 == 4 || (r.value.1 == 10 && r.value.0 >= 0x10000)) && r.value.1 <= |s|
    ensures r.Some? && r.value.1 == 4 ==> r.value.0 < 0x10000
  {
    if |s| < 4 || Hex4(s) < 0 then None
    else
      var cp := Hex4(s);
      if 0xD800 <= cp < 0xDC00 then
        if |s| >= 10 && s[4] == '\\' as int && s[5] == 'u' as int && 0xDC00 <= Hex4(s[6..]) < 0xE000 then
          Some((0x10000 + (cp - 0xD800) * 1024 + (Hex4(s[6..]) - 0xDC00), 10))
        else Some((0xFFFD, 4))
      else if 0xDC00 <= cp < 0xE000 then Some((0xFFFD, 4))
      else Some((cp, 4))
  }

  /** The single-character escapes. */
  function SimpleEscape(e: byte): Option<byte> {
    if e == '"' as int || e == '\\' as int || e == '/' as int then Some(e)
    else if e == 'b' as int then Some(8)
    else if e == 'f' as int then Some(12)
    else if e == 'n' as int then Some(10)
    else if e == 'r' as int then Some(13)
    else if e == 't' as int then Some(9)
    else None
  }

  /** After the opening quote: the unescaped bytes and what follows the closing one. */
  function ReadString(s: seq<byte>): (r: Option<(seq<byte>, seq<byte>)>)
    ensures r.Some? ==> |r.value.0| + |r.value.1| < |s|
    decreases |s|
  {
    if s == [] then None
    else if s[0] == '"' as int then Some(([], s[1..]))
    else if s[0] < 0x20 then None
    else if s[0] != '\\' as int then Prepend([s[0]], ReadString(s[1..]))
    else if |s| < 2 then None
    else if s[1] == 'u' as int then
      var u := UnicodeEscape(s[2..]);
      if u.None? then None
      else
        assert |Encode(u.value.0)| <= u.value.1;
        Prepend(Encode(u.value.0), ReadString(s[2 + u.value.1..]))
    else if SimpleEscape(s[1]).None? then None
    else Prepend([SimpleEscape(s[1]).value], ReadString(s[2..]))
  }

  function Prepend(b: seq<byte>, r: Option<(seq<byte>, seq<byte>)>): Option<(seq<byte>, seq<byte>)> {
    if r.None? then None else Some((b + r.value.0, r.value.1))
  }

  predicate IsDigit(c: byte) {
    '0' as int <= c <= '9' as int
  }

  predicate IsNumberChar(c: byte) {
    IsDigit(c) || c == '-' as int || c == '+' as int || c == '.' as int || c == 'e' as int || c == 'E' as int
  }

  /** The first at most `cap` bytes of `s` that a number may be made of. */
  function NumberRun(s: seq<byte>, cap: nat): (n: nat)
    ensures n <= |s| && n <= cap
  {
    if s == [] || cap == 0 || !IsNumberChar(s[0]) then 0 else 1 + NumberRun(s[1..], cap - 1)
  }

  function DigitRun(s: seq<byte>): (n: nat)
    ensures n <= |s| && AllDigits(s[..n])
  {
    if s == [] || !IsDigit(s[0]) then 0
    else
      var n := 1 + DigitRun(s[1..]);
      assert s[..n] == [s[0]] + s[1..][..n - 1];
      n
  }

  predicate AllDigits(s: seq<byte>) {
    forall i :: 0 <= i < |s| ==> IsDigit(s[i])
  }

  /** The number a run of digits spells. */
  function NatOf(s: seq<byte>): nat
    requires AllDigits(s)
  {
    if s == [] then 0 else assert IsDigit(s[|s| - 1]); NatOf(s[..|s| - 1]) * 10 + (s[|s| - 1] - '0' as int)
  }

  /** A number times that power of ten. */
  function Scaled(x: real, e: int): real
    decreases if e < 0 then -e else e
  {
    if e == 0 then x else if e > 0 then Scaled(x * 10.0, e - 1) else Scaled(x / 10.0, e + 1)
  }

  /** The exponent part of a decimal, which must be all that is left: "e" or "E", a sign, digits. */
  function Exponent(s: seq<byte>): (r: Option<int>) {
    if s == [] then Some(0)
    else if s[0] != 'e' as int && s[0] != 'E' as int then None
    else
      var signed := |s| > 1 && (s[1] == '-' as int || s[1] == '+' as int);
      var digits := if signed then s[2..] else s[1..];
      if digits == [] || DigitRun(digits) < |digits| then None
      else Some(if signed && s[1] == '-' as int then -(NatOf(digits) as int) else NatOf(digits) as int)
  }

  /** A decimal's digits, how many of them are behind the point, and its exponent. */
  datatype Parts = Parts(digits: seq<byte>, behind: nat, exponent: int)

  /** The parts of an unsigned decimal that must be all of `s`: digits, maybe a point and more digits, maybe an exponent. */
  function UnsignedParts(s: seq<byte>): (r: Option<Parts>)
    ensures r.Some? ==> AllDigits(r.value.digits)
  {
    var n := DigitRun(s);
    if n == 0 then None
    else if n < |s| && s[n] == '.' as int then Pointed(s[..n], s[n + 1..])
    else Ended(s[..n], 0, s[n..])
  }

  /** Digits, and what is behind the point. */
  function Pointed(digits: seq<byte>, s: seq<byte>): (r: Option<Parts>)
    requires AllDigits(digits)
    ensures r.Some? ==> AllDigits(r.value.digits)
  {
    var m := DigitRun(s);
    Ended(digits + s[..m], m, s[m..])
  }

  function Ended(digits: seq<byte>, behind: nat, after: seq<byte>): Option<Parts> {
    var e := Exponent(after);
    if e.None? then None else Some(Parts(digits, behind, e.value))
  }

  function UnsignedDecimal(s: seq<byte>): Option<real> {
    var p := UnsignedParts(s);
    if p.None? then None else Some(Scaled(NatOf(p.value.digits) as real, p.value.exponent - p.value.behind))
  }

  /** What text of number characters that starts with a digit after at most a minus spells, if all of it is a decimal. */
  function Decimal(s: seq<byte>): Option<real> {
    if s != [] && s[0] == '-' as int then
      var u := UnsignedDecimal(s[1..]);
      if u.None? then None else Some(-u.value)
    else UnsignedDecimal(s)
  }

  const MAX_EXPONENT: nat := 1024
  const HALF_STEP_EXPONENT: nat := 970

  /** Rounds to a finite double: less than half a step past the largest one. */
  predicate Finite(v: real) {
    Within(v, MAX_EXPONENT, HALF_STEP_EXPONENT)
  }

  predicate Within(v: real, high: nat, step: nat) {
    -((Pow2(high) - Pow2(step)) as real) < v < (Pow2(high) - Pow2(step)) as real
  }

  predicate StartsNumber(s: seq<byte>) {
    var q := if s != [] && s[0] == '-' as int then 1 else 0;
    q < |s| && IsDigit(s[q])
  }

  function ReadNumber(s: seq<byte>): (r: Option<(Json, seq<byte>)>)
    ensures r.Some? ==> |r.value.1| < |s|
  {
    if !StartsNumber(s) then None
    else
      var n := NumberRun(s, NUMBER_CAP);
      assert IsNumberChar(s[0]);
      var d := FiniteNumber(s[..n]);
      if d.None? then None else Some((JNum(d.value), s[n..]))
  }

  function FiniteNumber(digits: seq<byte>): Option<real> {
    var d := Decimal(digits);
    if d.Some? && Finite(d.value) then Some(Doubles.Nearest(d.value)) else None
  }

  lemma NumberRead(s: seq<byte>, n: nat, d: Option<real>)
    requires StartsNumber(s) && n == NumberRun(s, NUMBER_CAP) && n <= |s| && d == FiniteNumber(s[..n])
    ensures ReadNumber(s) == if d.None? then None else Some((JNum(d.value), s[n..]))
  {
  }

  lemma NoNumber(s: seq<byte>)
    requires !StartsNumber(s)
    ensures ReadNumber(s) == None
  {
  }

  predicate HasPrefix(s: seq<byte>, word: seq<byte>) {
    |word| <= |s| && s[..|word|] == word
  }

  function ReadWord(s: seq<byte>, word: seq<byte>, v: Json): (r: Option<(Json, seq<byte>)>)
    requires |word| > 0
    ensures r.Some? ==> |r.value.1| < |s|
  {
    if HasPrefix(s, word) then Some((v, s[|word|..])) else None
  }

  /** One value inside `depth` containers, and what follows it. */
  function ReadValue(text: seq<byte>, depth: nat): (r: Option<(Json, seq<byte>)>)
    ensures r.Some? ==> |r.value.1| < |text|
    decreases |text|, 1
  {
    var s := SkipWs(text);
    if s == [] then None
    else if s[0] == '{' as int then ReadContainer(s[1..], depth, true)
    else if s[0] == '[' as int then ReadContainer(s[1..], depth, false)
    else if s[0] == '"' as int then
      var str := ReadString(s[1..]);
      if str.None? then None else Some((JStr(str.value.0), str.value.1))
    else if s[0] == 't' as int then ReadWord(s, TRUE, JBool(true))
    else if s[0] == 'f' as int then ReadWord(s, FALSE, JBool(false))
    else if s[0] == 'n' as int then ReadWord(s, NULL, JNull)
    else ReadNumber(s)
  }

  /** What begins like a number is read as one. */
  lemma NumberDispatched(s: seq<byte>, depth: nat, r: Option<(Json, seq<byte>)>)
    requires s != [] && (s[0] == '-' as int || IsDigit(s[0])) && SkipWs(s) == s && ReadNumber(s) == r
    ensures ReadValue(s, depth) == r
  {
    var c := s[0];
    assert c != '"' as int && c != '{' as int && c != '[' as int && c != 't' as int && c != 'f' as int && c != 'n' as int;
  }

  function CloseOf(obj: bool): byte {
    if obj then '}' as int else ']' as int
  }

  /** A container from after its opening bracket. */
  function ReadContainer(text: seq<byte>, depth: nat, obj: bool): (r: Option<(Json, seq<byte>)>)
    ensures r.Some? ==> |r.value.1| < |text|
    decreases |text|, 4
  {
    if depth + 1 > MAX_DEPTH then None
    else
      var s := SkipWs(text);
      if s != [] && s[0] == CloseOf(obj) then Some((Collect(obj, []), s[1..]))
      else
        var r := ReadChildren(s, depth + 1, obj);
        if r.None? then None else Some((Collect(obj, r.value.0), r.value.1))
  }

  /** A container's value from its children; an array's children have no keys. */
  function Collect(obj: bool, children: seq<JMember>): Json {
    if obj then JObj(children) else JArr(Values(children))
  }

  function Values(children: seq<JMember>): (v: seq<Json>)
    ensures |v| == |children|
  {
    if children == [] then [] else [children[0].value] + Values(children[1..])
  }

  /** The children up to and with the closing bracket: at least one, commas between. */
  function ReadChildren(text: seq<byte>, depth: nat, obj: bool): (r: Option<(seq<JMember>, seq<byte>)>)
    ensures r.Some? ==> |r.value.1| < |text|
    decreases |text|, 3
  {
    var child := ReadChild(text, depth, obj);
    if child.None? || child.value.1 == [] then None
    else
      var (c, s) := child.value;
      if s[0] == ',' as int then PrependChildren([c], ReadChildren(s[1..], depth, obj))
      else if s[0] == CloseOf(obj) then Some(([c], s[1..]))
      else None
  }

  /** One child and the white space after it. */
  function ReadChild(text: seq<byte>, depth: nat, obj: bool): (r: Option<(JMember, seq<byte>)>)
    ensures r.Some? ==> |r.value.1| < |text|
    decreases |text|, 2
  {
    var key := ReadKey(text, obj);
    if key.None? then None
    else
      var v := ReadValue(key.value.1, depth);
      if v.None? then None else Some((JMember(key.value.0, v.value.0), SkipWs(v.value.1)))
  }

  function PrependChildren(c: seq<JMember>, r: Option<(seq<JMember>, seq<byte>)>): Option<(seq<JMember>, seq<byte>)> {
    if r.None? then None else Some((c + r.value.0, r.value.1))
  }

  /** A member's key and colon; nothing at all for an array. */
  function ReadKey(text: seq<byte>, obj: bool): (r: Option<(seq<byte>, seq<byte>)>)
    ensures r.Some? ==> |r.value.1| <= |text|
  {
    var s := SkipWs(text);
    if !obj then Some(([], s))
    else if s == [] || s[0] != '"' as int then None
    else
      var key := ReadString(s[1..]);
      if key.None? then None
      else
        var t := SkipWs(key.value.1);
        if t == [] || t[0] != ':' as int then None else Some((key.value.0, t[1..]))
  }

  /** `rpod_jv_parse`: one value and nothing but white space after it. */
  function Parse(text: seq<byte>): Option<Json> {
    var r := ReadValue(text, 0);
    if r.None? || SkipWs(r.value.1) != [] then None else Some(r.value.0)
  }

  /** `put_utf8` into the buffer at `n`; answers how many bytes it took. */
  method PutUtf8(out: array<byte>, n: nat, cp: scalar) returns (k: nat)
    requires n + |Encode(cp)| <= out.Length
    modifies out
    ensures k == |Encode(cp)| && out[..n + k] == old(out[..n]) + Encode(cp)
  {
    if cp < 0x80 {
      out[n] := cp;
      return 1;
    }
    if cp < 0x800 {
      out[n], out[n + 1] := 0xC0 + cp / 64, 0x80 + cp % 64;
      return 2;
    }
    if cp < 0x10000 {
      out[n], out[n + 1], out[n + 2] := 0xE0 + cp / 4096, 0x80 + cp / 64 % 64, 0x80 + cp % 64;
      return 3;
    }
    out[n], out[n + 1] := 0xF0 + cp / 262144, 0x80 + cp / 4096 % 64;
    out[n + 2], out[n + 3] := 0x80 + cp / 64 % 64, 0x80 + cp % 64;
    return 4;
  }

  /** `hex4`'s loop. */
  method ReadHex4(s: seq<byte>) returns (v: int)
    requires |s| >= 4
    ensures v == Hex4(s)
  {
    v := 0;
    var i := 0;
    while i < 4
      invariant 0 <= i <= 4 && forall k :: 0 <= k < i ==> HexVal(s[k]) >= 0
      invariant i == 0 ==> v == 0
      invariant i == 1 ==> v == HexVal(s[0])
      invariant i == 2 ==> v == HexVal(s[0]) * 16 + HexVal(s[1])
      invariant i == 3 ==> v == (HexVal(s[0]) * 16 + HexVal(s[1])) * 16 + HexVal(s[2])
      invariant i == 4 ==> v == Hex4(s)
    {
      if HexVal(s[i]) < 0 {
        return -1;
      }
      v := v * 16 + HexVal(s[i]);
      i := i + 1;
    }
  }

  lemma PrependTwice(a: seq<byte>, b: seq<byte>, r: Option<(seq<byte>, seq<byte>)>)
    ensures Prepend(a, Prepend(b, r)) == Prepend(a + b, r)
  {
    if r.Some? {
      assert a + (b + r.value.0) == a + b + r.value.0;
    }
  }

  lemma PrependNothing(r: Option<(seq<byte>, seq<byte>)>)
    ensures Prepend([], r) == r
  {
    if r.Some? {
      assert [] + r.value.0 == r.value.0;
    }
  }

  lemma PrependChildrenTwice(a: seq<JMember>, b: seq<JMember>, r: Option<(seq<JMember>, seq<byte>)>)
    ensures PrependChildren(a, PrependChildren(b, r)) == PrependChildren(a + b, r)
    ensures PrependChildren([], r) == r
  {
    if r.Some? {
      assert a + (b + r.value.0) == a + b + r.value.0;
      assert [] + r.value.0 == r.value.0;
    }
  }

  /** With this much unescaped, the rest decides. */
  predicate StillReads(all: Option<(seq<byte>, seq<byte>)>, done: seq<byte>, rest: seq<byte>) {
    all == Prepend(done, ReadString(rest))
  }

  lemma StringEnds(all: Option<(seq<byte>, seq<byte>)>, done: seq<byte>, here: seq<byte>)
    requires StillReads(all, done, here) && here != [] && here[0] == '"' as int
    ensures all == Some((done, here[1..]))
  {
    assert done + [] == done;
  }

  lemma StringBreaks(all: Option<(seq<byte>, seq<byte>)>, done: seq<byte>, here: seq<byte>)
    requires StillReads(all, done, here) && ReadString(here) == None
    ensures all == None
  {
  }

  lemma PieceReadOn(all: Option<(seq<byte>, seq<byte>)>, done: seq<byte>, piece: seq<byte>, here: seq<byte>, rest: seq<byte>)
    requires StillReads(all, done, here) && ReadString(here) == Prepend(piece, ReadString(rest))
    ensures StillReads(all, done + piece, rest)
  {
    PrependTwice(done, piece, ReadString(rest));
  }

  /** With these children read, the rest decides. */
  predicate StillCollects(all: Option<(seq<JMember>, seq<byte>)>, children: seq<JMember>, rest: seq<byte>, depth: nat, obj: bool)
    requires depth <= MAX_DEPTH
  {
    all == PrependChildren(children, ReadChildren(rest, depth, obj))
  }

  /** One child more, and what its end says. */
  lemma ChildCollected(all: Option<(seq<JMember>, seq<byte>)>, children: seq<JMember>, here: seq<byte>, depth: nat, obj: bool,
                       child: JMember, rest: seq<byte>)
    requires depth <= MAX_DEPTH && StillCollects(all, children, here, depth, obj)
    requires ReadChild(here, depth, obj) == Some((child, rest))
    ensures rest == [] ==> all == None
    ensures rest != [] && rest[0] == ',' as int ==> StillCollects(all, children + [child], rest[1..], depth, obj)
    ensures rest != [] && rest[0] != ',' as int ==>
              all == if rest[0] == CloseOf(obj) then Some((children + [child], rest[1..])) else None
  {
    if rest != [] && rest[0] == ',' as int {
      PrependChildrenTwice(children, [child], ReadChildren(rest[1..], depth, obj));
    }
  }

  class Reader {
    const text: seq<byte>
    var p: nat
    var depth: nat

    constructor (text: seq<byte>)
      ensures this.text == text && p == 0 && depth == 0
    {
      this.text := text;
      p, depth := 0, 0;
    }

    /** What the cursor has not passed yet. */
    ghost function Rest(): seq<byte>
      requires p <= |text|
      reads this
    {
      text[p..]
    }

    method SkipSpace()
      requires p <= |text|
      modifies this`p
      ensures old(p) <= p <= |text| && Rest() == SkipWs(old(Rest()))
    {
      while p < |text| && IsWs(text[p])
        invariant old(p) <= p <= |text| && SkipWs(Rest()) == SkipWs(old(Rest()))
      {
        assert Rest()[1..] == text[p + 1..];
        p := p + 1;
      }
    }

    /** The four hex digits after "\\u", and the low half of a surrogate pair if they are a high one. */
    method UnescapeUnicode() returns (r: Option<scalar>)
      requires p <= |text|
      modifies this`p
      ensures old(p) <= p <= |text|
      ensures r.Some? ==> UnicodeEscape(old(Rest())) == Some((r.value, p - old(p)))
      ensures r.None? ==> UnicodeEscape(old(Rest())) == None
    {
      if |text| - p < 4 {
        return None;
      }
      ghost var s := Rest();
      var hi := ReadHex4(text[p..]);
      if hi < 0 {
        return None;
      }
      p := p + 4;
      var cp := hi;
      if 0xD800 <= cp < 0xDC00 {
        if |text| - p >= 6 && text[p] == '\\' as int && text[p + 1] == 'u' as int {
          assert s[6..] == text[p + 2..];
          var lo := ReadHex4(text[p + 2..]);
          if 0xDC00 <= lo < 0xE000 {
            cp := 0x10000 + (cp - 0xD800) * 1024 + (lo - 0xDC00);
            p := p + 6;
          } else {
            cp := 0xFFFD;
          }
        } else {
          cp := 0xFFFD;
        }
      } else if 0xDC00 <= cp < 0xE000 {
        cp := 0xFFFD;
      }
      return Some(cp);
    }

    /** One escape after its backslash: what it stands for goes into the buffer at `n`. */
    method Unescape(out: array<byte>, n: nat) returns (ok: bool, k: nat)
      requires 1 <= p <= |text| && text[p - 1] == '\\' as int
      requires n + |text| - p + 2 <= out.Length
      modifies this`p, out
      ensures old(p) <= p <= |text|
      ensures ok ==> k <= p - old(p) && out[..n] == old(out[..n])
      ensures ok ==> ReadString(text[old(p) - 1..]) == Prepend(out[n..n + k], ReadString(Rest()))
      ensures !ok ==> ReadString(text[old(p) - 1..]) == None
    {
      ghost var s := text[p - 1..];
      if p >= |text| {
        return false, 0;
      }
      var e := text[p];
      p := p + 1;
      assert s[2..] == Rest();
      if e != 'u' as int {
        var b := SimpleEscape(e);
        if b.None? {
          return false, 0;
        }
        out[n] := b.value;
        assert out[n..n + 1] == [b.value];
        return true, 1;
      }
      ghost var q := p;
      var cp := UnescapeUnicode();
      if cp.None? {
        return false, 0;
      }
      assert s[2 + (p - q)..] == Rest();
      k := PutUtf8(out, n, cp.value);
      assert out[n..n + k] == out[..n + k][n..];
      ok := true;
    }

    /** A character of a string: it, or what it and the escape it begins stand for, goes into the buffer at `n`. */
    method TakeOne(out: array<byte>, n: nat) returns (ok: bool, k: nat)
      requires p < |text| && text[p] >= 0x20 && text[p] != '"' as int
      requires n + |text| - p + 1 <= out.Length
      modifies this`p, out
      ensures old(p) < p <= |text|
      ensures ok ==> k <= p - old(p) && out[..n] == old(out[..n])
      ensures ok ==> ReadString(old(Rest())) == Prepend(out[n..n + k], ReadString(Rest()))
      ensures !ok ==> ReadString(old(Rest())) == None
    {
      ghost var here := Rest();
      var c := text[p];
      p := p + 1;
      assert here[1..] == Rest();
      if c == '\\' as int {
        ok, k := Unescape(out, n);
        return;
      }
      out[n] := c;
      assert out[n..n + 1] == [c];
      return true, 1;
    }

    method TakeMore(out: array<byte>, n: nat, ghost all: Option<(seq<byte>, seq<byte>)>) returns (ok: bool, more: nat)
      requires p < |text| && text[p] >= 0x20 && text[p] != '"' as int
      requires n + |text| - p + 1 <= out.Length && StillReads(all, out[..n], Rest())
      modifies this`p, out
      ensures old(p) < p <= |text|
      ensures ok ==> more <= n + p - old(p) && StillReads(all, out[..more], Rest())
      ensures !ok ==> all == None
    {
      ghost var here, done := Rest(), out[..n];
      var k;
      ok, k := TakeOne(out, n);
      more := n + k;
      if ok {
        PieceReadOn(all, done, out[n..n + k], here, Rest());
        assert out[..n + k] == done + out[n..n + k];
      } else {
        StringBreaks(all, done, here);
      }
    }

    /** `read_string`: the unescaped text never outgrows the buffer, which has the raw length to spare. */
    method ReadStr() returns (r: Option<seq<byte>>)
      requires p <= |text|
      modifies this`p
      ensures old(p) <= p <= |text|
      ensures r.Some? ==> ReadString(old(Rest())) == Some((r.value, Rest()))
      ensures r.None? ==> ReadString(old(Rest())) == None
    {
      var cap := |text| - p + 1;
      var out := new byte[cap](_ => 0);
      var n := 0;
      ghost var all := ReadString(Rest());
      PrependNothing(all);
      while p < |text|
        invariant old(p) <= p <= |text| && 0 <= n <= p - old(p)
        invariant StillReads(all, out[..n], Rest())
        decreases |text| - p
      {
        ghost var here := Rest();
        ghost var done := out[..n];
        var c := text[p];
        if c == '"' as int {
          p := p + 1;
          assert here[1..] == Rest();
          StringEnds(all, done, here);
          out[n] := 0;
          assert out[..n] == done;
          return Some(out[..n]);
        }
        if c < 0x20 {
          StringBreaks(all, done, here);
          return None;
        }
        var ok;
        ok, n := TakeMore(out, n, all);
        if !ok {
          return None;
        }
      }
      StringBreaks(all, out[..n], Rest());
      return None;
    }

    /** `literal`. */
    method Literal(word: seq<byte>, v: Json) returns (ok: bool)
      requires p <= |text| && |word| > 0
      modifies this`p
      ensures old(p) <= p <= |text|
      ensures ReadWord(old(Rest()), word, v) == if ok then Some((v, Rest())) else None
    {
      if |text| - p < |word| || text[p..p + |word|] != word {
        assert text[p..][..if |word| <= |text| - p then |word| else 0] == text[p..if |word| <= |text| - p then p + |word| else p];
        return false;
      }
      assert text[p..][..|word|] == text[p..p + |word|];
      assert text[p..][|word|..] == text[p + |word|..];
      p := p + |word|;
      return true;
    }

    /** How far the characters of a number go, up to the buffer's size. */
    method NumberEnd() returns (end: nat)
      requires p <= |text|
      ensures p <= end <= |text| && NumberRun(Rest(), NUMBER_CAP) == end - p
    {
      ghost var s := Rest();
      end := p;
      var n: nat := 0;
      while end < |text| && n < NUMBER_CAP && IsNumberChar(text[end])
        invariant p <= end <= |text| && n == end - p && n <= NUMBER_CAP
        invariant NumberRun(s, NUMBER_CAP) == n + NumberRun(text[end..], NUMBER_CAP - n)
        decreases |text| - end
      {
        assert text[end..][1..] == text[end + 1..];
        end, n := end + 1, n + 1;
      }
    }

    /** The default branch of `parse_value`. */
    method Number() returns (r: Option<Json>)
      requires p <= |text|
      modifies this`p
      ensures old(p) <= p <= |text|
      ensures ReadNumber(old(Rest())) == if r.Some? then Some((r.value, Rest())) else None
    {
      ghost var s := Rest();
      if !AtNumber() {
        NoNumber(s);
        return None;
      }
      var end := NumberEnd();
      SliceOf(text, p, end);
      var d := FiniteNumber(text[p..end]);
      NumberRead(s, end - p, d);
      if d.Some? {
        p := end;
        r := Some(JNum(d.value));
      } else {
        r := None;
      }
    }

    /** A digit comes next, after at most a minus. */
    predicate AtNumber()
      requires p <= |text|
      reads this
      ensures AtNumber() == StartsNumber(Rest())
    {
      var q := if p < |text| && text[p] == '-' as int then p + 1 else p;
      q < |text| && IsDigit(text[q])
    }

    /** A member's key up to and with its colon; an array's child has none. */
    method ParseKey(obj: bool) returns (r: Option<seq<byte>>)
      requires p <= |text|
      modifies this`p
      ensures old(p) <= p <= |text|
      ensures ReadKey(old(Rest()), obj) == if r.Some? then Some((r.value, Rest())) else None
    {
      SkipSpace();
      if !obj {
        return Some([]);
      }
      if p >= |text| || text[p] != '"' as int {
        return None;
      }
      assert Rest()[1..] == text[p + 1..];
      p := p + 1;
      r := ReadStr();
      if r.None? {
        return;
      }
      SkipSpace();
      if p >= |text| || text[p] != ':' as int {
        return None;
      }
      assert Rest()[1..] == text[p + 1..];
      p := p + 1;
    }

    /** The part of `parse_container`'s loop that reads one child. */
    method ParseChild(obj: bool) returns (r: Option<JMember>)
      requires p <= |text| && depth <= MAX_DEPTH
      modifies this
      ensures old(p) <= p <= |text|
      ensures r.Some? ==> ReadChild(old(Rest()), old(depth), obj) == Some((r.value, Rest())) && depth == old(depth)
      ensures r.None? ==> ReadChild(old(Rest()), old(depth), obj) == None
      decreases |text| - p, 2
    {
      var key := ParseKey(obj);
      if key.None? {
        return None;
      }
      var v := ParseValue();
      if v.None? {
        return None;
      }
      SkipSpace();
      return Some(JMember(key.value, v.value));
    }

    /** The loop of `parse_container`, to the closing bracket. */
    method ParseChildren(obj: bool) returns (r: Option<seq<JMember>>)
      requires p <= |text| && depth <= MAX_DEPTH
      modifies this
      ensures old(p) <= p <= |text|
      ensures r.Some? ==> ReadChildren(old(Rest()), old(depth), obj) == Some((r.value, Rest())) && depth == old(depth)
      ensures r.None? ==> ReadChildren(old(Rest()), old(depth), obj) == None
      decreases |text| - p, 4
    {
      ghost var all := ReadChildren(Rest(), depth, obj);
      var children: seq<JMember> := [];
      PrependChildrenTwice([], [], all);
      while true
        invariant old(p) <= p <= |text| && depth == old(depth)
        invariant StillCollects(all, children, Rest(), depth, obj)
        decreases |text| - p
      {
        var last, ok;
        ok, children, last := ParseNext(obj, children, all);
        if !ok {
          return None;
        }
        if last {
          return Some(children);
        }
      }
    }

    /** One turn of it: a child, and the comma or the closing bracket after it. */
    method ParseNext(obj: bool, children: seq<JMember>, ghost all: Option<(seq<JMember>, seq<byte>)>)
      returns (ok: bool, more: seq<JMember>, last: bool)
      requires p <= |text| && depth <= MAX_DEPTH && StillCollects(all, children, Rest(), depth, obj)
      modifies this
      ensures old(p) <= p <= |text| && (ok ==> old(p) < p && depth == old(depth))
      ensures ok && last ==> all == Some((more, Rest()))
      ensures ok && !last ==> StillCollects(all, more, Rest(), depth, obj)
      ensures !ok ==> all == None
      decreases |text| - p, 3
    {
      ghost var here := Rest();
      var child := ParseChild(obj);
      ok, more, last := false, children, false;
      if child.None? {
        return;
      }
      ChildCollected(all, children, here, depth, obj, child.value, Rest());
      if p >= |text| {
        return;
      }
      assert Rest()[1..] == text[p + 1..] && Rest()[0] == text[p];
      last := text[p] != ',' as int;
      if last && text[p] != CloseOf(obj) {
        return;
      }
      ok, more := true, children + [child.value];
      p := p + 1;
    }

    /** `parse_container`, from after the opening bracket. */
    method ParseContainer(obj: bool) returns (r: Option<Json>)
      requires p <= |text| && depth <= MAX_DEPTH
      modifies this
      ensures old(p) <= p <= |text|
      ensures r.Some? ==> ReadContainer(old(Rest()), old(depth), obj) == Some((r.value, Rest())) && depth == old(depth)
      ensures r.None? ==> ReadContainer(old(Rest()), old(depth), obj) == None
      decreases |text| - p, 5
    {
      depth := depth + 1;
      if depth > MAX_DEPTH {
        return None;
      }
      SkipSpace();
      if p < |text| && text[p] == CloseOf(obj) {
        assert Rest()[1..] == text[p + 1..];
        p, depth := p + 1, depth - 1;
        return Some(Collect(obj, []));
      }
      var children := ParseChildren(obj);
      if children.None? {
        return None;
      }
      depth := depth - 1;
      return Some(Collect(obj, children.value));
    }

    /** `parse_value`. */
    method ParseValue() returns (r: Option<Json>)
      requires p <= |text| && depth <= MAX_DEPTH
      modifies this
      ensures old(p) <= p <= |text|
      ensures r.Some? ==> ReadValue(old(Rest()), old(depth)) == Some((r.value, Rest())) && depth == old(depth)
      ensures r.Some? ==> old(p) < p
      ensures r.None? ==> ReadValue(old(Rest()), old(depth)) == None
      decreases |text| - p, 1
    {
      SkipSpace();
      if p >= |text| {
        return None;
      }
      var c := text[p];
      assert Rest()[1..] == text[p + 1..];
      if c == '{' as int {
        p := p + 1;
        r := ParseContainer(true);
      } else if c == '[' as int {
        p := p + 1;
        r := ParseContainer(false);
      } else if c == '"' as int {
        p := p + 1;
        var s := ReadStr();
        r := if s.None? then None else Some(JStr(s.value));
      } else if c == 't' as int {
        var ok := Literal(TRUE, JBool(true));
        r := if ok then Some(JBool(true)) else None;
      } else if c == 'f' as int {
        var ok := Literal(FALSE, JBool(false));
        r := if ok then Some(JBool(false)) else None;
      } else if c == 'n' as int {
        var ok := Literal(NULL, JNull);
        r := if ok then Some(JNull) else None;
      } else {
        r := Number();
      }
    }
  }

  /** `rpod_jv_parse`. */
  method ParseText(text: seq<byte>) returns (r: Option<Json>)
    ensures r == Parse(text)
  {
    var reader := new Reader(text);
    assert text[0..] == text;
    r := reader.ParseValue();
    if r.None? {
      return;
    }
    reader.SkipSpace();
    if reader.p != |text| {
      return None;
    }
  }
}
