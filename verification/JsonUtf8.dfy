/**
 UTF-8 through the JSON code: whatever it is given, the writer of web/json.c prints
 well-formed UTF-8, and from well-formed text the reader of src/ha/json_read.c makes
 only well-formed strings.
 */
module JsonUtf8 {
  import opened Wrappers
  import opened Utf8
  import W = JsonWriter
  import R = JsonReader
  import JsonRoundTrip

  // --- The writer ---

  lemma {:induction false} EscapedValid(v: seq<byte>)
    ensures Valid(W.Escaped(v))
    decreases |v|
  {
    if v == [] {
    } else if v[0] < 0x80 {
      ValidAscii(W.EscapeAscii(v[0]));
      EscapedValid(v[1..]);
      ValidConcat(W.EscapeAscii(v[0]), W.Escaped(v[1..]));
    } else if SeqLen(v) == 0 {
      assert REPLACEMENT == Encode(0xFFFD);
      ValidEncode(0xFFFD);
      EscapedValid(v[1..]);
      ValidConcat(REPLACEMENT, W.Escaped(v[1..]));
    } else {
      var n := SeqLen(v);
      AcceptedIsEncoded(v);
      ValidEncode(Bits(v, n));
      EscapedValid(v[n..]);
      ValidConcat(v[..n], W.Escaped(v[n..]));
    }
  }

  lemma QuotedValid(v: seq<byte>)
    ensures Valid(W.Quoted(v))
  {
    EscapedValid(v);
    ValidAscii(['"' as int]);
    ValidConcat(['"' as int], W.Escaped(v));
    ValidConcat(['"' as int] + W.Escaped(v), ['"' as int]);
  }

  lemma PutValid(st: W.State, s: seq<byte>)
    requires Valid(st.text) && Valid(s)
    ensures Valid(W.Put(st, s).text)
  {
    ValidConcat(st.text, s);
  }

  lemma SepValid(st: W.State)
    requires st.Ok() && Valid(st.text)
    ensures Valid(W.Sep(st).text)
  {
    ValidAscii([',' as int]);
    PutValid(st, [',' as int]);
  }

  lemma ScalarTextValid(c: W.Call)
    requires c.IsScalar()
    ensures Valid(W.ScalarText(c))
  {
    match c {
      case CStr(s) => QuotedValid(s);
      case CInt(n) => ValidAscii(W.IntText(n));
      case CBool(b) => ValidAscii(if b then TRUE else FALSE);
      case CNull => ValidAscii(NULL);
    }
  }

  lemma StepValid(st: W.State, c: W.Call)
    requires st.Ok() && Valid(st.text)
    ensures Valid(W.Step(st, c).text)
  {
    SepValid(st);
    if c.IsScalar() {
      ScalarTextValid(c);
      PutValid(W.Sep(st), W.ScalarText(c));
    } else if c.CKey? {
      KeyValid(c.key);
      PutValid(W.Sep(st), W.Quoted(c.key) + [':' as int]);
    } else {
      BracketValid(st, c);
    }
  }

  lemma KeyValid(key: W.cstring)
    ensures Valid(W.Quoted(key) + [':' as int])
  {
    QuotedValid(key);
    ValidAscii([':' as int]);
    ValidConcat(W.Quoted(key), [':' as int]);
  }

  lemma BracketValid(st: W.State, c: W.Call)
    requires st.Ok() && Valid(st.text) && (c.CObj? || c.CEndObj? || c.CArr? || c.CEndArr?)
    ensures Valid(W.Step(st, c).text)
  {
    SepValid(st);
    var b := match c case CObj => '{' as int case CEndObj => '}' as int case CArr => '[' as int case CEndArr => ']' as int;
    ValidAscii([b]);
    PutValid(W.Sep(st), [b]);
    PutValid(st, [b]);
  }

  /** Any calls at all, balanced or not, leave well-formed UTF-8. */
  lemma {:induction false} WriterValid(st: W.State, calls: seq<W.Call>)
    requires st.Ok() && Valid(st.text)
    ensures Valid(W.Run(st, calls).text)
    decreases |calls|
  {
    if calls != [] {
      StepValid(st, calls[0]);
      WriterValid(W.Step(st, calls[0]), calls[1..]);
    }
  }

  // --- The reader ---

  /** Every key and string in a value is well-formed. */
  predicate StringsValid(v: R.Json)
    decreases v, 0
  {
    match v
    case JStr(s) => Valid(s)
    case JArr(items) => forall i :: 0 <= i < |items| ==> StringsValid(items[i])
    case JObj(members) => MembersValid(members)
    case _ => true
  }

  predicate MembersValid(members: seq<R.JMember>) {
    forall i :: 0 <= i < |members| ==> Valid(members[i].key) && StringsValid(members[i].value)
  }

  /** Past some ASCII the rest of a well-formed text is well-formed. */
  lemma {:induction false} DropAscii(s: seq<byte>, k: nat)
    requires Valid(s) && k <= |s| && forall i :: 0 <= i < k ==> s[i] < 0x80
    ensures Valid(s[k..])
    decreases k
  {
    if k > 0 {
      assert SeqLen(s) == 1;
      DropAscii(s[1..], k - 1);
      assert s[1..][k - 1..] == s[k..];
    } else {
      assert s[0..] == s;
    }
  }

  lemma {:induction false} SkipWsValid(s: seq<byte>)
    requires Valid(s)
    ensures Valid(R.SkipWs(s))
  {
    if s != [] && R.IsWs(s[0]) {
      DropAscii(s, 1);
      SkipWsValid(s[1..]);
    }
  }

  /** An escape, lone and paired surrogates included, is plain ASCII in the text. */
  lemma UnicodeEscapeAscii(s: seq<byte>)
    requires R.UnicodeEscape(s).Some?
    ensures forall i :: 0 <= i < R.UnicodeEscape(s).value.1 ==> s[i] < 0x80
  {
    if R.UnicodeEscape(s).value.1 == 10 {
      var t := s[6..];
      assert R.Hex4(t) >= 0;
      assert t[0] == s[6] && t[1] == s[7] && t[2] == s[8] && t[3] == s[9];
    }
  }

  /** A `\u` escape: what it stands for is well-formed, and so is what follows it. */
  lemma UnicodePiece(s: seq<byte>) returns (b: seq<byte>, k: nat)
    requires Valid(s) && |s| >= 2 && s[0] == '\\' as int && s[1] == 'u' as int && R.ReadString(s).Some?
    ensures 0 < k <= |s| && Valid(b) && Valid(s[k..]) && R.ReadString(s) == R.Prepend(b, R.ReadString(s[k..]))
  {
    DropAscii(s, 2);
    var u := R.UnicodeEscape(s[2..]).value;
    UnicodeEscapeAscii(s[2..]);
    DropAscii(s[2..], u.1);
    assert s[2..][u.1..] == s[2 + u.1..];
    ValidEncode(u.0);
    b, k := Encode(u.0), 2 + u.1;
  }

  lemma LeadingValid(s: seq<byte>)
    requires Valid(s) && s != [] && s[0] >= 0x80
    ensures var n := SeqLen(s); n > 0 && Valid(s[..n]) && Valid(s[n..])
  {
    AcceptedIsEncoded(s);
    ValidEncode(Bits(s, SeqLen(s)));
  }

  /** A character of several bytes stands for itself. */
  lemma RawPiece(s: seq<byte>) returns (b: seq<byte>, k: nat)
    requires Valid(s) && s != [] && s[0] >= 0x80
    ensures 0 < k <= |s| && Valid(b) && Valid(s[k..]) && R.ReadString(s) == R.Prepend(b, R.ReadString(s[k..]))
  {
    LeadingValid(s);
    JsonRoundTrip.SequenceIsRaw(s);
    RawReads(s, SeqLen(s));
    b, k := s[..SeqLen(s)], SeqLen(s);
  }

  lemma RawReads(s: seq<byte>, n: nat)
    requires n <= |s| && forall i :: 0 <= i < n ==> s[i] >= 0x80
    ensures R.ReadString(s) == R.Prepend(s[..n], R.ReadString(s[n..]))
  {
    JsonRoundTrip.RawRead(s[..n], s[n..]);
    SameTail(s, n, s[n..]);
  }

  /** The first thing in a string that is not its end: what it stands for is well-formed, and so is what follows. */
  lemma FirstPiece(s: seq<byte>) returns (b: seq<byte>, k: nat)
    requires Valid(s) && R.ReadString(s).Some? && s[0] != '"' as int
    ensures 0 < k <= |s| && Valid(b) && Valid(s[k..]) && R.ReadString(s) == R.Prepend(b, R.ReadString(s[k..]))
  {
    if s[0] >= 0x80 {
      b, k := RawPiece(s);
    } else if s[0] != '\\' as int {
      DropAscii(s, 1);
      ValidAscii([s[0]]);
      b, k := [s[0]], 1;
    } else if s[1] == 'u' as int {
      b, k := UnicodePiece(s);
    } else {
      DropAscii(s, 2);
      ValidAscii([R.SimpleEscape(s[1]).value]);
      b, k := [R.SimpleEscape(s[1]).value], 2;
    }
  }

  lemma {:induction false} ReadStringValid(s: seq<byte>)
    requires Valid(s) && R.ReadString(s).Some?
    ensures Valid(R.ReadString(s).value.0) && Valid(R.ReadString(s).value.1)
    decreases |s|
  {
    if s[0] == '"' as int {
      DropAscii(s, 1);
    } else {
      var b, k := FirstPiece(s);
      ReadStringValid(s[k..]);
      ValidConcat(b, R.ReadString(s[k..]).value.0);
    }
  }

  lemma {:induction false} NumberRunAscii(s: seq<byte>, cap: nat)
    ensures forall i :: 0 <= i < R.NumberRun(s, cap) ==> s[i] < 0x80
  {
    if s != [] && cap > 0 && R.IsNumberChar(s[0]) {
      NumberRunAscii(s[1..], cap - 1);
      forall i | 0 < i < R.NumberRun(s, cap) ensures s[i] < 0x80 {
        assert s[1..][i - 1] == s[i];
      }
    }
  }

  lemma WordValid(s: seq<byte>, word: seq<byte>, v: R.Json)
    requires |word| > 0 && Valid(s) && R.ReadWord(s, word, v).Some?
    requires forall i :: 0 <= i < |word| ==> word[i] < 0x80
    ensures Valid(R.ReadWord(s, word, v).value.1)
  {
    forall i | 0 <= i < |word| ensures s[i] < 0x80 {
      assert s[..|word|][i] == word[i];
    }
    DropAscii(s, |word|);
  }

  lemma {:induction false} ReadValueValid(text: seq<byte>, depth: nat)
    requires Valid(text) && R.ReadValue(text, depth).Some?
    ensures StringsValid(R.ReadValue(text, depth).value.0) && Valid(R.ReadValue(text, depth).value.1)
    decreases |text|, 1
  {
    var s := R.SkipWs(text);
    SkipWsValid(text);
    if s[0] == '{' as int || s[0] == '[' as int {
      DropAscii(s, 1);
      ReadContainerValid(s[1..], depth, s[0] == '{' as int);
    } else if s[0] == '"' as int {
      DropAscii(s, 1);
      ReadStringValid(s[1..]);
    } else if s[0] == 't' as int {
      WordValid(s, TRUE, R.JBool(true));
    } else if s[0] == 'f' as int {
      WordValid(s, FALSE, R.JBool(false));
    } else if s[0] == 'n' as int {
      WordValid(s, NULL, R.JNull);
    } else {
      NumberRunAscii(s, R.NUMBER_CAP);
      DropAscii(s, R.NumberRun(s, R.NUMBER_CAP));
    }
  }

  lemma {:induction false} CollectValid(obj: bool, children: seq<R.JMember>)
    requires MembersValid(children)
    ensures StringsValid(R.Collect(obj, children))
  {
    if !obj {
      if children != [] {
        CollectValid(obj, children[1..]);
      }
      var v := R.Values(children);
      forall i | 0 <= i < |v| ensures StringsValid(v[i]) {
        if i > 0 {
          assert v[i] == R.Values(children[1..])[i - 1];
        }
      }
    }
  }

  lemma {:induction false} ReadContainerValid(text: seq<byte>, depth: nat, obj: bool)
    requires Valid(text) && R.ReadContainer(text, depth, obj).Some?
    ensures StringsValid(R.ReadContainer(text, depth, obj).value.0) && Valid(R.ReadContainer(text, depth, obj).value.1)
    decreases |text|, 4
  {
    var s := R.SkipWs(text);
    SkipWsValid(text);
    if s != [] && s[0] == R.CloseOf(obj) {
      DropAscii(s, 1);
      CollectValid(obj, []);
    } else {
      ReadChildrenValid(s, depth + 1, obj);
      CollectValid(obj, R.ReadChildren(s, depth + 1, obj).value.0);
    }
  }

  lemma {:induction false} ReadChildrenValid(text: seq<byte>, depth: nat, obj: bool)
    requires Valid(text) && R.ReadChildren(text, depth, obj).Some?
    ensures MembersValid(R.ReadChildren(text, depth, obj).value.0) && Valid(R.ReadChildren(text, depth, obj).value.1)
    decreases |text|, 3
  {
    ReadChildValid(text, depth, obj);
    var s := R.ReadChild(text, depth, obj).value.1;
    DropAscii(s, 1);
    if s[0] == ',' as int {
      ReadChildrenValid(s[1..], depth, obj);
    }
  }

  lemma {:induction false} ReadChildValid(text: seq<byte>, depth: nat, obj: bool)
    requires Valid(text) && R.ReadChild(text, depth, obj).Some?
    ensures var c := R.ReadChild(text, depth, obj).value;
            Valid(c.0.key) && StringsValid(c.0.value) && Valid(c.1)
    decreases |text|, 2
  {
    ReadKeyValid(text, obj);
    var key := R.ReadKey(text, obj).value;
    ReadValueValid(key.1, depth);
    SkipWsValid(R.ReadValue(key.1, depth).value.1);
  }

  lemma ReadKeyValid(text: seq<byte>, obj: bool)
    requires Valid(text) && R.ReadKey(text, obj).Some?
    ensures Valid(R.ReadKey(text, obj).value.0) && Valid(R.ReadKey(text, obj).value.1)
  {
    var s := R.SkipWs(text);
    SkipWsValid(text);
    if obj {
      DropAscii(s, 1);
      ReadStringValid(s[1..]);
      SkipWsValid(R.ReadString(s[1..]).value.1);
      DropAscii(R.SkipWs(R.ReadString(s[1..]).value.1), 1);
    }
  }

  /** From well-formed text come only well-formed keys and strings. */
  lemma ParsedStringsValid(text: seq<byte>)
    requires Valid(text) && R.Parse(text).Some?
    ensures StringsValid(R.Parse(text).value)
  {
    ReadValueValid(text, 0);
  }
}
