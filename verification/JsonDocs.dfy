/**
 The reader takes exactly the grammar's documents: each that it has room for is read as
 what it means, each that it has none for is refused, and whatever is read is one.
 */
module JsonDocs {
  import opened Wrappers
  import R = JsonReader
  import opened JsonGrammar
  import opened JsonNumbers
  import opened JsonStrings

  // --- White space ---

  lemma SpacesAgree(c: byte)
    ensures R.IsWs(c) <==> c in SPACES
  {
  }

  lemma {:induction false} SpaceSkipped(ws: seq<byte>, t: seq<byte>)
    requires IsSpace(ws)
    ensures R.SkipWs(ws + t) == R.SkipWs(t)
  {
    if ws == [] {
      assert ws + t == t;
    } else {
      SpacesAgree(ws[0]);
      assert (ws + t)[1..] == ws[1..] + t;
      SpaceSkipped(ws[1..], t);
    }
  }

  /** A text that does not begin with white space. */
  predicate Solid(t: seq<byte>) {
    t == [] || !R.IsWs(t[0])
  }

  lemma SolidAfter(ws: seq<byte>, t: seq<byte>)
    requires IsSpace(ws) && Solid(t)
    ensures R.SkipWs(ws + t) == t
  {
    SpaceSkipped(ws, t);
  }

  lemma {:induction false} SpaceFound(s: seq<byte>) returns (ws: seq<byte>)
    ensures IsSpace(ws) && s == ws + R.SkipWs(s)
  {
    if s == [] || !R.IsWs(s[0]) {
      return [];
    }
    SpacesAgree(s[0]);
    ws := SpaceFound(s[1..]);
    ws := [s[0]] + ws;
  }

  /** A text that no number goes on with. */
  predicate Ends(t: seq<byte>) {
    t == [] || !R.IsNumberChar(t[0])
  }

  lemma SpaceEnds(ws: seq<byte>, t: seq<byte>)
    requires IsSpace(ws) && Ends(t)
    ensures Ends(ws + t)
  {
    if ws == [] {
      assert ws + t == t;
    } else {
      SpacesAgree(ws[0]);
    }
  }

  // --- The grammar's documents are read ---

  lemma NumberDocStarts(n: Number, rest: seq<byte>)
    requires ProperNumber(n)
    ensures var s := NumberText(n) + rest;
            s != [] && (R.IsDigit(s[0]) || s[0] == '-' as int)
  {
    UnsignedStarts(n);
  }

  /** A value begins with nothing that is white space or ends a group. */
  lemma DocStarts(d: Doc, rest: seq<byte>)
    requires Proper(d)
    ensures var s := Then(d, rest);
            s != [] && !R.IsWs(s[0]) && s[0] != ']' as int && s[0] != '}' as int
  {
    if d.NumDoc? {
      NumberDocStarts(d.n, rest);
    }
  }

  lemma WordRead(word: seq<byte>, v: R.Json, rest: seq<byte>)
    requires |word| > 0
    ensures R.ReadWord(word + rest, word, v) == Some((v, rest))
  {
    assert (word + rest)[..|word|] == word && (word + rest)[|word|..] == rest;
  }

  lemma {:induction false} ValuesAre(ms: seq<R.JMember>)
    ensures R.Values(ms) == seq(|ms|, i requires 0 <= i < |ms| => ms[i].value)
  {
    if ms != [] {
      ValuesAre(ms[1..]);
    }
  }

  lemma CollectedIs(d: Doc)
    requires d.Group? && Proper(d)
    ensures R.Collect(d.obj, Members(d.children, d.obj)) == Meaning(d)
  {
    ValuesAre(Members(d.children, d.obj));
  }

  lemma QuoteDispatched(t: seq<byte>, str: (seq<byte>, seq<byte>), depth: nat)
    requires R.ReadString(t) == Some(str)
    ensures R.ReadValue(['"' as int] + t, depth) == Some((R.JStr(str.0), str.1))
  {
    assert (['"' as int] + t)[1..] == t;
  }

  lemma NumRead(n: Number, rest: seq<byte>, depth: nat)
    requires ProperNumber(n) && NumberFits(n) && Ends(rest)
    ensures R.ReadValue(NumberText(n) + rest, depth) == Some((Meaning(NumDoc(n)), rest))
  {
    NumberDocStarts(n, rest);
    NumberReadsOn(n, rest);
    R.NumberDispatched(NumberText(n) + rest, depth, Some((Meaning(NumDoc(n)), rest)));
  }

  lemma StrRead(ps: seq<Piece>, rest: seq<byte>, depth: nat)
    requires ProperPieces(ps)
    ensures R.ReadValue(Quoted(ps, rest), depth) == Some((R.JStr(Bytes(ps)), rest))
  {
    PiecesRead(ps, rest);
    QuoteDispatched(PiecesThen(ps, ['"' as int] + rest), (Bytes(ps), rest), depth);
  }

  lemma SimpleRead(d: Doc, rest: seq<byte>, depth: nat)
    requires Proper(d) && !d.Group? && Fits(d, depth) && (d.NumDoc? ==> Ends(rest))
    ensures R.ReadValue(Then(d, rest), depth) == Some((Meaning(d), rest))
  {
    match d {
      case NullDoc => WordRead(NULL, R.JNull, rest);
      case BoolDoc(b) => WordRead(if b then TRUE else FALSE, R.JBool(b), rest);
      case NumDoc(n) => NumRead(n, rest, depth);
      case StrDoc(ps) => StrRead(ps, rest, depth);
    }
  }

  /** White space before a value makes no difference to it. */
  lemma AfterSpace(ws: seq<byte>, t: seq<byte>, depth: nat)
    requires IsSpace(ws)
    ensures R.ReadValue(ws + t, depth) == R.ReadValue(t, depth)
  {
    SpaceSkipped(ws, t);
  }

  /** A group's text from after its opening bracket. */
  function Inside(obj: bool, space: seq<byte>, children: seq<Child>, rest: seq<byte>): seq<byte>
    requires forall c :: c in children ==> ProperChild(c, obj)
  {
    if children == [] then space + [CloseOf(obj)] + rest else ChildrenThen(children, obj, rest)
  }

  lemma GroupOpens(d: Doc, rest: seq<byte>, depth: nat)
    requires d.Group? && Proper(d)
    ensures R.ReadValue(Then(d, rest), depth) == R.ReadContainer(Inside(d.obj, d.space, d.children, rest), depth, d.obj)
  {
    var s := Then(d, rest);
    assert s[1..] == Inside(d.obj, d.space, d.children, rest);
  }

  lemma {:induction false} ValueRead(d: Doc, rest: seq<byte>, depth: nat)
    requires Proper(d) && Fits(d, depth) && (d.NumDoc? ==> Ends(rest))
    ensures R.ReadValue(Then(d, rest), depth) == Some((Meaning(d), rest))
    decreases d, 0
  {
    if d.Group? {
      GroupOpens(d, rest, depth);
      CollectedIs(d);
      if d.children == [] {
        EmptyRead(d.obj, d.space, rest, depth);
      } else {
        ChildrenRead(d.children, d.obj, rest, depth + 1);
        ChildrenCollected(d.children, d.obj, rest, depth);
      }
    } else {
      SimpleRead(d, rest, depth);
    }
  }

  lemma EmptyRead(obj: bool, space: seq<byte>, rest: seq<byte>, depth: nat)
    requires IsSpace(space) && depth < R.MAX_DEPTH
    ensures R.ReadContainer(space + [CloseOf(obj)] + rest, depth, obj) == Some((R.Collect(obj, []), rest))
  {
    var t := [CloseOf(obj)] + rest;
    assert space + [CloseOf(obj)] + rest == space + t;
    SolidAfter(space, t);
    assert t[1..] == rest;
  }

  lemma KeySkips(t: seq<byte>, obj: bool)
    ensures R.ReadKey(R.SkipWs(t), obj) == R.ReadKey(t, obj)
  {
  }

  lemma ChildrenSkip(t: seq<byte>, depth: nat, obj: bool)
    ensures R.ReadChildren(R.SkipWs(t), depth, obj) == R.ReadChildren(t, depth, obj)
  {
    KeySkips(t, obj);
    assert R.ReadChild(R.SkipWs(t), depth, obj) == R.ReadChild(t, depth, obj);
  }

  /** A group's first child begins with nothing that would end the group. */
  lemma ChildrenStart(cs: seq<Child>, obj: bool, rest: seq<byte>)
    requires cs != [] && forall c :: c in cs ==> ProperChild(c, obj)
    ensures var s := R.SkipWs(ChildrenThen(cs, obj, rest));
            s != [] && s[0] != CloseOf(obj)
  {
    var c := cs[0];
    var tail := if |cs| == 1 then [CloseOf(obj)] + rest else [',' as int] + ChildrenThen(cs[1..], obj, rest);
    ChildStarts(c, obj, tail);
  }

  lemma ChildStarts(c: Child, obj: bool, tail: seq<byte>)
    requires ProperChild(c, obj)
    ensures var s := R.SkipWs(ChildThen(c, obj, tail));
            s != [] && s[0] != CloseOf(obj)
  {
    var value := Then(c.value, c.after + tail);
    DocStarts(c.value, c.after + tail);
    if obj {
      SolidAfter(c.before, Quoted(c.key, c.colon + ([':' as int] + (c.gap + value))));
    } else {
      SpaceSkipped(c.before, c.gap + value);
      SolidAfter(c.gap, value);
    }
  }

  lemma ChildrenCollected(cs: seq<Child>, obj: bool, rest: seq<byte>, depth: nat)
    requires cs != [] && (forall c :: c in cs ==> ProperChild(c, obj)) && depth < R.MAX_DEPTH
    requires R.ReadChildren(ChildrenThen(cs, obj, rest), depth + 1, obj) == Some((Members(cs, obj), rest))
    ensures R.ReadContainer(ChildrenThen(cs, obj, rest), depth, obj) == Some((R.Collect(obj, Members(cs, obj)), rest))
  {
    ChildrenStart(cs, obj, rest);
    ChildrenSkip(ChildrenThen(cs, obj, rest), depth + 1, obj);
  }

  lemma KeyIs(before: seq<byte>, text: seq<byte>, str: seq<byte>, colon: seq<byte>, value: seq<byte>)
    requires IsSpace(before) && IsSpace(colon) && R.ReadString(text) == Some((str, colon + ([':' as int] + value)))
    ensures R.ReadKey(before + (['"' as int] + text), true) == Some((str, value))
  {
    SolidAfter(before, ['"' as int] + text);
    SolidAfter(colon, [':' as int] + value);
    assert (['"' as int] + text)[1..] == text && ([':' as int] + value)[1..] == value;
  }

  /** A key and its colon. */
  lemma KeyRead(c: Child, tail: seq<byte>)
    requires ProperChild(c, true)
    ensures R.ReadKey(ChildThen(c, true, tail), true) == Some((Bytes(c.key), c.gap + Then(c.value, c.after + tail)))
  {
    var value := c.gap + Then(c.value, c.after + tail);
    var rest := c.colon + ([':' as int] + value);
    PiecesRead(c.key, rest);
    KeyIs(c.before, PiecesThen(c.key, ['"' as int] + rest), Bytes(c.key), c.colon, value);
  }

  /** An array's item has none. */
  lemma NoKeyRead(c: Child, tail: seq<byte>)
    requires ProperChild(c, false)
    ensures R.ReadKey(ChildThen(c, false, tail), false) == Some(([], Then(c.value, c.after + tail)))
  {
    var value := Then(c.value, c.after + tail);
    DocStarts(c.value, c.after + tail);
    SpaceSkipped(c.before, c.gap + value);
    SolidAfter(c.gap, value);
  }

  /** Where a child's value is read, and that it ends there. */
  lemma ChildKeyed(c: Child, obj: bool, tail: seq<byte>, depth: nat) returns (ws: seq<byte>)
    requires ProperChild(c, obj)
    ensures IsSpace(ws)
    ensures R.ReadKey(ChildThen(c, obj, tail), obj) == Some((Bytes(c.key), ws + Then(c.value, c.after + tail)))
  {
    if obj {
      KeyRead(c, tail);
      ws := c.gap;
    } else {
      NoKeyRead(c, tail);
      ws := [];
      assert [] + Then(c.value, c.after + tail) == Then(c.value, c.after + tail);
    }
  }

  lemma ChildRead(c: Child, obj: bool, tail: seq<byte>, depth: nat)
    requires ProperChild(c, obj) && ChildFits(c, obj, depth) && Solid(tail) && Ends(tail)
    ensures R.ReadChild(ChildThen(c, obj, tail), depth, obj) == Some((ChildMeaning(c, obj), tail))
    decreases c, 1
  {
    var ws := ChildKeyed(c, obj, tail, depth);
    SpaceEnds(c.after, tail);
    ValueRead(c.value, c.after + tail, depth);
    AfterSpace(ws, Then(c.value, c.after + tail), depth);
    SolidAfter(c.after, tail);
  }

  function TailOf(cs: seq<Child>, obj: bool, rest: seq<byte>): seq<byte>
    requires cs != [] && forall c :: c in cs ==> ProperChild(c, obj)
  {
    if |cs| == 1 then [CloseOf(obj)] + rest else [',' as int] + ChildrenThen(cs[1..], obj, rest)
  }

  lemma {:induction false} ChildrenRead(cs: seq<Child>, obj: bool, rest: seq<byte>, depth: nat)
    requires cs != [] && (forall c :: c in cs ==> ProperChild(c, obj)) && forall c :: c in cs ==> ChildFits(c, obj, depth)
    ensures R.ReadChildren(ChildrenThen(cs, obj, rest), depth, obj) == Some((Members(cs, obj), rest))
    decreases cs, 2
  {
    var tail := TailOf(cs, obj, rest);
    assert cs[0] in cs;
    ChildRead(cs[0], obj, tail, depth);
    if |cs| == 1 {
      assert tail[1..] == rest;
      assert Members(cs, obj) == [ChildMeaning(cs[0], obj)];
    } else {
      ChildrenRead(cs[1..], obj, rest, depth);
      assert tail[1..] == ChildrenThen(cs[1..], obj, rest);
    }
  }

  // --- And nothing else is ---

  /** The simple value at the front of a text. */
  lemma SimpleFound(s: seq<byte>, depth: nat) returns (d: Doc)
    requires s != [] && !R.IsWs(s[0]) && s[0] != '{' as int && s[0] != '[' as int && R.ReadValue(s, depth).Some?
    ensures Proper(d) && Fits(d, depth) && s == Then(d, R.ReadValue(s, depth).value.1) && R.ReadValue(s, depth).value.0 == Meaning(d)
  {
    if s[0] == '"' as int {
      var ps := OnlyPiecesRead(s[1..]);
      d := StrDoc(ps);
      assert s == ['"' as int] + s[1..];
    } else if s[0] == 't' as int {
      d := BoolDoc(true);
      WordFound(s, TRUE);
    } else if s[0] == 'f' as int {
      d := BoolDoc(false);
      WordFound(s, FALSE);
    } else if s[0] == 'n' as int {
      d := NullDoc;
      WordFound(s, NULL);
    } else {
      var n := NumberAtFront(s);
      d := NumDoc(n);
    }
  }

  lemma WordFound(s: seq<byte>, word: seq<byte>)
    requires R.HasPrefix(s, word)
    ensures s == word + s[|word|..]
  {
  }

  /** The value at the front of a text. */
  lemma {:induction false} ValueFound(text: seq<byte>, depth: nat) returns (ws: seq<byte>, d: Doc)
    requires R.ReadValue(text, depth).Some?
    ensures IsSpace(ws) && Proper(d) && Fits(d, depth)
    ensures text == ws + Then(d, R.ReadValue(text, depth).value.1) && R.ReadValue(text, depth).value.0 == Meaning(d)
    decreases |text|, 1
  {
    ws := SpaceFound(text);
    var s := R.SkipWs(text);
    AfterSpace(ws, s, depth);
    if s[0] == '{' as int || s[0] == '[' as int {
      var obj := s[0] == '{' as int;
      var space, children := GroupFound(s[1..], depth, obj);
      d := Group(obj, space, children);
      GroupIs(s, d, R.ReadContainer(s[1..], depth, obj).value.1, depth);
    } else {
      d := SimpleFound(s, depth);
    }
  }

  lemma GroupIs(s: seq<byte>, d: Doc, rest: seq<byte>, depth: nat)
    requires d.Group? && Proper(d) && Fits(d, depth)
    requires s != [] && s[0] == (if d.obj then '{' as int else '[' as int) && s[1..] == Inside(d.obj, d.space, d.children, rest)
    ensures s == Then(d, rest) && R.ReadValue(s, depth) == Some((Meaning(d), rest))
  {
    assert s == [s[0]] + s[1..];
    ValueRead(d, rest, depth);
  }

  /** What is between a group's brackets. */
  lemma {:induction false} GroupFound(text: seq<byte>, depth: nat, obj: bool) returns (space: seq<byte>, cs: seq<Child>)
    requires R.ReadContainer(text, depth, obj).Some?
    ensures Proper(Group(obj, space, cs)) && Fits(Group(obj, space, cs), depth)
    ensures text == Inside(obj, space, cs, R.ReadContainer(text, depth, obj).value.1)
    decreases |text|, 4
  {
    space := SpaceFound(text);
    var s := R.SkipWs(text);
    if s != [] && s[0] == R.CloseOf(obj) {
      cs := [];
      assert text == space + [s[0]] + s[1..];
    } else {
      cs := ChildrenFound(s, depth + 1, obj);
      cs := Indented(space, cs, obj, R.ReadContainer(text, depth, obj).value.1, depth + 1);
      space := [];
    }
  }

  /** White space in front of the first child. */
  lemma Indented(ws: seq<byte>, cs: seq<Child>, obj: bool, rest: seq<byte>, depth: nat) returns (r: seq<Child>)
    requires IsSpace(ws) && cs != [] && forall c :: c in cs ==> ProperChild(c, obj) && ChildFits(c, obj, depth)
    ensures r != [] && forall c :: c in r ==> ProperChild(c, obj) && ChildFits(c, obj, depth)
    ensures ChildrenThen(r, obj, rest) == ws + ChildrenThen(cs, obj, rest)
  {
    var first := cs[0].(before := ws + cs[0].before);
    r := [first] + cs[1..];
    assert cs[0] in cs;
    assert ProperChild(first, obj) && ChildFits(first, obj, depth);
    assert r[1..] == cs[1..];
  }

  lemma {:induction false} ChildrenFound(text: seq<byte>, depth: nat, obj: bool) returns (cs: seq<Child>)
    requires R.ReadChildren(text, depth, obj).Some?
    ensures cs != [] && forall c :: c in cs ==> ProperChild(c, obj) && ChildFits(c, obj, depth)
    ensures text == ChildrenThen(cs, obj, R.ReadChildren(text, depth, obj).value.1)
    decreases |text|, 3
  {
    var c := ChildFound(text, depth, obj);
    var tail := R.ReadChild(text, depth, obj).value.1;
    assert tail == [tail[0]] + tail[1..];
    if tail[0] == ',' as int {
      var others := ChildrenFound(tail[1..], depth, obj);
      cs := [c] + others;
      assert cs[1..] == others;
    } else {
      cs := [c];
    }
  }

  lemma {:induction false} ChildFound(text: seq<byte>, depth: nat, obj: bool) returns (c: Child)
    requires R.ReadChild(text, depth, obj).Some?
    ensures ProperChild(c, obj) && ChildFits(c, obj, depth)
    ensures text == ChildThen(c, obj, R.ReadChild(text, depth, obj).value.1)
    decreases |text|, 2
  {
    var key := R.ReadKey(text, obj).value;
    var gap, d := ValueFound(key.1, depth);
    var v := R.ReadValue(key.1, depth).value;
    var after := SpaceFound(v.1);
    var before := SpaceFound(text);
    if obj {
      var ps, colon := KeyFound(R.SkipWs(text), key);
      c := Child(before, ps, colon, gap, d, after);
    } else {
      c := Child(before, [], [], gap, d, after);
    }
  }

  /** A key, and the white space before its colon. */
  lemma KeyFound(s: seq<byte>, key: (seq<byte>, seq<byte>)) returns (ps: seq<Piece>, colon: seq<byte>)
    requires R.SkipWs(s) == s && R.ReadKey(s, true) == Some(key)
    ensures ProperPieces(ps) && IsSpace(colon) && s == Quoted(ps, colon + ([':' as int] + key.1))
  {
    ps := OnlyPiecesRead(s[1..]);
    var t := R.ReadString(s[1..]).value.1;
    colon := SpaceFound(t);
    var u := R.SkipWs(t);
    assert u == [':' as int] + u[1..];
    assert s == ['"' as int] + s[1..];
  }

  // --- What the reader has no room for ---

  /** Nothing is read, or something that more of a number follows. */
  predicate Stuck<T>(r: Option<(T, seq<byte>)>) {
    r.Some? ==> !Ends(r.value.1)
  }

  /** A number that is too long is cut within, and one that rounds to infinity is refused. */
  lemma NumStuck(n: Number, rest: seq<byte>, depth: nat)
    requires ProperNumber(n) && !NumberFits(n) && Ends(rest)
    ensures Stuck(R.ReadValue(NumberText(n) + rest, depth))
  {
    NumberDocStarts(n, rest);
    R.NumberDispatched(NumberText(n) + rest, depth, R.ReadNumber(NumberText(n) + rest));
    NumberStuck(n, rest);
  }

  lemma {:induction false} ValueStuck(d: Doc, rest: seq<byte>, depth: nat)
    requires Proper(d) && !Fits(d, depth) && (d.NumDoc? ==> Ends(rest))
    ensures Stuck(R.ReadValue(Then(d, rest), depth))
    decreases d, 0
  {
    if d.Group? {
      GroupOpens(d, rest, depth);
      if depth < R.MAX_DEPTH {
        ChildrenStuck(d.children, d.obj, rest, depth + 1);
        ChildrenStart(d.children, d.obj, rest);
        ChildrenSkip(ChildrenThen(d.children, d.obj, rest), depth + 1, d.obj);
      }
    } else {
      NumStuck(d.n, rest, depth);
    }
  }

  lemma {:induction false} ChildrenStuck(cs: seq<Child>, obj: bool, rest: seq<byte>, depth: nat)
    requires cs != [] && forall c :: c in cs ==> ProperChild(c, obj)
    requires exists c :: c in cs && !ChildFits(c, obj, depth)
    ensures R.ReadChildren(ChildrenThen(cs, obj, rest), depth, obj) == None
    decreases cs, 2
  {
    var tail := TailOf(cs, obj, rest);
    assert cs[0] in cs;
    if ChildFits(cs[0], obj, depth) {
      ChildRead(cs[0], obj, tail, depth);
      assert tail[1..] == ChildrenThen(cs[1..], obj, rest);
      ChildrenStuck(cs[1..], obj, rest, depth);
    } else {
      ChildStuck(cs[0], obj, tail, depth);
    }
  }

  /** A child that does not fit leaves nothing a group could go on with. */
  lemma ChildStuck(c: Child, obj: bool, tail: seq<byte>, depth: nat)
    requires ProperChild(c, obj) && !ChildFits(c, obj, depth) && Ends(tail)
    ensures var r := R.ReadChild(ChildThen(c, obj, tail), depth, obj);
            r.Some? ==> r.value.1 != [] && r.value.1[0] != ',' as int && r.value.1[0] != CloseOf(obj)
    decreases c, 1
  {
    var ws := ChildKeyed(c, obj, tail, depth);
    SpaceEnds(c.after, tail);
    ValueStuck(c.value, c.after + tail, depth);
    AfterSpace(ws, Then(c.value, c.after + tail), depth);
  }

  // --- The whole text ---

  /** A document between white space is read as what it means, or refused if the reader has no room for it. */
  lemma DocumentRead(lead: seq<byte>, d: Doc, trail: seq<byte>)
    requires IsSpace(lead) && Proper(d) && IsSpace(trail)
    ensures R.Parse(lead + Then(d, trail)) == if Fits(d, 0) then Some(Meaning(d)) else None
  {
    AfterSpace(lead, Then(d, trail), 0);
    SpaceEnds(trail, []);
    assert trail + [] == trail;
    if Fits(d, 0) {
      ValueRead(d, trail, 0);
      SolidAfter(trail, []);
    } else {
      ValueStuck(d, trail, 0);
    }
  }

  /** A text is that document, between white space. */
  ghost predicate Writes(text: seq<byte>, d: Doc)
    requires Proper(d)
  {
    exists lead, trail :: IsSpace(lead) && IsSpace(trail) && text == lead + Then(d, trail)
  }

  /** The reader takes a text for a value exactly if the text is a document that it has room for and that means it. */
  lemma ReadsExactlyJson(text: seq<byte>, v: R.Json)
    ensures R.Parse(text) == Some(v) <==> exists d :: Proper(d) && Fits(d, 0) && Meaning(d) == v && Writes(text, d)
  {
    if R.Parse(text) == Some(v) {
      var lead, d := ValueFound(text, 0);
      var trail := R.ReadValue(text, 0).value.1;
      var ws := SpaceFound(trail);
      assert ws + [] == ws;
      assert Writes(text, d);
    }
    if d :| Proper(d) && Fits(d, 0) && Meaning(d) == v && Writes(text, d) {
      var lead, trail :| IsSpace(lead) && IsSpace(trail) && text == lead + Then(d, trail);
      DocumentRead(lead, d, trail);
    }
  }
}
