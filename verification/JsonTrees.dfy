/**
 What a caller of the writer of web/json.c means by its calls: a tree, the calls
 that print it, the text they leave, and which call sequences print a tree at all.
 */
module JsonTrees {
  import opened Wrappers
  import opened Utf8
  import opened JsonWriter

  datatype Tree =
    | TNull
    | TBool(b: bool)
    | TInt(n: longlong)
    | TStr(s: cstring)
    | TArr(items: seq<Tree>)
    | TObj(members: seq<Member>)

  datatype Member = Member(key: cstring, value: Tree)

  /** How many containers deep a tree goes. */
  function Depth(t: Tree): nat
    decreases t, 0
  {
    match t
    case TArr(items) => 1 + ItemsDepth(items)
    case TObj(members) => 1 + MembersDepth(members)
    case _ => 0
  }

  function ItemsDepth(items: seq<Tree>): nat {
    if items == [] then 0 else Max(Depth(items[0]), ItemsDepth(items[1..]))
  }

  function MembersDepth(members: seq<Member>): nat {
    if members == [] then 0 else Max(Depth(members[0].value), MembersDepth(members[1..]))
  }

  function Max(a: nat, b: nat): nat {
    if a < b then b else a
  }

  /** The calls that print a tree. */
  function Calls(t: Tree): seq<Call>
    decreases t, 0
  {
    match t
    case TNull => [CNull]
    case TBool(b) => [CBool(b)]
    case TInt(n) => [CInt(n)]
    case TStr(s) => [CStr(s)]
    case TArr(items) => [CArr] + ItemCalls(items) + [CEndArr]
    case TObj(members) => [CObj] + MemberCalls(members) + [CEndObj]
  }

  function ItemCalls(items: seq<Tree>): seq<Call> {
    if items == [] then [] else Calls(items[0]) + ItemCalls(items[1..])
  }

  function MemberCalls(members: seq<Member>): seq<Call> {
    if members == [] then [] else [CKey(members[0].key)] + Calls(members[0].value) + MemberCalls(members[1..])
  }

  /** A tree's text: no white space, commas between. */
  function Print(t: Tree): seq<byte>
    decreases t, 0
  {
    match t
    case TNull => NULL
    case TBool(b) => if b then TRUE else FALSE
    case TInt(n) => IntText(n)
    case TStr(s) => Quoted(s)
    case TArr(items) => ['[' as int] + PrintItems(items, true) + [']' as int]
    case TObj(members) => ['{' as int] + PrintMembers(members, true) + ['}' as int]
  }

  function Comma(first: bool): seq<byte> {
    if first then [] else [',' as int]
  }

  function PrintItems(items: seq<Tree>, first: bool): seq<byte> {
    if items == [] then [] else Comma(first) + Print(items[0]) + PrintItems(items[1..], false)
  }

  function PrintMembers(members: seq<Member>, first: bool): seq<byte> {
    if members == [] then []
    else Comma(first) + (Quoted(members[0].key) + [':' as int]) + Print(members[0].value) + PrintMembers(members[1..], false)
  }

  // --- What the calls of a tree do to the writer ---

  lemma {:induction false} RunConcat(st: State, a: seq<Call>, b: seq<Call>)
    requires st.Ok()
    ensures Run(st, a + b) == Run(Run(st, a), b)
    decreases |a|
  {
    if a == [] {
      assert a + b == b;
    } else {
      assert (a + b)[1..] == a[1..] + b;
      RunConcat(Step(st, a[0]), a[1..], b);
    }
  }

  lemma RunOne(st: State, c: Call)
    requires st.Ok()
    ensures Run(st, [c]) == Step(st, c)
  {
    assert Run(st, [c]) == Run(Step(st, c), []);
  }

  /** Once the writer has given up it stays that way. */
  lemma {:induction false} OomStays(st: State, calls: seq<Call>)
    requires st.Ok() && st.oom
    ensures Run(st, calls).oom
    decreases |calls|
  {
    if calls != [] {
      OomStays(Step(st, calls[0]), calls[1..]);
    }
  }

  /** A level that has taken more text: its flag falls once there is any value. */
  function Filled(st: State, text: seq<byte>, any: bool): (r: State)
    requires st.Ok()
    ensures r.Ok()
  {
    var last := |st.firsts| - 1;
    st.(text := st.text + text, firsts := st.firsts[last := st.firsts[last] && !any])
  }

  function Last(st: State): bool
    requires st.Ok()
  {
    st.firsts[|st.firsts| - 1]
  }

  lemma FilledTwice(st: State, a: seq<byte>, b: seq<byte>, any: bool)
    requires st.Ok()
    ensures Filled(Filled(st, a, true), b, any) == Filled(st, a + b, true)
  {
    assert st.text + a + b == st.text + (a + b);
  }

  /** A value where no key waits. */
  lemma ValueFills(st: State, text: seq<byte>)
    requires st.Ok() && !st.oom && !st.afterKey
    ensures Put(Sep(st), text) == Filled(st, Comma(Last(st)) + text, true)
  {
    assert st.text + Comma(Last(st)) + text == st.text + (Comma(Last(st)) + text);
    assert st.text + [] == st.text;
  }

  /** A key and then its value. */
  lemma MemberFills(st: State, key: cstring, text: seq<byte>)
    requires st.Ok() && !st.oom && !st.afterKey
    ensures Put(Sep(Step(st, CKey(key))), text) == Filled(st, Comma(Last(st)) + (Quoted(key) + [':' as int]) + text, true)
  {
    ValueFills(st, Quoted(key) + [':' as int]);
    var all := Comma(Last(st)) + (Quoted(key) + [':' as int]) + text;
    assert st.text + (Comma(Last(st)) + (Quoted(key) + [':' as int])) + text == st.text + all;
  }

  /** Opening a container, filling it and closing it is one value where it was opened. */
  lemma BracketFills(st: State, c: byte, cl: byte, text: seq<byte>, any: bool)
    requires st.Ok() && !st.oom && |st.firsts| < MAX_DEPTH
    ensures Close(Filled(Open(st, c), text, any), cl) == Put(Sep(st), [c] + text + [cl])
  {
    var o := Open(st, c);
    var f := Filled(o, text, any);
    assert f.firsts[..|f.firsts| - 1] == Sep(st).firsts;
    assert Sep(st).text + [c] + text + [cl] == Sep(st).text + ([c] + text + [cl]);
  }

  /** A container's calls, from what the calls between its brackets do. */
  lemma BracketCalls(st: State, o: Call, mid: seq<Call>, e: Call, depth: nat, text: seq<byte>, any: bool)
    requires st.Ok() && !st.oom && ((o.CArr? && e.CEndArr?) || (o.CObj? && e.CEndObj?))
    requires |st.firsts| < MAX_DEPTH ==>
               var b := Step(st, o);
               && (Run(b, mid).oom <==> |b.firsts| + depth > MAX_DEPTH)
               && (|b.firsts| + depth <= MAX_DEPTH ==> Run(b, mid) == Filled(b, text, any))
    ensures Run(st, [o] + mid + [e]).oom <==> |st.firsts| + 1 + depth > MAX_DEPTH
    ensures |st.firsts| + 1 + depth <= MAX_DEPTH ==>
              Run(st, [o] + mid + [e]) ==
              Put(Sep(st), [if o.CArr? then '[' as int else '{' as int] + text + [if o.CArr? then ']' as int else '}' as int])
  {
    RunConcat(st, [o] + mid, [e]);
    RunConcat(st, [o], mid);
    RunOne(st, o);
    var filled := Run(Step(st, o), mid);
    RunOne(filled, e);
    if |st.firsts| == MAX_DEPTH {
      OomStays(Step(st, o), mid);
    } else if !filled.oom {
      BracketFills(st, if o.CArr? then '[' as int else '{' as int, if o.CArr? then ']' as int else '}' as int, text, any);
    }
  }

  /** A tree's calls append exactly its text, in any context that is shallow enough, and only there. */
  lemma {:induction false} CallsPrint(st: State, t: Tree)
    requires st.Ok() && !st.oom
    ensures Run(st, Calls(t)).oom <==> |st.firsts| + Depth(t) > MAX_DEPTH
    ensures |st.firsts| + Depth(t) <= MAX_DEPTH ==> Run(st, Calls(t)) == Put(Sep(st), Print(t))
    decreases t, 0
  {
    match t {
      case TArr(items) =>
        if |st.firsts| < MAX_DEPTH {
          ItemCallsPrint(Step(st, CArr), items);
        }
        BracketCalls(st, CArr, ItemCalls(items), CEndArr, ItemsDepth(items), PrintItems(items, true), items != []);
      case TObj(members) =>
        if |st.firsts| < MAX_DEPTH {
          MemberCallsPrint(Step(st, CObj), members);
        }
        BracketCalls(st, CObj, MemberCalls(members), CEndObj, MembersDepth(members), PrintMembers(members, true), members != []);
      case TNull => RunOne(st, CNull);
      case TBool(b) => RunOne(st, CBool(b));
      case TInt(n) => RunOne(st, CInt(n));
      case TStr(s) => RunOne(st, CStr(s));
    }
  }

  lemma {:induction false} ItemCallsPrint(st: State, items: seq<Tree>)
    requires st.Ok() && !st.oom && !st.afterKey
    ensures Run(st, ItemCalls(items)).oom <==> |st.firsts| + ItemsDepth(items) > MAX_DEPTH
    ensures |st.firsts| + ItemsDepth(items) <= MAX_DEPTH ==>
              Run(st, ItemCalls(items)) == Filled(st, PrintItems(items, Last(st)), items != [])
    decreases items, 1
  {
    if items == [] {
      assert st.text + [] == st.text;
    } else {
      RunConcat(st, Calls(items[0]), ItemCalls(items[1..]));
      CallsPrint(st, items[0]);
      var next := Run(st, Calls(items[0]));
      if next.oom {
        OomStays(next, ItemCalls(items[1..]));
      } else {
        ValueFills(st, Print(items[0]));
        ItemCallsPrint(next, items[1..]);
        FilledTwice(st, Comma(Last(st)) + Print(items[0]), PrintItems(items[1..], false), items[1..] != []);
      }
    }
  }

  lemma {:induction false} MemberCallsPrint(st: State, members: seq<Member>)
    requires st.Ok() && !st.oom && !st.afterKey
    ensures Run(st, MemberCalls(members)).oom <==> |st.firsts| + MembersDepth(members) > MAX_DEPTH
    ensures |st.firsts| + MembersDepth(members) <= MAX_DEPTH ==>
              Run(st, MemberCalls(members)) == Filled(st, PrintMembers(members, Last(st)), members != [])
    decreases members, 1
  {
    if members == [] {
      assert st.text + [] == st.text;
    } else {
      var m := members[0];
      RunConcat(st, [CKey(m.key)] + Calls(m.value), MemberCalls(members[1..]));
      RunConcat(st, [CKey(m.key)], Calls(m.value));
      RunOne(st, CKey(m.key));
      var keyed := Step(st, CKey(m.key));
      CallsPrint(keyed, m.value);
      var next := Run(keyed, Calls(m.value));
      if next.oom {
        OomStays(next, MemberCalls(members[1..]));
      } else {
        MemberFills(st, m.key, Print(m.value));
        MemberCallsPrint(next, members[1..]);
        FilledTwice(st, Comma(Last(st)) + (Quoted(m.key) + [':' as int]) + Print(m.value),
                    PrintMembers(members[1..], false), members[1..] != []);
      }
    }
  }

  // --- Which call sequences print a tree ---

  /** A container being built. */
  datatype Frame =
    | InArr(items: seq<Tree>)
    | InObj(members: seq<Member>)
    | AtValue(members: seq<Member>, key: cstring)

  datatype Builder = Building(stack: seq<Frame>, done: Option<Tree>) | Misused

  const START := Building([], None)

  /** A container's frame once it has taken a value. */
  function Grown(f: Frame, t: Tree): Frame
    requires !f.InObj?
  {
    if f.InArr? then InArr(f.items + [t]) else InObj(f.members + [Member(f.key, t)])
  }

  /** A value arrives where the innermost container has got to. */
  function Deliver(b: Builder, t: Tree): Builder {
    if b.Misused? then Misused
    else if b.stack == [] then if b.done == None then Building([], Some(t)) else Misused
    else if Top(b).InObj? then Misused
    else Push(Outer(b), Grown(Top(b), t))
  }

  function Top(b: Builder): Frame
    requires b.Building? && b.stack != []
  {
    b.stack[|b.stack| - 1]
  }

  function Outer(b: Builder): Builder
    requires b.Building? && b.stack != []
  {
    Building(b.stack[..|b.stack| - 1], b.done)
  }

  function Push(b: Builder, f: Frame): Builder {
    if b.Misused? then Misused else Building(b.stack + [f], b.done)
  }

  function Accept(b: Builder, c: Call): Builder {
    if b.Misused? then Misused
    else
      match c
      case CObj => Push(b, InObj([]))
      case CArr => Push(b, InArr([]))
      case CStr(s) => Deliver(b, TStr(s))
      case CInt(n) => Deliver(b, TInt(n))
      case CBool(v) => Deliver(b, TBool(v))
      case CNull => Deliver(b, TNull)
      case CKey(key) =>
        if b.stack != [] && Top(b).InObj? then Push(Outer(b), AtValue(Top(b).members, key)) else Misused
      case CEndObj =>
        if b.stack != [] && Top(b).InObj? then Deliver(Outer(b), TObj(Top(b).members)) else Misused
      case CEndArr =>
        if b.stack != [] && Top(b).InArr? then Deliver(Outer(b), TArr(Top(b).items)) else Misused
  }

  function Feed(b: Builder, calls: seq<Call>): Builder
    decreases |calls|
  {
    if calls == [] then b else Feed(Accept(b, calls[0]), calls[1..])
  }

  /** The calls nest as JSON does: each bracket closed by its own kind, in an object a key before every value
      and nowhere else, and one value in all. */
  predicate Balanced(calls: seq<Call>) {
    var b := Feed(START, calls);
    b.Building? && b.stack == [] && b.done.Some?
  }

  function Printed(calls: seq<Call>): Tree
    requires Balanced(calls)
  {
    Feed(START, calls).done.value
  }

  /** The calls a partly built tree has taken. */
  function FrameCalls(f: Frame): seq<Call> {
    match f
    case InArr(items) => [CArr] + ItemCalls(items)
    case InObj(members) => [CObj] + MemberCalls(members)
    case AtValue(members, key) => [CObj] + MemberCalls(members) + [CKey(key)]
  }

  function Taken(b: Builder): seq<Call>
    requires b.Building?
    decreases |b.stack|
  {
    if b.stack == [] then (if b.done.Some? then Calls(b.done.value) else [])
    else Taken(Outer(b)) + FrameCalls(Top(b))
  }

  lemma PushTakes(b: Builder, f: Frame)
    requires b.Building?
    ensures var p := Push(b, f);
            p.Building? && p.stack != [] && Top(p) == f && Outer(p) == b && Taken(p) == Taken(b) + FrameCalls(f)
  {
    assert Push(b, f).stack[..|b.stack|] == b.stack;
  }

  lemma {:induction false} ItemCallsAppend(items: seq<Tree>, t: Tree)
    ensures ItemCalls(items + [t]) == ItemCalls(items) + Calls(t)
  {
    if items == [] {
      assert items + [t] == [t];
      assert ItemCalls([t]) == Calls(t) + ItemCalls([]);
    } else {
      assert (items + [t])[1..] == items[1..] + [t];
      ItemCallsAppend(items[1..], t);
    }
  }

  lemma {:induction false} MemberCallsAppend(members: seq<Member>, m: Member)
    ensures MemberCalls(members + [m]) == MemberCalls(members) + ([CKey(m.key)] + Calls(m.value))
  {
    if members == [] {
      assert members + [m] == [m];
      assert MemberCalls([m]) == [CKey(m.key)] + Calls(m.value) + MemberCalls([]);
    } else {
      assert (members + [m])[1..] == members[1..] + [m];
      MemberCallsAppend(members[1..], m);
    }
  }

  lemma GrownTakes(f: Frame, t: Tree)
    requires !f.InObj?
    ensures FrameCalls(Grown(f, t)) == FrameCalls(f) + Calls(t)
  {
    var c := Calls(t);
    if f.InArr? {
      ItemCallsAppend(f.items, t);
      assert [CArr] + (ItemCalls(f.items) + c) == [CArr] + ItemCalls(f.items) + c;
    } else {
      MemberCallsAppend(f.members, Member(f.key, t));
      assert [CObj] + (MemberCalls(f.members) + ([CKey(f.key)] + c)) == [CObj] + MemberCalls(f.members) + [CKey(f.key)] + c;
    }
  }

  /** A delivered value's calls are accounted for. */
  lemma DeliverTakes(b: Builder, t: Tree)
    requires b.Building? && Deliver(b, t).Building?
    ensures Taken(Deliver(b, t)) == Taken(b) + Calls(t)
  {
    if b.stack != [] {
      var f := Top(b);
      PushTakes(Outer(b), Grown(f, t));
      GrownTakes(f, t);
      assert Taken(Outer(b)) + (FrameCalls(f) + Calls(t)) == Taken(Outer(b)) + FrameCalls(f) + Calls(t);
    }
  }

  lemma AcceptTakes(b: Builder, c: Call)
    requires b.Building? && Accept(b, c).Building?
    ensures Taken(Accept(b, c)) == Taken(b) + [c]
  {
    match c {
      case CObj => PushTakes(b, InObj([]));
      case CArr => PushTakes(b, InArr([]));
      case CKey(key) => AcceptKeyTakes(b, key);
      case CEndObj => AcceptEndTakes(b, c);
      case CEndArr => AcceptEndTakes(b, c);
      case CStr(s) => DeliverTakes(b, TStr(s));
      case CInt(n) => DeliverTakes(b, TInt(n));
      case CBool(v) => DeliverTakes(b, TBool(v));
      case CNull => DeliverTakes(b, TNull);
    }
  }

  lemma AcceptKeyTakes(b: Builder, key: cstring)
    requires b.Building? && Accept(b, CKey(key)).Building?
    ensures Taken(Accept(b, CKey(key))) == Taken(b) + [CKey(key)]
  {
    PushTakes(Outer(b), AtValue(Top(b).members, key));
    assert FrameCalls(AtValue(Top(b).members, key)) == FrameCalls(Top(b)) + [CKey(key)];
  }

  lemma AcceptEndTakes(b: Builder, c: Call)
    requires (c.CEndObj? || c.CEndArr?) && b.Building? && Accept(b, c).Building?
    ensures Taken(Accept(b, c)) == Taken(b) + [c]
  {
    var t := if c.CEndObj? then TObj(Top(b).members) else TArr(Top(b).items);
    DeliverTakes(Outer(b), t);
    assert Calls(t) == FrameCalls(Top(b)) + [c];
  }

  lemma {:induction false} MisusedStays(calls: seq<Call>)
    ensures Feed(Misused, calls) == Misused
    decreases |calls|
  {
    if calls != [] {
      MisusedStays(calls[1..]);
    }
  }

  lemma {:induction false} FeedTakes(b: Builder, calls: seq<Call>)
    requires b.Building? && Feed(b, calls).Building?
    ensures Taken(Feed(b, calls)) == Taken(b) + calls
    decreases |calls|
  {
    if calls != [] {
      var c, rest := calls[0], calls[1..];
      var a := Accept(b, c);
      if a.Misused? {
        MisusedStays(rest);
      } else {
        FeedTakes(a, rest);
        AcceptTakes(b, c);
        OneMore(Taken(b), calls);
      }
    }
  }

  lemma OneMore(done: seq<Call>, calls: seq<Call>)
    requires calls != []
    ensures done + [calls[0]] + calls[1..] == done + calls
  {
  }

  lemma {:induction false} FeedConcat(b: Builder, x: seq<Call>, y: seq<Call>)
    ensures Feed(b, x + y) == Feed(Feed(b, x), y)
    decreases |x|
  {
    if x == [] {
      assert x + y == y;
    } else {
      assert (x + y)[1..] == x[1..] + y;
      FeedConcat(Accept(b, x[0]), x[1..], y);
    }
  }

  lemma {:induction false} FeedTree(b: Builder, t: Tree)
    ensures Feed(b, Calls(t)) == Deliver(b, t)
    decreases t, 3
  {
    if b.Misused? {
      MisusedStays(Calls(t));
    } else {
      match t {
        case TArr(items) => FeedArray(b, t);
        case TObj(members) => FeedObject(b, t);
        case _ =>
          assert Feed(b, Calls(t)) == Accept(b, Calls(t)[0]);
      }
    }
  }

  lemma {:induction false} FeedArray(b: Builder, t: Tree)
    requires b.Building? && t.TArr?
    ensures Feed(b, Calls(t)) == Deliver(b, t)
    decreases t, 2
  {
    var items := t.items;
    FeedConcat(b, [CArr] + ItemCalls(items), [CEndArr]);
    FeedConcat(b, [CArr], ItemCalls(items));
    FeedItems(b, [], items);
    assert Feed(b, [CArr]) == Accept(b, CArr);
    var filled := Building(b.stack + [InArr([] + items)], b.done);
    assert filled.stack[..|b.stack|] == b.stack && [] + items == items;
    assert Feed(filled, [CEndArr]) == Accept(filled, CEndArr);
  }

  lemma {:induction false} FeedObject(b: Builder, t: Tree)
    requires b.Building? && t.TObj?
    ensures Feed(b, Calls(t)) == Deliver(b, t)
    decreases t, 2
  {
    var members := t.members;
    FeedConcat(b, [CObj] + MemberCalls(members), [CEndObj]);
    FeedConcat(b, [CObj], MemberCalls(members));
    FeedMembers(b, [], members);
    assert Feed(b, [CObj]) == Accept(b, CObj);
    var filled := Building(b.stack + [InObj([] + members)], b.done);
    assert filled.stack[..|b.stack|] == b.stack && [] + members == members;
    assert Feed(filled, [CEndObj]) == Accept(filled, CEndObj);
  }

  lemma {:induction false} FeedItems(b: Builder, done: seq<Tree>, items: seq<Tree>)
    requires b.Building?
    ensures Feed(Push(b, InArr(done)), ItemCalls(items)) == Push(b, InArr(done + items))
    decreases items, 1
  {
    if items == [] {
      assert done + items == done;
    } else {
      FeedConcat(Push(b, InArr(done)), Calls(items[0]), ItemCalls(items[1..]));
      FeedTree(Push(b, InArr(done)), items[0]);
      assert Push(b, InArr(done)).stack[..|b.stack|] == b.stack;
      FeedItems(b, done + [items[0]], items[1..]);
      assert done + [items[0]] + items[1..] == done + items;
    }
  }

  lemma {:induction false} FeedMembers(b: Builder, done: seq<Member>, members: seq<Member>)
    requires b.Building?
    ensures Feed(Push(b, InObj(done)), MemberCalls(members)) == Push(b, InObj(done + members))
    decreases members, 1
  {
    if members == [] {
      assert done + members == done;
    } else {
      var m := members[0];
      FeedConcat(Push(b, InObj(done)), [CKey(m.key)] + Calls(m.value), MemberCalls(members[1..]));
      FeedMember(b, done, m);
      FeedMembers(b, done + [m], members[1..]);
      assert done + [m] + members[1..] == done + members;
    }
  }

  lemma {:induction false} FeedMember(b: Builder, done: seq<Member>, m: Member)
    requires b.Building?
    ensures Feed(Push(b, InObj(done)), [CKey(m.key)] + Calls(m.value)) == Push(b, InObj(done + [m]))
    decreases m, 4
  {
    var at := Push(b, AtValue(done, m.key));
    assert Push(b, InObj(done)).stack[..|b.stack|] == b.stack && at.stack[..|b.stack|] == b.stack;
    FeedConcat(Push(b, InObj(done)), [CKey(m.key)], Calls(m.value));
    assert Feed(Push(b, InObj(done)), [CKey(m.key)]) == Accept(Push(b, InObj(done)), CKey(m.key)) == at;
    FeedTree(at, m.value);
  }

  /** The balanced sequences are exactly the call sequences of trees, and each prints one tree. */
  lemma BalancedIsTree(calls: seq<Call>, t: Tree)
    ensures calls == Calls(t) <==> Balanced(calls) && Printed(calls) == t
  {
    if Balanced(calls) {
      FeedTakes(START, calls);
      assert calls == Taken(START) + calls;
    }
    FeedTree(START, t);
  }
}
