/**
 The JSON writer of web/json.c. `State` and the functions over it say what each call
 appends to the text, and when a comma comes first; `Writer` is the object with its
 buffer, its stack of levels and an error flag for memory that runs out.
 */
module JsonWriter {
  import opened Wrappers
  import opened Utf8

  const MAX_DEPTH: nat := 16

  /** A `long long`. */
  type longlong = x: int | -0x8000_0000_0000_0000 <= x < 0x8000_0000_0000_0000

  /** A NUL-terminated string's bytes. */
  type cstring = s: seq<byte> | 0 !in s

  /** `firsts[d]`: nothing written at nesting level `d` yet; the last entry is the current level. */
  datatype State = State(text: seq<byte>, firsts: seq<bool>, afterKey: bool, oom: bool) {
    predicate Ok() {
      1 <= |firsts| <= MAX_DEPTH
    }
  }

  const INIT := State([], [true], false, false)

  function Put(st: State, s: seq<byte>): State {
    if st.oom then st else st.(text := st.text + s)
  }

  function Sep(st: State): (r: State)
    requires st.Ok()
    ensures r.Ok()
  {
    if st.afterKey then st.(afterKey := false)
    else (if st.firsts[|st.firsts| - 1] then st else Put(st, [',' as int])).(firsts := st.firsts[|st.firsts| - 1 := false])
  }

  function Open(st: State, c: byte): (r: State)
    requires st.Ok()
    ensures r.Ok()
  {
    var p := Put(Sep(st), [c]);
    if |p.firsts| < MAX_DEPTH then p.(firsts := p.firsts + [true]) else p.(oom := true)
  }

  function Close(st: State, c: byte): (r: State)
    requires st.Ok()
    ensures r.Ok()
  {
    Put(if |st.firsts| > 1 then st.(firsts := st.firsts[..|st.firsts| - 1]) else st, [c])
  }

  function HexDigit(d: nat): byte
    requires d < 16
  {
    if d < 10 then '0' as int + d else 'a' as int + d - 10
  }

  /** The text of one ASCII byte inside a JSON string. */
  function EscapeAscii(c: byte): seq<byte>
    requires c < 0x80
  {
    if c == '"' as int || c == '\\' as int then ['\\' as int, c]
    else if c >= 0x20 then [c]
    else if c == 10 then ['\\' as int, 'n' as int]
    else if c == 13 then ['\\' as int, 'r' as int]
    else if c == 9 then ['\\' as int, 't' as int]
    else ['\\' as int, 'u' as int, '0' as int, '0' as int, HexDigit(c / 16), HexDigit(c % 16)]
  }

  /** The text of a whole string between its quotes. */
  function Escaped(v: seq<byte>): seq<byte>
    decreases |v|
  {
    if v == [] then []
    else if v[0] < 0x80 then EscapeAscii(v[0]) + Escaped(v[1..])
    else if SeqLen(v) == 0 then REPLACEMENT + Escaped(v[1..])
    else v[..SeqLen(v)] + Escaped(v[SeqLen(v)..])
  }

  function Quoted(v: seq<byte>): seq<byte> {
    ['"' as int] + Escaped(v) + ['"' as int]
  }

  /** What is written and what is still to come are the opening quote and the whole string escaped. */
  predicate StillToPut(v: seq<byte>, p: nat, written: seq<byte>) {
    p <= |v| && ['"' as int] + Escaped(v) == written + Escaped(v[p..])
  }

  lemma PiecePut(v: seq<byte>, p: nat, written: seq<byte>, piece: seq<byte>, n: nat)
    requires StillToPut(v, p, written) && p + n <= |v| && Escaped(v[p..]) == piece + Escaped(v[p + n..])
    ensures StillToPut(v, p + n, written + piece)
  {
    assert written + (piece + Escaped(v[p + n..])) == written + piece + Escaped(v[p + n..]);
  }

  lemma NonePut(v: seq<byte>)
    ensures StillToPut(v, 0, ['"' as int])
  {
    assert v[0..] == v;
  }

  lemma AllPut(v: seq<byte>, p: nat, written: seq<byte>)
    requires StillToPut(v, p, written) && p == |v|
    ensures written + ['"' as int] == Quoted(v)
  {
    assert v[p..] == [] && Escaped([]) == [] && written + [] == written;
  }

  /** A number's decimal digits, most significant first. */
  function Digits(n: nat): (s: seq<byte>)
    ensures |s| >= 1
    ensures forall i :: 0 <= i < |s| ==> '0' as int <= s[i] <= '9' as int
  {
    if n < 10 then ['0' as int + n] else Digits(n / 10) + ['0' as int + n % 10]
  }

  /** What "%lld" prints. */
  function IntText(n: int): seq<byte> {
    if n < 0 then ['-' as int] + Digits(-n) else Digits(n)
  }

  /** The writer's calls, one constructor each. */
  datatype Call =
    | CObj | CEndObj | CArr | CEndArr
    | CKey(key: cstring)
    | CStr(str: cstring)
    | CInt(n: longlong)
    | CBool(b: bool)
    | CNull
  {
    predicate IsScalar() {
      CStr? || CInt? || CBool? || CNull?
    }
  }

  /** The text of a value that is not a container. */
  function ScalarText(c: Call): seq<byte>
    requires c.IsScalar()
  {
    match c
    case CStr(str) => Quoted(str)
    case CInt(n) => IntText(n)
    case CBool(b) => if b then TRUE else FALSE
    case CNull => NULL
  }

  function Step(st: State, c: Call): (r: State)
    requires st.Ok()
    ensures r.Ok()
  {
    match c
    case CObj => Open(st, '{' as int)
    case CEndObj => Close(st, '}' as int)
    case CArr => Open(st, '[' as int)
    case CEndArr => Close(st, ']' as int)
    case CKey(key) => Put(Sep(st), Quoted(key) + [':' as int]).(afterKey := true)
    case _ => Put(Sep(st), ScalarText(c))
  }

  function Run(st: State, calls: seq<Call>): (r: State)
    requires st.Ok()
    ensures r.Ok()
    decreases |calls|
  {
    if calls == [] then st else Run(Step(st, calls[0]), calls[1..])
  }

  /** The writer's object after a call whose meaning is `want`: the bookkeeping is always right, and the
      text too unless an allocation failed, which `oom` then says. */
  predicate Tracks(now: State, want: State) {
    && now.firsts == want.firsts && now.afterKey == want.afterKey
    && (want.oom ==> now.oom)
    && (!now.oom ==> now == want)
  }

  /** An object that has kept up so far keeps up with one more call, so it keeps up with a whole run. */
  lemma TracksStep(next: State, now: State, want: State, c: Call)
    requires want.Ok() && Tracks(now, want) && Tracks(next, Step(now, c))
    ensures Tracks(next, Step(want, c))
  {
  }

  /** Putting two pieces in turn is putting both at once. */
  lemma TracksPut(now: State, mid: State, start: State, a: seq<byte>, b: seq<byte>)
    requires Tracks(mid, Put(start, a)) && Tracks(now, Put(mid, b))
    ensures Tracks(now, Put(start, a + b))
  {
    assert start.text + a + b == start.text + (a + b);
  }

  /** A piece put where the object had kept up. */
  lemma TracksOne(now: State, mid: State, start: State, a: seq<byte>)
    requires Tracks(mid, start) && Tracks(now, Put(mid, a))
    ensures Tracks(now, Put(start, a))
  {
  }

  /** The branches of `put_escaped`'s loop: what stands for the byte or sequence at `p`, and its length. */
  method EscapeNext(v: cstring, p: nat) returns (piece: seq<byte>, n: nat)
    requires p < |v|
    ensures 1 <= n <= |v| - p
    ensures Escaped(v[p..]) == piece + Escaped(v[p + n..])
  {
    var c := At(v, p);
    piece, n := [], 1;
    if c == '"' as int || c == '\\' as int {
      piece := ['\\' as int, c];
    } else if c < 0x20 {
      if c == 10 {
        piece := ['\\' as int, 'n' as int];
      } else if c == 13 {
        piece := ['\\' as int, 'r' as int];
      } else if c == 9 {
        piece := ['\\' as int, 't' as int];
      } else {
        piece := ['\\' as int, 'u' as int, '0' as int, '0' as int, HexDigit(c / 16), HexDigit(c % 16)];
      }
    } else if c < 0x80 {
      piece := [c];
    } else {
      n := Utf8Seq(v[p..]);
      if n == 0 {
        piece, n := REPLACEMENT, 1;
      } else {
        piece := v[p..][..n];
      }
    }
    assert v[p..][n..] == v[p + n..];
  }

  class Writer {
    var s: array<byte>
    var len: nat
    var oom: bool
    var depth: nat
    var first: array<bool>
    var afterKey: bool

    ghost predicate Valid()
      reads this, s, first
    {
      && first.Length == MAX_DEPTH && depth < MAX_DEPTH
      && (s.Length == 0 ==> len == 0)
      && (s.Length > 0 ==> len < s.Length && s[len] == 0)
    }

    ghost function View(): (st: State)
      requires Valid()
      reads this, s, first
      ensures st.Ok()
    {
      State(s[..len], first[..depth + 1], afterKey, oom)
    }

    /** `rpod_json_init`. */
    constructor ()
      ensures Valid() && fresh(s) && fresh(first) && View() == INIT
    {
      s := new byte[0];
      len, oom, depth, afterKey := 0, false, 0, false;
      first := new bool[MAX_DEPTH](_ => false);
      new;
      first[0] := true;
    }

    /** Room for so many bytes more and the NUL: the buffer is doubled until they fit; an allocation may fail. */
    method MakeRoom(n: nat) returns (ok: bool)
      requires Valid()
      modifies this`s
      ensures Valid() && (s == old(s) || fresh(s)) && (ok ==> len + n + 1 <= s.Length)
      ensures s[..len] == old(s[..len])
    {
      if len + n + 1 <= s.Length {
        return true;
      }
      var cap := if s.Length == 0 then 1024 else s.Length;
      while len + n + 1 > cap
        invariant cap > 0
        decreases len + n + 1 - cap
      {
        cap := cap * 2;
      }
      if * { // realloc fails
        return false;
      }
      s := new byte[cap](i requires 0 <= i reads this, s => if i < s.Length then s[i] else 0);
      return true;
    }

    /** `put`. */
    method PutBytes(b: seq<byte>)
      requires Valid()
      modifies this`s, this`len, this`oom, s
      ensures Valid() && (s == old(s) || fresh(s))
      ensures Tracks(View(), Put(old(View()), b))
    {
      if oom {
        return;
      }
      var ok := MakeRoom(|b|);
      if !ok {
        oom := true;
        return;
      }
      Append(b);
    }

    method Append(b: seq<byte>)
      requires Valid() && len + |b| + 1 <= s.Length
      modifies this`len, s
      ensures Valid() && s[..len] == old(s[..len]) + b
    {
      forall i | 0 <= i < |b| {
        s[len + i] := b[i];
      }
      s[len + |b|] := 0;
      len := len + |b|;
    }

    /** `sep`: a comma before any value but the first of its level or one that follows its key. */
    method Separate()
      requires Valid()
      modifies this, s, first
      ensures Valid() && first == old(first) && (s == old(s) || fresh(s))
      ensures Tracks(View(), Sep(old(View())))
    {
      if afterKey {
        afterKey := false;
        return;
      }
      if !first[depth] {
        PutBytes([',' as int]);
      }
      first[depth] := false;
      assert first[..depth + 1] == old(first[..depth + 1])[depth := false];
    }

    /** `open_`: too deep to keep track of is refused as an error. */
    method OpenWith(c: byte)
      requires Valid()
      modifies this, s, first
      ensures Valid() && first == old(first) && (s == old(s) || fresh(s))
      ensures Tracks(View(), Open(old(View()), c))
    {
      Separate();
      PutBytes([c]);
      if depth + 1 < MAX_DEPTH {
        depth := depth + 1;
        first[depth] := true;
        assert first[..depth + 1] == first[..depth] + [true];
      } else {
        oom := true;
      }
    }

    /** `close_`. */
    method CloseWith(c: byte)
      requires Valid()
      modifies this, s, first
      ensures Valid() && first == old(first) && (s == old(s) || fresh(s))
      ensures Tracks(View(), Close(old(View()), c))
    {
      if depth > 0 {
        depth := depth - 1;
        assert first[..depth + 1] == first[..depth + 2][..depth + 1];
      }
      PutBytes([c]);
    }

    method PutNext(v: cstring, p: nat, ghost start: State, ghost written: seq<byte>) returns (n: nat, ghost more: seq<byte>)
      requires Valid() && p < |v| && StillToPut(v, p, written) && Tracks(View(), Put(start, written))
      modifies this`s, this`len, this`oom, s
      ensures Valid() && (s == old(s) || fresh(s)) && 1 <= n <= |v| - p
      ensures StillToPut(v, p + n, more) && Tracks(View(), Put(start, more))
    {
      var piece;
      piece, n := EscapeNext(v, p);
      ghost var before := View();
      PutBytes(piece);
      TracksPut(View(), before, start, written, piece);
      PiecePut(v, p, written, piece, n);
      more := written + piece;
    }

    /** `put_escaped`: the string between quotes, escaped, its stray bytes replaced. */
    method PutEscaped(v: cstring)
      requires Valid()
      modifies this`s, this`len, this`oom, s
      ensures Valid() && (s == old(s) || fresh(s))
      ensures Tracks(View(), Put(old(View()), Quoted(v)))
    {
      ghost var start := View();
      PutBytes(['"' as int]);
      ghost var written: seq<byte> := ['"' as int];
      var p := 0;
      NonePut(v);
      while At(v, p) != 0
        invariant 0 <= p <= |v|
        invariant Valid() && (s == old(s) || fresh(s))
        invariant StillToPut(v, p, written)
        invariant Tracks(View(), Put(start, written))
        decreases |v| - p
      {
        var n;
        n, written := PutNext(v, p, start, written);
        p := p + n;
      }
      AllPut(v, p, written);
      ghost var before := View();
      PutBytes(['"' as int]);
      TracksPut(View(), before, start, written, ['"' as int]);
    }

    method Obj()
      requires Valid()
      modifies this, s, first
      ensures Valid() && first == old(first) && (s == old(s) || fresh(s))
      ensures Tracks(View(), Step(old(View()), CObj))
    {
      OpenWith('{' as int);
    }

    method EndObj()
      requires Valid()
      modifies this, s, first
      ensures Valid() && first == old(first) && (s == old(s) || fresh(s))
      ensures Tracks(View(), Step(old(View()), CEndObj))
    {
      CloseWith('}' as int);
    }

    method Arr()
      requires Valid()
      modifies this, s, first
      ensures Valid() && first == old(first) && (s == old(s) || fresh(s))
      ensures Tracks(View(), Step(old(View()), CArr))
    {
      OpenWith('[' as int);
    }

    method EndArr()
      requires Valid()
      modifies this, s, first
      ensures Valid() && first == old(first) && (s == old(s) || fresh(s))
      ensures Tracks(View(), Step(old(View()), CEndArr))
    {
      CloseWith(']' as int);
    }

    method Key(key: cstring)
      requires Valid()
      modifies this, s, first
      ensures Valid() && first == old(first) && (s == old(s) || fresh(s))
      ensures Tracks(View(), Step(old(View()), CKey(key)))
    {
      ghost var start := Sep(View());
      Separate();
      ghost var mid := View();
      PutEscaped(key);
      TracksOne(View(), mid, start, Quoted(key));
      mid := View();
      PutBytes([':' as int]);
      TracksPut(View(), mid, start, Quoted(key), [':' as int]);
      afterKey := true;
    }

    method Str(v: cstring)
      requires Valid()
      modifies this, s, first
      ensures Valid() && first == old(first) && (s == old(s) || fresh(s))
      ensures Tracks(View(), Step(old(View()), CStr(v)))
    {
      Separate();
      PutEscaped(v);
    }

    method Int(n: longlong)
      requires Valid()
      modifies this, s, first
      ensures Valid() && first == old(first) && (s == old(s) || fresh(s))
      ensures Tracks(View(), Step(old(View()), CInt(n)))
    {
      var b := IntText(n);
      Separate();
      PutBytes(b);
    }

    method Bool(v: bool)
      requires Valid()
      modifies this, s, first
      ensures Valid() && first == old(first) && (s == old(s) || fresh(s))
      ensures Tracks(View(), Step(old(View()), CBool(v)))
    {
      Separate();
      PutBytes(if v then TRUE else FALSE);
    }

    method Null()
      requires Valid()
      modifies this, s, first
      ensures Valid() && first == old(first) && (s == old(s) || fresh(s))
      ensures Tracks(View(), Step(old(View()), CNull))
    {
      Separate();
      PutBytes(NULL);
    }
  }
}
