/**
 The reader's strings are those of the grammar: every piece stands for what the grammar
 says, and nothing else is taken for a string.
 */
module JsonStrings {
  import opened Wrappers
  import opened Utf8
  import R = JsonReader
  import opened JsonGrammar

  // --- The grammar's strings are read ---

  lemma RawStep(b: byte, t: seq<byte>)
    requires ProperPiece(Raw(b))
    ensures R.ReadString([b] + t) == R.Prepend([b], R.ReadString(t))
  {
    assert ([b] + t)[1..] == t;
  }

  /** The reader's escapes by letter are the grammar's. */
  lemma EscapesAgree(letter: byte)
    ensures letter in ESCAPES <==> R.SimpleEscape(letter).Some?
    ensures letter in ESCAPES ==> R.SimpleEscape(letter) == Some(ESCAPES[letter]) && letter != 'u' as int
  {
  }

  lemma NamedStep(letter: byte, t: seq<byte>)
    requires letter in ESCAPES
    ensures R.ReadString(['\\' as int, letter] + t) == R.Prepend([ESCAPES[letter]], R.ReadString(t))
  {
    EscapesAgree(letter);
    assert (['\\' as int, letter] + t)[2..] == t;
  }

  /** Four hex digits of either case are the code unit they name. */
  lemma HexRead(p: Piece, t: seq<byte>)
    requires p.Coded? && ProperPiece(p)
    ensures R.Hex4(HexOf(p) + t) == Unit(p)
  {
    HexDigitRead(p.d0);
    HexDigitRead(p.d1);
    HexDigitRead(p.d2);
    HexDigitRead(p.d3);
  }

  lemma HexDigitRead(d: HexDigit)
    requires ProperHex(d)
    ensures R.HexVal(HexText(d)) == d.value
  {
  }

  function HexOf(p: Piece): (s: seq<byte>)
    requires p.Coded? && ProperPiece(p)
    ensures |s| == 4
  {
    [HexText(p.d0), HexText(p.d1), HexText(p.d2), HexText(p.d3)]
  }

  /** The other half of a pair comes next. */
  predicate StartsLow(t: seq<byte>) {
    |t| >= 6 && t[0] == '\\' as int && t[1] == 'u' as int && 0xDC00 <= R.Hex4(t[2..]) < 0xE000
  }

  lemma LoneEscape(p: Piece, t: seq<byte>)
    requires p.Coded? && ProperPiece(p) && !(IsHigh(p) && StartsLow(t))
    ensures R.UnicodeEscape(HexOf(p) + t) == Some((if IsHigh(p) || IsLow(p) then 0xFFFD else Unit(p), 4))
  {
    var s := HexOf(p) + t;
    HexRead(p, t);
    if |t| >= 6 {
      assert s[4] == t[0] && s[5] == t[1] && s[6..] == t[2..];
    }
  }

  lemma PairEscape(p: Piece, q: Piece, t: seq<byte>)
    requires IsHigh(p) && IsLow(q)
    ensures R.UnicodeEscape(HexOf(p) + (PieceText(q) + t)) == Some((PairOf(p, q), 10))
  {
    var s := HexOf(p) + (PieceText(q) + t);
    HexRead(p, PieceText(q) + t);
    HexRead(q, t);
    assert s[4] == '\\' as int && s[5] == 'u' as int && s[6..] == HexOf(q) + t;
  }

  function PairOf(p: Piece, q: Piece): scalar
    requires IsHigh(p) && IsLow(q)
  {
    0x1_0000 + (Unit(p) - 0xD800) * 0x400 + (Unit(q) - 0xDC00)
  }

  /** A `\u` escape that reads as `u`. */
  lemma CodedStep(h: seq<byte>, t: seq<byte>, u: (scalar, nat))
    requires R.UnicodeEscape(h + t) == Some(u) && u.1 == |h|
    ensures R.ReadString((['\\' as int, 'u' as int] + h) + t) == R.Prepend(Encode(u.0), R.ReadString(t))
  {
    var s := (['\\' as int, 'u' as int] + h) + t;
    assert s[2..] == h + t && s[2 + |h|..] == t;
  }

  lemma LoneStep(p: Piece, t: seq<byte>)
    requires p.Coded? && ProperPiece(p) && !(IsHigh(p) && StartsLow(t))
    ensures R.ReadString(PieceText(p) + t) == R.Prepend(PieceBytes(p), R.ReadString(t))
  {
    LoneEscape(p, t);
    CodedStep(HexOf(p), t, R.UnicodeEscape(HexOf(p) + t).value);
    assert ['\\' as int, 'u' as int] + HexOf(p) == PieceText(p);
  }

  lemma PairStep(p: Piece, q: Piece, t: seq<byte>)
    requires IsHigh(p) && IsLow(q)
    ensures R.ReadString(PieceText(p) + (PieceText(q) + t)) == R.Prepend(Encode(PairOf(p, q)), R.ReadString(t))
  {
    PairEscape(p, q, t);
    var h := HexOf(p) + PieceText(q);
    assert h + t == HexOf(p) + (PieceText(q) + t);
    CodedStep(h, t, (PairOf(p, q), 10));
    assert (['\\' as int, 'u' as int] + h) + t == PieceText(p) + (PieceText(q) + t);
  }

  /** Only a low half's escape looks like one. */
  lemma LowAhead(ps: seq<Piece>, rest: seq<byte>)
    requires ProperPieces(ps)
    ensures StartsLow(PiecesThen(ps, ['"' as int] + rest)) <==> ps != [] && IsLow(ps[0])
  {
    if ps != [] {
      var t := PiecesThen(ps[1..], ['"' as int] + rest);
      match ps[0] {
        case Raw(b) =>
        case Named(letter) => EscapesAgree(letter);
        case Coded(_, _, _, _) =>
          HexRead(ps[0], t);
          assert (PieceText(ps[0]) + t)[2..] == HexOf(ps[0]) + t;
      }
    }
  }

  /** A string of the grammar, from after its opening quote, is read as the bytes it stands for. */
  lemma {:induction false} PiecesRead(ps: seq<Piece>, rest: seq<byte>)
    requires ProperPieces(ps)
    ensures R.ReadString(PiecesThen(ps, ['"' as int] + rest)) == Some((Bytes(ps), rest))
    decreases |ps|
  {
    var tail := ['"' as int] + rest;
    if ps == [] {
      assert tail[1..] == rest;
    } else if IsHigh(ps[0]) && |ps| > 1 && IsLow(ps[1]) {
      PiecesRead(ps[2..], rest);
      assert ps[1..][1..] == ps[2..];
      PairStep(ps[0], ps[1], PiecesThen(ps[2..], tail));
    } else {
      PiecesRead(ps[1..], rest);
      LowAhead(ps[1..], rest);
      OneStep(ps[0], PiecesThen(ps[1..], tail));
    }
  }

  lemma OneStep(p: Piece, t: seq<byte>)
    requires ProperPiece(p) && !(IsHigh(p) && StartsLow(t))
    ensures R.ReadString(PieceText(p) + t) == R.Prepend(PieceBytes(p), R.ReadString(t))
  {
    match p {
      case Raw(b) => RawStep(b, t);
      case Named(letter) => NamedStep(letter, t);
      case Coded(_, _, _, _) => LoneStep(p, t);
    }
  }

  // --- And nothing else is ---

  /** The hex digit that a byte is. */
  function DigitOf(c: byte): (d: HexDigit)
    requires R.HexVal(c) >= 0
    ensures ProperHex(d) && HexText(d) == c
  {
    HexDigit(R.HexVal(c), 'A' as int <= c <= 'F' as int)
  }

  function CodedOf(s: seq<byte>): (p: Piece)
    requires |s| >= 4 && R.Hex4(s) >= 0
    ensures p.Coded? && ProperPiece(p)
  {
    Coded(DigitOf(s[0]), DigitOf(s[1]), DigitOf(s[2]), DigitOf(s[3]))
  }

  lemma CodedSpells(s: seq<byte>)
    requires |s| >= 6 && s[0] == '\\' as int && s[1] == 'u' as int && R.Hex4(s[2..]) >= 0
    ensures s == PieceText(CodedOf(s[2..])) + s[6..]
  {
    var h := s[2..];
    assert h[0] == s[2] && h[1] == s[3] && h[2] == s[4] && h[3] == s[5];
  }

  lemma PiecesFirst(p: Piece, ps: seq<Piece>, rest: seq<byte>)
    requires ProperPiece(p) && ProperPieces(ps)
    ensures ProperPieces([p] + ps) && PiecesThen([p] + ps, rest) == PieceText(p) + PiecesThen(ps, rest)
  {
    assert ([p] + ps)[1..] == ps;
  }

  /** The pieces a read string begins with, one or the two of a pair, and what the string goes on with. */
  lemma FirstPiece(s: seq<byte>) returns (ps: seq<Piece>, t: seq<byte>)
    requires R.ReadString(s).Some? && s[0] != '"' as int
    ensures ProperPieces(ps) && 1 <= |ps| <= 2 && |t| < |s|
    ensures s == PieceText(ps[0]) + (if |ps| == 2 then PieceText(ps[1]) + t else t)
    ensures R.ReadString(t).Some? && R.ReadString(t).value.1 == R.ReadString(s).value.1
  {
    if s[0] != '\\' as int {
      ps, t := [Raw(s[0])], s[1..];
    } else if s[1] != 'u' as int {
      EscapesAgree(s[1]);
      ps, t := [Named(s[1])], s[2..];
    } else {
      var u := R.UnicodeEscape(s[2..]).value;
      t := s[2 + u.1..];
      ps := EscapeFound(s, u);
    }
  }

  lemma EscapeFound(s: seq<byte>, u: (scalar, nat)) returns (ps: seq<Piece>)
    requires |s| >= 2 && s[0] == '\\' as int && s[1] == 'u' as int && R.UnicodeEscape(s[2..]) == Some(u)
    ensures ProperPieces(ps) && 1 <= |ps| <= 2
    ensures s == PieceText(ps[0]) + (if |ps| == 2 then PieceText(ps[1]) + s[2 + u.1..] else s[2 + u.1..])
  {
    CodedSpells(s);
    if u.1 == 4 {
      ps := [CodedOf(s[2..])];
    } else {
      assert s[2..][6..] == s[8..] && s[6..][2..] == s[8..] && s[6..][6..] == s[12..];
      assert s[2..][4] == s[6] && s[2..][5] == s[7];
      CodedSpells(s[6..]);
      ps := [CodedOf(s[2..]), CodedOf(s[8..])];
    }
  }

  /** Whatever is read as a string is spelled by pieces, and stands for what they stand for. */
  lemma {:induction false} OnlyPiecesRead(s: seq<byte>) returns (ps: seq<Piece>)
    requires R.ReadString(s).Some?
    ensures ProperPieces(ps) && s == PiecesThen(ps, ['"' as int] + R.ReadString(s).value.1)
    ensures R.ReadString(s).value.0 == Bytes(ps)
    decreases |s|
  {
    ps := SpellingOf(s);
    PiecesRead(ps, R.ReadString(s).value.1);
  }

  lemma {:induction false} SpellingOf(s: seq<byte>) returns (ps: seq<Piece>)
    requires R.ReadString(s).Some?
    ensures ProperPieces(ps) && s == PiecesThen(ps, ['"' as int] + R.ReadString(s).value.1)
    decreases |s|
  {
    if s[0] == '"' as int {
      return [];
    }
    var first, t := FirstPiece(s);
    ps := SpellingOf(t);
    var tail := ['"' as int] + R.ReadString(t).value.1;
    if |first| == 2 {
      PiecesFirst(first[1], ps, tail);
      ps := [first[1]] + ps;
    }
    PiecesFirst(first[0], ps, tail);
    ps := [first[0]] + ps;
  }
}
