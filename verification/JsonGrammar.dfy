/**
 The texts that the reader of src/ha/json_read.c is meant for: JSON (RFC 8259) as a
 grammar of its own, with what each text means. A number may have leading zeros and
 nothing after its point, as `strtod` takes it.
 */
module JsonGrammar {
  import opened Wrappers
  import opened Utf8
  import opened Powers
  import R = JsonReader
  import Doubles

  // --- Numbers ---

  type digit = x: int | 0 <= x < 10

  datatype Sign = Unsigned | Plus | Minus

  datatype Exponent = Exponent(capital: bool, sign: Sign, digits: seq<digit>)

  datatype Number = Number(minus: bool, whole: seq<digit>, fraction: Option<seq<digit>>, exponent: Option<Exponent>)

  function DigitText(ds: seq<digit>): (s: seq<byte>)
    ensures |s| == |ds|
  {
    if ds == [] then [] else [ds[0] + '0' as int] + DigitText(ds[1..])
  }

  function SignText(sign: Sign): seq<byte> {
    match sign
    case Unsigned => []
    case Plus => ['+' as int]
    case Minus => ['-' as int]
  }

  function ExponentText(e: Option<Exponent>): seq<byte> {
    if e.None? then []
    else [if e.value.capital then 'E' as int else 'e' as int] + (SignText(e.value.sign) + DigitText(e.value.digits))
  }

  function FractionText(f: Option<seq<digit>>): seq<byte> {
    if f.None? then [] else ['.' as int] + DigitText(f.value)
  }

  function UnsignedText(n: Number): seq<byte> {
    DigitText(n.whole) + (FractionText(n.fraction) + ExponentText(n.exponent))
  }

  function NumberText(n: Number): seq<byte> {
    if n.minus then ['-' as int] + UnsignedText(n) else UnsignedText(n)
  }

  /** The point and the exponent are optional; where there is one, so are its digits, but an exponent's are not. */
  predicate ProperNumber(n: Number) {
    n.whole != [] && (n.exponent.Some? ==> n.exponent.value.digits != [])
  }

  /** The number that digits spell. */
  function Whole(ds: seq<digit>): nat {
    if ds == [] then 0 else 10 * Whole(ds[..|ds| - 1]) + ds[|ds| - 1]
  }

  /** The number that digits behind a point spell. */
  function Fraction(ds: seq<digit>): real {
    if ds == [] then 0.0 else (ds[0] as real + Fraction(ds[1..])) / 10.0
  }

  /** A number with its point moved so many places to the right, or to the left: times that power of ten. */
  function Shifted(x: real, e: int): real
    decreases if e < 0 then -e else e
  {
    if e == 0 then x else if e > 0 then 10.0 * Shifted(x, e - 1) else Shifted(x, e + 1) / 10.0
  }

  function ExponentWorth(e: Option<Exponent>): int {
    if e.None? then 0 else if e.value.sign == Minus then -(Whole(e.value.digits) as int) else Whole(e.value.digits)
  }

  /** The digits before the point and those behind it, times the power of ten. */
  function UnsignedWorth(n: Number): real {
    Shifted(Whole(n.whole) as real + if n.fraction.Some? then Fraction(n.fraction.value) else 0.0, ExponentWorth(n.exponent))
  }

  function Worth(n: Number): real {
    if n.minus then -UnsignedWorth(n) else UnsignedWorth(n)
  }

  // --- Strings ---

  datatype HexDigit = HexDigit(value: nat, upper: bool)

  /** One step of a string: a byte as it is, an escape by letter, or one by code unit. */
  datatype Piece =
    | Raw(b: byte)
    | Named(letter: byte)
    | Coded(d0: HexDigit, d1: HexDigit, d2: HexDigit, d3: HexDigit)

  /** The escapes by letter, and what each stands for. */
  const ESCAPES: map<byte, byte> := map[
    '"' as int := 0x22, '\\' as int := 0x5C, '/' as int := 0x2F, 'b' as int := 0x08,
    'f' as int := 0x0C, 'n' as int := 0x0A, 'r' as int := 0x0D, 't' as int := 0x09]

  predicate ProperHex(d: HexDigit) {
    d.value < 16
  }

  function HexText(d: HexDigit): byte
    requires ProperHex(d)
  {
    if d.value < 10 then '0' as int + d.value else (if d.upper then 'A' as int else 'a' as int) + d.value - 10
  }

  predicate ProperPiece(p: Piece) {
    match p
    case Raw(b) => b >= 0x20 && b != '"' as int && b != '\\' as int
    case Named(letter) => letter in ESCAPES
    case Coded(d0, d1, d2, d3) => ProperHex(d0) && ProperHex(d1) && ProperHex(d2) && ProperHex(d3)
  }

  predicate ProperPieces(ps: seq<Piece>) {
    forall i :: 0 <= i < |ps| ==> ProperPiece(ps[i])
  }

  function PieceText(p: Piece): (s: seq<byte>)
    requires ProperPiece(p)
    ensures s != []
  {
    match p
    case Raw(b) => [b]
    case Named(letter) => ['\\' as int, letter]
    case Coded(d0, d1, d2, d3) => ['\\' as int, 'u' as int, HexText(d0), HexText(d1), HexText(d2), HexText(d3)]
  }

  /** The code unit (of UTF-16) that four hex digits name. */
  function Unit(p: Piece): (u: nat)
    requires p.Coded? && ProperPiece(p)
    ensures u < 0x1_0000
  {
    p.d0.value * 4096 + p.d1.value * 256 + p.d2.value * 16 + p.d3.value
  }

  predicate IsHigh(p: Piece) {
    p.Coded? && ProperPiece(p) && 0xD800 <= Unit(p) < 0xDC00
  }

  predicate IsLow(p: Piece) {
    p.Coded? && ProperPiece(p) && 0xDC00 <= Unit(p) < 0xE000
  }

  /** The bytes a string's pieces stand for: two code units that are a surrogate pair together are one character, and
      a half of a pair alone is U+FFFD. */
  function Bytes(ps: seq<Piece>): seq<byte>
    requires ProperPieces(ps)
  {
    if ps == [] then []
    else if IsHigh(ps[0]) && |ps| > 1 && IsLow(ps[1]) then
      Encode(0x1_0000 + (Unit(ps[0]) - 0xD800) * 0x400 + (Unit(ps[1]) - 0xDC00)) + Bytes(ps[2..])
    else
      PieceBytes(ps[0]) + Bytes(ps[1..])
  }

  function PieceBytes(p: Piece): seq<byte>
    requires ProperPiece(p)
  {
    match p
    case Raw(b) => [b]
    case Named(letter) => [ESCAPES[letter]]
    case Coded(_, _, _, _) => Encode(if IsHigh(p) || IsLow(p) then 0xFFFD else Unit(p))
  }

  /** The pieces' text, and `rest` after it. */
  function PiecesThen(ps: seq<Piece>, rest: seq<byte>): seq<byte>
    requires ProperPieces(ps)
  {
    if ps == [] then rest else PieceText(ps[0]) + PiecesThen(ps[1..], rest)
  }

  // --- Values ---

  /** White space. */
  const SPACES: set<byte> := {0x20, 0x09, 0x0A, 0x0D}

  predicate IsSpace(s: seq<byte>) {
    forall i :: 0 <= i < |s| ==> s[i] in SPACES
  }

  /** A value as it is written. A group is an object or an array; `space` is what an empty one holds. */
  datatype Doc =
    | NullDoc
    | BoolDoc(b: bool)
    | NumDoc(n: Number)
    | StrDoc(pieces: seq<Piece>)
    | Group(obj: bool, space: seq<byte>, children: seq<Child>)

  /** A member of an object, with the white space around its parts; or an item of an array, with no key. */
  datatype Child = Child(before: seq<byte>, key: seq<Piece>, colon: seq<byte>, gap: seq<byte>, value: Doc, after: seq<byte>)

  predicate Proper(d: Doc) {
    match d
    case NullDoc => true
    case BoolDoc(_) => true
    case NumDoc(n) => ProperNumber(n)
    case StrDoc(ps) => ProperPieces(ps)
    case Group(obj, space, children) => IsSpace(space) && forall c :: c in children ==> ProperChild(c, obj)
  }

  predicate ProperChild(c: Child, obj: bool) {
    && IsSpace(c.before) && IsSpace(c.colon) && IsSpace(c.gap) && IsSpace(c.after)
    && ProperPieces(c.key) && (!obj ==> c.key == [])
    && Proper(c.value)
  }

  function Quoted(ps: seq<Piece>, rest: seq<byte>): seq<byte>
    requires ProperPieces(ps)
  {
    ['"' as int] + PiecesThen(ps, ['"' as int] + rest)
  }

  /** The value's text, and `rest` after it. */
  function Then(d: Doc, rest: seq<byte>): seq<byte>
    requires Proper(d)
    decreases d, 0
  {
    match d
    case NullDoc => NULL + rest
    case BoolDoc(b) => (if b then TRUE else FALSE) + rest
    case NumDoc(n) => NumberText(n) + rest
    case StrDoc(ps) => Quoted(ps, rest)
    case Group(obj, space, children) =>
      [if obj then '{' as int else '[' as int]
      + if children == [] then space + [CloseOf(obj)] + rest else ChildrenThen(children, obj, rest)
  }

  function CloseOf(obj: bool): byte {
    if obj then '}' as int else ']' as int
  }

  /** Children with commas between, the closing bracket, and `rest` after it. */
  function ChildrenThen(cs: seq<Child>, obj: bool, rest: seq<byte>): seq<byte>
    requires cs != [] && forall c :: c in cs ==> ProperChild(c, obj)
    decreases cs, 1
  {
    assert cs[0] in cs;
    ChildThen(cs[0], obj, if |cs| == 1 then [CloseOf(obj)] + rest else [',' as int] + ChildrenThen(cs[1..], obj, rest))
  }

  function ChildThen(c: Child, obj: bool, rest: seq<byte>): seq<byte>
    requires ProperChild(c, obj)
    decreases c, 1
  {
    var value := c.gap + Then(c.value, c.after + rest);
    c.before + if obj then Quoted(c.key, c.colon + ([':' as int] + value)) else value
  }

  /** What a value means. */
  function Meaning(d: Doc): R.Json
    requires Proper(d)
    decreases d, 0
  {
    match d
    case NullDoc => R.JNull
    case BoolDoc(b) => R.JBool(b)
    case NumDoc(n) => R.JNum(Doubles.Nearest(Worth(n)))
    case StrDoc(ps) => R.JStr(Bytes(ps))
    case Group(obj, _, children) =>
      var ms := Members(children, obj);
      if obj then R.JObj(ms) else R.JArr(seq(|ms|, i requires 0 <= i < |ms| => ms[i].value))
  }

  function Members(cs: seq<Child>, obj: bool): (ms: seq<R.JMember>)
    requires forall c :: c in cs ==> ProperChild(c, obj)
    ensures |ms| == |cs|
    decreases cs, 1
  {
    if cs == [] then []
    else
      assert cs[0] in cs;
      [ChildMeaning(cs[0], obj)] + Members(cs[1..], obj)
  }

  function ChildMeaning(c: Child, obj: bool): R.JMember
    requires ProperChild(c, obj)
    decreases c, 1
  {
    R.JMember(Bytes(c.key), Meaning(c.value))
  }

  // --- What the reader has room for ---

  /** No number is longer than the reader's buffer or rounds to infinity, and no group is nested too deep. */
  predicate Fits(d: Doc, depth: nat)
    requires Proper(d)
    decreases d, 0
  {
    match d
    case NumDoc(n) => NumberFits(n)
    case Group(obj, _, children) => depth < R.MAX_DEPTH && forall c :: c in children ==> ChildFits(c, obj, depth + 1)
    case _ => true
  }

  predicate NumberFits(n: Number) {
    |NumberText(n)| <= R.NUMBER_CAP && R.Finite(Worth(n))
  }

  predicate ChildFits(c: Child, obj: bool, depth: nat)
    requires ProperChild(c, obj)
    decreases c, 1
  {
    Fits(c.value, depth)
  }
}
