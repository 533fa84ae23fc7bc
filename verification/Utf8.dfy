/**
 UTF-8 as both ends of the JSON code see it: the validator of web/json.c and the
 encoder of src/ha/json_read.c. RFC 3629, section 4.
 */
module Utf8 {
  import opened Wrappers

  /** Every code point UTF-8 may carry: no surrogates. */
  type scalar = x: int | 0 <= x < 0xD800 || 0xE000 <= x <= 0x10FFFF

  predicate IsCont(b: byte) {
    0x80 <= b < 0xC0
  }

  /** How many bytes a lead byte announces, or 0 for a byte that starts nothing. */
  function Announced(c: byte): (n: nat)
    ensures n <= 4
  {
    if c < 0x80 then 1
    else if 0xC0 <= c < 0xE0 then 2
    else if 0xE0 <= c < 0xF0 then 3
    else if 0xF0 <= c < 0xF8 then 4
    else 0
  }

  /** The payload bits of a lead byte. */
  function LeadBits(c: byte): nat {
    if c < 0x80 then c
    else if 0xC0 <= c < 0xE0 then c - 0xC0
    else if 0xE0 <= c < 0xF0 then c - 0xE0
    else if 0xF0 <= c < 0xF8 then c - 0xF0
    else 0
  }

  /** The number spelled by the lead byte and the continuation bytes before index `i`. */
  function Bits(s: seq<byte>, i: nat): nat
    requires 1 <= i <= |s|
  {
    if i == 1 then LeadBits(s[0]) else Bits(s, i - 1) * 64 + s[i - 1] % 64
  }

  /** The smallest code point a sequence of `n` bytes may spell: anything less is overlong. */
  function MinCp(n: nat): nat {
    if n == 2 then 0x80 else if n == 3 then 0x800 else if n == 4 then 0x10000 else 0
  }

  /** Length of the well-formed sequence that `s` starts with, or 0 if it starts with none. */
  function SeqLen(s: seq<byte>): (n: nat)
    requires s != []
    ensures n <= |s| && n <= 4
  {
    var n := Announced(s[0]);
    if n == 0 || n > |s| || exists i :: 1 <= i < n && !IsCont(s[i]) then 0
    else if n > 1 && (Bits(s, n) < MinCp(n) || Bits(s, n) > 0x10FFFF || 0xD800 <= Bits(s, n) <= 0xDFFF) then 0
    else n
  }

  /** `utf8_seq`: the loop over the continuation bytes, stopping at the NUL if there is one. */
  method Utf8Seq(s: seq<byte>) returns (r: nat)
    requires s != []
    ensures r == SeqLen(s)
  {
    var c := At(s, 0);
    if c < 0x80 {
      return 1;
    }
    var n: nat, cp: nat;
    if 0xC0 <= c < 0xE0 {
      n, cp := 2, c - 0xC0;
    } else if 0xE0 <= c < 0xF0 {
      n, cp := 3, c - 0xE0;
    } else if 0xF0 <= c < 0xF8 {
      n, cp := 4, c - 0xF0;
    } else {
      return 0;
    }
    var i := 1;
    while i < n
      invariant 1 <= i <= n && i <= |s|
      invariant forall k :: 1 <= k < i ==> IsCont(s[k])
      invariant cp == Bits(s, i)
    {
      if !IsCont(At(s, i)) {
        return 0;
      }
      cp := cp * 64 + At(s, i) % 64;
      i := i + 1;
    }
    if cp < MinCp(n) || cp > 0x10FFFF || 0xD800 <= cp <= 0xDFFF {
      return 0;
    }
    return n;
  }

  /** `put_utf8`: the bytes of one code point. */
  function Encode(cp: scalar): (s: seq<byte>)
    ensures 1 <= |s| <= 4
  {
    if cp < 0x80 then [cp]
    else if cp < 0x800 then [0xC0 + cp / 64, 0x80 + cp % 64]
    else if cp < 0x10000 then [0xE0 + cp / 4096, 0x80 + cp / 64 % 64, 0x80 + cp % 64]
    else [0xF0 + cp / 262144, 0x80 + cp / 4096 % 64, 0x80 + cp / 64 % 64, 0x80 + cp % 64]
  }

  /** A code point from its six-bit digits, and the digits back from it. */
  lemma SixBitDigits(a: nat, b: nat, c: nat, d: nat)
    requires b < 64 && c < 64 && d < 64
    ensures var cp := ((a * 64 + b) * 64 + c) * 64 + d;
            cp % 64 == d && cp / 64 % 64 == c && cp / 4096 % 64 == b && cp / 262144 == a &&
            cp / 64 == (a * 64 + b) * 64 + c && cp / 4096 == a * 64 + b
  {
  }

  /** The six-bit digits that `put_utf8` shifts out. */
  lemma SixBitShifts(cp: nat)
    requires cp <= 0x10FFFF
    ensures var b, c, d := cp / 4096 % 64, cp / 64 % 64, cp % 64;
            cp / 64 * 64 + d == cp && (cp / 4096 * 64 + c) * 64 + d == cp &&
            ((cp / 262144 * 64 + b) * 64 + c) * 64 + d == cp
  {
    assert cp / 4096 == cp / 64 / 64 && cp / 262144 == cp / 4096 / 64;
  }

  /** The code point spelled by the bytes of a sequence, whatever it is. */
  function Spelled(s: seq<byte>, n: nat): nat
    requires 1 <= n <= 4 && n <= |s|
  {
    var l := LeadBits(s[0]);
    if n == 1 then l
    else if n == 2 then l * 64 + s[1] % 64
    else if n == 3 then (l * 64 + s[1] % 64) * 64 + s[2] % 64
    else ((l * 64 + s[1] % 64) * 64 + s[2] % 64) * 64 + s[3] % 64
  }

  /** The loop's running value is the spelled code point. */
  lemma BitsSpelled(s: seq<byte>, n: nat)
    requires 1 <= n <= 4 && n <= |s|
    ensures Bits(s, n) == Spelled(s, n)
  {
    assert Bits(s, 1) == LeadBits(s[0]);
    if n >= 2 { assert Bits(s, 2) == Bits(s, 1) * 64 + s[1] % 64; }
    if n >= 3 { assert Bits(s, 3) == Bits(s, 2) * 64 + s[2] % 64; }
    if n == 4 { assert Bits(s, 4) == Bits(s, 3) * 64 + s[3] % 64; }
  }

  /** The bytes `put_utf8` writes are a lead byte and continuation bytes spelling `cp`. */
  lemma EncodeShape(cp: scalar)
    ensures var e := Encode(cp);
            Announced(e[0]) == |e| && Spelled(e, |e|) == cp &&
            forall i :: 1 <= i < |e| ==> IsCont(e[i])
  {
    SixBitShifts(cp);
    if cp < 0x80 {
    } else if cp < 0x800 {
      DigitsShape(Encode(cp), 2, cp / 64, 0, 0, cp % 64);
    } else if cp < 0x10000 {
      DigitsShape(Encode(cp), 3, cp / 4096, 0, cp / 64 % 64, cp % 64);
    } else {
      DigitsShape(Encode(cp), 4, cp / 262144, cp / 4096 % 64, cp / 64 % 64, cp % 64);
    }
  }

  /** `n` bytes made of the lead byte's bits and of six-bit digits. */
  predicate HasDigits(s: seq<byte>, n: nat, l: nat, b: nat, c: nat, d: nat)
    requires |s| >= n
  {
    if n == 2 then l < 32 && s[0] == 0xC0 + l && s[1] == 0x80 + d
    else if n == 3 then l < 16 && s[0] == 0xE0 + l && s[1] == 0x80 + c && s[2] == 0x80 + d
    else n == 4 && l < 8 && s[0] == 0xF0 + l && s[1] == 0x80 + b && s[2] == 0x80 + c && s[3] == 0x80 + d
  }

  lemma DigitsShape(s: seq<byte>, n: nat, l: nat, b: nat, c: nat, d: nat)
    requires |s| >= n && b < 64 && c < 64 && d < 64 && HasDigits(s, n, l, b, c, d)
    ensures Announced(s[0]) == n && forall i :: 1 <= i < n ==> IsCont(s[i])
    ensures Spelled(s, n) == if n == 2 then l * 64 + d else if n == 3 then (l * 64 + c) * 64 + d else ((l * 64 + b) * 64 + c) * 64 + d
  {
  }

  /** What `put_utf8` writes, `utf8_seq` accepts in full, and it spells the same code point. */
  lemma EncodeAccepted(cp: scalar, rest: seq<byte>)
    ensures SeqLen(Encode(cp) + rest) == |Encode(cp)|
    ensures Bits(Encode(cp) + rest, |Encode(cp)|) == cp
  {
    var e := Encode(cp);
    var s := e + rest;
    assert forall i :: 0 <= i < |e| ==> s[i] == e[i];
    EncodeShape(cp);
    BitsSpelled(s, |e|);
    assert Spelled(s, |e|) == Spelled(e, |e|);
    assert MinCp(|e|) <= cp || |e| == 1;
  }

  /** The encoding of a code point from its digits. */
  lemma EncodeDigits(cp: scalar, n: nat, l: nat, b: nat, c: nat, d: nat)
    requires 2 <= n <= 4 && b < 64 && c < 64 && d < 64 && MinCp(n) <= cp
    requires if n == 2 then l < 32 && b == 0 && cp == l * 64 + d
             else if n == 3 then l < 16 && b == 0 && cp == (l * 64 + c) * 64 + d
             else l < 8 && cp == ((l * 64 + b) * 64 + c) * 64 + d
    ensures |Encode(cp)| == n && HasDigits(Encode(cp), n, l, b, c, d)
  {
    if n == 2 {
      SixBitDigits(0, 0, l, d);
    } else if n == 3 {
      SixBitDigits(0, l, c, d);
    } else {
      SixBitDigits(l, b, c, d);
    }
  }

  lemma SameDigits(s: seq<byte>, e: seq<byte>, n: nat, l: nat, b: nat, c: nat, d: nat)
    requires |e| == n <= |s| && HasDigits(s, n, l, b, c, d) && HasDigits(e, n, l, b, c, d)
    ensures s[..n] == e
  {
  }

  lemma ShapeHasDigits(s: seq<byte>, n: nat) returns (l: nat, b: nat, c: nat, d: nat)
    requires 2 <= n <= |s| && Announced(s[0]) == n && forall i :: 1 <= i < n ==> IsCont(s[i])
    ensures HasDigits(s, n, l, b, c, d) && b < 64 && c < 64 && d < 64 && (n < 4 ==> b == 0)
    ensures Spelled(s, n) == if n == 2 then l * 64 + d else if n == 3 then (l * 64 + c) * 64 + d else ((l * 64 + b) * 64 + c) * 64 + d
  {
    assert IsCont(s[n - 1]) && IsCont(s[1]) && (n > 2 ==> IsCont(s[n - 2]));
    l, d := LeadBits(s[0]), s[n - 1] - 0x80;
    c := if n > 2 then s[n - 2] - 0x80 else 0;
    b := if n > 3 then s[1] - 0x80 else 0;
    DigitsShape(s, n, l, b, c, d);
  }

  /** A lead byte and continuation bytes spelling a scalar that needs that many are its encoding. */
  lemma ShapeIsEncoded(s: seq<byte>, n: nat, cp: scalar)
    requires 1 <= n <= |s| && Announced(s[0]) == n && cp == Spelled(s, n) && MinCp(n) <= cp
    requires forall i :: 1 <= i < n ==> IsCont(s[i])
    ensures s[..n] == Encode(cp)
  {
    if n > 1 {
      var l, b, c, d := ShapeHasDigits(s, n);
      EncodeDigits(cp, n, l, b, c, d);
      SameDigits(s, Encode(cp), n, l, b, c, d);
    }
  }

  /** Whatever `utf8_seq` accepts is what `put_utf8` writes for the code point it spells. */
  lemma AcceptedIsEncoded(s: seq<byte>)
    requires s != [] && SeqLen(s) > 0
    ensures var cp := Bits(s, SeqLen(s));
            (0 <= cp < 0xD800 || 0xE000 <= cp <= 0x10FFFF) && s[..SeqLen(s)] == Encode(cp)
  {
    var n := SeqLen(s);
    BitsSpelled(s, n);
    ShapeIsEncoded(s, n, Bits(s, n));
  }

  /** A sequence is accepted exactly when it starts with the encoding of some scalar value. */
  lemma AcceptsExactlyScalars(s: seq<byte>)
    requires s != []
    ensures SeqLen(s) > 0 <==> exists cp: scalar :: Encode(cp) <= s
  {
    if SeqLen(s) > 0 {
      AcceptedIsEncoded(s);
      assert Encode(Bits(s, SeqLen(s))) <= s;
    }
    if cp: scalar :| Encode(cp) <= s {
      EncodeAccepted(cp, s[|Encode(cp)|..]);
      assert Encode(cp) + s[|Encode(cp)|..] == s;
    }
  }

  /** The whole text is well-formed. */
  predicate Valid(s: seq<byte>) {
    s == [] || (SeqLen(s) > 0 && Valid(s[SeqLen(s)..]))
  }

  /** `rpod_utf8_valid`, over a NUL-terminated string. */
  method Utf8Valid(s: seq<byte>) returns (ok: bool)
    requires 0 !in s
    ensures ok == Valid(s)
  {
    var p := 0;
    while At(s, p) != 0
      invariant p <= |s| && Valid(s) == Valid(s[p..])
      decreases |s| - p
    {
      var n := Utf8Seq(s[p..]);
      if n == 0 {
        return false;
      }
      assert s[p..][n..] == s[p + n..];
      p := p + n;
    }
    return true;
  }

  /** An accepted sequence stays accepted whatever follows. */
  lemma SeqLenPrefix(a: seq<byte>, b: seq<byte>)
    requires a != [] && SeqLen(a) > 0
    ensures SeqLen(a + b) == SeqLen(a)
  {
    AcceptedIsEncoded(a);
    var n := SeqLen(a);
    EncodeAccepted(Bits(a, n), a[n..] + b);
    assert Encode(Bits(a, n)) + (a[n..] + b) == a + b;
  }

  lemma {:induction false} ValidConcat(a: seq<byte>, b: seq<byte>)
    requires Valid(a) && Valid(b)
    ensures Valid(a + b)
    decreases |a|
  {
    if a == [] {
      assert a + b == b;
    } else {
      var n := SeqLen(a);
      SeqLenPrefix(a, b);
      ValidConcat(a[n..], b);
      assert (a + b)[n..] == a[n..] + b;
    }
  }

  lemma ValidEncode(cp: scalar)
    ensures Valid(Encode(cp))
  {
    EncodeAccepted(cp, []);
    assert Encode(cp) + [] == Encode(cp);
    assert Encode(cp)[|Encode(cp)|..] == [];
  }

  /** A run of plain ASCII is well-formed. */
  lemma {:induction false} ValidAscii(s: seq<byte>)
    requires forall i :: 0 <= i < |s| ==> s[i] < 0x80
    ensures Valid(s)
  {
    if s != [] {
      ValidAscii(s[1..]);
    }
  }

  /** U+FFFD, which stands in for a stray byte. */
  const REPLACEMENT: seq<byte> := [0xEF, 0xBF, 0xBD]

  /** What a string becomes once every byte that starts no sequence is replaced. */
  function Sanitize(s: seq<byte>): seq<byte>
    decreases |s|
  {
    if s == [] then []
    else if SeqLen(s) == 0 then REPLACEMENT + Sanitize(s[1..])
    else s[..SeqLen(s)] + Sanitize(s[SeqLen(s)..])
  }

  lemma {:induction false} SanitizedIsValid(s: seq<byte>)
    ensures Valid(Sanitize(s))
    decreases |s|
  {
    if s != [] {
      var n := SeqLen(s);
      if n == 0 {
        SanitizedIsValid(s[1..]);
        assert REPLACEMENT == Encode(0xFFFD);
        ValidEncode(0xFFFD);
        ValidConcat(REPLACEMENT, Sanitize(s[1..]));
      } else {
        SanitizedIsValid(s[n..]);
        AcceptedIsEncoded(s);
        ValidEncode(Bits(s, n));
        ValidConcat(s[..n], Sanitize(s[n..]));
      }
    }
  }

  lemma {:induction false} SanitizedIsSame(s: seq<byte>)
    ensures Sanitize(s) == s <==> Valid(s)
    decreases |s|
  {
    if s != [] {
      var n := SeqLen(s);
      if n == 0 {
        assert REPLACEMENT == Encode(0xFFFD);
        EncodeAccepted(0xFFFD, Sanitize(s[1..]));
      } else {
        SanitizedIsSame(s[n..]);
        SameTail(s, n, Sanitize(s[n..]));
      }
    }
  }

  /** The replaced string is always well-formed, and well-formed strings come through unchanged. */
  lemma SanitizeValid(s: seq<byte>)
    ensures Valid(Sanitize(s))
    ensures Sanitize(s) == s <==> Valid(s)
  {
    SanitizedIsValid(s);
    SanitizedIsSame(s);
  }
}
