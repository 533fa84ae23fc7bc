/** The result shapes and sequence basics the other modules share. */
module Wrappers {
  datatype Option<+T> = None | Some(value: T)

  type byte = x: int | 0 <= x < 256

  /** The byte at `i` of a NUL-terminated text: past the end there is the NUL. */
  function At(s: seq<byte>, i: nat): byte {
    if i < |s| then s[i] else 0
  }

  // --- Sequences ---

  lemma SameTail<T>(s: seq<T>, n: nat, tail: seq<T>)
    requires n <= |s|
    ensures s[..n] + tail == s <==> tail == s[n..]
  {
    assert s[..n] + s[n..] == s;
    if s[..n] + tail == s {
      assert (s[..n] + tail)[n..] == tail;
    }
  }

  lemma CutCut<T>(s: seq<T>, n: nat, k: nat)
    requires n <= k <= |s|
    ensures s[..n] + s[n..k] == s[..k] && s[..k][n..] == s[n..][..k - n]
  {
  }

  lemma SliceOf<T>(s: seq<T>, p: nat, end: nat)
    requires p <= end <= |s|
    ensures s[p..][..end - p] == s[p..end] && s[p..][end - p..] == s[end..]
  {
  }

  lemma FrontSlice<T>(s: seq<T>, n: nat, p: nat, end: nat)
    requires p <= end <= n <= |s|
    ensures s[..n][p..end] == s[p..end]
  {
  }

  /** One more of the first, and so one less of the second. */
  lemma Mixed<T>(a: seq<T>, b: seq<T>, i: nat)
    requires i < |a| == |b|
    ensures a[..i + 1] + b[i + 1..] == (a[..i] + b[i..])[i := a[i]]
    ensures (a[..i] + b[i..])[i] == b[i]
  {
  }

  lemma Associative<T>(a: seq<T>, b: seq<T>, c: seq<T>)
    ensures a + b + c == a + (b + c)
  {
  }

  /** The words of JSON (RFC 8259, section 3). */
  const TRUE: seq<byte> := ['t' as int, 'r' as int, 'u' as int, 'e' as int]
  const FALSE: seq<byte> := ['f' as int, 'a' as int, 'l' as int, 's' as int, 'e' as int]
  const NULL: seq<byte> := ['n' as int, 'u' as int, 'l' as int, 'l' as int]
}
