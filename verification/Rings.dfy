/** Rings of slots: entries from a head on, around the end of the array. */
module Rings {
  import opened Wrappers

  /** Around the ring, once at most. */
  function Around(i: nat, n: nat): (r: nat)
    requires 0 < n && i < 2 * n
    ensures r < n && r == i % n
  {
    OnceAround(i, n);
    if i < n then i else i - n
  }

  lemma OnceAround(i: nat, n: nat)
    requires 0 < n && i < 2 * n
    ensures i % n == if i < n then i else i - n
  {
    if i >= n {
      assert i == n + (i - n);
    }
  }

  /** The entries of a ring, oldest first. */
  function Unrolled<T>(ring: seq<T>, head: nat, count: nat): (s: seq<T>)
    requires head < |ring| && count <= |ring|
    ensures |s| == count
  {
    if head + count <= |ring| then ring[head..head + count] else ring[head..] + ring[..head + count - |ring|]
  }

  lemma UnrolledAt<T>(ring: seq<T>, head: nat, count: nat, k: nat)
    requires head < |ring| && count <= |ring| && k < count
    ensures Unrolled(ring, head, count)[k] == ring[Around(head + k, |ring|)]
  {
  }

  /** An entry in the first free slot is the newest. */
  lemma UnrolledMore<T>(ring: seq<T>, head: nat, count: nat, x: T)
    requires head < |ring| && count < |ring|
    ensures Unrolled(ring[Around(head + count, |ring|) := x], head, count + 1) == Unrolled(ring, head, count) + [x]
  {
    var ring2 := ring[Around(head + count, |ring|) := x];
    var more, all := Unrolled(ring2, head, count + 1), Unrolled(ring, head, count) + [x];
    forall k | 0 <= k < count + 1 ensures more[k] == all[k] {
      UnrolledAt(ring2, head, count + 1, k);
      if k < count {
        UnrolledAt(ring, head, count, k);
      }
    }
  }

  /** The first entry is the oldest. */
  lemma UnrolledFirst<T>(ring: seq<T>, head: nat, count: nat)
    requires head < |ring| && 0 < count <= |ring|
    ensures Unrolled(ring, head, count) == [ring[head]] + Unrolled(ring, Around(head + 1, |ring|), count - 1)
  {
    if head + count <= |ring| {
      FirstStraight(ring, head, count);
    } else {
      FirstAround(ring, head, head + count - |ring|);
    }
  }

  lemma FirstStraight<T>(ring: seq<T>, head: nat, count: nat)
    requires 0 < count && head + count <= |ring|
    ensures ring[head..head + count] == [ring[head]] + (if head + 1 == |ring| then ring[0..0] else ring[head + 1..head + count])
  {
    HeadOf(ring, head, head + count);
  }

  lemma FirstAround<T>(ring: seq<T>, head: nat, back: nat)
    requires head < |ring| && 0 < back <= head
    ensures ring[head..] + ring[..back] ==
            [ring[head]] + (if head + 1 == |ring| then ring[0..back] else ring[head + 1..] + ring[..back])
  {
    HeadOf(ring, head, |ring|);
    Associative([ring[head]], ring[head + 1..], ring[..back]);
  }

  lemma UnrolledRest<T>(ring: seq<T>, head: nat, count: nat)
    requires head < |ring| && 0 < count <= |ring|
    ensures Unrolled(ring, head, count)[0] == ring[head]
    ensures Unrolled(ring, head, count)[1..] == Unrolled(ring, Around(head + 1, |ring|), count - 1)
  {
    UnrolledFirst(ring, head, count);
    RestOf(ring[head], Unrolled(ring, Around(head + 1, |ring|), count - 1));
  }

  lemma RestOf<T>(x: T, rest: seq<T>)
    ensures ([x] + rest)[0] == x && ([x] + rest)[1..] == rest
  {
  }

  lemma HeadOf<T>(s: seq<T>, a: nat, b: nat)
    requires a < b <= |s|
    ensures s[a..b] == [s[a]] + s[a + 1..b]
  {
  }
}
