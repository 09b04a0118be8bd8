/** In-place byte loops of the C library: overlap-safe copying and string reversal. */
module Strings {
  /** memmove inside one buffer: the destination gets the old source, whichever way they overlap. */
  method MemMove<T>(a: array<T>, dest: nat, src: nat, n: nat)
    requires dest + n <= a.Length && src + n <= a.Length
    modifies a
    ensures a[..] == old(a[..dest]) + old(a[src..src + n]) + old(a[dest + n..])
  {
    ghost var was := a[..];
    if src < dest && src + n > dest {
      var k := n;
      while k > 0
        invariant 0 <= k <= n && |was| == a.Length
        invariant forall i :: 0 <= i < a.Length ==> a[i] == Moved(was, dest, src, k, n, i)
      {
        k := k - 1;
        assert a[src + k] == Moved(was, dest, src, k + 1, n, src + k) == was[src + k];
        a[dest + k] := a[src + k];
      }
    } else {
      var k := 0;
      while k < n
        invariant 0 <= k <= n && |was| == a.Length
        invariant forall i :: 0 <= i < a.Length ==> a[i] == Moved(was, dest, src, 0, k, i)
      {
        assert a[src + k] == Moved(was, dest, src, 0, k, src + k) == was[src + k];
        a[dest + k] := a[src + k];
        k := k + 1;
      }
    }
    forall i | 0 <= i < a.Length ensures a[i] == (was[..dest] + was[src..src + n] + was[dest + n..])[i] {
      assert a[i] == Moved(was, dest, src, 0, n, i);
    }
    assert a[..] == was[..dest] + was[src..src + n] + was[dest + n..];
    assert was[..dest] == old(a[..dest]) && was[src..src + n] == old(a[src..src + n]) && was[dest + n..] == old(a[dest + n..]);
  }

  /** Position i when the bytes from lo up to hi have been moved. */
  ghost function Moved<T>(was: seq<T>, dest: nat, src: nat, lo: nat, hi: nat, i: nat): T
    requires i < |was| && src + hi <= |was|
  {
    if dest + lo <= i < dest + hi then was[i - dest + src] else was[i]
  }

  function Reversed<T>(s: seq<T>): (r: seq<T>)
    ensures |r| == |s|
  {
    if s == [] then [] else Reversed(s[1..]) + [s[0]]
  }

  lemma {:induction false} ReversedIndex<T>(s: seq<T>, k: nat)
    requires k < |s|
    ensures Reversed(s)[k] == s[|s| - 1 - k]
  {
    if k < |s| - 1 {
      ReversedIndex(s[1..], k);
    }
  }

  lemma ReversedTwice<T>(s: seq<T>)
    ensures Reversed(Reversed(s)) == s
  {
    forall k: nat | k < |s| ensures Reversed(Reversed(s))[k] == s[k] {
      ReversedIndex(Reversed(s), k);
      ReversedIndex(s, |s| - 1 - k);
    }
  }

  predicate Terminated(s: seq<char>, len: nat) {
    len < |s| && s[len] == '\0' && forall i :: 0 <= i < len ==> s[i] != '\0'
  }

  /** Reverses the string before the terminator; the terminator and what follows it stay. */
  method StrRev(a: array<char>, ghost len: nat)
    requires Terminated(a[..], len)
    modifies a
    ensures a[..] == Reversed(old(a[..len])) + old(a[len..])
    ensures Terminated(a[..], len)
  {
    ghost var was := a[..];
    var b, e := 0, 0;
    while a[e] != '\0'
      invariant 0 <= e <= len && a[..] == was
      decreases len - e
    {
      assert a[..][e] == a[e];
      e := e + 1;
    }
    e := e - 1;
    while e - b >= 1
      invariant 0 <= b && b + e == len - 1
      invariant forall i :: 0 <= i < a.Length ==> a[i] == Swapped(was, len, b, i)
    {
      assert a[b] == Swapped(was, len, b, b) && a[e] == Swapped(was, len, b, e);
      a[b], a[e] := a[e], a[b];
      b, e := b + 1, e - 1;
    }
    forall i: nat | i < a.Length ensures a[i] == (Reversed(was[..len]) + was[len..])[i] {
      assert a[i] == Swapped(was, len, b, i);
      if i < len {
        ReversedIndex(was[..len], i);
      }
    }
    assert a[..] == Reversed(was[..len]) + was[len..];
    assert was[..len] == old(a[..len]) && was[len..] == old(a[len..]);
    forall i: nat | i < len ensures a[i] != '\0' {
      assert a[i] == Swapped(was, len, b, i);
    }
  }

  /** Position i when the outermost b pairs have been swapped. */
  ghost function Swapped(was: seq<char>, len: nat, b: nat, i: nat): char
    requires i < |was| && len <= |was|
  {
    if i < len && (i < b || len - 1 - b < i) then was[len - 1 - i] else was[i]
  }
}
