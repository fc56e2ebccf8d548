// Small shared definitions: an option type, block heights, 64-bit unsigned wrap-around, sequence helpers.

module Wrappers {
  datatype Option<+T> = None | Some(value: T)
}

module Chain {
  type Height = nat
}

// Go's uint64: every addition and subtraction wraps.
module UInt64 {
  const TWO64 := 0x1_0000_0000_0000_0000
  const MAX := TWO64 - 1

  type uint64 = n: nat | n < TWO64

  function Add(a: uint64, b: uint64): uint64 {
    if a + b < TWO64 then a + b else a + b - TWO64
  }

  function Sub(a: uint64, b: uint64): uint64 {
    if b <= a then a - b else a - b + TWO64
  }
}

module Sequences {
  predicate Distinct<T(==)>(s: seq<T>) {
    forall i, j | 0 <= i < j < |s| :: s[i] != s[j]
  }

  lemma DistinctLast<T>(s: seq<T>, x: T)
    requires Distinct(s + [x])
    ensures Distinct(s) && x !in s
  {
    assert (s + [x])[|s|] == x;
    assert forall i | 0 <= i < |s| :: (s + [x])[i] == s[i];
  }

  lemma Associative<T>(s: seq<T>, t: seq<T>, u: seq<T>)
    ensures (s + t) + u == s + (t + u)
    ensures s + [] == s && [] + s == s
  {
  }

  function Flatten<T>(parts: seq<seq<T>>): seq<T>
    decreases |parts|
  {
    if parts == [] then [] else Flatten(parts[..|parts| - 1]) + parts[|parts| - 1]
  }

  lemma FlattenNext<T>(parts: seq<seq<T>>, i: nat)
    requires i < |parts|
    ensures Flatten(parts[..i + 1]) == Flatten(parts[..i]) + parts[i]
  {
    assert parts[..i + 1][..i] == parts[..i];
  }

  // Parts of one element each.
  lemma {:induction false} FlattenSingles<T>(parts: seq<seq<T>>)
    requires forall k | 0 <= k < |parts| :: |parts[k]| == 1
    ensures |Flatten(parts)| == |parts| && forall k | 0 <= k < |parts| :: Flatten(parts)[k] == parts[k][0]
    decreases |parts|
  {
    if parts != [] { FlattenSingles(parts[..|parts| - 1]); }
  }

  function RemoveAt<T(!new)>(s: seq<T>, j: nat): (r: seq<T>)
    requires j < |s|
    ensures |r| == |s| - 1
    ensures forall x :: x in s <==> x == s[j] || x in r
  {
    var r := s[..j] + s[j + 1..];
    assert forall k | 0 <= k < |s| :: s[k] == if k < j then r[k] else if k == j then s[j] else r[k - 1];
    r
  }
}
