/** Types every component shares. */
module Basics {
  datatype Option<+T> = None | Some(value: T)

  type byte = b: int | 0 <= b < 256

  function Flatten<T>(parts: seq<seq<T>>): seq<T>
  {
    if parts == [] then [] else Flatten(parts[..|parts| - 1]) + parts[|parts| - 1]
  }

  lemma FlattenMore<T>(parts: seq<seq<T>>, last: seq<T>)
    ensures Flatten(parts + [last]) == Flatten(parts) + last
  {
    assert (parts + [last])[..|parts|] == parts;
  }

  lemma FlattenStep<T>(parts: seq<seq<T>>, k: nat)
    requires k < |parts|
    ensures Flatten(parts[..k + 1]) == Flatten(parts[..k]) + parts[k]
  {
    assert parts[..k + 1][..k] == parts[..k];
  }

  /** Where the first element of a sequence sits in a permutation of it. */
  lemma PickFirst<T>(x: T, tail: seq<T>, b: seq<T>) returns (left: seq<T>, right: seq<T>)
    requires multiset([x] + tail) == multiset(b)
    ensures b == left + [x] + right && multiset(tail) == multiset(left + right)
  {
    assert multiset([x] + tail) == multiset{x} + multiset(tail);
    assert x in multiset(b);
    var i :| 0 <= i < |b| && b[i] == x;
    left, right := b[..i], b[i + 1..];
    assert b == left + [x] + right;
    assert multiset(left + [x] + right) == multiset{x} + multiset(left + right);
    assert multiset(tail) == multiset(b) - multiset{x} == multiset(left + right);
  }
}
