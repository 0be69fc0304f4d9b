// Concatenating a sequence of sequences.
module Sequences {

  function Flat<T>(parts: seq<seq<T>>): seq<T>
  {
    if parts == [] then [] else Flat(parts[..|parts| - 1]) + parts[|parts| - 1]
  }

  lemma FlatSnoc<T>(parts: seq<seq<T>>, n: nat)
    requires n < |parts|
    ensures Flat(parts[..n + 1]) == Flat(parts[..n]) + parts[n]
  {
    assert parts[..n + 1][..n] == parts[..n];
  }

  lemma FlatEmpty<T>(parts: seq<seq<T>>)
    ensures Flat(parts[..0]) == []
  {
  }
}
