/** Sequences shared by the protocol models: concatenation of batches, sums and number ranges. */
module Sequences {

  datatype Option<+T> = None | Some(value: T)

  /** The batches of `parts` laid end to end. */
  function Flatten<T>(parts: seq<seq<T>>): (flat: seq<T>) {
    if parts == [] then [] else Flatten(parts[..|parts| - 1]) + parts[|parts| - 1]
  }

  lemma FlattenSnoc<T>(parts: seq<seq<T>>, last: seq<T>)
    ensures Flatten(parts + [last]) == Flatten(parts) + last
  {
    assert (parts + [last])[..|parts|] == parts;
  }

  function Sum(xs: seq<nat>): (total: nat) {
    if xs == [] then 0 else Sum(xs[..|xs| - 1]) + xs[|xs| - 1]
  }

  lemma SumSnoc(xs: seq<nat>, x: nat)
    ensures Sum(xs + [x]) == Sum(xs) + x
  {
    assert (xs + [x])[..|xs|] == xs;
  }

  /** The numbers lo, lo + 1, ..., hi - 1. */
  function Range(lo: nat, hi: nat): (numbers: seq<nat>)
    requires lo <= hi
    ensures |numbers| == hi - lo
    ensures forall i :: 0 <= i < |numbers| ==> numbers[i] == lo + i
  {
    seq(hi - lo, i requires 0 <= i => lo + i)
  }

  lemma RangeSnoc(lo: nat, hi: nat)
    requires lo <= hi
    ensures Range(lo, hi + 1) == Range(lo, hi) + [hi]
  {
  }
}
