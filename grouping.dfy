/**
 * The index grouping of `fill_madlib_template`:
 * `sorted(set(int(num) for ptype, num in found_placeholders if ptype == kind))`,
 * one list per kind.
 */
module Grouping {
  import opened Text
  import opened Models

  predicate AllWellFormed(occs: seq<Occurrence>) {
    forall i | 0 <= i < |occs| :: WellFormed(occs[i])
  }

  predicate StrictlyIncreasing(xs: seq<nat>) {
    forall i, j | 0 <= i < j < |xs| :: xs[i] < xs[j]
  }

  /** The integer values of the indices of `kind` among the occurrences, as a set. */
  ghost function IndexSet(occs: seq<Occurrence>, kind: PlaceholderType): set<nat>
    requires AllWellFormed(occs)
  {
    set i | 0 <= i < |occs| && occs[i].kind == kind :: Value(occs[i].digits)
  }

  /** A value below everything in a strictly increasing list can be put in front of it. */
  lemma ConsIncreasing(h: nat, tail: seq<nat>)
    requires StrictlyIncreasing(tail)
    requires forall x | x in tail :: h < x
    ensures StrictlyIncreasing([h] + tail)
  {
    var r := [h] + tail;
    forall i, j | 0 <= i < j < |r| ensures r[i] < r[j] {
      assert r[j] == tail[j - 1] && r[j] in tail;
      if i > 0 {
        assert r[i] == tail[i - 1];
      }
    }
  }

  /** The head of a strictly increasing list is below every later element. */
  lemma HeadBelowTail(xs: seq<nat>)
    requires StrictlyIncreasing(xs) && xs != []
    ensures StrictlyIncreasing(xs[1..])
    ensures forall x | x in xs[1..] :: xs[0] < x
  {
    forall x | x in xs[1..] ensures xs[0] < x {
      var k :| 0 <= k < |xs[1..]| && xs[1..][k] == x;
      assert xs[k + 1] == x;
    }
  }

  /** `xs` with `v` inserted in order; a value already present is not repeated. */
  function InsertSorted(xs: seq<nat>, v: nat): (r: seq<nat>)
    requires StrictlyIncreasing(xs)
    ensures StrictlyIncreasing(r)
    ensures forall x :: x in r <==> x in xs || x == v
  {
    if xs == [] then [v]
    else if v < xs[0] then
      HeadBelowTail(xs);
      ConsIncreasing(v, xs);
      [v] + xs
    else if v == xs[0] then xs
    else
      HeadBelowTail(xs);
      var tail := InsertSorted(xs[1..], v);
      ConsIncreasing(xs[0], tail);
      assert xs == [xs[0]] + xs[1..];
      [xs[0]] + tail
  }

  /**
   * `noun_numbers`, `verb_numbers`, `adj_numbers`: the distinct index values of
   * one kind, in increasing order.
   */
  function Numbers(occs: seq<Occurrence>, kind: PlaceholderType): (r: seq<nat>)
    requires AllWellFormed(occs)
    ensures StrictlyIncreasing(r)
    ensures forall n :: n in r <==> n in IndexSet(occs, kind)
  {
    if occs == [] then []
    else
      var rest := Numbers(occs[1..], kind);
      IndexSetStep(occs, kind);
      if occs[0].kind == kind then InsertSorted(rest, Value(occs[0].digits)) else rest
  }

  lemma IndexSetStep(occs: seq<Occurrence>, kind: PlaceholderType)
    requires AllWellFormed(occs) && occs != []
    ensures AllWellFormed(occs[1..])
    ensures IndexSet(occs, kind)
            == IndexSet(occs[1..], kind) + (if occs[0].kind == kind then {Value(occs[0].digits)} else {})
  {
    var tail := occs[1..];
    assert AllWellFormed(tail) by {
      forall i | 0 <= i < |tail| ensures WellFormed(tail[i]) {
        assert tail[i] == occs[i + 1];
      }
    }
    forall n | n in IndexSet(occs, kind)
      ensures n in IndexSet(tail, kind) || (occs[0].kind == kind && n == Value(occs[0].digits))
    {
      var i :| 0 <= i < |occs| && occs[i].kind == kind && Value(occs[i].digits) == n;
      if i > 0 {
        assert tail[i - 1] == occs[i];
      }
    }
    forall n | n in IndexSet(tail, kind) ensures n in IndexSet(occs, kind) {
      var i :| 0 <= i < |tail| && tail[i].kind == kind && Value(tail[i].digits) == n;
      assert occs[i + 1] == tail[i];
    }
  }
}
