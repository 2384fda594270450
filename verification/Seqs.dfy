/** Sequences: keeping the elements that satisfy a condition. */
module Seqs {

  function Filter<T(!new)>(s: seq<T>, keep: T -> bool): (r: seq<T>)
    ensures |r| <= |s|
    ensures forall x :: x in r <==> x in s && keep(x)
  {
    if s == [] then []
    else
      var last := |s| - 1;
      Filter(s[..last], keep) + if keep(s[last]) then [s[last]] else []
  }

  /** What a relation says of every two elements in order. */
  ghost predicate Pairwise<T>(s: seq<T>, relation: (T, T) -> bool) {
    forall i, j | 0 <= i < j < |s| :: relation(s[i], s[j])
  }

  lemma {:induction false} FilterPairwise<T(!new)>(s: seq<T>, keep: T -> bool, relation: (T, T) -> bool)
    requires Pairwise(s, relation)
    ensures Pairwise(Filter(s, keep), relation)
  {
    if s != [] {
      var last := |s| - 1;
      FilterPairwise(s[..last], keep, relation);
      forall x | x in Filter(s[..last], keep)
        ensures relation(x, s[last])
      {
        var i :| 0 <= i < last && s[i] == x;
      }
    }
  }

  lemma {:induction false} FilterAppend<T(!new)>(s: seq<T>, x: T, keep: T -> bool)
    ensures Filter(s + [x], keep) == Filter(s, keep) + if keep(x) then [x] else []
  {
    assert (s + [x])[..|s|] == s;
  }

  lemma {:induction false} FilterTwice<T(!new)>(s: seq<T>, first: T -> bool, second: T -> bool, both: T -> bool)
    requires forall i | 0 <= i < |s| :: both(s[i]) == (first(s[i]) && second(s[i]))
    ensures Filter(Filter(s, first), second) == Filter(s, both)
  {
    if s != [] {
      var last := |s| - 1;
      FilterTwice(s[..last], first, second, both);
      var before := Filter(s[..last], first);
      if first(s[last]) {
        assert Filter(s, first) == before + [s[last]];
        FilterAppend(before, s[last], second);
      } else {
        assert Filter(s, first) == before;
      }
    }
  }

  /** Lists whose elements pass two tests alike keep equally many. */
  lemma {:induction false} FilterCount<S(!new), T(!new)>(s: seq<S>, t: seq<T>, p: S -> bool, q: T -> bool)
    requires |s| == |t| && forall i | 0 <= i < |s| :: p(s[i]) == q(t[i])
    ensures |Filter(s, p)| == |Filter(t, q)|
  {
    if s != [] {
      var last := |s| - 1;
      FilterCount(s[..last], t[..last], p, q);
    }
  }

  lemma {:induction false} FilterNone<T(!new)>(s: seq<T>, keep: T -> bool)
    requires forall i | 0 <= i < |s| :: !keep(s[i])
    ensures Filter(s, keep) == []
  {
    if s != [] {
      FilterNone(s[..|s| - 1], keep);
    }
  }

  lemma {:induction false} FilterAll<T(!new)>(s: seq<T>, keep: T -> bool)
    requires forall i | 0 <= i < |s| :: keep(s[i])
    ensures Filter(s, keep) == s
  {
    if s != [] {
      var most := s[..|s| - 1];
      FilterAll(most, keep);
      assert keep(s[|s| - 1]) && s == most + [s[|s| - 1]];
    }
  }
}
