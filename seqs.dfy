/** Order-preserving filtering, the list comprehensions of the source. */
module Seqs {

  /** `[x for x in s if p(x)]`, defined from the back so that it follows a loop
      that appends. */
  function Filter<T(!new)>(s: seq<T>, p: T -> bool): (r: seq<T>)
    ensures |r| <= |s|
    ensures forall x :: x in r <==> x in s && p(x)
  {
    if s == [] then []
    else
      assert s == s[..|s| - 1] + [s[|s| - 1]];
      Filter(s[..|s| - 1], p) + (if p(s[|s| - 1]) then [s[|s| - 1]] else [])
  }

  /** `x` is the first element of `s` that satisfies `p`. */
  ghost predicate IsFirst<T(!new)>(s: seq<T>, p: T -> bool, x: T) {
    exists i :: 0 <= i < |s| && s[i] == x && p(x) && forall j :: 0 <= j < i ==> !p(s[j])
  }

  /** The head of a filtered list is the first element that passes the filter. */
  lemma {:induction false} FilterHead<T(!new)>(s: seq<T>, p: T -> bool)
    requires Filter(s, p) != []
    ensures IsFirst(s, p, Filter(s, p)[0])
  {
    var n := |s| - 1;
    var front := s[..n];
    if Filter(front, p) == [] {
      assert p(s[n]) && Filter(s, p) == [s[n]];
      forall j | 0 <= j < n ensures !p(s[j]) {
        assert s[j] in front;
      }
    } else {
      FilterHead(front, p);
      var i :| 0 <= i < |front| && front[i] == Filter(front, p)[0] && p(front[i])
            && forall j :: 0 <= j < i ==> !p(front[j]);
      assert Filter(s, p)[0] == Filter(front, p)[0];
      assert s[i] == front[i];
      forall j | 0 <= j < i ensures !p(s[j]) {
        assert s[j] == front[j];
      }
    }
  }

  /** Nothing passes the filter when no element satisfies the predicate. */
  lemma FilterNone<T(!new)>(s: seq<T>, p: T -> bool)
    requires forall x :: x in s ==> !p(x)
    ensures Filter(s, p) == []
  {
    if Filter(s, p) != [] {
      assert Filter(s, p)[0] in Filter(s, p);
    }
  }

  /** Filtering a one-element extension appends at most that element. */
  lemma FilterSnoc<T(!new)>(s: seq<T>, x: T, p: T -> bool)
    ensures Filter(s + [x], p) == Filter(s, p) + (if p(x) then [x] else [])
  {
    assert (s + [x])[..|s|] == s;
  }
}
