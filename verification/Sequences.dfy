/** Small vocabulary about sequences shared by the component models. */
module Sequences {

  datatype Option<+T> = None | Some(value: T)

  ghost predicate NoDuplicates<T>(s: seq<T>) {
    forall i, j | 0 <= i < j < |s| :: s[i] != s[j]
  }

  lemma NoDuplicatesAppend<T>(s: seq<T>, x: T)
    requires NoDuplicates(s) && x !in s
    ensures NoDuplicates(s + [x])
  {
  }

  /** A duplicate-free sequence has as many elements as the set of its elements. */
  lemma {:induction false} NoDuplicatesCardinality<T>(s: seq<T>)
    requires NoDuplicates(s)
    ensures |set x | x in s| == |s|
  {
    if |s| > 0 {
      var front, last := s[..|s| - 1], s[|s| - 1];
      NoDuplicatesCardinality(front);
      assert (set x | x in s) == (set x | x in front) + {last};
    }
  }

  /** Two duplicate-free sequences with the same elements are permutations of each other. */
  lemma {:induction false} SameElementsPermute<T>(s: seq<T>, t: seq<T>)
    requires NoDuplicates(s) && NoDuplicates(t)
    requires forall x :: x in s <==> x in t
    ensures multiset(s) == multiset(t)
  {
    forall x ensures multiset(s)[x] == multiset(t)[x] {
      CountAtMostOne(s, x);
      CountAtMostOne(t, x);
    }
  }

  lemma {:induction false} CountAtMostOne<T>(s: seq<T>, x: T)
    requires NoDuplicates(s)
    ensures multiset(s)[x] == if x in s then 1 else 0
  {
    if |s| > 0 {
      var front, last := s[..|s| - 1], s[|s| - 1];
      assert s == front + [last];
      CountAtMostOne(front, x);
    }
  }

  // Lists as sets, in the order of first addition

  function Added<T(==)>(s: seq<T>, x: T): seq<T> { if x in s then s else s + [x] }

  function AddAll<T(==)>(s: seq<T>, more: seq<T>): seq<T>
    decreases |more|
  {
    if more == [] then s else AddAll(Added(s, more[0]), more[1..])
  }

  lemma {:induction false} AddAllMembers<T>(s: seq<T>, more: seq<T>)
    requires NoDuplicates(s)
    ensures NoDuplicates(AddAll(s, more)) && s <= AddAll(s, more)
    ensures forall x :: x in AddAll(s, more) <==> x in s || x in more
    decreases |more|
  {
    if more != [] {
      if more[0] !in s { NoDuplicatesAppend(s, more[0]); }
      AddAllMembers(Added(s, more[0]), more[1..]);
    }
  }

  lemma {:induction false} AddAllAppend<T>(s: seq<T>, a: seq<T>, b: seq<T>)
    ensures AddAll(s, a + b) == AddAll(AddAll(s, a), b)
    decreases |a|
  {
    if a == [] {
      assert a + b == b;
    } else {
      assert (a + b)[1..] == a[1..] + b;
      AddAllAppend(Added(s, a[0]), a[1..], b);
    }
  }
}
