/** Small shared vocabulary: optional values and sequence filtering. */
module Prelude {
  datatype Option<+T> = None | Some(value: T)

  /** The elements of `s` outside `dead`, in their original order. */
  function Without<T(==,!new)>(s: seq<T>, dead: set<T>): (r: seq<T>)
    ensures forall x :: x in r <==> x in s && x !in dead
  {
    if |s| == 0 then []
    else
      var init := Without(s[..|s| - 1], dead);
      if s[|s| - 1] in dead then init else init + [s[|s| - 1]]
  }

  /** The elements of `s` that are to be kept, in their order. */
  function Filter<T(!new)>(s: seq<T>, keep: T -> bool): (r: seq<T>)
    ensures forall x :: x in r <==> x in s && keep(x)
  {
    if |s| == 0 then []
    else Filter(s[..|s| - 1], keep) + if keep(s[|s| - 1]) then [s[|s| - 1]] else []
  }

  /** None is lost or doubled. */
  lemma {:induction false} FilterCounts<T(!new)>(s: seq<T>, keep: T -> bool, x: T)
    ensures multiset(Filter(s, keep))[x] == if keep(x) then multiset(s)[x] else 0
  {
    if |s| > 0 {
      FilterCounts(s[..|s| - 1], keep, x);
      assert s == s[..|s| - 1] + [s[|s| - 1]];
    }
  }

  lemma FilterAppend<T(!new)>(s: seq<T>, x: T, keep: T -> bool)
    ensures Filter(s + [x], keep) == Filter(s, keep) + if keep(x) then [x] else []
  {
    assert (s + [x])[..|s|] == s;
  }

  ghost predicate Distinct<T>(s: seq<T>) {
    forall i, j :: 0 <= i < j < |s| ==> s[i] != s[j]
  }

  /** The slice `s[:k]`; a negative `k` counts from the end. */
  function Slice<T>(s: seq<T>, k: int): seq<T> {
    if k >= |s| then s
    else if k >= 0 then s[..k]
    else if |s| + k >= 0 then s[..|s| + k]
    else []
  }

  /** A slice is a prefix: of `k` elements if there are as many, or of all but the last `-k`. */
  lemma SliceIs<T>(s: seq<T>, k: int)
    ensures Slice(s, k) <= s
    ensures k >= 0 ==> |Slice(s, k)| == if k < |s| then k else |s|
    ensures k < 0 ==> |Slice(s, k)| == if -k < |s| then |s| + k else 0
  {
  }

  lemma {:induction false} SubsetIsSmaller<T(!new)>(a: set<T>, b: set<T>)
    requires a <= b
    ensures |a| <= |b|
  {
    if a != {} {
      var x :| x in a;
      SubsetIsSmaller(a - {x}, b - {x});
    }
  }

  lemma ConcatAssociates<T>(a: seq<T>, b: seq<T>, c: seq<T>)
    ensures a + (b + c) == (a + b) + c
  {
  }

  lemma {:induction false} WithoutAppend<T(!new)>(s: seq<T>, x: T, dead: set<T>)
    ensures Without(s + [x], dead) == Without(s, dead) + (if x in dead then [] else [x])
  {
    assert (s + [x])[..|s|] == s;
  }

  lemma {:induction false} WithoutTwice<T(!new)>(s: seq<T>, dead: set<T>, more: set<T>)
    ensures Without(Without(s, dead), more) == Without(s, dead + more)
  {
    if |s| > 0 {
      var init, x := s[..|s| - 1], s[|s| - 1];
      WithoutTwice(init, dead, more);
      if x !in dead {
        WithoutAppend(Without(init, dead), x, more);
      }
    }
  }

  lemma {:induction false} WithoutKeepsDistinct<T(!new)>(s: seq<T>, dead: set<T>)
    requires Distinct(s)
    ensures Distinct(Without(s, dead))
  {
    if |s| > 0 {
      var init := s[..|s| - 1];
      WithoutKeepsDistinct(init, dead);
    }
  }

  lemma {:induction false} WithoutNothingDead<T(!new)>(s: seq<T>, dead: set<T>)
    requires forall x :: x in s ==> x !in dead
    ensures Without(s, dead) == s
  {
    if |s| > 0 {
      WithoutNothingDead(s[..|s| - 1], dead);
      assert s == s[..|s| - 1] + [s[|s| - 1]];
    }
  }
}
