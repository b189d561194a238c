/** `sorted(set(xs))` on day numbers: the strictly increasing sequence of the
    distinct elements of `xs`. */
module Sorting {

  predicate StrictlyIncreasing(s: seq<int>) {
    forall i, j :: 0 <= i < j < |s| ==> s[i] < s[j]
  }

  /** Adds `x` to a strictly increasing sequence, unless it is already there. */
  function Insert(x: int, s: seq<int>): (r: seq<int>)
    requires StrictlyIncreasing(s)
    ensures StrictlyIncreasing(r)
    ensures forall y :: y in r <==> y == x || y in s
  {
    if s == [] then [x]
    else if x < s[0] then [x] + s
    else if x == s[0] then s
    else
      var t := Insert(x, s[1..]);
      assert forall y :: y in t ==> s[0] < y;
      ConsIncreasing(s[0], t);
      [s[0]] + t
  }

  lemma ConsIncreasing(a: int, t: seq<int>)
    requires StrictlyIncreasing(t)
    requires forall y :: y in t ==> a < y
    ensures StrictlyIncreasing([a] + t)
  {
    forall i, j | 0 <= i < j < |[a] + t| ensures ([a] + t)[i] < ([a] + t)[j] {
      assert ([a] + t)[j] == t[j - 1];
      if i > 0 {
        assert ([a] + t)[i] == t[i - 1];
      } else {
        assert t[j - 1] in t;
      }
    }
  }

  /** `sorted(list(set(xs)))`. */
  function SortedUnique(xs: seq<int>): (r: seq<int>)
    ensures StrictlyIncreasing(r)
    ensures forall y :: y in r <==> y in xs
  {
    if xs == [] then []
    else Insert(xs[|xs| - 1], SortedUnique(xs[..|xs| - 1]))
  }

  lemma FirstIsElement(s: seq<int>)
    ensures s != [] ==> s[0] in s
  {
  }

  /** A strictly increasing sequence is determined by its elements. */
  lemma {:induction false} SameElementsSameSequence(a: seq<int>, b: seq<int>)
    requires StrictlyIncreasing(a) && StrictlyIncreasing(b)
    requires forall y :: y in a <==> y in b
    ensures a == b
  {
    if a != [] && b != [] {
      assert b[0] in b && a[0] in a;
      assert a[0] == b[0];
      forall y | y in a[1..] ensures y in b[1..] {
        assert y in b && y != b[0];
      }
      forall y | y in b[1..] ensures y in a[1..] {
        assert y in a && y != a[0];
      }
      SameElementsSameSequence(a[1..], b[1..]);
      assert a == [a[0]] + a[1..];
      assert b == [b[0]] + b[1..];
    } else if a != [] || b != [] {
      FirstIsElement(a);
      FirstIsElement(b);
      assert false;
    }
  }

  /** Sorting and de-duplicating what is already strictly increasing changes nothing. */
  lemma SortedUniqueKeepsIncreasing(xs: seq<int>)
    requires StrictlyIncreasing(xs)
    ensures SortedUnique(xs) == xs
  {
    SameElementsSameSequence(SortedUnique(xs), xs);
  }
}
