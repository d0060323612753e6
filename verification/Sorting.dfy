/** Sorting by a strict weak order. The library sort the program calls promises a sorted permutation
    and nothing about equal elements, so that is all Sort promises. */
module Sorting {
  ghost predicate StrictWeakOrder<T(!new)>(less: (T, T) -> bool) {
    && (forall a, b :: less(a, b) ==> !less(b, a))
    && (forall a, b, c :: !less(b, a) && !less(c, b) ==> !less(c, a))
  }

  ghost predicate Sorted<T>(s: seq<T>, less: (T, T) -> bool) {
    forall i, j | 0 <= i < j < |s| :: !less(s[j], s[i])
  }

  method Sort<T(!new)>(s: seq<T>, less: (T, T) -> bool) returns (r: seq<T>)
    requires StrictWeakOrder(less)
    ensures multiset(r) == multiset(s) && |r| == |s|
    ensures Sorted(r, less)
  {
    r := [];
    for i := 0 to |s|
      invariant |r| == i && multiset(r) == multiset(s[..i])
      invariant Sorted(r, less)
    {
      var k := 0;
      while k < i && !less(s[i], r[k])
        invariant 0 <= k <= i
        invariant forall j | 0 <= j < k :: !less(s[i], r[j])
      {
        k := k + 1;
      }
      var before := r;
      r := before[..k] + [s[i]] + before[k..];
      Inserted(before, k, s[i]);
      assert s[..i + 1] == s[..i] + [s[i]];
      InsertedSorted(before, k, s[i], less);
    }
    assert s[..|s|] == s;
  }

  /** x goes before the first element it is less than. */
  lemma InsertedSorted<T(!new)>(s: seq<T>, k: nat, x: T, less: (T, T) -> bool)
    requires StrictWeakOrder(less) && Sorted(s, less) && k <= |s|
    requires (forall j | 0 <= j < k :: !less(x, s[j])) && (k < |s| ==> less(x, s[k]))
    ensures Sorted(s[..k] + [x] + s[k..], less)
  {
    forall j | k <= j < |s|
      ensures !less(s[j], x)
    {
      assert !less(s[j], s[k]) || j == k;
    }
  }

  lemma Inserted<T>(s: seq<T>, k: nat, x: T)
    requires k <= |s|
    ensures multiset(s[..k] + [x] + s[k..]) == multiset(s) + multiset{x}
  {
    assert s == s[..k] + s[k..];
  }

  lemma Removed<T>(s: seq<T>, k: nat)
    requires k < |s|
    ensures multiset(s[..k] + s[k + 1..]) == multiset(s) - multiset{s[k]}
  {
    assert s == s[..k] + [s[k]] + s[k + 1..];
  }

  ghost predicate Separates<T>(s: seq<T>, less: (T, T) -> bool) {
    forall x, y | x in s && y in s && x != y :: less(x, y) || less(y, x)
  }

  lemma HeadsAgree<T>(s: seq<T>, t: seq<T>, less: (T, T) -> bool)
    requires s != [] && t != [] && s[0] in t && t[0] in s
    requires Sorted(s, less) && Sorted(t, less) && Separates(s, less)
    ensures s[0] == t[0]
  {
    var i :| 0 <= i < |t| && t[i] == s[0];
    var j :| 0 <= j < |s| && s[j] == t[0];
    assert i == 0 || !less(t[i], t[0]);
    assert j == 0 || !less(s[j], s[0]);
  }

  lemma TailOf<T>(s: seq<T>)
    requires s != []
    ensures multiset(s[1..]) == multiset(s) - multiset{s[0]}
  {
    assert s == [s[0]] + s[1..];
  }

  /** Two sorted permutations of one sequence agree when the order separates its elements. */
  lemma {:induction false} SortedUnique<T>(s: seq<T>, t: seq<T>, less: (T, T) -> bool)
    requires multiset(s) == multiset(t) && Sorted(s, less) && Sorted(t, less) && Separates(s, less)
    ensures s == t
  {
    assert |s| == |multiset(s)| == |multiset(t)| == |t|;
    if s != [] {
      assert s[0] in multiset(t) && t[0] in multiset(s);
      HeadsAgree(s, t, less);
      TailOf(s);
      TailOf(t);
      assert forall x | x in s[1..] :: x in s;
      SortedUnique(s[1..], t[1..], less);
      assert s == [s[0]] + s[1..] && t == [t[0]] + t[1..];
    }
  }
}
