/** Filtering, as std::erase_if does it, and small facts of concatenation. */
module Sequences {
  function Filter<T>(keep: T -> bool, s: seq<T>): seq<T> {
    if s == [] then []
    else
      var front := Filter(keep, s[..|s| - 1]);
      if keep(s[|s| - 1]) then front + [s[|s| - 1]] else front
  }

  lemma {:induction false} FilterKeeps<T>(keep: T -> bool, s: seq<T>, x: T)
    ensures x in Filter(keep, s) <==> x in s && keep(x)
  {
    if s != [] {
      FilterKeeps(keep, s[..|s| - 1], x);
      assert s == s[..|s| - 1] + [s[|s| - 1]];
    }
  }

  ghost predicate Distinct<T, K>(key: T -> K, s: seq<T>) {
    forall i, j | 0 <= i < j < |s| :: key(s[i]) != key(s[j])
  }

  lemma {:induction false} FilterDistinct<T, K>(keep: T -> bool, key: T -> K, s: seq<T>)
    requires Distinct(key, s)
    ensures Distinct(key, Filter(keep, s))
  {
    if s != [] {
      var front, last := s[..|s| - 1], s[|s| - 1];
      FilterDistinct(keep, key, front);
      forall i | 0 <= i < |Filter(keep, front)|
        ensures key(Filter(keep, front)[i]) != key(last)
      {
        FilterKeeps(keep, front, Filter(keep, front)[i]);
      }
    }
  }

  lemma TwiceInside<T>(s: seq<T>, i: nat, j: nat)
    requires i < j < |s| && s[i] == s[j]
    ensures multiset(s)[s[i]] >= 2
  {
    assert s == s[..j] + [s[j]] + s[j + 1..];
    assert s[..j][i] == s[i];
    assert multiset(s) == multiset(s[..j]) + multiset([s[j]]) + multiset(s[j + 1..]);
  }

  lemma OnceInside<T, K>(key: T -> K, s: seq<T>, k: nat)
    requires Distinct(key, s) && k < |s|
    ensures multiset(s)[s[k]] == 1
  {
    assert s == s[..k] + [s[k]] + s[k + 1..];
    assert s[k] !in s[..k] && s[k] !in s[k + 1..];
    assert multiset(s) == multiset(s[..k]) + multiset([s[k]]) + multiset(s[k + 1..]);
  }

  lemma PermutationDistinct<T, K>(key: T -> K, s: seq<T>, t: seq<T>)
    requires multiset(s) == multiset(t) && Distinct(key, t)
    ensures Distinct(key, s)
  {
    forall i, j | 0 <= i < j < |s|
      ensures key(s[i]) != key(s[j])
    {
      assert s[i] in multiset(t) && s[j] in multiset(t);
      var k :| 0 <= k < |t| && t[k] == s[i];
      var l :| 0 <= l < |t| && t[l] == s[j];
      OnceInside(key, t, k);
      if s[i] == s[j] {
        TwiceInside(s, i, j);
      }
    }
  }

  method Erase<T>(keep: T -> bool, s: seq<T>) returns (r: seq<T>)
    ensures r == Filter(keep, s)
  {
    r := [];
    for i := 0 to |s|
      invariant r == Filter(keep, s[..i])
    {
      assert s[..i + 1][..i] == s[..i];
      if keep(s[i]) {
        r := r + [s[i]];
      }
    }
    assert s[..|s|] == s;
  }

  // ----- concatenation -----

  lemma Regroup<T>(a: seq<T>, b: seq<T>, c: seq<T>)
    ensures (a + b) + c == a + (b + c)
  {
  }

  lemma FrontOfConcat<T>(a: seq<T>, b: seq<T>)
    requires b != []
    ensures (a + b)[..|a + b| - 1] == a + b[..|b| - 1] && (a + b)[|a + b| - 1] == b[|b| - 1]
  {
  }

  lemma RestOfConcat<T>(a: seq<T>, b: seq<T>)
    ensures a == [] ==> a + b == b
    ensures a != [] ==> (a + b)[1..] == a[1..] + b
  {
  }

  // ----- one element changed, added or taken out -----

  lemma PutAt<T>(s: seq<T>, k: nat, x: T)
    requires k < |s|
    ensures s[k..][0] == s[k] && s[k..][1..] == s[k + 1..]
    ensures s[k := x][..k + 1] == s[..k] + [x] && s[k := x][k + 1..] == s[k + 1..]
  {
  }

  lemma AddedAt<T>(s: seq<T>, k: nat, x: T)
    requires k <= |s|
    ensures (s[..k] + [x] + s[k..])[..k + 1] == s[..k] + [x]
    ensures (s[..k] + [x] + s[k..])[k + 1..] == s[k..]
  {
  }
}
