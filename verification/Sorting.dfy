/**
  Insertion into a sorted list for any strict total order, and the fact that the sorted
  arrangement of a collection is unique.
 */
module Sorting {

  ghost predicate StrictTotalOrder<T(!new)>(before: (T, T) -> bool) {
    && (forall x, y :: before(x, y) || before(y, x) || x == y)
    && (forall x, y :: !(before(x, y) && before(y, x)))
    && (forall x, y, z :: before(x, y) && before(y, z) ==> before(x, z))
  }

  /** The first element is not after any other, recursively. */
  predicate Sorted<T(==)>(before: (T, T) -> bool, s: seq<T>) {
    s != [] ==> (forall e :: e in s[1..] ==> !before(e, s[0])) && Sorted(before, s[1..])
  }

  function Insert<T>(before: (T, T) -> bool, e: T, s: seq<T>): seq<T> {
    if s == [] || !before(s[0], e) then [e] + s else [s[0]] + Insert(before, e, s[1..])
  }

  function Sort<T>(before: (T, T) -> bool, s: seq<T>): seq<T> {
    if s == [] then [] else Insert(before, s[0], Sort(before, s[1..]))
  }

  lemma FirstIsLeast<T(!new)>(before: (T, T) -> bool, s: seq<T>, e: T)
    requires StrictTotalOrder(before) && Sorted(before, s) && e in s
    ensures !before(e, s[0])
  {
    assert s == [s[0]] + s[1..];
  }

  lemma {:induction false} InsertSorts<T(!new)>(before: (T, T) -> bool, e: T, s: seq<T>)
    requires StrictTotalOrder(before) && Sorted(before, s)
    ensures Sorted(before, Insert(before, e, s))
    ensures multiset(Insert(before, e, s)) == multiset(s) + multiset{e}
  {
    if s == [] || !before(s[0], e) {
      var r := [e] + s;
      assert r[1..] == s;
      forall x | x in s
        ensures !before(x, e)
      {
        FirstIsLeast(before, s, x);
      }
    } else {
      assert before(s[0], e) ==> !before(e, s[0]);
      hide StrictTotalOrder;
      InsertSorts(before, e, s[1..]);
      var r := [s[0]] + Insert(before, e, s[1..]);
      assert r[1..] == Insert(before, e, s[1..]);
      assert s == [s[0]] + s[1..];
      forall x | x in r[1..]
        ensures !before(x, s[0])
      {
        assert x in multiset(r[1..]);
      }
    }
  }

  lemma {:induction false} SortSorts<T(!new)>(before: (T, T) -> bool, s: seq<T>)
    requires StrictTotalOrder(before)
    ensures Sorted(before, Sort(before, s)) && multiset(Sort(before, s)) == multiset(s)
    ensures |Sort(before, s)| == |s|
    ensures forall e :: e in Sort(before, s) <==> e in s
  {
    hide Sorted, StrictTotalOrder;
    if s != [] {
      SortSorts(before, s[1..]);
      InsertSorts(before, s[0], Sort(before, s[1..]));
      assert s == [s[0]] + s[1..];
    } else {
      assert Sorted(before, Sort(before, s)) by { EmptyIsSorted(before); }
    }
    SameElements(Sort(before, s), s);
  }

  lemma EmptyIsSorted<T>(before: (T, T) -> bool)
    ensures Sorted(before, [])
  {}

  lemma SameElements<T(!new)>(s: seq<T>, t: seq<T>)
    requires multiset(s) == multiset(t)
    ensures |s| == |t| && forall e :: e in s <==> e in t
  {
    assert |multiset(s)| == |multiset(t)|;
    forall e
      ensures e in s <==> e in t
    {
      assert e in multiset(s) <==> e in multiset(t);
    }
  }

  lemma HeadsAgree<T(!new)>(before: (T, T) -> bool, s: seq<T>, t: seq<T>)
    requires StrictTotalOrder(before) && Sorted(before, s) && Sorted(before, t)
    requires s != [] && t != [] && s[0] in t && t[0] in s
    ensures s[0] == t[0]
  {
    FirstIsLeast(before, s, t[0]);
    FirstIsLeast(before, t, s[0]);
    hide Sorted;
  }

  lemma TailMultiset<T>(s: seq<T>)
    requires s != []
    ensures s == [s[0]] + s[1..] && multiset(s[1..]) == multiset(s) - multiset{s[0]}
  {
    assert s == [s[0]] + s[1..];
  }

  /** A sorted arrangement is determined by its elements. */
  lemma {:induction false} SortedIsUnique<T(!new)>(before: (T, T) -> bool, s: seq<T>, t: seq<T>)
    requires StrictTotalOrder(before)
    requires Sorted(before, s) && Sorted(before, t) && multiset(s) == multiset(t)
    ensures s == t
  {
    if s == [] {
      assert |multiset(t)| == 0;
    } else {
      SameElements(s, t);
      assert Sorted(before, s[1..]) && Sorted(before, t[1..]);
      hide Sorted, StrictTotalOrder;
      HeadsAgree(before, s, t);
      TailMultiset(s);
      TailMultiset(t);
      SortedIsUnique(before, s[1..], t[1..]);
    }
  }

  predicate IsImage<A, B(==)>(f: A -> B, r: seq<A>, s: seq<B>) {
    |r| == |s| && forall i :: 0 <= i < |r| ==> s[i] == f(r[i])
  }

  /** Applying one function to permuted sequences yields permuted sequences. */
  lemma {:induction false} ImageMultiset<A(!new), B>(f: A -> B, r1: seq<A>, s1: seq<B>, r2: seq<A>, s2: seq<B>)
    requires multiset(r1) == multiset(r2)
    requires IsImage(f, r1, s1) && IsImage(f, r2, s2)
    ensures multiset(s1) == multiset(s2)
    decreases |r1|
  {
    if r1 == [] {
      assert |multiset(r2)| == 0;
    } else {
      assert r1[0] in multiset(r2);
      var k :| 0 <= k < |r2| && r2[k] == r1[0];
      var q1, t1 := RemoveAt(f, r1, s1, 0);
      var q2, t2 := RemoveAt(f, r2, s2, k);
      hide IsImage;
      ImageMultiset(f, q1, t1, q2, t2);
    }
  }

  lemma RemoveAt<A, B>(f: A -> B, r: seq<A>, s: seq<B>, k: nat) returns (q: seq<A>, t: seq<B>)
    requires IsImage(f, r, s) && k < |r|
    ensures IsImage(f, q, t) && |q| == |r| - 1
    ensures multiset(q) == multiset(r) - multiset{r[k]}
    ensures multiset(s) == multiset(t) + multiset{f(r[k])}
  {
    q, t := r[..k] + r[k + 1..], s[..k] + s[k + 1..];
    assert r == r[..k] + [r[k]] + r[k + 1..];
    assert s == s[..k] + [s[k]] + s[k + 1..];
  }

  function Elements<T>(s: seq<T>): set<T> {
    set e | e in s
  }

  /** Counting the set of elements detects every repetition. */
  lemma {:induction false} CountingDetectsRepeats<T>(s: seq<T>)
    ensures |Elements(s)| <= |s|
    ensures |Elements(s)| == |s| <==> forall i, j :: 0 <= i < j < |s| ==> s[i] != s[j]
  {
    if s != [] {
      var front, last := s[..|s| - 1], s[|s| - 1];
      CountingDetectsRepeats(front);
      assert s == front + [last];
      assert Elements(s) == Elements(front) + {last};
      if forall i, j :: 0 <= i < j < |s| ==> s[i] != s[j] {
        assert last !in Elements(front);
      }
    }
  }

  /** Without repetitions, the same elements are the same multiset. */
  lemma NoRepeatsMultiset<T(!new)>(s: seq<T>, t: seq<T>)
    requires forall i, j :: 0 <= i < j < |s| ==> s[i] != s[j]
    requires forall i, j :: 0 <= i < j < |t| ==> t[i] != t[j]
    requires forall e :: e in s <==> e in t
    ensures multiset(s) == multiset(t)
  {
    forall e
      ensures multiset(s)[e] == multiset(t)[e]
    {
      OccursOnce(s, e);
      OccursOnce(t, e);
    }
  }

  lemma {:induction false} OccursOnce<T>(s: seq<T>, e: T)
    requires forall i, j :: 0 <= i < j < |s| ==> s[i] != s[j]
    ensures multiset(s)[e] == if e in s then 1 else 0
  {
    if s != [] {
      OccursOnce(s[1..], e);
      assert s == [s[0]] + s[1..];
    }
  }

  lemma Associate<T>(a: seq<T>, b: seq<T>, c: seq<T>, d: seq<T>)
    ensures a + b + c + d == a + (b + c + d)
  {}
}
