/**
 Sorting by an order, and the increasing enumeration of a set of numbers.

 The sort is stable.  It keeps the members and puts them in order for every total preorder,
 and leaves what is sorted already as it is.  An order without ties leaves only one way to
 sort, so the result does not depend on the order the members came in; under any other, the
 earlier of two tied members stays first.
 */
module Sorting {
  ghost predicate Preorder<T(!new)>(le: (T, T) -> bool) {
    && (forall x, y :: le(x, y) || le(y, x))
    && (forall x, y, z :: le(x, y) && le(y, z) ==> le(x, z))
  }

  ghost predicate Antisymmetric<T(!new)>(le: (T, T) -> bool) {
    forall x, y :: le(x, y) && le(y, x) ==> x == y
  }

  predicate Sorted<T>(s: seq<T>, le: (T, T) -> bool) {
    forall i, j :: 0 <= i < j < |s| ==> le(s[i], s[j])
  }

  function Insert<T>(x: T, s: seq<T>, le: (T, T) -> bool): seq<T> {
    if |s| == 0 then [x]
    else if le(x, s[0]) then [x] + s
    else [s[0]] + Insert(x, s[1..], le)
  }

  /** A stable sort. */
  function Sort<T>(s: seq<T>, le: (T, T) -> bool): seq<T> {
    if |s| == 0 then [] else Insert(s[0], Sort(s[1..], le), le)
  }

  lemma {:induction false} InsertKeepsElements<T>(x: T, s: seq<T>, le: (T, T) -> bool)
    ensures multiset(Insert(x, s, le)) == multiset(s) + multiset{x}
    ensures |Insert(x, s, le)| == |s| + 1
  {
    if |s| > 0 && !le(x, s[0]) {
      InsertKeepsElements(x, s[1..], le);
      assert s == [s[0]] + s[1..];
    }
  }

  lemma {:induction false} InsertKeepsSorted<T(!new)>(x: T, s: seq<T>, le: (T, T) -> bool)
    requires Preorder(le) && Sorted(s, le)
    ensures Sorted(Insert(x, s, le), le)
  {
    if |s| == 0 {
    } else if le(x, s[0]) {
      forall j | 0 <= j < |s| ensures le(x, s[j]) {
        assert j == 0 || le(s[0], s[j]);
      }
    } else {
      var rest := Insert(x, s[1..], le);
      InsertKeepsSorted(x, s[1..], le);
      forall j | 0 <= j < |rest| ensures le(s[0], rest[j]) {
        InsertMembers(x, s[1..], le, rest[j]);
      }
    }
  }

  lemma InsertMembers<T>(x: T, s: seq<T>, le: (T, T) -> bool, y: T)
    ensures y in Insert(x, s, le) <==> y == x || y in s
  {
    InsertKeepsElements(x, s, le);
    assert y in Insert(x, s, le) <==> y in multiset(Insert(x, s, le));
    assert y in s <==> y in multiset(s);
  }

  lemma {:induction false} SortIsSorted<T(!new)>(s: seq<T>, le: (T, T) -> bool)
    requires Preorder(le)
    ensures Sorted(Sort(s, le), le)
    ensures multiset(Sort(s, le)) == multiset(s) && |Sort(s, le)| == |s|
  {
    if |s| > 0 {
      SortIsSorted(s[1..], le);
      InsertKeepsSorted(s[0], Sort(s[1..], le), le);
      InsertKeepsElements(s[0], Sort(s[1..], le), le);
      assert s == [s[0]] + s[1..];
    }
  }

  lemma SortMembers<T(!new)>(s: seq<T>, le: (T, T) -> bool, y: T)
    requires Preorder(le)
    ensures y in Sort(s, le) <==> y in s
  {
    SortIsSorted(s, le);
    assert y in Sort(s, le) <==> y in multiset(Sort(s, le));
    assert y in s <==> y in multiset(s);
  }

  lemma HeadIsLeast<T(!new)>(a: seq<T>, b: seq<T>, le: (T, T) -> bool)
    requires Preorder(le) && Antisymmetric(le)
    requires Sorted(a, le) && Sorted(b, le) && multiset(a) == multiset(b) && |a| > 0
    ensures |b| > 0 && a[0] == b[0]
  {
    assert a[0] in multiset(b);
    var j :| 0 <= j < |b| && b[j] == a[0];
    assert b[0] in multiset(a);
    var i :| 0 <= i < |a| && a[i] == b[0];
    assert le(a[0], a[i]) && le(b[0], b[j]);
  }

  lemma TailLoses<T>(s: seq<T>)
    requires |s| > 0
    ensures multiset(s[1..]) == multiset(s) - multiset{s[0]} && s == [s[0]] + s[1..]
  {
    assert s == [s[0]] + s[1..];
  }

  lemma TailIsSorted<T(!new)>(s: seq<T>, le: (T, T) -> bool)
    requires |s| > 0 && Sorted(s, le)
    ensures Sorted(s[1..], le)
  {
    var tail := s[1..];
    assert forall i :: 0 <= i < |tail| ==> tail[i] == s[i + 1];
  }

  lemma SameMembersSameLength<T>(a: seq<T>, b: seq<T>)
    requires multiset(a) == multiset(b)
    ensures |a| == |b|
  {
    assert |a| == |multiset(a)| && |b| == |multiset(b)|;
  }

  lemma TailsAgree<T(!new)>(a: seq<T>, b: seq<T>, le: (T, T) -> bool)
    requires Preorder(le) && Antisymmetric(le)
    requires Sorted(a, le) && Sorted(b, le) && multiset(a) == multiset(b) && |a| > 0
    ensures |b| > 0 && a[0] == b[0] && multiset(a[1..]) == multiset(b[1..])
    ensures Sorted(a[1..], le) && Sorted(b[1..], le)
  {
    HeadIsLeast(a, b, le);
    TailLoses(a);
    TailLoses(b);
    TailIsSorted(a, le);
    TailIsSorted(b, le);
  }

  lemma FromTails<T>(a: seq<T>, b: seq<T>)
    requires |a| > 0 && |b| > 0 && a[0] == b[0] && a[1..] == b[1..]
    ensures a == b
  {
    assert a == [a[0]] + a[1..] && b == [b[0]] + b[1..];
  }

  /** An order without ties leaves only one way to sort. */
  lemma {:induction false} SortedIsUnique<T(!new)>(a: seq<T>, b: seq<T>, le: (T, T) -> bool)
    requires Preorder(le) && Antisymmetric(le)
    requires Sorted(a, le) && Sorted(b, le) && multiset(a) == multiset(b)
    ensures a == b
  {
    if |a| > 0 {
      TailsAgree(a, b, le);
      SortedIsUnique(a[1..], b[1..], le);
      FromTails(a, b);
    } else {
      SameMembersSameLength(a, b);
    }
  }

  /** Sorting leaves a sorted sequence as it is, ties included. */
  lemma {:induction false} SortedStays<T(!new)>(s: seq<T>, le: (T, T) -> bool)
    requires Sorted(s, le)
    ensures Sort(s, le) == s
  {
    if |s| > 0 {
      TailIsSorted(s, le);
      SortedStays(s[1..], le);
      assert s == [s[0]] + s[1..];
    }
  }

  // ---- sets of numbers -----------------------------------------------------------

  predicate Increasing(s: seq<nat>) {
    forall i, j :: 0 <= i < j < |s| ==> s[i] < s[j]
  }

  /** The members of a set of numbers below n, in increasing order. */
  function Ascending(members: set<nat>, n: nat): seq<nat> {
    if n == 0 then [] else Ascending(members, n - 1) + (if n - 1 in members then [n - 1] else [])
  }

  lemma {:induction false} AscendingIsExact(members: set<nat>, n: nat)
    ensures Increasing(Ascending(members, n))
    ensures forall p :: p in Ascending(members, n) <==> p in members && p < n
  {
    if n > 0 {
      AscendingIsExact(members, n - 1);
      var front := Ascending(members, n - 1);
      assert forall i :: 0 <= i < |front| ==> front[i] in front;
    }
  }
}
