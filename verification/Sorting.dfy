/** Python's `sorted`: a stable insertion order, and what it guarantees. */
module Sorting {

  ghost predicate TotalPreorder<T(!new)>(le: (T, T) -> bool) {
    && (forall x, y :: le(x, y) || le(y, x))
    && (forall x, y, z :: le(x, y) && le(y, z) ==> le(x, z))
  }

  ghost predicate SortedBy<T>(items: seq<T>, le: (T, T) -> bool) {
    forall i, j :: 0 <= i < j < |items| ==> le(items[i], items[j])
  }

  /** Place `x` after every element it is not below. */
  function Insert<T>(x: T, items: seq<T>, le: (T, T) -> bool): (r: seq<T>)
    ensures |r| == |items| + 1
    ensures multiset(r) == multiset(items) + multiset{x}
  {
    if |items| == 0 then [x]
    else
      var last := items[|items| - 1];
      assert items == items[..|items| - 1] + [last];
      if le(last, x) then items + [x]
      else Insert(x, items[..|items| - 1], le) + [last]
  }

  function Sort<T>(items: seq<T>, le: (T, T) -> bool): (r: seq<T>)
    ensures |r| == |items|
    ensures multiset(r) == multiset(items)
  {
    if |items| == 0 then []
    else
      assert items == items[..|items| - 1] + [items[|items| - 1]];
      Insert(items[|items| - 1], Sort(items[..|items| - 1], le), le)
  }

  lemma {:induction false} InsertSorted<T(!new)>(x: T, items: seq<T>, le: (T, T) -> bool)
    requires TotalPreorder(le) && SortedBy(items, le)
    ensures SortedBy(Insert(x, items, le), le)
  {
    if |items| > 0 && !le(items[|items| - 1], x) {
      var front, last := items[..|items| - 1], items[|items| - 1];
      InsertSorted(x, front, le);
      var r := Insert(x, front, le);
      forall i | 0 <= i < |r| ensures le(r[i], last) {
        assert r[i] in multiset(r);
        if r[i] != x {
          assert r[i] in multiset(front);
          assert r[i] in front;
        }
      }
    }
  }

  lemma {:induction false} SortSorted<T(!new)>(items: seq<T>, le: (T, T) -> bool)
    requires TotalPreorder(le)
    ensures SortedBy(Sort(items, le), le)
  {
    if |items| > 0 {
      SortSorted(items[..|items| - 1], le);
      InsertSorted(items[|items| - 1], Sort(items[..|items| - 1], le), le);
    }
  }

  lemma SortMembers<T>(items: seq<T>, le: (T, T) -> bool, x: T)
    ensures x in Sort(items, le) <==> x in items
  {
    assert x in multiset(Sort(items, le)) <==> x in multiset(items);
  }

  lemma LastIsGreatest<T(!new)>(items: seq<T>, le: (T, T) -> bool, x: T)
    requires TotalPreorder(le) && SortedBy(items, le) && x in multiset(items)
    ensures |items| > 0 && le(x, items[|items| - 1])
  {
    var i :| 0 <= i < |items| && items[i] == x;
    assert le(x, x);
  }

  lemma DropLast<T(!new)>(items: seq<T>, le: (T, T) -> bool)
    requires |items| > 0 && SortedBy(items, le)
    ensures SortedBy(items[..|items| - 1], le)
    ensures multiset(items[..|items| - 1]) == multiset(items) - multiset{items[|items| - 1]}
  {
    assert items == items[..|items| - 1] + [items[|items| - 1]];
  }

  /** Sorted arrangements of the same elements under an antisymmetric order are the same sequence. */
  lemma {:induction false} SortedUnique<T(!new)>(a: seq<T>, b: seq<T>, le: (T, T) -> bool)
    requires TotalPreorder(le) && forall x, y :: le(x, y) && le(y, x) ==> x == y
    requires SortedBy(a, le) && SortedBy(b, le) && multiset(a) == multiset(b)
    ensures a == b
  {
    hide TotalPreorder, SortedBy;
    assert |a| == |multiset(a)| == |multiset(b)| == |b|;
    if |a| > 0 {
      var n := |a| - 1;
      assert a[n] in multiset(a) && b[n] in multiset(b);
      LastIsGreatest(b, le, a[n]);
      LastIsGreatest(a, le, b[n]);
      DropLast(a, le);
      DropLast(b, le);
      SortedUnique(a[..n], b[..n], le);
      assert a == a[..n] + [a[n]] && b == b[..n] + [b[n]];
    }
  }
}
