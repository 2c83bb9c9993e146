/**
 * The two operations of Python's built-in `list` that the game relies on:
 * `list.remove(x)`, which drops the first occurrence of `x`, and `list.sort()`,
 * which leaves the list in ascending order. Both are modelled on values.
 */
module PyList {

  /** Ascending order, duplicates allowed: the order `list.sort()` establishes. */
  predicate IsSorted(s: seq<int>) {
    forall i, j | 0 <= i < j < |s| :: s[i] <= s[j]
  }

  /** Strictly ascending: sorted, and no element twice. */
  predicate Increasing(s: seq<int>) {
    forall i, j | 0 <= i < j < |s| :: s[i] < s[j]
  }

  /** A strictly ascending list holds each of its elements exactly once. */
  lemma {:induction false} IncreasingCount(s: seq<int>, k: int)
    requires Increasing(s)
    ensures multiset(s)[k] == if k in s then 1 else 0
  {
    if s != [] {
      assert Increasing(s[1..]);
      IncreasingCount(s[1..], k);
      MultisetTail(s);
      assert s == [s[0]] + s[1..];
      if k == s[0] {
        assert forall i | 0 <= i < |s[1..]| :: s[1..][i] > k;
      }
    }
  }

  /** Puts `x` in front of the first element not below it. */
  function Insert(x: int, s: seq<int>): (r: seq<int>)
    ensures |r| == |s| + 1
  {
    if s == [] || x <= s[0] then [x] + s
    else [s[0]] + Insert(x, s[1..])
  }

  /** Inserting into an ascending list keeps it ascending and adds exactly `x`. */
  lemma {:induction false} InsertFacts(x: int, s: seq<int>)
    requires IsSorted(s)
    ensures IsSorted(Insert(x, s))
    ensures multiset(Insert(x, s)) == multiset(s) + multiset{x}
  {
    if s == [] || x <= s[0] {
      SortedCons(x, s);
    } else {
      SortedTail(s);
      InsertFacts(x, s[1..]);
      var rest := Insert(x, s[1..]);
      MultisetTail(s);
      LowerBound(s[0], s[1..], x, rest);
      SortedCons(s[0], rest);
    }
  }

  /** A lower bound of `t` and of `x` bounds the head of any list holding exactly their elements. */
  lemma LowerBound(h: int, t: seq<int>, x: int, r: seq<int>)
    requires r != [] && multiset(r) == multiset(t) + multiset{x}
    requires h <= x && forall i | 0 <= i < |t| :: h <= t[i]
    ensures h <= r[0]
  {
    assert r[0] in multiset(r);
  }

  /**
   * `list.sort()` on a list of integers, as an insertion sort. It keeps the
   * length; `SortListFacts` proves the result sorted with the same elements.
   */
  function SortList(s: seq<int>): (r: seq<int>)
    ensures |r| == |s|
  {
    if s == [] then [] else Insert(s[0], SortList(s[1..]))
  }

  /** `list.sort()` leaves the same elements in ascending order. */
  lemma {:induction false} SortListFacts(s: seq<int>)
    ensures IsSorted(SortList(s))
    ensures multiset(SortList(s)) == multiset(s)
  {
    if s != [] {
      SortListFacts(s[1..]);
      InsertFacts(s[0], SortList(s[1..]));
      MultisetTail(s);
    }
  }

  /**
   * `list.remove(x)`: the list without the first occurrence of `x`. Python raises
   * `ValueError` when `x` is absent; callers check membership first.
   */
  function RemoveFirst(s: seq<int>, x: int): (r: seq<int>)
    requires x in s
    ensures |r| == |s| - 1
  {
    if s[0] == x then s[1..] else [s[0]] + RemoveFirst(s[1..], x)
  }

  /** `list.remove(x)` takes away exactly one `x` and nothing else. */
  lemma {:induction false} RemoveFirstFacts(s: seq<int>, x: int)
    requires x in s
    ensures multiset(RemoveFirst(s, x)) == multiset(s) - multiset{x}
  {
    MultisetTail(s);
    if s[0] != x {
      RemoveFirstFacts(s[1..], x);
    }
  }

  /** Sorting a list that is already ascending leaves it as it is. */
  lemma SortListOfSorted(s: seq<int>)
    requires IsSorted(s)
    ensures SortList(s) == s
  {
    SortListFacts(s);
    SortedUnique(SortList(s), s);
  }

  /** Removing an element keeps an ascending list ascending. */
  lemma {:induction false} RemoveFirstSorted(s: seq<int>, x: int)
    requires x in s && IsSorted(s)
    ensures IsSorted(RemoveFirst(s, x))
  {
    if s[0] != x {
      SortedTail(s);
      RemoveFirstSorted(s[1..], x);
      RemoveFirstFacts(s[1..], x);
      var rest := RemoveFirst(s[1..], x);
      forall i | 0 <= i < |rest| ensures s[0] <= rest[i] {
        assert rest[i] in multiset(rest);
        assert rest[i] in s[1..];
      }
      SortedCons(s[0], rest);
    }
  }

  /** The head of an ascending list is its least element. */
  lemma HeadIsLeast(s: seq<int>, y: int)
    requires IsSorted(s) && y in multiset(s)
    ensures s[0] <= y
  {
    var i :| 0 <= i < |s| && s[i] == y;
  }

  lemma SortedTail(s: seq<int>)
    requires IsSorted(s) && s != []
    ensures IsSorted(s[1..])
  {
  }

  lemma SortedCons(h: int, t: seq<int>)
    requires IsSorted(t) && (t == [] || h <= t[0])
    ensures IsSorted([h] + t)
  {
  }

  lemma MultisetTail(s: seq<int>)
    requires s != []
    ensures multiset(s) == multiset{s[0]} + multiset(s[1..])
    ensures multiset(s[1..]) == multiset(s) - multiset{s[0]}
  {
    assert s == [s[0]] + s[1..];
  }

  /** Two ascending lists with the same elements start with the same element. */
  lemma SameHead(a: seq<int>, b: seq<int>)
    requires IsSorted(a) && IsSorted(b) && a != [] && b != []
    requires multiset(a) == multiset(b)
    ensures a[0] == b[0]
  {
    assert a[0] in multiset(b);
    assert b[0] in multiset(a);
    HeadIsLeast(a, b[0]);
    HeadIsLeast(b, a[0]);
  }

  /** Two ascending lists with the same elements are the same list. */
  lemma {:induction false} SortedUnique(a: seq<int>, b: seq<int>)
    requires IsSorted(a) && IsSorted(b)
    requires multiset(a) == multiset(b)
    ensures a == b
  {
    if a == [] || b == [] {
      assert |a| == |multiset(a)| && |b| == |multiset(b)|;
    } else {
      SameHead(a, b);
      SortedTails(a, b);
      SortedUnique(a[1..], b[1..]);
      assert a == [a[0]] + a[1..];
      assert b == [b[0]] + b[1..];
    }
  }

  lemma SortedTails(a: seq<int>, b: seq<int>)
    requires IsSorted(a) && IsSorted(b) && a != [] && b != []
    requires multiset(a) == multiset(b) && a[0] == b[0]
    ensures IsSorted(a[1..]) && IsSorted(b[1..])
    ensures multiset(a[1..]) == multiset(b[1..])
  {
    MultisetTail(a);
    MultisetTail(b);
  }

}
