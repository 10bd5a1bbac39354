/**
 * `uniqueItems.sort((a, b) => new Date(b.date) - new Date(a.date))`: a
 * stable sort, newest first. `NewestFirst` specifies the result as a
 * stable insertion sort; the lemmas show that it is sorted, a permutation,
 * stable, and the only list with those properties, so it is what any
 * stable sort with that comparator returns.
 */
module Sorting {
  import opened Items

  /** Dates never increase from one item to a later one. */
  predicate SortedNewestFirst(s: seq<NewsItem>) {
    forall i, j :: 0 <= i < j < |s| ==> s[i].date >= s[j].date
  }

  /** The items of `s` dated `d`, in their order in `s`. */
  function WithDate(s: seq<NewsItem>, d: Timestamp): seq<NewsItem> {
    if s == [] then []
    else WithDate(s[..|s| - 1], d) + (if s[|s| - 1].date == d then [s[|s| - 1]] else [])
  }

  /** `x` placed into the sorted `r` after every item dated no earlier than `x`. */
  function InsertByDate(r: seq<NewsItem>, x: NewsItem): seq<NewsItem> {
    if r == [] || r[|r| - 1].date >= x.date then r + [x]
    else InsertByDate(r[..|r| - 1], x) + [r[|r| - 1]]
  }

  /** A stable sort by date, newest first: each item is inserted after those that came before it. */
  function NewestFirst(s: seq<NewsItem>): seq<NewsItem> {
    if s == [] then [] else InsertByDate(NewestFirst(s[..|s| - 1]), s[|s| - 1])
  }

  lemma WithDateAppend(s: seq<NewsItem>, x: NewsItem, d: Timestamp)
    ensures WithDate(s + [x], d) == WithDate(s, d) + (if x.date == d then [x] else [])
  {
  }

  lemma {:induction false} InWithDate(s: seq<NewsItem>, d: Timestamp, y: NewsItem)
    requires y in WithDate(s, d)
    ensures y in s && y.date == d
  {
    if s != [] {
      var init, last := s[..|s| - 1], s[|s| - 1];
      assert s == init + [last];
      if y in WithDate(init, d) {
        InWithDate(init, d, y);
      }
    }
  }

  /** Inserting adds exactly `x`. */
  lemma {:induction false} InsertByDateMultiset(r: seq<NewsItem>, x: NewsItem)
    ensures multiset(InsertByDate(r, x)) == multiset(r) + multiset{x}
  {
    if r != [] && r[|r| - 1].date < x.date {
      var init, last := r[..|r| - 1], r[|r| - 1];
      assert r == init + [last];
      InsertByDateMultiset(init, x);
    }
  }

  /** Inserting into a sorted list keeps it sorted. */
  lemma {:induction false} InsertByDateSorted(r: seq<NewsItem>, x: NewsItem)
    requires SortedNewestFirst(r)
    ensures SortedNewestFirst(InsertByDate(r, x))
  {
    if r != [] && r[|r| - 1].date < x.date {
      var init, last := r[..|r| - 1], r[|r| - 1];
      InsertByDateSorted(init, x);
      InsertByDateMultiset(init, x);
      var t' := InsertByDate(init, x);
      var t := t' + [last];
      forall i, j | 0 <= i < j < |t| ensures t[i].date >= t[j].date {
        if j == |t'| {
          assert t[i] in multiset(t');
        }
      }
    }
  }

  /** Inserting into a sorted list puts `x` after every item of its date. */
  lemma {:induction false} InsertByDateWithDate(r: seq<NewsItem>, x: NewsItem, d: Timestamp)
    ensures WithDate(InsertByDate(r, x), d) == WithDate(r, d) + (if x.date == d then [x] else [])
  {
    if r == [] || r[|r| - 1].date >= x.date {
      WithDateAppend(r, x, d);
    } else {
      var init, last := r[..|r| - 1], r[|r| - 1];
      assert r == init + [last];
      InsertByDateWithDate(init, x, d);
      WithDateAppend(InsertByDate(init, x), last, d);
      WithDateAppend(init, last, d);
    }
  }

  /** `NewestFirst` is a stable sort newest first: sorted, a permutation, and each date's items in input order. */
  lemma {:induction false} NewestFirstIsStableSort(s: seq<NewsItem>)
    ensures SortedNewestFirst(NewestFirst(s))
    ensures multiset(NewestFirst(s)) == multiset(s)
    ensures forall d :: WithDate(NewestFirst(s), d) == WithDate(s, d)
  {
    if s != [] {
      var init, last := s[..|s| - 1], s[|s| - 1];
      assert s == init + [last];
      NewestFirstIsStableSort(init);
      InsertByDateSorted(NewestFirst(init), last);
      InsertByDateMultiset(NewestFirst(init), last);
      forall d ensures WithDate(NewestFirst(s), d) == WithDate(s, d) {
        InsertByDateWithDate(NewestFirst(init), last, d);
        WithDateAppend(init, last, d);
      }
    }
  }

  lemma AppendCancel<T>(a: seq<T>, x: T, b: seq<T>, y: T)
    requires a + [x] == b + [y]
    ensures a == b && x == y
  {
    assert a == (a + [x])[..|a|] && b == (b + [y])[..|b|];
    assert x == (a + [x])[|a|] && y == (b + [y])[|b|];
  }

  /** The last item of a non-empty list is the last of the items of its date. */
  lemma WithDateLast(s: seq<NewsItem>)
    requires s != []
    ensures var last := s[|s| - 1];
            WithDate(s, last.date) == WithDate(s[..|s| - 1], last.date) + [last]
  {
  }

  /** Two lists that agree on the items of every date have the same last item's date, when sorted. */
  lemma LastDateAgrees(r1: seq<NewsItem>, r2: seq<NewsItem>)
    requires SortedNewestFirst(r1) && r1 != [] && r2 != []
    requires WithDate(r1, r2[|r2| - 1].date) == WithDate(r2, r2[|r2| - 1].date)
    ensures r2[|r2| - 1].date >= r1[|r1| - 1].date
  {
    var y := r2[|r2| - 1];
    WithDateLast(r2);
    assert y in WithDate(r1, y.date);
    InWithDate(r1, y.date, y);
  }

  /** Two sorted lists that agree on the items of every date, in order, are the same list. */
  lemma {:induction false} StableSortIsUnique(r1: seq<NewsItem>, r2: seq<NewsItem>)
    requires SortedNewestFirst(r1) && SortedNewestFirst(r2)
    requires forall d :: WithDate(r1, d) == WithDate(r2, d)
    ensures r1 == r2
    decreases |r1| + |r2|
  {
    if r1 != [] && r2 == [] {
      WithDateLast(r1);
    } else if r1 == [] && r2 != [] {
      WithDateLast(r2);
    } else if r1 != [] {
      var init1, last1 := r1[..|r1| - 1], r1[|r1| - 1];
      var init2, last2 := r2[..|r2| - 1], r2[|r2| - 1];
      LastDateAgrees(r1, r2);
      LastDateAgrees(r2, r1);
      var m := last1.date;
      WithDateLast(r1);
      WithDateLast(r2);
      AppendCancel(WithDate(init1, m), last1, WithDate(init2, m), last2);
      assert r1 == init1 + [last1] && r2 == init2 + [last2];
      forall d ensures WithDate(init1, d) == WithDate(init2, d) {
        if d != m {
          WithDateAppend(init1, last1, d);
          WithDateAppend(init2, last2, d);
          assert WithDate(init1, d) == WithDate(r1, d) == WithDate(r2, d) == WithDate(init2, d);
        }
      }
      StableSortIsUnique(init1, init2);
      assert r1 == init1 + [last1] && r2 == init2 + [last2];
    }
  }

  /** Any list sorted newest first that keeps each date's items in input order is `NewestFirst(s)`. */
  lemma NewestFirstIsTheStableSort(s: seq<NewsItem>, r: seq<NewsItem>)
    requires SortedNewestFirst(r)
    requires forall d :: WithDate(r, d) == WithDate(s, d)
    ensures r == NewestFirst(s)
  {
    NewestFirstIsStableSort(s);
    StableSortIsUnique(r, NewestFirst(s));
  }

  /**
   * `x` lands right after the last item dated no earlier than it, when all
   * items after that one are dated before it.
   */
  lemma {:induction false} InsertByDateAt(sorted: seq<NewsItem>, j: nat, x: NewsItem)
    requires j <= |sorted| && (j == 0 || sorted[j - 1].date >= x.date)
    requires forall k :: j <= k < |sorted| ==> sorted[k].date < x.date
    ensures InsertByDate(sorted, x) == sorted[..j] + [x] + sorted[j..]
    decreases |sorted|
  {
    if j < |sorted| {
      var init := sorted[..|sorted| - 1];
      InsertByDateAt(init, j, x);
      assert init[..j] == sorted[..j];
      assert init[j..] + [sorted[|sorted| - 1]] == sorted[j..];
    }
  }

  /**
   * One pass of the insertion sort: `a[i]` moves left past the items of
   * the sorted prefix `a[..i]` dated strictly before it.
   */
  method InsertAt(a: array<NewsItem>, i: nat)
    requires i < a.Length
    modifies a
    ensures a[..i + 1] == InsertByDate(old(a[..i]), old(a[i]))
    ensures a[i + 1..] == old(a[i + 1..])
  {
    ghost var sorted := a[..i];
    var x := a[i];
    var j := i;
    while j > 0 && a[j - 1].date < x.date
      invariant 0 <= j <= i
      invariant forall k :: 0 <= k < j ==> a[k] == sorted[k]
      invariant forall k :: j < k <= i ==> a[k] == sorted[k - 1]
      invariant forall k :: i < k < a.Length ==> a[k] == old(a[k])
      invariant forall k :: j <= k < i ==> sorted[k].date < x.date
    {
      a[j] := a[j - 1];
      j := j - 1;
    }
    a[j] := x;
    InsertByDateAt(sorted, j, x);
    ghost var inserted := sorted[..j] + [x] + sorted[j..];
    forall k | 0 <= k <= i ensures a[k] == inserted[k] {
      if k < j {
        assert inserted[k] == sorted[k];
      } else if j < k {
        assert inserted[k] == sorted[k - 1];
      }
    }
    assert a[..i + 1] == inserted;
    assert a[i + 1..] == old(a[i + 1..]);
  }

  /** `uniqueItems.sort(...)`, in place: a stable insertion sort, newest first. */
  method SortNewestFirst(a: array<NewsItem>)
    modifies a
    ensures a[..] == NewestFirst(old(a[..]))
  {
    ghost var s := a[..];
    for i := 0 to a.Length
      invariant a[..i] == NewestFirst(s[..i])
      invariant a[i..] == s[i..]
    {
      assert s[..i + 1][..i] == s[..i];
      InsertAt(a, i);
    }
    assert a[..] == a[..a.Length] && s == s[..a.Length];
  }
}
