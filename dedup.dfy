/**
 * Deduplication by url in `updateNews`: one scan over the combined items
 * that keeps an item only when its url has not been seen yet.
 */
module Dedup {
  import opened Items

  /** The urls occurring in `s`. */
  function Urls(s: seq<NewsItem>): set<string> {
    set x | x in s :: x.url
  }

  /** No two items of `s` share a url. */
  predicate DistinctUrls(s: seq<NewsItem>) {
    forall i, j :: 0 <= i < j < |s| ==> s[i].url != s[j].url
  }

  /** `a` is `b` with some items left out: its items occur in `b` in the same order. */
  predicate IsSubsequence(a: seq<NewsItem>, b: seq<NewsItem>)
    decreases |b|
  {
    || a == []
    || (b != [] && ((a[|a| - 1] == b[|b| - 1] && IsSubsequence(a[..|a| - 1], b[..|b| - 1]))
                    || IsSubsequence(a, b[..|b| - 1])))
  }

  /** The position of the first item of `s` with url `u`. */
  function FirstIndex(s: seq<NewsItem>, u: string): (k: nat)
    requires u in Urls(s)
    ensures k < |s| && s[k].url == u
    ensures forall j :: 0 <= j < k ==> s[j].url != u
  {
    if s[0].url == u then 0
    else
      assert u in Urls(s[1..]) by {
        var x :| x in s && x.url == u;
        assert x != s[0];
      }
      1 + FirstIndex(s[1..], u)
  }

  /**
   * The items the scan keeps, defined scan step by scan step: after the
   * items of `s` minus its last, the last is kept when its url is new.
   */
  function FirstByUrl(s: seq<NewsItem>): seq<NewsItem> {
    if s == [] then []
    else
      var kept := FirstByUrl(s[..|s| - 1]);
      if s[|s| - 1].url in Urls(kept) then kept else kept + [s[|s| - 1]]
  }

  lemma UrlsAppend(s: seq<NewsItem>, x: NewsItem)
    ensures Urls(s + [x]) == Urls(s) + {x.url}
  {
  }

  /** Deduplication keeps every url of the input and invents none. */
  lemma {:induction false} FirstByUrlUrls(s: seq<NewsItem>)
    ensures Urls(FirstByUrl(s)) == Urls(s)
  {
    if s != [] {
      var init, last := s[..|s| - 1], s[|s| - 1];
      assert s == init + [last];
      FirstByUrlUrls(init);
      UrlsAppend(init, last);
      UrlsAppend(FirstByUrl(init), last);
    }
  }

  /** No two kept items share a url. */
  lemma {:induction false} FirstByUrlDistinct(s: seq<NewsItem>)
    ensures DistinctUrls(FirstByUrl(s))
  {
    if s != [] {
      var init, last := s[..|s| - 1], s[|s| - 1];
      FirstByUrlDistinct(init);
      var kept := FirstByUrl(init);
      if last.url !in Urls(kept) {
        var r := kept + [last];
        forall i, j | 0 <= i < j < |r| ensures r[i].url != r[j].url {
          if j == |kept| {
            assert r[i] in kept;
          }
        }
      }
    }
  }

  /** The kept items are a subsequence of the input. */
  lemma {:induction false} FirstByUrlSubsequence(s: seq<NewsItem>)
    ensures IsSubsequence(FirstByUrl(s), s)
  {
    if s != [] {
      var init, last := s[..|s| - 1], s[|s| - 1];
      FirstByUrlSubsequence(init);
      var kept := FirstByUrl(init);
      if last.url !in Urls(kept) {
        assert (kept + [last])[..|kept|] == kept;
      }
    }
  }

  lemma FirstIndexPrefix(p: seq<NewsItem>, x: NewsItem, u: string)
    requires u in Urls(p)
    ensures u in Urls(p + [x]) && FirstIndex(p + [x], u) == FirstIndex(p, u)
  {
    UrlsAppend(p, x);
    var k1, k2 := FirstIndex(p + [x], u), FirstIndex(p, u);
    assert (p + [x])[k2] == p[k2];
  }

  /** Each kept item is the first item of the input with its url: first seen wins. */
  lemma {:induction false} FirstByUrlFirstSeen(s: seq<NewsItem>)
    ensures forall i :: 0 <= i < |FirstByUrl(s)| ==>
              FirstByUrl(s)[i].url in Urls(s) && FirstByUrl(s)[i] == s[FirstIndex(s, FirstByUrl(s)[i].url)]
  {
    if s != [] {
      var init, last := s[..|s| - 1], s[|s| - 1];
      assert s == init + [last];
      FirstByUrlFirstSeen(init);
      FirstByUrlUrls(init);
      var kept := FirstByUrl(init);
      var r := FirstByUrl(s);
      forall i | 0 <= i < |r| ensures r[i].url in Urls(s) && r[i] == s[FirstIndex(s, r[i].url)] {
        if i < |kept| {
          assert r[i] == kept[i];
          FirstIndexPrefix(init, last, kept[i].url);
        } else {
          assert r[i] == last && last.url !in Urls(init);
          UrlsAppend(init, last);
        }
      }
    }
  }

  /** A list whose urls are already distinct is left as it is. */
  lemma {:induction false} FirstByUrlOfDistinct(s: seq<NewsItem>)
    requires DistinctUrls(s)
    ensures FirstByUrl(s) == s
  {
    if s != [] {
      var init, last := s[..|s| - 1], s[|s| - 1];
      assert s == init + [last];
      FirstByUrlOfDistinct(init);
    }
  }

  /** Deduplicating a second time changes nothing. */
  lemma {:induction false} FirstByUrlIdempotent(s: seq<NewsItem>)
    ensures FirstByUrl(FirstByUrl(s)) == FirstByUrl(s)
  {
    FirstByUrlDistinct(s);
    FirstByUrlOfDistinct(FirstByUrl(s));
  }

  /** A list with distinct urls has as many items as urls. */
  lemma {:induction false} DistinctUrlsCount(s: seq<NewsItem>)
    requires DistinctUrls(s)
    ensures |Urls(s)| == |s|
  {
    if s != [] {
      var init, last := s[..|s| - 1], s[|s| - 1];
      assert s == init + [last];
      DistinctUrlsCount(init);
      UrlsAppend(init, last);
    }
  }

  /** Deduplication keeps exactly one item per distinct url of the input. */
  lemma FirstByUrlCount(s: seq<NewsItem>)
    ensures |FirstByUrl(s)| == |Urls(s)|
  {
    FirstByUrlDistinct(s);
    DistinctUrlsCount(FirstByUrl(s));
    FirstByUrlUrls(s);
  }

  /** The first item with url `u` in `p + q` is the first in `q` when `p` lacks `u`. */
  lemma FirstIndexAfter(p: seq<NewsItem>, q: seq<NewsItem>, u: string)
    requires u !in Urls(p) && u in Urls(q)
    ensures u in Urls(p + q) && FirstIndex(p + q, u) == |p| + FirstIndex(q, u)
  {
    var k := FirstIndex(q, u);
    assert (p + q)[|p| + k] == q[k];
    var k' := FirstIndex(p + q, u);
    assert k' >= |p|;
    assert (p + q)[k'] == q[k' - |p|];
  }

  /** The first item with url `u` in `p + q` is the first in `p` when `p` has `u`. */
  lemma FirstIndexBefore(p: seq<NewsItem>, q: seq<NewsItem>, u: string)
    requires u in Urls(p)
    ensures u in Urls(p + q) && FirstIndex(p + q, u) == FirstIndex(p, u)
  {
    var k := FirstIndex(p, u);
    assert (p + q)[k] == p[k];
  }

  /**
   * In a list made of a part without url `u`, then a part with it, then
   * anything, deduplication keeps for `u` exactly the middle part's first
   * item with `u`.
   */
  lemma KeptAcrossParts(before: seq<NewsItem>, own: seq<NewsItem>, after: seq<NewsItem>, u: string)
    requires u !in Urls(before) && u in Urls(own)
    ensures var unique := FirstByUrl(before + own + after);
            var x := own[FirstIndex(own, u)];
            x in unique && forall y :: y in unique && y.url == u ==> y == x
  {
    var all := before + own + after;
    assert all == before + (own + after);
    FirstIndexBefore(own, after, u);
    FirstIndexAfter(before, own + after, u);
    var x := own[FirstIndex(own, u)];
    assert all[FirstIndex(all, u)] == x;
    var unique := FirstByUrl(all);
    FirstByUrlFirstSeen(all);
    FirstByUrlUrls(all);
    assert u in Urls(unique);
    var z :| z in unique && z.url == u;
    var i :| 0 <= i < |unique| && unique[i] == z;
  }

  /**
   * The loop of `updateNews` over `allItems`, with the `seenUrls` set and
   * the `uniqueItems` list it pushes onto.
   */
  method Deduplicate(allItems: seq<NewsItem>) returns (uniqueItems: seq<NewsItem>)
    ensures uniqueItems == FirstByUrl(allItems)
  {
    uniqueItems := [];
    var seenUrls: set<string> := {};
    for i := 0 to |allItems|
      invariant uniqueItems == FirstByUrl(allItems[..i])
      invariant seenUrls == Urls(uniqueItems)
    {
      var item := allItems[i];
      assert allItems[..i + 1][..i] == allItems[..i];
      if item.url !in seenUrls {
        UrlsAppend(uniqueItems, item);
        seenUrls := seenUrls + {item.url};
        uniqueItems := uniqueItems + [item];
      }
    }
    assert allItems[..|allItems|] == allItems;
  }
}
