/**
 * `updateNews`: the combined items of all feeds, deduplicated by url,
 * sorted newest first, cut to the latest 30 and wrapped with the time of
 * the update.
 */
module Digest {
  import opened Items
  import opened Fetch
  import opened Dedup
  import opened Sorting

  /** The number of items the digest keeps. */
  const MaxItems: nat := 30

  function Min(a: int, b: int): int {
    if a < b then a else b
  }

  /** The object written to `news.json`: exactly these two fields. */
  datatype NewsDigest = NewsDigest(lastUpdated: Timestamp, items: seq<NewsItem>)

  /** `uniqueItems.slice(0, 30)`. */
  function Latest(s: seq<NewsItem>): seq<NewsItem> {
    s[..Min(MaxItems, |s|)]
  }

  /** The output object built from the combined items of all feeds and the time of the update. */
  function BuildDigest(allItems: seq<NewsItem>, generatedAt: Timestamp): NewsDigest {
    NewsDigest(generatedAt, Latest(NewestFirst(FirstByUrl(allItems))))
  }

  /** The digest one run produces from the feeds' outcomes, the clock at fetch time and the clock at the end. */
  function Aggregate(feeds: seq<FeedConfig>, outcomes: seq<FeedOutcome>, now: Timestamp, generatedAt: Timestamp,
                     parse: DateParser): NewsDigest
    requires |outcomes| == |feeds|
  {
    BuildDigest(Combined(feeds, outcomes, now, parse), generatedAt)
  }

  /** Cutting a sorted list keeps its newest items: nothing left out is newer than anything kept. */
  lemma LatestAreNewest(sorted: seq<NewsItem>, x: NewsItem, y: NewsItem)
    requires SortedNewestFirst(sorted)
    requires x in sorted && x !in Latest(sorted) && y in Latest(sorted)
    ensures y.date >= x.date
  {
  }

  /** Every kept item is one of the deduplicated items. */
  lemma LatestFromUnique(unique: seq<NewsItem>, x: NewsItem)
    requires x in Latest(NewestFirst(unique))
    ensures x in unique
  {
    NewestFirstIsStableSort(unique);
    assert x in multiset(NewestFirst(unique));
  }

  /** The digest holds one item per distinct url, up to 30. */
  lemma DigestCount(allItems: seq<NewsItem>)
    ensures |Latest(NewestFirst(FirstByUrl(allItems)))| == Min(MaxItems, |Urls(allItems)|)
  {
    var unique := FirstByUrl(allItems);
    FirstByUrlCount(allItems);
    NewestFirstIsStableSort(unique);
    assert |NewestFirst(unique)| == |unique| by {
      assert |multiset(NewestFirst(unique))| == |multiset(unique)|;
    }
  }

  /** No url occurs twice in the digest. */
  lemma DigestDistinct(allItems: seq<NewsItem>)
    ensures DistinctUrls(Latest(NewestFirst(FirstByUrl(allItems))))
  {
    var unique := FirstByUrl(allItems);
    var items := Latest(NewestFirst(unique));
    FirstByUrlDistinct(allItems);
    NewestFirstDistinct(unique);
  }

  lemma {:induction false} InsertByDateUrls(r: seq<NewsItem>, x: NewsItem)
    ensures Urls(InsertByDate(r, x)) == Urls(r) + {x.url}
  {
    if r == [] || r[|r| - 1].date >= x.date {
      UrlsAppend(r, x);
    } else {
      var init, last := r[..|r| - 1], r[|r| - 1];
      assert r == init + [last];
      InsertByDateUrls(init, x);
      UrlsAppend(InsertByDate(init, x), last);
      UrlsAppend(init, last);
    }
  }

  /** Inserting an item with a new url keeps the urls distinct. */
  lemma {:induction false} InsertByDateDistinct(r: seq<NewsItem>, x: NewsItem)
    requires DistinctUrls(r) && x.url !in Urls(r)
    ensures DistinctUrls(InsertByDate(r, x))
  {
    if r == [] || r[|r| - 1].date >= x.date {
      var t := r + [x];
      forall i, j | 0 <= i < j < |t| ensures t[i].url != t[j].url {
        if j == |r| {
          assert t[i] in r;
        }
      }
    } else {
      var init, last := r[..|r| - 1], r[|r| - 1];
      assert r == init + [last];
      UrlsAppend(init, last);
      InsertByDateDistinct(init, x);
      InsertByDateUrls(init, x);
      var t' := InsertByDate(init, x);
      var t := t' + [last];
      assert last.url !in Urls(init);
      forall i, j | 0 <= i < j < |t| ensures t[i].url != t[j].url {
        if j == |t'| {
          assert t[i] in t';
        }
      }
    }
  }

  /** Sorting a list with distinct urls keeps them distinct. */
  lemma {:induction false} NewestFirstDistinct(s: seq<NewsItem>)
    requires DistinctUrls(s)
    ensures DistinctUrls(NewestFirst(s)) && Urls(NewestFirst(s)) == Urls(s)
  {
    if s != [] {
      var init, last := s[..|s| - 1], s[|s| - 1];
      assert s == init + [last];
      assert DistinctUrls(init);
      NewestFirstDistinct(init);
      UrlsAppend(init, last);
      assert last.url !in Urls(init);
      InsertByDateDistinct(NewestFirst(init), last);
      InsertByDateUrls(NewestFirst(init), last);
    }
  }

  /** The digest is newest first. */
  lemma DigestSorted(allItems: seq<NewsItem>)
    ensures var items := Latest(NewestFirst(FirstByUrl(allItems)));
            forall i :: 0 <= i < |items| - 1 ==> items[i].date >= items[i + 1].date
  {
    NewestFirstIsStableSort(FirstByUrl(allItems));
  }

  /** Each item of the digest is the first item fetched with its url. */
  lemma DigestFirstSeen(allItems: seq<NewsItem>)
    ensures forall x :: x in Latest(NewestFirst(FirstByUrl(allItems))) ==>
              x.url in Urls(allItems) && x == allItems[FirstIndex(allItems, x.url)]
  {
    var unique := FirstByUrl(allItems);
    FirstByUrlFirstSeen(allItems);
    forall x | x in Latest(NewestFirst(unique))
      ensures x.url in Urls(allItems) && x == allItems[FirstIndex(allItems, x.url)]
    {
      LatestFromUnique(unique, x);
      var i :| 0 <= i < |unique| && unique[i] == x;
    }
  }

  /** No deduplicated item left out of the digest is newer than one kept. */
  lemma DigestNewest(allItems: seq<NewsItem>)
    ensures var unique := FirstByUrl(allItems);
            var items := Latest(NewestFirst(unique));
            forall x, y :: x in unique && x !in items && y in items ==> y.date >= x.date
  {
    var unique := FirstByUrl(allItems);
    var sorted := NewestFirst(unique);
    NewestFirstIsStableSort(unique);
    forall x, y | x in unique && x !in Latest(sorted) && y in Latest(sorted) ensures y.date >= x.date {
      assert x in multiset(sorted);
      LatestAreNewest(sorted, x, y);
    }
  }

  lemma SplitAt<T>(s: seq<T>, a: nat)
    requires a < |s|
    ensures s == s[..a] + ([s[a]] + s[a + 1..])
  {
  }

  /**
   * First seen wins across feeds: an item that is the first with its url
   * in its own feed's result, when no feed configured before it yielded that
   * url, is the one deduplication keeps for that url, whichever fetch
   * finished first.
   */
  lemma EarlierFeedWins(feeds: seq<FeedConfig>, outcomes: seq<FeedOutcome>, now: Timestamp, parse: DateParser,
                        a: nat, x: NewsItem)
    requires |outcomes| == |feeds| && a < |feeds|
    requires var own := FetchFeed(feeds[a], outcomes[a], now, parse);
             x.url in Urls(own) && x == own[FirstIndex(own, x.url)]
    requires x.url !in Urls(Combined(feeds[..a], outcomes[..a], now, parse))
    ensures var unique := FirstByUrl(Combined(feeds, outcomes, now, parse));
            x in unique && forall y :: y in unique && y.url == x.url ==> y == x
  {
    var before := Combined(feeds[..a], outcomes[..a], now, parse);
    var own := FetchFeed(feeds[a], outcomes[a], now, parse);
    var after := Combined(feeds[a + 1..], outcomes[a + 1..], now, parse);
    var all := Combined(feeds, outcomes, now, parse);
    SplitAt(feeds, a);
    SplitAt(outcomes, a);
    CombinedAppend(feeds[..a], outcomes[..a], [feeds[a]] + feeds[a + 1..], [outcomes[a]] + outcomes[a + 1..], now, parse);
    CombinedAppend([feeds[a]], [outcomes[a]], feeds[a + 1..], outcomes[a + 1..], now, parse);
    CombinedSingle(feeds[a], outcomes[a], now, parse);
    assert all == before + own + after;
    KeptAcrossParts(before, own, after, x.url);
  }

  /**
   * What the written digest promises: the update time; a prefix of the
   * sorted deduplicated items, 30 long or as long as there are distinct
   * urls when fewer; no url twice; newest first; every item the first one
   * fetched with its url; and no deduplicated item left out newer than
   * one kept.
   */
  lemma DigestProperties(allItems: seq<NewsItem>, generatedAt: Timestamp)
    ensures var digest := BuildDigest(allItems, generatedAt);
            && digest.lastUpdated == generatedAt
            && digest.items == NewestFirst(FirstByUrl(allItems))[..|digest.items|]
            && |digest.items| == Min(MaxItems, |Urls(allItems)|)
            && DistinctUrls(digest.items)
            && (forall i :: 0 <= i < |digest.items| - 1 ==> digest.items[i].date >= digest.items[i + 1].date)
            && (forall x :: x in digest.items ==> x.url in Urls(allItems) && x == allItems[FirstIndex(allItems, x.url)])
            && (forall x, y :: x in FirstByUrl(allItems) && x !in digest.items && y in digest.items ==> y.date >= x.date)
  {
    DigestCount(allItems);
    DigestDistinct(allItems);
    DigestSorted(allItems);
    DigestFirstSeen(allItems);
    DigestNewest(allItems);
  }

  /**
   * `updateNews` from the fetch results to the output object: the loop
   * that deduplicates, the in-place sort, the slice and the wrapping.
   */
  method UpdateNews(feeds: seq<FeedConfig>, outcomes: seq<FeedOutcome>, now: Timestamp, generatedAt: Timestamp,
                    parse: DateParser) returns (output: NewsDigest)
    requires |outcomes| == |feeds|
    ensures output == Aggregate(feeds, outcomes, now, generatedAt, parse)
  {
    var allItems := Combined(feeds, outcomes, now, parse);
    var uniqueItems := Deduplicate(allItems);
    var sorted := new NewsItem[|uniqueItems|](i requires 0 <= i < |uniqueItems| => uniqueItems[i]);
    assert sorted[..] == uniqueItems;
    SortNewestFirst(sorted);
    var latestItems := sorted[..Min(MaxItems, sorted.Length)];
    output := NewsDigest(generatedAt, latestItems);
  }
}
