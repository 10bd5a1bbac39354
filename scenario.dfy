/**
 * A worked run: three feeds in the order Alpha, Beta, Gamma. Alpha and
 * Beta both carry url "u1", Beta's copy dated later; Gamma's fetch fails.
 * Dates are day numbers.
 */
module Scenario {
  import opened Wrappers
  import opened JsText
  import opened Items
  import opened Fetch
  import opened Dedup
  import opened Sorting
  import opened Digest

  function Day(s: string): Option<Timestamp> {
    if s == "2024-01-01" then Some(1)
    else if s == "2024-01-03" then Some(3)
    else if s == "2024-01-05" then Some(5)
    else None
  }

  function Raw(title: string, link: string, pubDate: string): RawItem {
    RawItem(Some(title), Some(link), None, Some(pubDate), None, None, None)
  }

  lemma NormalizeRaw(title: string, link: string, pubDate: string, feed: FeedConfig, now: Timestamp)
    requires title != "" && !IsJsWhitespace(title[0]) && !IsJsWhitespace(title[|title| - 1])
    requires link != "" && pubDate != "" && Day(pubDate).Some?
    ensures NormalizeItem(Raw(title, link, pubDate), feed, now, Day)
            == Some(NewsItem(title, link, feed.source, Day(pubDate).value))
  {
  }

  lemma FetchOne(feed: FeedConfig, r: RawItem, x: NewsItem, now: Timestamp)
    requires NormalizeItem(r, feed, now, Day) == Some(x)
    ensures FetchFeed(feed, Fetched([r]), now, Day) == [x]
  {
  }

  lemma FetchTwo(feed: FeedConfig, r1: RawItem, r2: RawItem, x1: NewsItem, x2: NewsItem, now: Timestamp)
    requires NormalizeItem(r1, feed, now, Day) == Some(x1) && NormalizeItem(r2, feed, now, Day) == Some(x2)
    ensures FetchFeed(feed, Fetched([r1, r2]), now, Day) == [x1, x2]
  {
  }

  lemma FlattenThree<T>(a: seq<T>, b: seq<T>, c: seq<T>)
    ensures Flatten([a, b, c]) == a + b + c
  {
    assert [a, b, c][1..] == [b, c];
    assert [b, c][1..] == [c];
    assert [c][1..] == [];
    assert Flatten([c]) == c + Flatten([c][1..]);
  }

  lemma ThreeElements<T>(s: seq<T>, a: T, b: T, c: T)
    requires |s| == 3 && s[0] == a && s[1] == b && s[2] == c
    ensures s == [a, b, c]
  {
  }

  lemma DedupThree(a: NewsItem, b: NewsItem, c: NewsItem)
    requires a.url == b.url && c.url != a.url
    ensures FirstByUrl([a, b, c]) == [a, c]
  {
    assert [a, b, c][..2] == [a, b];
    assert [a, b][..1] == [a];
    assert [a][..0] == [];
    assert FirstByUrl([a]) == [a];
    UrlsAppend([], a);
    assert FirstByUrl([a, b]) == [a];
  }

  lemma SortTwo(a: NewsItem, c: NewsItem)
    requires a.date >= c.date
    ensures NewestFirst([a, c]) == [a, c]
  {
    assert [a, c][..1] == [a];
    assert [a][..0] == [];
    assert NewestFirst([a]) == [a];
  }

  const Feeds: seq<FeedConfig> :=
    [FeedConfig("https://alpha", "Alpha"), FeedConfig("https://beta", "Beta"), FeedConfig("https://gamma", "Gamma")]

  const Outcomes: seq<FeedOutcome> :=
    [Fetched([Raw("T1", "u1", "2024-01-03")]),
     Fetched([Raw("T1-dup", "u1", "2024-01-05"), Raw("T2", "u2", "2024-01-01")]),
     FetchFailed]

  lemma AlphaFetch(now: Timestamp)
    ensures FetchFeed(Feeds[0], Outcomes[0], now, Day) == [NewsItem("T1", "u1", "Alpha", 3)]
  {
    NormalizeRaw("T1", "u1", "2024-01-03", Feeds[0], now);
    FetchOne(Feeds[0], Raw("T1", "u1", "2024-01-03"), NewsItem("T1", "u1", "Alpha", 3), now);
  }

  lemma BetaFetch(now: Timestamp)
    ensures FetchFeed(Feeds[1], Outcomes[1], now, Day) == [NewsItem("T1-dup", "u1", "Beta", 5), NewsItem("T2", "u2", "Beta", 1)]
  {
    NormalizeRaw("T1-dup", "u1", "2024-01-05", Feeds[1], now);
    NormalizeRaw("T2", "u2", "2024-01-01", Feeds[1], now);
    FetchTwo(Feeds[1], Raw("T1-dup", "u1", "2024-01-05"), Raw("T2", "u2", "2024-01-01"),
             NewsItem("T1-dup", "u1", "Beta", 5), NewsItem("T2", "u2", "Beta", 1), now);
  }

  /** Alpha's item, then both of Beta's, and nothing from Gamma. */
  lemma ThreeFeedsCombined(now: Timestamp)
    ensures Combined(Feeds, Outcomes, now, Day)
            == [NewsItem("T1", "u1", "Alpha", 3), NewsItem("T1-dup", "u1", "Beta", 5), NewsItem("T2", "u2", "Beta", 1)]
  {
    var t1, dup, t2 := NewsItem("T1", "u1", "Alpha", 3), NewsItem("T1-dup", "u1", "Beta", 5), NewsItem("T2", "u2", "Beta", 1);
    AlphaFetch(now);
    BetaFetch(now);
    var results := FetchAll(Feeds, Outcomes, now, Day);
    assert results[0] == [t1] && results[1] == [dup, t2] && results[2] == [];
    ThreeElements(results, [t1], [dup, t2], []);
    FlattenThree([t1], [dup, t2], []);
  }

  /** Alpha's copy of "u1" wins, Gamma contributes nothing, and the newer item comes first. */
  lemma ThreeFeeds(now: Timestamp, generatedAt: Timestamp)
    ensures Aggregate(Feeds, Outcomes, now, generatedAt, Day)
            == NewsDigest(generatedAt, [NewsItem("T1", "u1", "Alpha", 3), NewsItem("T2", "u2", "Beta", 1)])
  {
    var t1, dup, t2 := NewsItem("T1", "u1", "Alpha", 3), NewsItem("T1-dup", "u1", "Beta", 5), NewsItem("T2", "u2", "Beta", 1);
    ThreeFeedsCombined(now);
    DedupThree(t1, dup, t2);
    SortTwo(t1, t2);
  }
}
