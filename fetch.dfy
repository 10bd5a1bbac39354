/**
 * `fetchFeed` and the fan-out in `updateNews`: each configured feed is
 * fetched and normalised, a failing feed yields no items, and the results
 * are concatenated in the order the feeds are configured.
 */
module Fetch {
  import opened Wrappers
  import opened Items

  /**
   * What `parser.parseURL` delivers for one feed: the parsed items, or a
   * network or parse error.
   */
  datatype FeedOutcome = FetchFailed | Fetched(items: seq<RawItem>)

  /**
   * `feed.items.map(...)`: every item normalised, in order, or `None` as
   * soon as one of them throws.
   */
  function NormalizeAll(items: seq<RawItem>, feed: FeedConfig, now: Timestamp, parse: DateParser)
    : (r: Option<seq<NewsItem>>)
    ensures r.Some? <==> forall i :: 0 <= i < |items| ==> NormalizeItem(items[i], feed, now, parse).Some?
    ensures r.Some? ==> |r.value| == |items|
                        && forall i :: 0 <= i < |items| ==> NormalizeItem(items[i], feed, now, parse) == Some(r.value[i])
  {
    if items == [] then Some([])
    else
      match NormalizeItem(items[0], feed, now, parse)
      case None => None
      case Some(first) =>
        match NormalizeAll(items[1..], feed, now, parse)
        case None => None
        case Some(rest) => Some([first] + rest)
  }

  /**
   * `fetchFeed(feedConfig)`: the feed's items normalised in parsed order;
   * the empty list when fetching or parsing fails or when any item's date
   * cannot be formatted (the `catch` turns every such error into `[]`).
   */
  function FetchFeed(feed: FeedConfig, outcome: FeedOutcome, now: Timestamp, parse: DateParser): (r: seq<NewsItem>)
    ensures outcome.FetchFailed? ==> r == []
    ensures outcome.Fetched? && (exists i :: 0 <= i < |outcome.items| && NormalizeItem(outcome.items[i], feed, now, parse).None?)
            ==> r == []
    ensures outcome.Fetched? && (forall i :: 0 <= i < |outcome.items| ==> NormalizeItem(outcome.items[i], feed, now, parse).Some?)
            ==> |r| == |outcome.items|
                && forall i :: 0 <= i < |r| ==> NormalizeItem(outcome.items[i], feed, now, parse) == Some(r[i])
    ensures forall x :: x in r ==> x.source == feed.source && x.title != "" && x.url != ""
  {
    match outcome
    case FetchFailed => []
    case Fetched(items) => NormalizeAll(items, feed, now, parse).GetOr([])
  }

  /** `FEEDS.map(feed => fetchFeed(feed))` joined by `Promise.all`: one result per feed, in feed order. */
  function FetchAll(feeds: seq<FeedConfig>, outcomes: seq<FeedOutcome>, now: Timestamp, parse: DateParser)
    : (results: seq<seq<NewsItem>>)
    requires |outcomes| == |feeds|
    ensures |results| == |feeds|
    ensures forall k :: 0 <= k < |feeds| ==> results[k] == FetchFeed(feeds[k], outcomes[k], now, parse)
  {
    seq(|feeds|, k requires 0 <= k < |feeds| => FetchFeed(feeds[k], outcomes[k], now, parse))
  }

  /** `Array.prototype.flat` on a list of lists. */
  function Flatten<T>(ss: seq<seq<T>>): seq<T> {
    if ss == [] then [] else ss[0] + Flatten(ss[1..])
  }

  lemma {:induction false} FlattenAppend<T>(a: seq<seq<T>>, b: seq<seq<T>>)
    ensures Flatten(a + b) == Flatten(a) + Flatten(b)
  {
    if a == [] {
      assert a + b == b;
    } else {
      assert (a + b)[1..] == a[1..] + b;
      FlattenAppend(a[1..], b);
    }
  }

  /** An element of the flattened list lies in one of the lists, and every element of every list is kept. */
  lemma {:induction false} InFlatten<T>(ss: seq<seq<T>>, x: T)
    ensures x in Flatten(ss) <==> exists k :: 0 <= k < |ss| && x in ss[k]
  {
    if ss != [] {
      InFlatten(ss[1..], x);
      if x in Flatten(ss[1..]) {
        var k :| 0 <= k < |ss[1..]| && x in ss[1..][k];
        assert x in ss[k + 1];
      }
      if exists k :: 0 <= k < |ss| && x in ss[k] {
        var k :| 0 <= k < |ss| && x in ss[k];
        if k > 0 {
          assert x in ss[1..][k - 1];
        }
      }
    }
  }

  /** `feedResults.flat()`: all items of all feeds, feed by feed in configuration order. */
  function Combined(feeds: seq<FeedConfig>, outcomes: seq<FeedOutcome>, now: Timestamp, parse: DateParser)
    : seq<NewsItem>
    requires |outcomes| == |feeds|
  {
    Flatten(FetchAll(feeds, outcomes, now, parse))
  }

  /** Combining two lists of feeds is concatenating their combined items: feed order is item order. */
  lemma CombinedAppend(feeds1: seq<FeedConfig>, outcomes1: seq<FeedOutcome>,
                       feeds2: seq<FeedConfig>, outcomes2: seq<FeedOutcome>, now: Timestamp, parse: DateParser)
    requires |outcomes1| == |feeds1| && |outcomes2| == |feeds2|
    ensures Combined(feeds1 + feeds2, outcomes1 + outcomes2, now, parse)
            == Combined(feeds1, outcomes1, now, parse) + Combined(feeds2, outcomes2, now, parse)
  {
    var all := FetchAll(feeds1 + feeds2, outcomes1 + outcomes2, now, parse);
    var r1 := FetchAll(feeds1, outcomes1, now, parse);
    var r2 := FetchAll(feeds2, outcomes2, now, parse);
    forall i | 0 <= i < |all| ensures all[i] == (r1 + r2)[i] {
      if i < |feeds1| {
        assert (feeds1 + feeds2)[i] == feeds1[i] && (outcomes1 + outcomes2)[i] == outcomes1[i];
      } else {
        assert (feeds1 + feeds2)[i] == feeds2[i - |feeds1|] && (outcomes1 + outcomes2)[i] == outcomes2[i - |feeds1|];
      }
    }
    assert all == r1 + r2;
    FlattenAppend(r1, r2);
  }

  /** A single feed's combined items are its own fetch result. */
  lemma CombinedSingle(feed: FeedConfig, outcome: FeedOutcome, now: Timestamp, parse: DateParser)
    ensures Combined([feed], [outcome], now, parse) == FetchFeed(feed, outcome, now, parse)
  {
    var single := FetchAll([feed], [outcome], now, parse);
    assert single[1..] == [];
    assert Flatten(single) == single[0] + Flatten(single[1..]);
  }

  /** A feed whose fetch fails contributes nothing and leaves the other feeds' items as they are. */
  lemma FailedFeedContributesNothing(feeds: seq<FeedConfig>, outcomes: seq<FeedOutcome>, k: nat,
                                     now: Timestamp, parse: DateParser)
    requires |outcomes| == |feeds| && k < |feeds| && outcomes[k].FetchFailed?
    ensures Combined(feeds, outcomes, now, parse)
            == Combined(feeds[..k] + feeds[k + 1..], outcomes[..k] + outcomes[k + 1..], now, parse)
  {
    assert feeds == feeds[..k] + [feeds[k]] + feeds[k + 1..];
    assert outcomes == outcomes[..k] + [outcomes[k]] + outcomes[k + 1..];
    CombinedAppend(feeds[..k] + [feeds[k]], outcomes[..k] + [outcomes[k]], feeds[k + 1..], outcomes[k + 1..], now, parse);
    CombinedAppend(feeds[..k], outcomes[..k], [feeds[k]], [outcomes[k]], now, parse);
    CombinedAppend(feeds[..k], outcomes[..k], feeds[k + 1..], outcomes[k + 1..], now, parse);
    CombinedSingle(feeds[k], outcomes[k], now, parse);
  }

  /**
   * Every combined item comes from a feed that was fetched successfully and
   * carries that feed's source label, whatever the item itself said.
   */
  lemma CombinedItemOrigin(feeds: seq<FeedConfig>, outcomes: seq<FeedOutcome>, now: Timestamp, parse: DateParser,
                           x: NewsItem)
    requires |outcomes| == |feeds|
    requires x in Combined(feeds, outcomes, now, parse)
    ensures exists k :: 0 <= k < |feeds| && outcomes[k].Fetched? && x.source == feeds[k].source
                        && x in FetchFeed(feeds[k], outcomes[k], now, parse)
  {
    var results := FetchAll(feeds, outcomes, now, parse);
    InFlatten(results, x);
    var k :| 0 <= k < |results| && x in results[k];
    assert x in FetchFeed(feeds[k], outcomes[k], now, parse);
  }
}
