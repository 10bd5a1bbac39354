/**
 * Feed items: the raw item the RSS/Atom parser hands over, the normalised
 * news item written to the digest, and the per-field fallback chains of
 * the normaliser in `fetchFeed`.
 */
module Items {
  import opened Wrappers
  import opened JsText

  /** Milliseconds since the epoch, as a JavaScript `Date` holds them. */
  type Timestamp = int

  /**
   * `new Date(text)` followed by `toISOString()`: the instant the text
   * denotes, or `None` when it is an Invalid Date (and `toISOString` throws).
   */
  type DateParser = string -> Option<Timestamp>

  /** One item as the feed parser produces it; every field may be missing. */
  datatype RawItem = RawItem(
    title: JsString,
    link: JsString,
    id: JsString,
    pubDate: JsString,
    published: JsString,
    updated: JsString,
    isoDate: JsString)

  /** One normalised item of the digest. */
  datatype NewsItem = NewsItem(title: string, url: string, source: string, date: Timestamp)

  /** One configured feed: where it is fetched from and the source label its items carry. */
  datatype FeedConfig = FeedConfig(url: string, source: string)

  const NoTitle: string := "No title"
  const NoUrl: string := "#"

  /** `item.title?.trim()`: `undefined` stays `undefined`. */
  function TrimmedTitle(item: RawItem): JsString {
    match item.title
    case None => None
    case Some(t) => Some(Trim(t))
  }

  /** `item.title?.trim() || 'No title'`. */
  function ItemTitle(item: RawItem): (t: string)
    ensures t != ""
    ensures item.title.Some? && Trim(item.title.value) != "" ==> t == Trim(item.title.value)
    ensures item.title.None? ==> t == NoTitle
    ensures item.title.Some? && (forall k :: 0 <= k < |item.title.value| ==> IsJsWhitespace(item.title.value[k]))
            ==> t == NoTitle
  {
    OrChain([TrimmedTitle(item), Some(NoTitle)]).value
  }

  /** `item.link || item.id || '#'`. */
  function ItemUrl(item: RawItem): (u: string)
    ensures u != ""
    ensures Truthy(item.link) ==> u == item.link.value
    ensures !Truthy(item.link) && Truthy(item.id) ==> u == item.id.value
    ensures !Truthy(item.link) && !Truthy(item.id) ==> u == NoUrl
  {
    var cs := [item.link, item.id, Some(NoUrl)];
    assert cs[1] == item.id && cs[2] == Some(NoUrl);
    OrChain(cs).value
  }

  /** `item.pubDate || item.published || item.updated || item.isoDate`. */
  function DateString(item: RawItem): (r: JsString)
    ensures Truthy(item.pubDate) ==> r == item.pubDate
    ensures !Truthy(item.pubDate) && Truthy(item.published) ==> r == item.published
    ensures !Truthy(item.pubDate) && !Truthy(item.published) && Truthy(item.updated) ==> r == item.updated
    ensures !Truthy(item.pubDate) && !Truthy(item.published) && !Truthy(item.updated) ==> r == item.isoDate
  {
    var cs := [item.pubDate, item.published, item.updated, item.isoDate];
    assert cs[1] == item.published && cs[2] == item.updated && cs[3] == item.isoDate;
    OrChain(cs)
  }

  /**
   * `dateStr ? new Date(dateStr) : new Date()`, then `toISOString()`: the
   * first truthy date field is parsed; with none, the item is dated `now`.
   * `None` stands for the exception an unparseable date raises.
   */
  function ItemDate(item: RawItem, now: Timestamp, parse: DateParser): (r: Option<Timestamp>)
    ensures Truthy(item.pubDate) ==> r == parse(item.pubDate.value)
    ensures !Truthy(item.pubDate) && Truthy(item.published) ==> r == parse(item.published.value)
    ensures !Truthy(item.pubDate) && !Truthy(item.published) && Truthy(item.updated)
            ==> r == parse(item.updated.value)
    ensures !Truthy(item.pubDate) && !Truthy(item.published) && !Truthy(item.updated) && Truthy(item.isoDate)
            ==> r == parse(item.isoDate.value)
    ensures !Truthy(item.pubDate) && !Truthy(item.published) && !Truthy(item.updated) && !Truthy(item.isoDate)
            ==> r == Some(now)
  {
    var dateStr := DateString(item);
    if Truthy(dateStr) then parse(dateStr.value) else Some(now)
  }

  /**
   * The callback of `feed.items.map` in `fetchFeed`: the normalised item,
   * or `None` when building its date throws.
   */
  function NormalizeItem(item: RawItem, feed: FeedConfig, now: Timestamp, parse: DateParser): (r: Option<NewsItem>)
    ensures r.None? <==> ItemDate(item, now, parse).None?
    ensures r.Some? ==> r.value.title == ItemTitle(item) && r.value.url == ItemUrl(item)
                        && r.value.source == feed.source && Some(r.value.date) == ItemDate(item, now, parse)
  {
    match ItemDate(item, now, parse)
    case None => None
    case Some(date) => Some(NewsItem(ItemTitle(item), ItemUrl(item), feed.source, date))
  }

  /** A whitespace-only title becomes "No title"; an item with neither link nor id gets url "#". */
  lemma PlaceholderExamples()
    ensures ItemTitle(RawItem(Some("   "), None, None, None, None, None, None)) == NoTitle
    ensures ItemUrl(RawItem(None, None, None, None, None, None, None)) == NoUrl
    ensures ItemUrl(RawItem(None, Some(""), Some(""), None, None, None, None)) == NoUrl
  {
  }
}
