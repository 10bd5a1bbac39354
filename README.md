# cloud-news-site news update, modelled in Dafny

The repository's one script, `scripts/update-news.js`, builds `news.json`.
It fetches a fixed list of RSS/Atom feeds, normalises every item to
`{title, url, source, date}`, concatenates the feeds' items in configuration
order, drops repeated urls (first seen wins), sorts newest first with a
stable sort, keeps the latest 30 and writes them with a `lastUpdated` time.
This project models that pipeline and proves what it promises.

Files and modules:

- `wrappers.dfy` (`Wrappers`): `Option`, for a property that may be `undefined`.
- `text.dfy` (`JsText`): JavaScript string truthiness, the `||` operator
  over a chain of operands (`OrChain`), and `String.prototype.trim` with
  ECMAScript's whitespace and line-terminator set.
- `items.dfy` (`Items`): the raw parsed item, the normalised `NewsItem`,
  the feed configuration, and the normaliser of `fetchFeed`, one function
  per fallback chain (title, url, date).
- `fetch.dfy` (`Fetch`): the result of fetching one feed (`FetchFailed` or
  `Fetched(items)`), `fetchFeed` with its `catch` turning every error into
  `[]`, the fan-out over the feed list and `flat()`.
- `dedup.dfy` (`Dedup`): the specification of the url deduplication
  (`FirstByUrl`), its properties, and the imperative loop with its
  `seenUrls` set (`Deduplicate`).
- `sorting.dfy` (`Sorting`): the stable newest-first order (`NewestFirst`),
  its properties, the proof that it is the only stable sort result, and
  an in-place insertion sort on an array proved equal to it.
- `digest.dfy` (`Digest`): the 30-item cut, the output object, the
  properties of the whole pipeline, and `UpdateNews`, the imperative body
  of `updateNews` proved equal to the pipeline function `Aggregate`.
- `scenario.dfy` (`Scenario`): a three-feed run worked through to the digest.

Modelling choices:

- Dates are integer timestamps in milliseconds. `new Date(text)` followed
  by `toISOString()` is a parameter `parse: string -> Option<int>`, where
  `None` stands for an Invalid Date (on which `toISOString` throws). The
  sort's `new Date(b.date) - new Date(a.date)` re-reads strings written by
  `toISOString`, so it compares these timestamps exactly.
- The clock is a parameter: `now` for items without a date, `generatedAt`
  for `lastUpdated`.
- What each feed's `parser.parseURL` returns is an input sequence of
  `FeedOutcome`s, one per configured feed.

A present but unparseable date does not fall through to the next date
field: `toISOString` throws inside `feed.items.map`, the `catch` of
`fetchFeed` returns `[]`, and the whole feed contributes nothing
(`Fetch.FetchFeed`, second postcondition).

## Model

| member | source | states |
|---|---|---|
| `JsText.OrChain` | scripts/update-news.js:42-47 | a chain of JavaScript logical-or operators yields the first truthy operand, the last operand when none is truthy, and truthy exactly when some operand is |
| `JsText.Trim` | scripts/update-news.js:46 | `trim()` yields a slice of the input with only whitespace cut from both ends, no whitespace at either end, and is empty exactly when the input is all whitespace |
| `Items.TrimmedTitle` | scripts/update-news.js:46 | the defining expression of `item.title?.trim()`, with no contract of its own; its properties are proved in the `Items.ItemTitle` row |
| `Items.ItemTitle` | scripts/update-news.js:46 | the title is never empty; it is the trimmed raw title when that is non-empty, and "No title" when the title is absent or whitespace only |
| `Items.ItemUrl` | scripts/update-news.js:47 | the url is never empty; it is `link` when truthy, else `id` when truthy, else "#" |
| `Items.DateString` | scripts/update-news.js:42 | the date text is the first truthy of `pubDate`, `published`, `updated`, else `isoDate` |
| `Items.ItemDate` | scripts/update-news.js:42-43 | the date is the parse of the first truthy of `pubDate`, `published`, `updated`, `isoDate`, and `now` when none is truthy |
| `Items.NormalizeItem` | scripts/update-news.js:40-51 | a normalised item exists exactly when its date can be formatted, and then has the chained title and url, the feed's source label and that date |
| `Items.PlaceholderExamples` | scripts/update-news.js:46-47 | a whitespace-only title becomes "No title"; no link and no id, or empty ones, give url "#" |
| `Fetch.NormalizeAll` | scripts/update-news.js:40-51 | mapping succeeds exactly when every item normalises, and then yields each item's normal form at the same position |
| `Fetch.FetchFeed` | scripts/update-news.js:35-56 | a failed fetch and a feed with any unformattable date give `[]`; otherwise every parsed item is normalised in order; every item carries the feed's source label, a non-empty title and a non-empty url |
| `Fetch.FetchAll` | scripts/update-news.js:62-63 | one result per configured feed, at the feed's position; this is the definition of the order-preserving map, not a proved property, and feed order is proved about it in `Fetch.CombinedAppend`, `Fetch.FailedFeedContributesNothing` and `Digest.EarlierFeedWins` |
| `Fetch.Flatten` | scripts/update-news.js:66 | the defining expression of `flat()`, with no contract of its own; its properties are proved in the `Fetch.InFlatten` and `Fetch.CombinedAppend` rows |
| `Fetch.Combined` | scripts/update-news.js:62-66 | the defining expression of `feedResults.flat()` over the fetched feeds, with no contract of its own; its properties are proved in the `Fetch.CombinedAppend`, `Fetch.CombinedSingle`, `Fetch.FailedFeedContributesNothing` and `Fetch.CombinedItemOrigin` rows |
| `Fetch.InFlatten` | scripts/update-news.js:66 | an item is in the flattened list exactly when it is in one of the feeds' lists |
| `Fetch.CombinedAppend` | scripts/update-news.js:62-66 | the combined items of two feed lists are the first list's items followed by the second's: configuration order is item order |
| `Fetch.CombinedSingle` | scripts/update-news.js:62-66 | a single feed's combined items are exactly its fetch result |
| `Fetch.FailedFeedContributesNothing` | scripts/update-news.js:52-55 | removing a feed whose fetch failed leaves the combined items unchanged |
| `Fetch.CombinedItemOrigin` | scripts/update-news.js:48 | every combined item comes from a successfully fetched feed and carries that feed's source label |
| `Dedup.FirstByUrl` | scripts/update-news.js:71-79 | the defining expression of deduplication by url, first seen wins, with no contract of its own; its properties are proved in the `Dedup.FirstByUrlUrls`, `Dedup.FirstByUrlDistinct`, `Dedup.FirstByUrlSubsequence`, `Dedup.FirstByUrlFirstSeen`, `Dedup.FirstByUrlOfDistinct`, `Dedup.FirstByUrlIdempotent`, `Dedup.FirstByUrlCount` and `Dedup.Deduplicate` rows |
| `Dedup.FirstIndex` | scripts/update-news.js:74-78 | the position of the first item with a given url: it has the url and no earlier item has it |
| `Dedup.FirstByUrlUrls` | scripts/update-news.js:71-79 | deduplication keeps exactly the set of urls of its input |
| `Dedup.FirstByUrlDistinct` | scripts/update-news.js:71-79 | no two kept items share a url |
| `Dedup.FirstByUrlSubsequence` | scripts/update-news.js:71-79 | the kept items are a subsequence of the combined list |
| `Dedup.FirstByUrlFirstSeen` | scripts/update-news.js:74-78 | every kept item is the first item of the input with its url |
| `Dedup.FirstByUrlOfDistinct` | scripts/update-news.js:71-79 | a list without repeated urls is left unchanged |
| `Dedup.FirstByUrlIdempotent` | scripts/update-news.js:71-79 | deduplicating the output again changes nothing |
| `Dedup.FirstByUrlCount` | scripts/update-news.js:71-79 | one item is kept per distinct url |
| `Dedup.KeptAcrossParts` | scripts/update-news.js:74-78 | when a url first occurs in a middle part, that part's first item with it is the one kept for it |
| `Dedup.Deduplicate` | scripts/update-news.js:71-79 | the loop with its `seenUrls` set returns exactly `FirstByUrl` of the combined items |
| `Sorting.NewestFirst` | scripts/update-news.js:84 | the defining expression of the stable newest-first sort, with no contract of its own; its properties are proved in the `Sorting.NewestFirstIsStableSort`, `Sorting.StableSortIsUnique`, `Sorting.NewestFirstIsTheStableSort` and `Sorting.SortNewestFirst` rows |
| `Sorting.NewestFirstIsStableSort` | scripts/update-news.js:84 | the sorted list is newest first, a permutation of its input, and keeps the input order among items of equal date |
| `Sorting.StableSortIsUnique` | scripts/update-news.js:84 | two newest-first lists with the same items of every date, in the same order, are equal |
| `Sorting.NewestFirstIsTheStableSort` | scripts/update-news.js:84 | any newest-first list keeping each date's items in input order is `NewestFirst` of the input, so any stable sort with this comparator returns it |
| `Sorting.InsertAt` | scripts/update-news.js:84 | one insertion pass puts the next item into the sorted prefix and leaves the rest of the array alone |
| `Sorting.SortNewestFirst` | scripts/update-news.js:84 | sorting the array in place leaves in it `NewestFirst` of its old contents |
| `Digest.Latest` | scripts/update-news.js:87 | the defining expression of `slice(0, 30)`, with no contract of its own; its properties are proved in the `Digest.LatestAreNewest` and `Digest.DigestCount` rows |
| `Digest.BuildDigest` | scripts/update-news.js:84-95 | the defining expression of the output object built from the combined items, with no contract of its own; its properties are proved in the `Digest.DigestProperties` row |
| `Digest.Aggregate` | scripts/update-news.js:58-95 | the defining expression of one whole run, with no contract of its own; its properties are proved in the `Digest.DigestProperties`, `Digest.EarlierFeedWins` and `Digest.UpdateNews` rows |
| `Digest.LatestAreNewest` | scripts/update-news.js:87 | no item cut off by the slice is newer than an item kept |
| `Digest.NewestFirstDistinct` | scripts/update-news.js:84 | sorting a list without repeated urls keeps its urls distinct and the same |
| `Digest.DigestCount` | scripts/update-news.js:87 | the digest holds `min(30, number of distinct urls)` items |
| `Digest.DigestDistinct` | scripts/update-news.js:71-87 | no url occurs twice in the digest |
| `Digest.DigestSorted` | scripts/update-news.js:84-87 | dates never increase between adjacent digest items |
| `Digest.DigestFirstSeen` | scripts/update-news.js:71-87 | every digest item is the first item fetched with its url |
| `Digest.DigestNewest` | scripts/update-news.js:84-87 | no deduplicated item left out of the digest is newer than one kept |
| `Digest.EarlierFeedWins` | scripts/update-news.js:62-79 | an item first with its url in its feed, with no earlier-configured feed yielding that url, is the one kept for that url, whatever the order fetches finish in |
| `Digest.DigestProperties` | scripts/update-news.js:66-95 | the output's `lastUpdated` is the generation time and its `items` a prefix of the sorted deduplicated list of length `min(30, distinct urls)`, with distinct urls, newest first, first seen wins, and none left out newer than one kept |
| `Digest.UpdateNews` | scripts/update-news.js:58-95 | from the combined items (the function `Fetch.Combined`), the deduplication loop, in-place array sort, slice and wrapping compute exactly `Aggregate` |
| `Scenario.ThreeFeeds` | scripts/update-news.js:35-95 | feeds Alpha, Beta, Gamma with a url repeated by Beta at a later date and Gamma failing give Alpha's copy and Beta's other item, newest first |

## Left out

- Network fetching and RSS/Atom parsing by `rss-parser` (scripts/update-news.js:1, 9-13, 38): a foreign library; each feed's outcome is an input, `FetchFailed` or `Fetched(items)`.
- Concurrency of `Promise.all` (scripts/update-news.js:62-63): its results keep input order, so the fan-out is a sequential map over the feed list.
- Date-string parsing and ISO formatting (`new Date(text)`, `toISOString`, `toLocaleDateString`): dates are integer timestamps and parsing is the `parse` parameter.
- The clock: the source reads `new Date()` separately for each undated item; the model gives every undated item of a run the same `now`.
- Field values that are not strings (a title the parser returns as an object would make `trim` throw and drop the feed): every raw field is a string or absent.
- JavaScript strings are UTF-16 code units and Dafny strings are Unicode scalar values; every character `trim` removes lies in the Basic Multilingual Plane, so trimming agrees on them.
- The sorting algorithm of `Array.prototype.sort` is not the source's code; the model sorts by insertion and proves that every stable sort with the same comparator gives the same list.
- File writing, path computation, JSON serialisation and the process exit code (scripts/update-news.js:2-7, 98-99, 113-116): I/O; the output object is the `NewsDigest` value.
- Console logging and the sample printout of the first five items (scripts/update-news.js:37, 53, 59, 68, 81, 89, 101-109): output only.
- The concrete feed URLs of `FEEDS` (scripts/update-news.js:15-33): the feed list is an input sequence.
