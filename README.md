# Channel feed synchronizer

A Dafny model of `Channels::FeedSynchronizer` from a small Rails news
aggregator. For one channel, the synchronizer:

1. downloads and parses the channel's RSS feed;
2. decides whether the feed is newer than the channel's stored watermark
   (`last_build_date`);
3. if it is newer, overwrites the watermark with the feed's `lastBuildDate`;
4. then upserts one `Article` per feed item. Articles are keyed by the item's
   guid across ALL channels.

The model has three modules:

- `Feeds` (`feeds.dfy`) holds the values the parser hands over: `Feed`, `Item`,
  and the errors a sync attempt can end with. It also holds three views of an
  item list: the set of guids it carries (`Guids`), the last item carrying a
  given guid (`LastWith`), and the position of the first item without a guid
  (`FirstMissingGuid`).
- `Articles` (`articles.dfy`) holds the articles table as a value: rows keyed
  by guid, plus the id the next new record will get. It defines the upsert of
  one item (`Upsert`), the upsert of a list of items in feed order
  (`UpsertAll`), and the lemmas that say what `UpsertAll` does.
- `Synchronizer` (`synchronizer.dfy`) holds the staleness decision (`IsStale`,
  and `Decide` for a feed that may lack a build date) and three classes whose
  fields are updated in place. `Channel` carries the watermark. `ArticleTable`
  is the shared table. `FeedSynchronizer` holds the channel, the table and the
  last downloaded feed. Its methods mirror `download_feed`,
  `requires_update?`, `update_channel`, `update_articles` and `call`.
  `RequiresUpdate` is proved against `Decide` and `IsStale`. `DownloadFeed`
  and `UpdateChannel` state the new feed or watermark and what they leave
  alone. `UpdateArticles` and `Call` are proved against `UpsertAll` from
  `Articles`, and `Call` against `Decide` too.

Modelling choices:

- The download is a parameter. `DownloadFeed` and `Call` take a
  `Result<Feed>`: either the parsed feed, or `Err(FetchError)` /
  `Err(ParseError)`. On an error nothing changes.
- Timestamps are integers.
- Each article record has an `id`. An existing record keeps its id. A new
  record takes the table's `nextId`. This makes "the existing article keeps its
  identity" something the model can state.
- In the code, an item without a guid makes `item.guid.content` raise. The
  model does not forbid such items. Instead, `UpdateArticles` stops at the
  first one and returns `MissingGuid(k)`. The items before it stay upserted,
  just as the code's per-item saves stay committed.
- RSS makes a feed's `lastBuildDate` optional, so `Feed.lastBuildDate` is an
  `Option`. If the channel already has a watermark, the code's comparison
  with a missing date raises: `Decide` gives `Err(MissingBuildDate)` and
  `Call` changes nothing. If the channel has no watermark, the code writes
  the missing date back: the channel stays without a watermark, and every
  later sync of such a feed upserts all its items again (`SyncTwice`).

Places where the code does something other than one might expect; the
model follows the code:

- **Watermark first.** One might expect the watermark to advance only after
  every item is stored. The code advances it first
  (`app/services/channels/feed_synchronizer.rb:25-26`). With a guid-less item
  at position `k`, `Call` leaves the channel marked as synced with only items
  `0..k-1` stored. `SyncTwice` shows the effect: re-syncing the same feed is
  then skipped, so the later items are never stored.
- **No sanitising.** One might expect descriptions and content to be
  sanitised before they are stored. The class mixes in `SanitizeHelper`
  (`app/services/channels/feed_synchronizer.rb:10`) but never calls it, so
  `Materialize` stores the item's fields exactly as given (lines 50-57).
- **No skip-or-abort policy.** One might expect an item without a guid to be
  skipped, or the whole batch to be rolled back. The code does neither: it
  stops part way through, with the earlier items saved (see above).
- **Cross-channel guids.** Articles are keyed by guid alone. An article owned
  by another channel whose guid appears in this feed moves to this channel
  (`UpsertAllTakesLastItem`). Articles whose guid is not in the feed are left
  alone, whatever their channel (`UpsertAllKeepsOthers`).

## Model

| member | source | states |
|---|---|---|
| `Synchronizer.IsStale` | app/services/channels/feed_synchronizer.rb:35-38 | With no stored date the channel is always stale. Otherwise it is stale iff the stored date is strictly earlier than the feed's: equal dates give false, an earlier date gives true, a later date gives false. |
| `Synchronizer.Decide` | app/services/channels/feed_synchronizer.rb:35-38 | With no stored watermark the answer is yes, whatever the feed's date. With a watermark and a feed without `lastBuildDate` it is the `MissingBuildDate` error (the comparison with nil raises). With both dates it is yes iff the stored date is strictly earlier. |
| `Synchronizer.FeedSynchronizer.RequiresUpdate` | app/services/channels/feed_synchronizer.rb:35-39 | Callable before any download when the channel has no watermark, and then yes. With a downloaded feed it equals `Decide` on the channel's watermark and the feed's build date. |
| `Synchronizer.FeedSynchronizer.DownloadFeed` | app/services/channels/feed_synchronizer.rb:29-33 | A parsed feed becomes the current feed. A fetch or parse error is returned and leaves the current feed as it was. |
| `Synchronizer.FeedSynchronizer.constructor` | app/services/channels/feed_synchronizer.rb:16-18 | The synchronizer holds the given channel (and the shared articles table) and has not downloaded a feed yet. |
| `Synchronizer.FeedSynchronizer.UpdateChannel` | app/services/channels/feed_synchronizer.rb:41-43 | The channel's watermark becomes the feed's `lastBuildDate`, absent if the feed has none. Only the channel is modified; the articles table is unchanged. |
| `Synchronizer.ArticleTable.FindOrInitializeAndUpdate` | app/services/channels/feed_synchronizer.rb:48-57 | The table afterwards equals `Upsert` of the table before, for this channel and item, and record ids stay distinct and below `nextId`. |
| `Synchronizer.FeedSynchronizer.UpdateArticles` | app/services/channels/feed_synchronizer.rb:46-59 | The table afterwards equals `UpsertAll` over the items before the first one without a guid, and it stays well formed. The error is `MissingGuid(k)` exactly when item `k` is the first item without a guid. |
| `Synchronizer.FeedSynchronizer.Call` | app/services/channels/feed_synchronizer.rb:20-27 | A fetch or parse error changes neither the channel nor the table. A feed without a build date on a channel with a watermark fails with `MissingBuildDate` and changes neither. A feed that is not newer changes neither, and the result is `Skipped`. Otherwise the watermark becomes the feed's build date and the items up to the first guid-less one are upserted. In every case a watermark never moves backwards and is never cleared. |
| `Synchronizer.SyncTwice` | app/services/channels/feed_synchronizer.rb:20-27 | A second sync of a feed that has a build date is always skipped. A feed without one fails twice on a channel with a watermark, and on one without is upserted twice with the same result. After two syncs the state is that of one sync. |
| `Feeds.FirstMissingGuid` | app/services/channels/feed_synchronizer.rb:47-48 | The result is the position where walking the items stops: every earlier item has a guid, and the item at that position (if any) has none. |
| `Feeds.GuidsAreItemGuids` | app/services/channels/feed_synchronizer.rb:47-48 | A string is in `Guids(items)` iff some item carries it as its guid. |
| `Feeds.LastWithIsLast` | app/services/channels/feed_synchronizer.rb:47-57 | `LastWith(items, g)` finds an item iff `g` is one of the items' guids. The item it finds carries `g`, and no later item does. |
| `Articles.Materialize` | app/services/channels/feed_synchronizer.rb:50-57 | The saved record belongs to the given channel; its title and description are the item's, `publishedAt` is `pubDate`, `content` is `content:encoded` and `url` is `link`, all unsanitised. |
| `Articles.Upsert` | app/services/channels/feed_synchronizer.rb:48-57 | A new record id is handed out exactly when the guid was not yet stored. |
| `Articles.UpsertAll` | app/services/channels/feed_synchronizer.rb:47-58 | The stored guids afterwards are those before plus every feed guid. No row is removed, and the next id never decreases. |
| `Articles.UpsertAllWellFormed` | app/services/channels/feed_synchronizer.rb:48-57 | Record ids stay below `nextId` and stay distinct: one record per guid. |
| `Articles.UpsertAllKeepsOthers` | app/services/channels/feed_synchronizer.rb:47-58 | An article whose guid no item carries is left exactly as it was, including one owned by another channel. |
| `Articles.UpsertAllKeepsIdentity` | app/services/channels/feed_synchronizer.rb:48 | An article that already existed keeps its record id. |
| `Articles.UpsertAllFreshIds` | app/services/channels/feed_synchronizer.rb:48 | A newly created article gets an id at or above the old `nextId`, so it shares its id with no earlier record. |
| `Articles.UpsertAllTakesLastItem` | app/services/channels/feed_synchronizer.rb:47-57 | For every feed guid, the article belongs to this channel. Its title, description, publication date, content and url are those of the LAST item in feed order with that guid. |
| `Articles.UpsertAllNextId` | app/services/channels/feed_synchronizer.rb:48-57 | One new record id is used per distinct feed guid that was not already stored. |
| `Articles.UpsertAllCount` | app/services/channels/feed_synchronizer.rb:47-58 | The article count grows by exactly the number of distinct feed guids not already stored. |
| `Articles.UpsertAllIdempotent` | app/services/channels/feed_synchronizer.rb:47-58 | Upserting the same items twice gives the same table as upserting them once: same rows, same ids, same next id. |

## Left out

- The body of `download_feed`: reading the channel's URL over the network and
  parsing with the RSS library. The parsed feed, or the error, is a parameter.
  For the same reason `Channel` has no URL field.
- ActiveRecord persistence. Every save is modelled as a map update that always
  succeeds. Validation failures, the ignored boolean result of `update`, and
  database errors are not modelled.
- `SanitizeHelper`: it is included but never called, so there is nothing to
  model.
- Items whose title, description, publication date, content or link are
  missing (Ruby `nil`). The model's item fields are always present. Only a
  missing guid is modelled.
- The channel title of the feed is carried in `Feed` but is not used, as in the
  code.
- Date and time-zone arithmetic: timestamps are plain integers.
- Concurrency. Two syncs of the same channel at once are not modelled. Neither
  is a crash between advancing the watermark and upserting; the model shows
  that ordering only through the missing-guid error.
- The browser infinite-scroll script (`app/javascript/packs/news.js`): it is
  DOM and UI code, not part of the synchronizer.
