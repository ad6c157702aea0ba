/** The feed synchronizer of a channel: download the channel's feed, decide
    whether it is newer than the channel's watermark, and if so advance the
    watermark and upsert one article per feed item. */
module Synchronizer {
  import opened Feeds
  import opened Articles

  /** The staleness decision: a channel that has never been synced is always
      stale; otherwise it is stale exactly when its stored build date is
      strictly earlier than the feed's. */
  function IsStale(stored: Option<Timestamp>, feedBuild: Timestamp): (r: bool)
    ensures stored.None? ==> r
    ensures stored.Some? && stored.value < feedBuild ==> r
    ensures stored.Some? && stored.value == feedBuild ==> !r
    ensures stored.Some? && stored.value > feedBuild ==> !r
  {
    match stored
    case None => true
    case Some(d) => d < feedBuild
  }

  /** The decision as `requires_update?` takes it on a downloaded feed whose
      `lastBuildDate` may be absent: without a stored watermark the answer is
      yes whatever the feed says; with one, comparing it to an absent date
      raises. */
  function Decide(stored: Option<Timestamp>, feedBuild: Option<Timestamp>): (r: Result<bool>)
    ensures stored.None? ==> r == Ok(true)
    ensures stored.Some? && feedBuild.None? ==> r == Err(MissingBuildDate)
    ensures stored.Some? && feedBuild.Some? ==>
      r.Ok? && (r.value <==> stored.value < feedBuild.value)
  {
    match stored
    case None => Ok(true)
    case Some(_) =>
      if feedBuild.None? then Err(MissingBuildDate) else Ok(IsStale(stored, feedBuild.value))
  }

  /** A tracked feed source; `lastBuildDate` is its watermark. */
  class Channel {
    const id: int
    var lastBuildDate: Option<Timestamp>

    constructor (id: int, lastBuildDate: Option<Timestamp>)
      ensures this.id == id && this.lastBuildDate == lastBuildDate
    {
      this.id := id;
      this.lastBuildDate := lastBuildDate;
    }
  }

  /** The articles table, shared by all channels and keyed by guid. */
  class ArticleTable {
    var rows: map<string, Article>
    var nextId: nat

    function Snapshot(): Table
      reads this
    {
      Table(rows, nextId)
    }

    ghost predicate Valid()
      reads this
    {
      WellFormed(Snapshot())
    }

    constructor (initial: Table)
      requires WellFormed(initial)
      ensures Valid() && Snapshot() == initial
    {
      rows := initial.rows;
      nextId := initial.nextId;
    }

    /** Find the record for `guid` or initialise a new one, then save it with
        the item's fields on behalf of channel `channelId`. An existing record
        keeps its id; a new one is given the next id when it is saved. */
    method FindOrInitializeAndUpdate(channelId: int, item: Item)
      requires item.guid.Some?
      requires Valid()
      modifies this
      ensures Valid()
      ensures Snapshot() == Upsert(old(Snapshot()), channelId, item)
    {
      var g := item.guid.value;
      var existed := g in rows;
      var id := if existed then rows[g].id else nextId;
      rows := rows[g := Materialize(id, channelId, item)];
      if !existed {
        nextId := nextId + 1;
      }
    }
  }

  /** How one sync attempt ended. */
  datatype Outcome = Skipped | Synced | Failed(error: SyncError)

  class FeedSynchronizer {
    const channel: Channel
    const articles: ArticleTable
    /** The feed fetched by the last successful download, if any. */
    var feed: Option<Feed>

    constructor (channel: Channel, articles: ArticleTable)
      ensures this.channel == channel && this.articles == articles && feed == None
    {
      this.channel := channel;
      this.articles := articles;
      feed := None;
    }

    /** Store the downloaded feed. The download itself is the parameter: either
        the parsed feed or the fetch or parse error, which leaves everything as
        it was. */
    method DownloadFeed(fetched: Result<Feed>) returns (err: Option<SyncError>)
      modifies this
      ensures fetched.Ok? ==> feed == Some(fetched.value) && err == None
      ensures fetched.Err? ==> feed == old(feed) && err == Some(fetched.error)
    {
      match fetched
      case Ok(f) =>
        feed := Some(f);
        err := None;
      case Err(e) =>
        err := Some(e);
    }

    /** A channel without a watermark needs an update even before any feed has
        been downloaded; otherwise the downloaded feed decides, and a feed
        without `lastBuildDate` makes the comparison raise. */
    function RequiresUpdate(): (r: Result<bool>)
      reads this, channel
      requires channel.lastBuildDate.None? || feed.Some?
      ensures channel.lastBuildDate.None? ==> r == Ok(true)
      ensures feed.Some? ==> r == Decide(channel.lastBuildDate, feed.value.lastBuildDate)
    {
      if channel.lastBuildDate.None? then Ok(true)
      else if feed.value.lastBuildDate.None? then Err(MissingBuildDate)
      else Ok(channel.lastBuildDate.value < feed.value.lastBuildDate.value)
    }

    /** Copy the feed's build date onto the channel, absent or not; nothing
        else changes. */
    method UpdateChannel()
      requires feed.Some?
      modifies channel
      ensures channel.lastBuildDate == feed.value.lastBuildDate
      ensures unchanged(articles)
    {
      channel.lastBuildDate := feed.value.lastBuildDate;
    }

    /** Upsert one article per feed item, in feed order. An item without a
        guid stops the walk with an error; the items before it stay upserted. */
    method UpdateArticles() returns (err: Option<SyncError>)
      requires feed.Some?
      requires articles.Valid()
      modifies articles
      ensures articles.Valid()
      ensures var items := feed.value.items;
        articles.Snapshot() == UpsertAll(old(articles.Snapshot()), channel.id, items[..FirstMissingGuid(items)])
      ensures var k := FirstMissingGuid(feed.value.items);
        err == if k == |feed.value.items| then None else Some(MissingGuid(k))
    {
      var items := feed.value.items;
      ghost var start := articles.Snapshot();
      var i := 0;
      // reading the guid of an item that has none raises, ending the walk there
      while i < |items| && items[i].guid.Some?
        invariant 0 <= i <= |items|
        invariant forall j :: 0 <= j < i ==> items[j].guid.Some?
        invariant HasGuids(items[..i])
        invariant articles.Valid()
        invariant articles.Snapshot() == UpsertAll(start, channel.id, items[..i])
      {
        UpsertAllSnoc(start, channel.id, items, i);
        articles.FindOrInitializeAndUpdate(channel.id, items[i]);
        i := i + 1;
      }
      FirstMissingGuidAt(items, i);
      err := if i == |items| then None else Some(MissingGuid(i));
    }

    /** One sync attempt. The watermark is advanced BEFORE the articles are
        upserted, so an item without a guid leaves the channel marked as synced
        with only the items before it stored. */
    method Call(fetched: Result<Feed>) returns (outcome: Outcome)
      requires articles.Valid()
      modifies this, channel, articles
      ensures articles.Valid()
      ensures fetched.Err? ==>
        && outcome == Failed(fetched.error)
        && feed == old(feed)
        && unchanged(channel, articles)
      ensures fetched.Ok? ==> feed == Some(fetched.value)
      ensures fetched.Ok? && Decide(old(channel.lastBuildDate), fetched.value.lastBuildDate).Err? ==>
        && outcome == Failed(MissingBuildDate)
        && unchanged(channel, articles)
      ensures fetched.Ok? && Decide(old(channel.lastBuildDate), fetched.value.lastBuildDate) == Ok(false) ==>
        && outcome == Skipped
        && unchanged(channel, articles)
      ensures fetched.Ok? && Decide(old(channel.lastBuildDate), fetched.value.lastBuildDate) == Ok(true) ==>
        var f := fetched.value;
        var k := FirstMissingGuid(f.items);
        && channel.lastBuildDate == f.lastBuildDate
        && articles.Snapshot() == UpsertAll(old(articles.Snapshot()), channel.id, f.items[..k])
        && outcome == if k == |f.items| then Synced else Failed(MissingGuid(k))
      // the watermark never moves backwards, nor is it ever cleared
      ensures old(channel.lastBuildDate).Some? ==>
        channel.lastBuildDate.Some? && old(channel.lastBuildDate).value <= channel.lastBuildDate.value
    {
      var err := DownloadFeed(fetched);
      if err.Some? {
        return Failed(err.value);
      }
      var decision := RequiresUpdate();
      if decision.Err? {
        return Failed(decision.error);
      }
      if !decision.value {
        return Skipped;
      }
      UpdateChannel();
      err := UpdateArticles();
      outcome := if err.Some? then Failed(err.value) else Synced;
    }
  }

  /** Two syncs of the same feed in a row. A feed with a build date is skipped
      the second time: the first sync either found the channel current or moved
      its watermark to that date, so items after one without a guid are never
      stored by re-syncing. A feed without a build date fails both times on a
      channel that has a watermark, and on one that has none it is upserted
      again, leaving the same articles and still no watermark. */
  method SyncTwice(s: FeedSynchronizer, f: Feed) returns (first: Outcome, second: Outcome)
    requires s.articles.Valid()
    modifies s, s.channel, s.articles
    ensures s.articles.Valid()
    ensures f.lastBuildDate.Some? ==> second == Skipped
    ensures f.lastBuildDate.None? && old(s.channel.lastBuildDate).Some? ==>
      first == second == Failed(MissingBuildDate)
    ensures f.lastBuildDate.None? && old(s.channel.lastBuildDate).None? ==>
      second == first && s.channel.lastBuildDate.None?
    ensures Decide(old(s.channel.lastBuildDate), f.lastBuildDate) == Ok(true) ==>
      && s.channel.lastBuildDate == f.lastBuildDate
      && s.articles.Snapshot() ==
         UpsertAll(old(s.articles.Snapshot()), s.channel.id, f.items[..FirstMissingGuid(f.items)])
    ensures Decide(old(s.channel.lastBuildDate), f.lastBuildDate) != Ok(true) ==>
      && s.channel.lastBuildDate == old(s.channel.lastBuildDate)
      && s.articles.Snapshot() == old(s.articles.Snapshot())
  {
    first := s.Call(Ok(f));
    second := s.Call(Ok(f));
    if f.lastBuildDate.None? && old(s.channel.lastBuildDate).None? {
      var prefix := f.items[..FirstMissingGuid(f.items)];
      PrefixHasGuids(f.items, FirstMissingGuid(f.items));
      UpsertAllIdempotent(old(s.articles.Snapshot()), s.channel.id, prefix);
    }
  }
}
