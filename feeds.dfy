/** Values handed over by the RSS parser: one parsed feed document and its
    items, plus the three views of an item list that the synchronizer relies on:
    the set of guids it carries, per guid the last item that carries it, and the
    position of the first item without a guid. */
module Feeds {

  datatype Option<+T> = None | Some(value: T)

  /** Why a sync attempt stopped before completing. */
  datatype SyncError =
    | FetchError                 // the feed URL could not be read
    | ParseError                 // the body is not a well-formed feed
    | MissingGuid(position: nat) // the item at this position has no guid
    | MissingBuildDate           // a stored watermark met a feed without lastBuildDate

  datatype Result<+T> = Ok(value: T) | Err(error: SyncError)

  /** Timestamps are whole seconds; time zones and calendar arithmetic are not modelled. */
  type Timestamp = int

  /** One feed item as the parser exposes it; `content` is the item's
      `content:encoded` element. */
  datatype Item = Item(
    guid: Option<string>,
    title: string,
    description: string,
    pubDate: Timestamp,
    content: string,
    link: string)

  /** A parsed feed: channel-level metadata and its items in document order.
      RSS makes the channel's `lastBuildDate` optional. */
  datatype Feed = Feed(title: string, lastBuildDate: Option<Timestamp>, items: seq<Item>)

  predicate HasGuids(items: seq<Item>)
  {
    forall i :: 0 <= i < |items| ==> items[i].guid.Some?
  }

  /** Position of the first item without a guid, or |items| when every item
      has one: the point where walking the items in order would stop. */
  function FirstMissingGuid(items: seq<Item>): (k: nat)
    ensures k <= |items|
    ensures forall i :: 0 <= i < k ==> items[i].guid.Some?
    ensures k < |items| ==> items[k].guid.None?
  {
    if items == [] || items[0].guid.None? then 0
    else 1 + FirstMissingGuid(items[1..])
  }

  lemma PrefixHasGuids(items: seq<Item>, i: nat)
    requires i <= |items|
    requires forall j :: 0 <= j < i ==> items[j].guid.Some?
    ensures HasGuids(items[..i])
  {
  }

  /** A walk that has found guids on the first `i` items and stops at `i`
      (at the end, or at an item without a guid) stopped at FirstMissingGuid. */
  lemma FirstMissingGuidAt(items: seq<Item>, i: nat)
    requires i <= |items|
    requires forall j :: 0 <= j < i ==> items[j].guid.Some?
    requires i < |items| ==> items[i].guid.None?
    ensures FirstMissingGuid(items) == i
  {
  }

  /** The guids carried by the items. */
  function Guids(items: seq<Item>): set<string>
    decreases |items|
  {
    if items == [] then {}
    else
      var last := items[|items| - 1];
      Guids(items[..|items| - 1]) + (if last.guid.Some? then {last.guid.value} else {})
  }

  /** The last item, in document order, whose guid is `g`. */
  function LastWith(items: seq<Item>, g: string): Option<Item>
    decreases |items|
  {
    if items == [] then None
    else if items[|items| - 1].guid == Some(g) then Some(items[|items| - 1])
    else LastWith(items[..|items| - 1], g)
  }

  /** `Guids` holds exactly the guids that occur on some item. */
  lemma {:induction false} GuidsAreItemGuids(items: seq<Item>, g: string)
    ensures g in Guids(items) <==> exists i :: 0 <= i < |items| && items[i].guid == Some(g)
  {
    if items != [] {
      var n := |items| - 1;
      GuidsAreItemGuids(items[..n], g);
      if g in Guids(items) {
        if g in Guids(items[..n]) {
          var i :| 0 <= i < n && items[..n][i].guid == Some(g);
          assert items[i] == items[..n][i];
        } else {
          assert items[n].guid == Some(g);
        }
      } else {
        forall i | 0 <= i < |items|
          ensures items[i].guid != Some(g)
        {
          if i < n {
            assert items[i] == items[..n][i];
          }
        }
      }
    }
  }

  /** `LastWith` finds an item exactly for the guids in `Guids`, and the item
      it finds sits at a position after which no item carries that guid. */
  lemma {:induction false} LastWithIsLast(items: seq<Item>, g: string)
    ensures LastWith(items, g).Some? <==> g in Guids(items)
    ensures LastWith(items, g).Some? ==>
      exists i :: 0 <= i < |items| && items[i] == LastWith(items, g).value &&
        items[i].guid == Some(g) &&
        forall j :: i < j < |items| ==> items[j].guid != Some(g)
  {
    if items != [] {
      var n := |items| - 1;
      if items[n].guid == Some(g) {
        assert items[n] == LastWith(items, g).value;
      } else {
        LastWithIsLast(items[..n], g);
        if LastWith(items, g).Some? {
          var i :| 0 <= i < n && items[..n][i] == LastWith(items[..n], g).value &&
            items[..n][i].guid == Some(g) &&
            forall j :: i < j < n ==> items[..n][j].guid != Some(g);
          assert items[i] == items[..n][i];
          forall j | i < j < |items|
            ensures items[j].guid != Some(g)
          {
            if j < n {
              assert items[j] == items[..n][j];
            }
          }
        }
      }
    }
  }
}
