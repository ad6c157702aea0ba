/** The articles table as a value: rows keyed globally by guid, each row
    remembering its record id, and the upsert that feed items apply to it. */
module Articles {
  import opened Feeds

  /** One stored article. The guid is the key it is stored under. */
  datatype Article = Article(
    id: nat,
    channelId: int,
    title: string,
    description: string,
    publishedAt: Timestamp,
    content: string,
    url: string)

  /** All articles, keyed by guid, and the id the next new record will get. */
  datatype Table = Table(rows: map<string, Article>, nextId: nat)

  /** Every record id was handed out before `nextId`, and no two guids share a record. */
  ghost predicate WellFormed(t: Table)
  {
    && (forall g :: g in t.rows ==> t.rows[g].id < t.nextId)
    && (forall g, h :: g in t.rows && h in t.rows && g != h ==> t.rows[g].id != t.rows[h].id)
  }

  /** The record with id `id` after its fields are assigned from `item` on behalf
      of channel `channelId`; nothing is sanitised. */
  function Materialize(id: nat, channelId: int, item: Item): (a: Article)
    ensures a.id == id && a.channelId == channelId
    ensures a.title == item.title && a.description == item.description
    ensures a.publishedAt == item.pubDate && a.content == item.content && a.url == item.link
  {
    Article(id, channelId, item.title, item.description, item.pubDate, item.content, item.link)
  }

  /** Find the record for the item's guid or initialise a new one, then overwrite
      its channel and fields with the item's. A new record takes the next id. */
  function Upsert(t: Table, channelId: int, item: Item): (r: Table)
    requires item.guid.Some?
    ensures item.guid.value in t.rows ==> r.nextId == t.nextId
    ensures item.guid.value !in t.rows ==> r.nextId == t.nextId + 1
  {
    var g := item.guid.value;
    var id := if g in t.rows then t.rows[g].id else t.nextId;
    Table(t.rows[g := Materialize(id, channelId, item)],
          if g in t.rows then t.nextId else t.nextId + 1)
  }

  /** The items upserted one after another, in document order. */
  function UpsertAll(t: Table, channelId: int, items: seq<Item>): (r: Table)
    requires HasGuids(items)
    ensures r.rows.Keys == t.rows.Keys + Guids(items)
    ensures t.nextId <= r.nextId
    decreases |items|
  {
    if items == [] then t
    else Upsert(UpsertAll(t, channelId, items[..|items| - 1]), channelId, items[|items| - 1])
  }

  /** Upserting a prefix one item longer applies one more upsert. */
  lemma UpsertAllSnoc(t: Table, channelId: int, items: seq<Item>, i: nat)
    requires i < |items|
    requires forall j :: 0 <= j <= i ==> items[j].guid.Some?
    ensures HasGuids(items[..i]) && HasGuids(items[..i + 1])
    ensures UpsertAll(t, channelId, items[..i + 1]) == Upsert(UpsertAll(t, channelId, items[..i]), channelId, items[i])
  {
    PrefixHasGuids(items, i);
    PrefixHasGuids(items, i + 1);
    assert items[..i + 1][..i] == items[..i];
  }

  /** Upserting hands a new record an id no other record has, so record ids
      stay distinct and below `nextId`. */
  lemma {:induction false} UpsertAllWellFormed(t: Table, channelId: int, items: seq<Item>)
    requires HasGuids(items)
    requires WellFormed(t)
    ensures WellFormed(UpsertAll(t, channelId, items))
  {
    if items != [] {
      var n := |items| - 1;
      UpsertAllWellFormed(t, channelId, items[..n]);
      var prev := UpsertAll(t, channelId, items[..n]);
      assert UpsertAll(t, channelId, items) == Upsert(prev, channelId, items[n]);
    }
  }

  /** A guid that no item carries keeps its article exactly as it was, whichever
      channel owns it. */
  lemma {:induction false} UpsertAllKeepsOthers(t: Table, channelId: int, items: seq<Item>, g: string)
    requires HasGuids(items)
    requires g !in Guids(items) && g in t.rows
    ensures UpsertAll(t, channelId, items).rows[g] == t.rows[g]
  {
    if items != [] {
      UpsertAllKeepsOthers(t, channelId, items[..|items| - 1], g);
    }
  }

  /** An article that already existed keeps its record id. */
  lemma {:induction false} UpsertAllKeepsIdentity(t: Table, channelId: int, items: seq<Item>, g: string)
    requires HasGuids(items)
    requires g in t.rows
    ensures UpsertAll(t, channelId, items).rows[g].id == t.rows[g].id
  {
    if items != [] {
      UpsertAllKeepsIdentity(t, channelId, items[..|items| - 1], g);
    }
  }

  /** An article that did not exist before gets an id no earlier record had. */
  lemma {:induction false} UpsertAllFreshIds(t: Table, channelId: int, items: seq<Item>, g: string)
    requires HasGuids(items)
    requires g in Guids(items) && g !in t.rows
    ensures t.nextId <= UpsertAll(t, channelId, items).rows[g].id
  {
    var n := |items| - 1;
    if items[n].guid != Some(g) || g in UpsertAll(t, channelId, items[..n]).rows {
      UpsertAllFreshIds(t, channelId, items[..n], g);
    }
  }

  /** Every guid of the feed ends up owned by `channelId`, with the title,
      description, publication date, content and link of the LAST item that
      carries it. */
  lemma {:induction false} UpsertAllTakesLastItem(t: Table, channelId: int, items: seq<Item>, g: string)
    requires HasGuids(items)
    requires g in Guids(items)
    ensures LastWith(items, g).Some?
    ensures var r := UpsertAll(t, channelId, items);
      r.rows[g] == Materialize(r.rows[g].id, channelId, LastWith(items, g).value)
  {
    var n := |items| - 1;
    if items[n].guid != Some(g) {
      UpsertAllTakesLastItem(t, channelId, items[..n], g);
    }
  }

  /** Adding one guid to a set grows the part not yet stored by at most that guid. */
  lemma AddedGuidCount(guids: set<string>, stored: set<string>, g: string)
    ensures |(guids + {g}) - stored| == |guids - stored| + (if g in guids || g in stored then 0 else 1)
  {
    if g in guids || g in stored {
      assert (guids + {g}) - stored == guids - stored;
    } else {
      assert (guids + {g}) - stored == (guids - stored) + {g};
    }
  }

  /** One new record id is handed out per distinct guid that was not yet stored. */
  lemma {:induction false} UpsertAllNextId(t: Table, channelId: int, items: seq<Item>)
    requires HasGuids(items)
    ensures UpsertAll(t, channelId, items).nextId == t.nextId + |Guids(items) - t.rows.Keys|
  {
    if items != [] {
      var n := |items| - 1;
      var g := items[n].guid.value;
      var prev := UpsertAll(t, channelId, items[..n]);
      UpsertAllNextId(t, channelId, items[..n]);
      assert Guids(items) == Guids(items[..n]) + {g};
      AddedGuidCount(Guids(items[..n]), t.rows.Keys, g);
      assert UpsertAll(t, channelId, items) == Upsert(prev, channelId, items[n]);
    }
  }

  /** The article count grows by exactly the number of distinct feed guids not
      already stored; no guid is ever stored twice. It follows from the keys
      `UpsertAll` promises. */
  lemma UpsertAllCount(t: Table, channelId: int, items: seq<Item>)
    requires HasGuids(items)
    ensures |UpsertAll(t, channelId, items).rows| == |t.rows| + |Guids(items) - t.rows.Keys|
  {
  }

  /** Upserting the same items a second time changes nothing: same rows, same
      ids, no new record. */
  lemma UpsertAllIdempotent(t: Table, channelId: int, items: seq<Item>)
    requires HasGuids(items)
    ensures UpsertAll(UpsertAll(t, channelId, items), channelId, items) == UpsertAll(t, channelId, items)
  {
    var once := UpsertAll(t, channelId, items);
    var twice := UpsertAll(once, channelId, items);
    forall g | g in once.rows
      ensures twice.rows[g] == once.rows[g]
    {
      if g in Guids(items) {
        UpsertAllTakesLastItem(t, channelId, items, g);
        UpsertAllTakesLastItem(once, channelId, items, g);
        UpsertAllKeepsIdentity(once, channelId, items, g);
      } else {
        UpsertAllKeepsOthers(once, channelId, items, g);
      }
    }
    assert twice.rows == once.rows;
    UpsertAllNextId(once, channelId, items);
    assert Guids(items) - once.rows.Keys == {};
  }
}
