/** backend/db/dynamodb_cache.py: the per-channel record of when the YouTube
    API was last asked for a channel, and the rule that keeps the import from
    asking again too soon. The DynamoDB table is a map from YouTube channel id
    to its item; the clock is the `now` parameter (milliseconds since the
    epoch); a `get_item` call that raises is the `lookupFails` parameter. */
module DynamoDbCache {
  import opened Wrappers

  /** `MIN_FETCH_INTERVAL` when the environment does not set it, in seconds. */
  const DefaultMinFetchInterval := 600

  /** A table item. `last_fetched_at` may be missing from an item written by
      someone else, so it is optional; `etag` is present only when one was given. */
  datatype Item = Item(lastFetchedAt: Option<int>, etag: Option<string>)

  /** `get_last_fetched_at` on a snapshot of the table: the stored timestamp,
      or nothing when the lookup raises, the item is missing or has no timestamp. */
  function LastFetchedAt(table: map<string, Item>, id: string, lookupFails: bool): (r: Option<int>)
    ensures r.Some? <==> !lookupFails && id in table && table[id].lastFetchedAt.Some?
    ensures r.Some? ==> r.value == table[id].lastFetchedAt.value
  {
    if lookupFails then None
    else if id in table then table[id].lastFetchedAt
    else None
  }

  /** When a fetch is due, in whole milliseconds: there is no usable timestamp
      (none, or the falsy 0), or at least `interval` seconds have passed since it. */
  predicate Due(table: map<string, Item>, id: string, now: int, interval: int, lookupFails: bool)
  {
    match LastFetchedAt(table, id, lookupFails)
    case None => true
    case Some(last) => last == 0 || now - last >= interval * 1000
  }

  /** The item `update_cache` writes: the time, and the etag only when one was
      given and is not empty. */
  function NewItem(etag: Option<string>, now: int): (item: Item)
    ensures item.lastFetchedAt == Some(now)
    ensures item.etag.Some? <==> etag.Some? && etag.value != ""
    ensures item.etag.Some? ==> item.etag == etag
  {
    Item(Some(now), if etag.Some? && etag.value != "" then etag else None)
  }

  /** The table as `put_item` leaves it: the item of `id` replaced whole. */
  function Updated(table: map<string, Item>, id: string, etag: Option<string>, now: int): map<string, Item>
  {
    table[id := NewItem(etag, now)]
  }

  class FetchCache {
    var table: map<string, Item>
    const minFetchInterval: int

    constructor(interval: int := DefaultMinFetchInterval)
      ensures table == map[] && minFetchInterval == interval
    {
      table := map[];
      minFetchInterval := interval;
    }

    /** `get_last_fetched_at`. */
    method GetLastFetchedAt(id: string, lookupFails: bool) returns (r: Option<int>)
      ensures r.Some? <==> !lookupFails && id in table && table[id].lastFetchedAt.Some?
      ensures r.Some? ==> r.value == table[id].lastFetchedAt.value
    {
      if lookupFails {
        return None;
      }
      if id in table {
        r := table[id].lastFetchedAt;
      } else {
        r := None;
      }
    }

    /** `should_fetch`: the elapsed time is computed in seconds by true division,
        as the source does, and agrees with the whole-millisecond rule `Due`. */
    method ShouldFetch(id: string, now: int, lookupFails: bool) returns (fetch: bool)
      ensures fetch == Due(table, id, now, minFetchInterval, lookupFails)
    {
      var lastFetched := GetLastFetchedAt(id, lookupFails);
      if lastFetched.None? || lastFetched.value == 0 {
        return true;
      }
      var elapsed: real := (now - lastFetched.value) as real / 1000.0;
      fetch := elapsed >= minFetchInterval as real;
    }

    /** `update_cache`: the item of `id` is replaced by one holding `now` and the
        etag, when one is given; every other item stays as it was. */
    method UpdateCache(id: string, etag: Option<string>, now: int)
      modifies this
      ensures table == Updated(old(table), id, etag, now)
    {
      var item := Item(Some(now), None);
      if etag.Some? && etag.value != "" {
        item := item.(etag := etag);
      }
      table := table[id := item];
    }
  }

  /** After an update at `t` (other than the falsy 0), a fetch is due at `t'`
      exactly when the interval has passed: never within it. */
  lemma DueAfterUpdate(table: map<string, Item>, id: string, etag: Option<string>, t: int, t': int, interval: int)
    requires t != 0
    ensures Due(Updated(table, id, etag, t), id, t', interval, false) <==> t' - t >= interval * 1000
  {
    assert LastFetchedAt(Updated(table, id, etag, t), id, false) == Some(t);
  }

  /** An update at the epoch stores the falsy 0, after which a fetch is always due. */
  lemma DueAfterUpdateAtEpoch(table: map<string, Item>, id: string, etag: Option<string>, t': int, interval: int)
    ensures Due(Updated(table, id, etag, 0), id, t', interval, false)
  {
    assert LastFetchedAt(Updated(table, id, etag, 0), id, false) == Some(0);
  }

  /** Updating one channel leaves every other channel's item, and so its fetch decision, as it was. */
  lemma UpdateKeepsOthers(table: map<string, Item>, id: string, etag: Option<string>, now: int, other: string)
    requires other != id
    ensures other in Updated(table, id, etag, now) <==> other in table
    ensures other in table ==> Updated(table, id, etag, now)[other] == table[other]
    ensures forall t, interval, fails :: Due(Updated(table, id, etag, now), other, t, interval, fails) == Due(table, other, t, interval, fails)
  {
  }

  /** A failing lookup, and a channel never recorded, both lead to a fetch. */
  lemma DueWhenUnknown(table: map<string, Item>, id: string, now: int, interval: int)
    ensures Due(table, id, now, interval, true)
    ensures id !in table ==> Due(table, id, now, interval, false)
  {
  }

  /** The item written replaces the old one whole: without a new etag, an old one is dropped. */
  lemma UpdateReplacesEtag(table: map<string, Item>, id: string, etag: Option<string>, now: int)
    ensures Updated(table, id, etag, now)[id].lastFetchedAt == Some(now)
    ensures etag == None || etag == Some("") ==> Updated(table, id, etag, now)[id].etag == None
    ensures etag.Some? && etag.value != "" ==> Updated(table, id, etag, now)[id].etag == etag
  {
  }
}
