/** The calendar screen's data source: the site's iCalendar feed, parsed by ical.js,
    with the last parsed list cached as JSON. */
module IcsEvents {
  import opened Maybe
  import opened Json
  import opened Storage

  const StorageKey := "cached_events_ics"

  /** The properties of one VEVENT component as ical.js exposes them: `uid`, `summary`,
      the start and end as time values in milliseconds, and `description`. */
  datatype VEvent = VEvent(uid: string, summary: string, startMs: int, endMs: int, description: string)

  /** An event as the screen sees it; `start` and `end` are `Date` time values. */
  datatype IcsEvent = IcsEvent(id: string, title: string, start: int, end: int, description: string)

  /** ical.js applied to a whole feed: its VEVENT components in order, or `None` where
      parsing throws. */
  type IcsParser = string -> Option<seq<VEvent>>

  /** What the fetch gives: the response text, or a rejection. */
  datatype Fetched = Body(text: string) | Rejected

  /** The `events` state: a list built by a fetch, or whatever `JSON.parse` made of the
      cache, where dates are left as strings. */
  datatype Events = Live(list: seq<IcsEvent>) | Restored(value: Json)

  function ToEvent(v: VEvent): IcsEvent {
    IcsEvent(v.uid, v.summary, v.startMs, v.endMs, v.description)
  }

  /** The VEVENT `map`: one event per component, in component order. */
  function ToEvents(vs: seq<VEvent>): (r: seq<IcsEvent>)
    ensures |r| == |vs|
    ensures forall i :: 0 <= i < |vs| ==> r[i].id == vs[i].uid && r[i].title == vs[i].summary
    ensures forall i :: 0 <= i < |vs| ==> r[i].start == vs[i].startMs && r[i].end == vs[i].endMs
    ensures forall i :: 0 <= i < |vs| ==> r[i].description == vs[i].description
  {
    seq(|vs|, i requires 0 <= i < |vs| => ToEvent(vs[i]))
  }

  /** The events a fetch yields, or `None` when the fetch or the parse throws. */
  function Fetch(fetched: Fetched, parse: IcsParser): (r: Option<seq<IcsEvent>>)
    ensures r.Some? <==> fetched.Body? && parse(fetched.text).Some?
    ensures r.Some? ==> r.value == ToEvents(parse(fetched.text).value)
  {
    match fetched
    case Rejected => None
    case Body(text) =>
      match parse(text)
      case Some(vs) => Some(ToEvents(vs))
      case None => None
  }

  /** `JSON.stringify` of one event: the dates become their ISO strings. */
  function Record(e: IcsEvent, format: int -> string): Json {
    JObj([Field("id", JStr(e.id)), Field("title", JStr(e.title)), Field("start", JStr(format(e.start))),
          Field("end", JStr(format(e.end))), Field("description", JStr(e.description))])
  }

  function Records(list: seq<IcsEvent>, format: int -> string): (r: seq<Json>)
    ensures |r| == |list|
    ensures forall i :: 0 <= i < |list| ==> r[i] == Record(list[i], format)
  {
    seq(|list|, i requires 0 <= i < |list| => Record(list[i], format))
  }

  /** The text `fetchAndCache` stores. */
  function CacheText(list: seq<IcsEvent>, format: int -> string): string {
    Stringify(JArr(Records(list, format)))
  }

  /** What `loadCache` does: nothing when no value is stored, `setEvents` with the
      parsed value, or a throw from `JSON.parse`. */
  datatype CacheRead = Kept | Replaced(value: Json) | Throws

  function ReadCache(items: map<string, string>): (r: CacheRead)
    ensures StorageKey !in items ==> r == Kept
  {
    match Truthy(Lookup(items, StorageKey))
    case None => Kept
    case Some(text) =>
      match Parse(text)
      case Some(j) => Replaced(j)
      case None => Throws
  }

  /** The events after a cache read. */
  function AfterRead(current: Events, r: CacheRead): Events {
    if r.Replaced? then Restored(r.value) else current
  }

  /** What a fetch caches reads back as the JSON records of the list it fetched. */
  lemma CacheReadsBack(items: map<string, string>, list: seq<IcsEvent>, format: int -> string)
    ensures ReadCache(items[StorageKey := CacheText(list, format)]) == Replaced(JArr(Records(list, format)))
  {
    ParseStringify(JArr(Records(list, format)));
    assert CacheText(list, format)[0] == '[';
  }

  class Hook {
    var events: Events
    var loading: bool
    /** Every value passed to `setLoading`, in order. */
    ghost var loadingHistory: seq<bool>
    const store: Store

    constructor(store: Store)
      ensures this.store == store
      ensures events == Live([]) && !loading && loadingHistory == []
    {
      this.store := store;
      events := Live([]);
      loading := false;
      loadingHistory := [];
    }

    /** `loadCache`; `threw` tells whether `JSON.parse` threw. */
    method LoadCache() returns (threw: bool)
      modifies this
      ensures threw <==> ReadCache(store.items).Throws?
      ensures events == AfterRead(old(events), ReadCache(store.items))
      ensures loading == old(loading) && loadingHistory == old(loadingHistory)
    {
      threw := false;
      var json := store.GetItem(StorageKey);
      var text := Truthy(json);
      if text.Some? {
        var parsed := Parse(text.value);
        if parsed.Some? {
          events := Restored(parsed.value);
        } else {
          threw := true;
        }
      }
    }

    /** `fetchAndCache`, with `fetched` for the outcome of the request, `parse` for
        ical.js and `format` for `toISOString`; `threw` tells whether the fallback read of
        the cache threw in turn. */
    method FetchAndCache(fetched: Fetched, parse: IcsParser, format: int -> string) returns (threw: bool)
      modifies this, store
      ensures loading == false && loadingHistory == old(loadingHistory) + [true, false]
      ensures Fetch(fetched, parse).Some? ==>
                var list := Fetch(fetched, parse).value;
                events == Live(list) && !threw
                && store.items == old(store.items)[StorageKey := CacheText(list, format)]
      ensures Fetch(fetched, parse).None? ==>
                events == AfterRead(old(events), ReadCache(old(store.items)))
                && store.items == old(store.items)
                && (threw <==> ReadCache(old(store.items)).Throws?)
    {
      loading := true;
      loadingHistory := loadingHistory + [true];
      var list := Fetch(fetched, parse);
      if list.Some? {
        events := Live(list.value);
        store.SetItem(StorageKey, CacheText(list.value, format));
        threw := false;
      } else {
        threw := LoadCache();
      }
      loading := false;
      loadingHistory := loadingHistory + [false];
    }

    /** `refresh`: fetch when connected, otherwise read the cache. `fetched` tells
        whether the feed was requested. */
    method Refresh(connected: bool, fetched: Fetched, parse: IcsParser, format: int -> string)
      returns (requested: bool, threw: bool)
      modifies this, store
      ensures requested == connected
      ensures connected ==>
                loading == false && loadingHistory == old(loadingHistory) + [true, false]
                && (Fetch(fetched, parse).Some? ==>
                      events == Live(Fetch(fetched, parse).value)
                      && store.items == old(store.items)[StorageKey := CacheText(Fetch(fetched, parse).value, format)])
                && (Fetch(fetched, parse).Some? ==> !threw)
                && (Fetch(fetched, parse).None? ==>
                      events == AfterRead(old(events), ReadCache(old(store.items))) && store.items == old(store.items)
                      && (threw <==> ReadCache(old(store.items)).Throws?))
      ensures !connected ==>
                loading == old(loading) && loadingHistory == old(loadingHistory)
                && events == AfterRead(old(events), ReadCache(old(store.items)))
                && store.items == old(store.items)
                && (threw <==> ReadCache(old(store.items)).Throws?)
    {
      requested := connected;
      if connected {
        threw := FetchAndCache(fetched, parse, format);
      } else {
        threw := LoadCache();
      }
    }
  }

  /** A failed fetch after a successful one shows the earlier list again, as JSON records
      whose dates are strings. */
  lemma FailureAfterSuccess(items: map<string, string>, list: seq<IcsEvent>, format: int -> string, current: Events)
    ensures AfterRead(current, ReadCache(items[StorageKey := CacheText(list, format)]))
            == Restored(JArr(Records(list, format)))
  {
    CacheReadsBack(items, list, format);
  }
}
