/** The events screen's data source: the Tribe Events REST feed read page by page over
    a one-year window, and the local cache of the last list it gathered. */
module TribeEvents {
  import opened Maybe
  import opened JsText
  import opened Json
  import opened Dates
  import opened Storage

  const StorageKey := "cached_tribe_events"
  const PerPage := 100
  /** Half of a 365-day year, in milliseconds. */
  const HalfYearMs := (365 * 24 * 60 * 60 * 1000) / 2

  /** An event as the screens see it. */
  datatype Event = Event(id: string, title: string, start: Date, end: Date)

  // ------------------------------------------------------------------
  // The query window
  // ------------------------------------------------------------------

  /** `s.split('.')[0]`: the text before the first `.`, or all of `s` when it has none. */
  function BeforeFirstDot(s: string): (r: string)
    ensures |r| <= |s| && r == s[..|r|]
    ensures forall i :: 0 <= i < |r| ==> r[i] != '.'
    ensures |r| == |s| || s[|r|] == '.'
  {
    if |s| == 0 || s[0] == '.' then "" else [s[0]] + BeforeFirstDot(s[1..])
  }

  /** `toIsoNoMs(d)` where `iso` is `d.toISOString()`: the longest prefix of `iso`
      without a `.`, then `Z`. */
  function ToIsoNoMs(iso: string): (r: string)
    ensures |r| > 0 && r[|r| - 1] == 'Z' && |r| - 1 <= |iso|
    ensures r[..|r| - 1] == iso[..|r| - 1]
    ensures forall i :: 0 <= i < |r| ==> r[i] != '.'
    ensures |r| - 1 == |iso| || iso[|r| - 1] == '.'
  {
    BeforeFirstDot(iso) + "Z"
  }

  /** On a timestamp with fractional seconds, such as `2024-05-01T10:20:30.123Z`, only
      the fraction and its dot are dropped. */
  lemma {:induction false} ToIsoNoMsWholeSeconds(whole: string, fraction: string)
    requires forall i :: 0 <= i < |whole| ==> whole[i] != '.'
    ensures ToIsoNoMs(whole + "." + fraction) == whole + "Z"
  {
    BeforeDotOfPrefix(whole, fraction);
  }

  lemma {:induction false} BeforeDotOfPrefix(whole: string, fraction: string)
    requires forall i :: 0 <= i < |whole| ==> whole[i] != '.'
    ensures BeforeFirstDot(whole + "." + fraction) == whole
  {
    var s := whole + "." + fraction;
    if |whole| > 0 {
      assert s[0] == whole[0];
      assert s[1..] == whole[1..] + "." + fraction;
      BeforeDotOfPrefix(whole[1..], fraction);
      assert [whole[0]] + whole[1..] == whole;
    } else {
      assert s[0] == '.';
    }
  }

  /** The first and last instants of the query, in milliseconds. */
  function WindowBounds(now: int): (b: (int, int))
    ensures b.0 == now - 15768000000 && b.1 == now + 15768000000
    ensures b.1 - b.0 == 365 * 24 * 60 * 60 * 1000
  {
    (now - HalfYearMs, now + HalfYearMs)
  }

  /** The `start_date` and `end_date` query parameters. */
  datatype Window = Window(startDate: string, endDate: string)

  function QueryWindow(now: int, codec: IsoCodec): Window {
    var b := WindowBounds(now);
    Window(ToIsoNoMs(codec.format(b.0)), ToIsoNoMs(codec.format(b.1)))
  }

  /** The query parameters of one page request; numbers are sent as `String(n)`. */
  datatype Query = Query(startDate: string, endDate: string, perPage: string, page: string)

  function PageQuery(w: Window, page: nat): Query {
    Query(w.startDate, w.endDate, DecimalString(PerPage), DecimalString(page))
  }

  /** The server reads back the page size and the page number the query sends. */
  lemma PageQueryReadsBack(w: Window, page: nat)
    ensures ParseInt(PageQuery(w, page).perPage) == Some(PerPage)
    ensures ParseInt(PageQuery(w, page).page) == Some(page)
  {
    ParseIntOfDecimalString(PerPage);
    ParseIntOfDecimalString(page);
  }

  // ------------------------------------------------------------------
  // Pages of the feed
  // ------------------------------------------------------------------

  /** One raw event of a page: `id`, `title`, `start_date` and `end_date`. */
  datatype RawEvent = RawEvent(id: int, title: string, startDate: string, endDate: string)

  /** The body of one page: its `events` list (`None` when missing or null) and its
      `total_pages` in text form (`None` when missing). */
  datatype PageBody = PageBody(events: Option<seq<RawEvent>>, totalPages: Option<string>)

  /** What one request gives: an OK page, a non-OK status, or a rejection (network
      failure or a body that is not JSON). */
  datatype Response = Ok(body: PageBody) | NotOk | Throws

  /** The foreign functions the hook relies on: `decode` from html-entities and the
      platform's ISO date conversions. */
  datatype Env = Env(decode: string -> string, codec: IsoCodec)

  /** `parseInt(json.total_pages, 10) || 1`. */
  function TotalPages(body: PageBody): (n: int)
    ensures n != 0
  {
    match body.totalPages
    case None => 1
    case Some(text) =>
      match ParseInt(text)
      case None => 1
      case Some(v) => if v == 0 then 1 else v
  }

  /** A missing, unparsable or zero `total_pages` counts as one page. */
  lemma TotalPagesDefault(body: PageBody)
    requires body.totalPages.None? || ParseInt(body.totalPages.value) in {None, Some(0)}
    ensures TotalPages(body) == 1
  {
  }

  /** A non-zero `total_pages` is read back as sent. */
  lemma TotalPagesSent(events: Option<seq<RawEvent>>, n: int)
    requires n != 0
    ensures TotalPages(PageBody(events, Some(DecimalString(n)))) == n
  {
    ParseIntOfDecimalString(n);
  }

  /** One record of the batch map. */
  function ToEvent(e: RawEvent, env: Env): Event {
    Event(DecimalString(e.id), env.decode(e.title), env.codec.parse(e.startDate), env.codec.parse(e.endDate))
  }

  /** The `id` of an event is `String(e.id)`, which reads back as the numeric id. */
  lemma ToEventId(e: RawEvent, env: Env)
    ensures ParseInt(ToEvent(e, env).id) == Some(e.id)
  {
    ParseIntOfDecimalString(e.id);
  }

  /** `(json.events || []).map(...)`. */
  function Batch(body: PageBody, env: Env): (r: seq<Event>)
    ensures body.events.None? ==> r == []
    ensures body.events.Some? ==> |r| == |body.events.value|
    ensures body.events.Some? ==> forall i :: 0 <= i < |r| ==> r[i] == ToEvent(body.events.value[i], env)
  {
    match body.events
    case None => []
    case Some(es) => seq(|es|, i requires 0 <= i < |es| => ToEvent(es[i], env))
  }

  /** The response to the request for `page` (numbered from 1); a request beyond the
      given responses is rejected. */
  function ResponseTo(rs: seq<Response>, page: nat): (r: Response)
    requires page >= 1
    ensures !r.Throws? ==> page <= |rs|
  {
    if page <= |rs| then rs[page - 1] else Throws
  }

  /** A response as the loop consumes it: the batch and the page count of an OK page,
      the end of the feed for a non-OK status, or a rejection. */
  datatype Step = Page(batch: seq<Event>, total: int) | Failed | Rejected

  function Digest(r: Response, env: Env): Step {
    match r
    case Ok(body) => Page(Batch(body, env), TotalPages(body))
    case NotOk => Failed
    case Throws => Rejected
  }

  function Steps(rs: seq<Response>, env: Env): (ds: seq<Step>)
    ensures |ds| == |rs|
    ensures forall i :: 0 <= i < |rs| ==> ds[i] == Digest(rs[i], env)
  {
    seq(|rs|, i requires 0 <= i < |rs| => Digest(rs[i], env))
  }

  function StepAt(ds: seq<Step>, page: nat): (d: Step)
    requires page >= 1
    ensures !d.Rejected? ==> page <= |ds|
  {
    if page <= |ds| then ds[page - 1] else Rejected
  }

  /** How the loop ends: with the events gathered, or by a rejection; either way after
      `requests` requests. */
  datatype Outcome = Gathered(events: seq<Event>, requests: nat) | Threw(requests: nat)

  /** The loop of `fetchAll` from `page` on, with `acc` gathered so far. */
  function Walk(ds: seq<Step>, page: nat, acc: seq<Event>): Outcome
    requires page >= 1
    decreases |ds| + 1 - page
  {
    match StepAt(ds, page)
    case Rejected => Threw(page)
    case Failed => Gathered(acc, page)
    case Page(batch, total) =>
      if page >= total then Gathered(acc + batch, page)
      else Walk(ds, page + 1, acc + batch)
  }

  /** The whole loop of `fetchAll`, given the responses to its requests in order. */
  function Paginate(rs: seq<Response>, env: Env): Outcome {
    Walk(Steps(rs, env), 1, [])
  }

  /** The events of one step: the batch of an OK page, nothing otherwise. */
  function PageEvents(d: Step): seq<Event> {
    if d.Page? then d.batch else []
  }

  /** The batches of the first `k` steps, in page order. */
  function AllBatches(ds: seq<Step>, k: nat): seq<Event>
    requires k <= |ds|
  {
    if k == 0 then [] else AllBatches(ds, k - 1) + PageEvents(ds[k - 1])
  }

  /** Page `p` is OK and announces more pages than `p`, so page `p + 1` is requested. */
  predicate MovesOn(ds: seq<Step>, p: int) {
    1 <= p <= |ds| && ds[p - 1].Page? && p < ds[p - 1].total
  }

  /** Page `p` ends the loop without an error: it is not OK, or it is the last page. */
  predicate Stops(ds: seq<Step>, p: int) {
    1 <= p <= |ds| && (ds[p - 1].Failed? || (ds[p - 1].Page? && p >= ds[p - 1].total))
  }

  /** `out` is what the loop gives from `page` on: every page before the last one
      requested moved on, and the last one stopped the loop or was rejected. */
  predicate Explains(ds: seq<Step>, page: nat, out: Outcome) {
    match out
    case Gathered(evs, n) =>
      page <= n <= |ds| && (forall p :: page <= p < n ==> MovesOn(ds, p)) && Stops(ds, n)
      && evs == AllBatches(ds, n)
    case Threw(n) =>
      page <= n && (forall p :: page <= p < n ==> MovesOn(ds, p)) && n >= 1 && StepAt(ds, n).Rejected?
  }

  /** What the loop does from `page` on, given the batches of the earlier pages. */
  lemma {:induction false} WalkFrom(ds: seq<Step>, page: nat, acc: seq<Event>)
    requires 1 <= page <= |ds| + 1
    requires acc == AllBatches(ds, page - 1)
    ensures Explains(ds, page, Walk(ds, page, acc))
    decreases |ds| + 1 - page
  {
    if MovesOn(ds, page) {
      var acc' := acc + ds[page - 1].batch;
      assert AllBatches(ds, page) == acc';
      WalkFrom(ds, page + 1, acc');
      ExplainsEarlier(ds, page, Walk(ds, page + 1, acc'));
    } else if StepAt(ds, page).Failed? {
      assert AllBatches(ds, page) == acc + [];
    }
  }

  /** A page that moves on extends what the loop does from the next page. */
  lemma ExplainsEarlier(ds: seq<Step>, page: nat, out: Outcome)
    requires MovesOn(ds, page)
    requires Explains(ds, page + 1, out)
    ensures Explains(ds, page, out)
  {
  }

  /** The page that ends the loop, by stopping it or by a rejection, does not move on. */
  lemma ExplainedEnd(ds: seq<Step>, out: Outcome)
    requires Explains(ds, 1, out)
    ensures !MovesOn(ds, out.requests)
  {
  }

  /** Whole-feed behaviour, part one: when pages 1 .. n-1 move on and page n stops the
      loop, exactly n pages are requested and the list is their batches in page order. */
  lemma WalkGathered(ds: seq<Step>, n: nat)
    requires 1 <= n <= |ds|
    requires forall p :: 1 <= p < n ==> MovesOn(ds, p)
    requires Stops(ds, n)
    ensures Walk(ds, 1, []) == Gathered(AllBatches(ds, n), n)
  {
    var out := Walk(ds, 1, []);
    WalkFrom(ds, 1, []);
    ExplainedEnd(ds, out);
    assert !MovesOn(ds, n);
  }

  /** Whole-feed behaviour, part two: when pages 1 .. n-1 move on and request n is
      rejected, the loop ends by the rejection after n requests. */
  lemma WalkThrew(ds: seq<Step>, n: nat)
    requires 1 <= n <= |ds| + 1
    requires forall p :: 1 <= p < n ==> MovesOn(ds, p)
    requires StepAt(ds, n).Rejected?
    ensures Walk(ds, 1, []) == Threw(n)
  {
    var out := Walk(ds, 1, []);
    WalkFrom(ds, 1, []);
    ExplainedEnd(ds, out);
    assert !MovesOn(ds, n);
  }

  /** With every page OK and announcing the same `total` pages, exactly `total` pages
      are requested. */
  lemma ConsistentFeed(ds: seq<Step>, total: nat)
    requires 1 <= total <= |ds|
    requires forall i :: 0 <= i < |ds| ==> ds[i].Page? && ds[i].total == total
    ensures Walk(ds, 1, []) == Gathered(AllBatches(ds, total), total)
  {
    assert Stops(ds, total);
    WalkGathered(ds, total);
  }

  /** A non-OK first page ends the feed at once with an empty list. */
  lemma FirstPageNotOk(rs: seq<Response>, env: Env)
    requires |rs| > 0 && rs[0].NotOk?
    ensures Paginate(rs, env) == Gathered([], 1)
  {
    assert Steps(rs, env)[0] == Failed;
  }

  /** A first page without a usable `total_pages` is the only page requested. */
  lemma SinglePage(rs: seq<Response>, env: Env)
    requires |rs| > 0 && rs[0].Ok?
    requires rs[0].body.totalPages.None? || ParseInt(rs[0].body.totalPages.value) in {None, Some(0), Some(1)}
    ensures Paginate(rs, env) == Gathered(Batch(rs[0].body, env), 1)
  {
    assert Steps(rs, env)[0] == Page(Batch(rs[0].body, env), TotalPages(rs[0].body));
  }

  // ------------------------------------------------------------------
  // The cache
  // ------------------------------------------------------------------

  /** The record `saveToStorage` writes for one event; `None` when a date is invalid,
      where `toISOString` throws. */
  function EventRecord(e: Event, codec: IsoCodec): Option<Json> {
    if e.start.Date? && e.end.Date? then
      Some(JObj([Field("id", JStr(e.id)), Field("title", JStr(e.title)),
                 Field("start", JStr(codec.format(e.start.ms))), Field("end", JStr(codec.format(e.end.ms)))]))
    else None
  }

  function EventRecords(evs: seq<Event>, codec: IsoCodec): (r: Option<seq<Json>>)
    ensures r.Some? <==> forall i :: 0 <= i < |evs| ==> evs[i].start.Date? && evs[i].end.Date?
    ensures r.Some? ==> |r.value| == |evs|
  {
    if |evs| == 0 then Some([])
    else
      match (EventRecord(evs[0], codec), EventRecords(evs[1..], codec))
      case (Some(j), Some(js)) => Some([j] + js)
      case _ => None
  }

  /** The text `saveToStorage` stores, or `None` when it throws before writing. */
  function EncodeEvents(evs: seq<Event>, codec: IsoCodec): (r: Option<string>)
    ensures r.Some? <==> forall i :: 0 <= i < |evs| ==> evs[i].start.Date? && evs[i].end.Date?
  {
    match EventRecords(evs, codec)
    case Some(js) => Some(Stringify(JArr(js)))
    case None => None
  }

  /** The store after `saveToStorage(evs)`: the cache key rewritten, or nothing changed
      when a date cannot be written. */
  function Saved(items: map<string, string>, evs: seq<Event>, codec: IsoCodec): map<string, string> {
    match EncodeEvents(evs, codec)
    case Some(text) => items[StorageKey := text]
    case None => items
  }

  /** One stored record read back as `loadFromStorage` maps it. */
  function FromRecord(j: Json, codec: IsoCodec): Option<Event> {
    match j
    case JObj(fs) =>
      (match (GetString(fs, "id"), GetString(fs, "title"), GetString(fs, "start"), GetString(fs, "end"))
       case (Some(id), Some(title), Some(start), Some(end)) =>
         Some(Event(id, title, codec.parse(start), codec.parse(end)))
       case _ => None)
    case _ => None
  }

  function FromRecords(js: seq<Json>, codec: IsoCodec): (r: Option<seq<Event>>)
    ensures r.Some? ==> |r.value| == |js|
  {
    if |js| == 0 then Some([])
    else
      match (FromRecord(js[0], codec), FromRecords(js[1..], codec))
      case (Some(e), Some(es)) => Some([e] + es)
      case _ => None
  }

  /** `JSON.parse(json).map(...)`; `None` where it throws. */
  function DecodeEvents(text: string, codec: IsoCodec): Option<seq<Event>> {
    match Parse(text)
    case Some(JArr(js)) => FromRecords(js, codec)
    case _ => None
  }

  /** The events after `loadFromStorage`: the cached list when one is stored and
      readable, the current list otherwise. */
  function Loaded(current: seq<Event>, items: map<string, string>, codec: IsoCodec): seq<Event> {
    match Truthy(Lookup(items, StorageKey))
    case Some(text) =>
      (match DecodeEvents(text, codec)
       case Some(evs) => evs
       case None => current)
    case None => current
  }

  /** A record with the four string properties reads back as the event they describe. */
  lemma FromFourFields(id: string, title: string, start: string, end: string, codec: IsoCodec)
    ensures FromRecord(JObj([Field("id", JStr(id)), Field("title", JStr(title)),
                             Field("start", JStr(start)), Field("end", JStr(end))]), codec)
            == Some(Event(id, title, codec.parse(start), codec.parse(end)))
  {
    var fs := [Field("id", JStr(id)), Field("title", JStr(title)), Field("start", JStr(start)), Field("end", JStr(end))];
    GetLastField(fs, 0);
    assert GetString(fs, "id") == Some(id);
    GetLastField(fs, 1);
    assert GetString(fs, "title") == Some(title);
    GetLastField(fs, 2);
    assert GetString(fs, "start") == Some(start);
    GetLastField(fs, 3);
    assert GetString(fs, "end") == Some(end);
  }

  lemma RecordRoundTrip(e: Event, codec: IsoCodec)
    requires Invertible(codec) && e.start.Date? && e.end.Date?
    ensures FromRecord(EventRecord(e, codec).value, codec) == Some(e)
  {
    FromFourFields(e.id, e.title, codec.format(e.start.ms), codec.format(e.end.ms), codec);
    assert codec.parse(codec.format(e.start.ms)) == Date(e.start.ms);
    assert codec.parse(codec.format(e.end.ms)) == Date(e.end.ms);
  }

  lemma {:induction false} RecordsRoundTrip(evs: seq<Event>, codec: IsoCodec)
    requires Invertible(codec)
    requires EventRecords(evs, codec).Some?
    ensures FromRecords(EventRecords(evs, codec).value, codec) == Some(evs)
  {
    if |evs| > 0 {
      var js := EventRecords(evs, codec).value;
      assert evs[0].start.Date? && evs[0].end.Date?;
      RecordRoundTrip(evs[0], codec);
      RecordsRoundTrip(evs[1..], codec);
      assert js[1..] == EventRecords(evs[1..], codec).value;
      assert [evs[0]] + evs[1..] == evs;
    }
  }

  /** Saving and then loading gives back every `id`, `title`, `start` and `end`. */
  lemma SaveThenLoad(current: seq<Event>, items: map<string, string>, evs: seq<Event>, codec: IsoCodec)
    requires Invertible(codec)
    requires forall i :: 0 <= i < |evs| ==> evs[i].start.Date? && evs[i].end.Date?
    ensures Loaded(current, Saved(items, evs, codec), codec) == evs
  {
    var js := EventRecords(evs, codec).value;
    ParseStringify(JArr(js));
    RecordsRoundTrip(evs, codec);
    assert Stringify(JArr(js))[0] == '[';
  }

  /** With nothing stored, loading keeps the current list. */
  lemma LoadNothing(current: seq<Event>, items: map<string, string>, codec: IsoCodec)
    requires StorageKey !in items
    ensures Loaded(current, items, codec) == current
  {
  }

  /** Stored text that is not JSON keeps the current list. */
  lemma LoadUnparsable(current: seq<Event>, items: map<string, string>, codec: IsoCodec)
    requires StorageKey in items && Parse(items[StorageKey]).None?
    ensures Loaded(current, items, codec) == current
  {
  }

  // ------------------------------------------------------------------
  // The hook
  // ------------------------------------------------------------------

  /** The `while (true)` loop of `fetchAll`: pages are requested in order until one
      stops the loop or a request is rejected. */
  method FetchPages(window: Window, rs: seq<Response>, env: Env) returns (requests: seq<Query>, out: Outcome)
    ensures out == Paginate(rs, env)
    ensures |requests| == out.requests
    ensures forall i :: 0 <= i < |requests| ==> requests[i] == PageQuery(window, i + 1)
  {
    requests := [];
    var page := 1;
    var all: seq<Event> := [];
    ghost var ds := Steps(rs, env);
    while true
      invariant 1 <= page <= |rs| + 1
      invariant |requests| == page - 1
      invariant forall i :: 0 <= i < |requests| ==> requests[i] == PageQuery(window, i + 1)
      invariant Walk(ds, page, all) == Paginate(rs, env)
      decreases |rs| + 1 - page
    {
      requests := requests + [PageQuery(window, page)];
      var res := ResponseTo(rs, page);
      assert StepAt(ds, page) == Digest(res, env);
      if res.Throws? {
        out := Threw(page);
        return;
      }
      if res.NotOk? {
        out := Gathered(all, page);
        return;
      }
      all := all + Batch(res.body, env);
      var totalPages := TotalPages(res.body);
      if page >= totalPages {
        out := Gathered(all, page);
        return;
      }
      page := page + 1;
    }
  }

  class Hook {
    var events: seq<Event>
    var loading: bool
    /** Every value passed to `setLoading`, in order. */
    ghost var loadingHistory: seq<bool>
    const store: Store

    constructor(store: Store)
      ensures this.store == store
      ensures events == [] && loading && loadingHistory == []
    {
      this.store := store;
      events := [];
      loading := true;
      loadingHistory := [];
    }

    /** `loadFromStorage`. */
    method LoadFromStorage(codec: IsoCodec)
      modifies this
      ensures events == Loaded(old(events), store.items, codec)
      ensures loading == old(loading) && loadingHistory == old(loadingHistory)
    {
      var json := store.GetItem(StorageKey);
      var text := Truthy(json);
      if text.Some? {
        var parsed := DecodeEvents(text.value, codec);
        if parsed.Some? {
          events := parsed.value;
        }
      }
    }

    /** `saveToStorage(list)`. */
    method SaveToStorage(list: seq<Event>, codec: IsoCodec)
      modifies store
      ensures store.items == Saved(old(store.items), list, codec)
    {
      var text := EncodeEvents(list, codec);
      if text.Some? {
        store.SetItem(StorageKey, text.value);
      }
    }

    /** `fetchAll`, with `connected` for the NetInfo answer, `now` for `Date.now()` and
        `rs` for the responses to the page requests in order; returns the requests made. */
    method FetchAll(connected: bool, now: int, rs: seq<Response>, env: Env) returns (requests: seq<Query>)
      modifies this, store
      ensures loading == false && loadingHistory == old(loadingHistory) + [true, false]
      ensures !connected ==> requests == [] && events == old(events) && store.items == old(store.items)
      ensures connected ==>
                |requests| == Paginate(rs, env).requests
                && forall i :: 0 <= i < |requests| ==> requests[i] == PageQuery(QueryWindow(now, env.codec), i + 1)
      ensures connected && Paginate(rs, env).Gathered? ==>
                events == Paginate(rs, env).events
                && store.items == Saved(old(store.items), events, env.codec)
      ensures connected && Paginate(rs, env).Threw? ==>
                events == old(events) && store.items == old(store.items)
    {
      loading := true;
      loadingHistory := loadingHistory + [true];
      requests := [];
      if !connected {
        loading := false;
        loadingHistory := loadingHistory + [false];
        return;
      }
      var out;
      requests, out := FetchPages(QueryWindow(now, env.codec), rs, env);
      if out.Gathered? {
        events := out.events;
        SaveToStorage(out.events, env.codec);
      }
      loading := false;
      loadingHistory := loadingHistory + [false];
    }

    /** The mount effect: load the cache, clear `loading`, then run `fetchAll`. */
    method Activate(connected: bool, now: int, rs: seq<Response>, env: Env) returns (requests: seq<Query>)
      modifies this, store
      ensures loading == false && loadingHistory == old(loadingHistory) + [false, true, false]
      ensures var cached := Loaded(old(events), old(store.items), env.codec);
              if !connected || Paginate(rs, env).Threw? then
                events == cached && store.items == old(store.items)
              else
                events == Paginate(rs, env).events
                && store.items == Saved(old(store.items), events, env.codec)
    {
      LoadFromStorage(env.codec);
      loading := false;
      loadingHistory := loadingHistory + [false];
      requests := FetchAll(connected, now, rs, env);
    }
  }
}
