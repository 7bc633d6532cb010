# SGSMApp data layer, modelled in Dafny

SGSMApp is a React Native client for the St George & St Mercurius church site. It reads
several WordPress endpoints, keeps their last answers in AsyncStorage and shows them. This
project models the parts of the app that make decisions:

- **Tribe events** (`TribeEvents`, `tribe_events.dfy`): the `useEvents` hook over the Tribe
  Events REST feed.
  - `toIsoNoMs` and the one-year query window.
  - The `fetchAll` page loop, which stops on `page >= totalPages`, on a non-OK page or on a
    throw.
  - The offline path.
  - The cache records written by `saveToStorage` and read by `loadFromStorage`.
  - The mount order: load, clear `loading`, fetch.
- **iCalendar events** (`IcsEvents`, `ics_events.dfy`): the `useEvents` hook of the
  calendar tab.
  - `loadCache`.
  - `fetchAndCache`, which falls back to the cache on any failure.
  - `refresh`, which fetches when connected and reads the cache otherwise.
- **Daily verse** (`DailyVerse`, `daily_verse.dfy`):
  - the `/[^.!?]+[.!?]+/g` sentence splitter, modelled exactly;
  - the first-two-sentences slice;
  - the one-hour cache freshness test;
  - the `{ ref, lines }` blob with its timestamp, written only after a successful search;
  - the component's spinner / fallback / verse rendering.
- **Media** (`Media`, `media.dfy`): `useMedia`, its cache key, the request URL, and the
  `media` / `loading` / `error` transitions of `fetchMedia` and of activation.
- **Card titles** (`CardTitle` and `AnnouncementTitle`, `card_title.dfy`):
  - the `/<[^>]+>/g` tag strip shared by `MediaCard` and `ArticleCard`;
  - entity decoding after stripping;
  - the U+0600–U+06FF Arabic test that right-aligns a title;
  - the `/<\/?[^>]+(>|$)/g` strip of `AnnouncementCard`.

Supporting modules:

- `Maybe`: the option type.
- `JsText`:
  - `String.prototype.trim` with ECMAScript white space;
  - `String(n)` for integers;
  - `parseInt(s, 10)`.
- `Json`: `JSON.stringify` and `JSON.parse` for null, booleans, integers, strings, arrays and
  objects. `JSON.parse(JSON.stringify(j)) == j` is proved.
- `Dates`: a `Date` as integer milliseconds or Invalid Date; `toISOString` and
  `new Date(string)` as an abstract pair of functions.
- `Storage`: AsyncStorage as an object over a string map, with `getItem`, `setItem` and
  `multiSet`.

Hook state is a class per hook. Its fields are the React state variables. Each method is one
of the hook's callbacks and states the whole new state. Every `setLoading` call is recorded
in a ghost `loadingHistory`, and every `setError` call in `errorHistory`, so the order of
transitions is part of each contract.

Some things the app gets from outside are passed in as parameters:

- the network:
  - the Tribe feed is a finite sequence of page responses, where a request past its end
    counts as a rejected fetch;
  - the other endpoints give one outcome each;
- `NetInfo`'s answer;
- `Date.now()`;
- `html-entities`' `decode`;
- ical.js;
- the ISO date conversions.

The Tribe page loop runs at most one more time than there are scripted responses, so the
loop's termination is proved against that bound. The source's `while (true)` has no bound
of its own.

Where the code and its intent part ways, the model follows the code:

- A non-OK Tribe page ends the loop normally. The events gathered so far, possibly none, are
  then published and saved.
- `useMedia`'s check `media.length > 0` (src/hooks/useMedia.ts:48) reads the value captured
  when the effect was created, which is the initial empty list. `loading` is therefore
  cleared only by `fetchMedia`, and activation records exactly the `true, false` of
  `fetchMedia`.
- `AnnouncementCard`'s strip removes an unclosed `<x` to the end of the title, where the
  cards' strip keeps it (`AnnouncementTitle.UnclosedTagDiffers`).

## Model

| member | source | states |
|---|---|---|
| TribeEvents.ToIsoNoMs | src/hooks/useEvents.tsx:16-18 | The result ends in `Z` and has no `.`. Before the `Z` it is the ISO string up to its first `.`, or the whole string when there is none. |
| TribeEvents.ToIsoNoMsWholeSeconds | src/hooks/useEvents.tsx:16-18 | On `whole.fraction` with no dot in `whole`, only the fraction and its dot are dropped, giving `whole + "Z"`. |
| TribeEvents.WindowBounds | src/hooks/useEvents.tsx:69-72 | The window is exactly `now - 15768000000` to `now + 15768000000` ms, 365 days wide. |
| TribeEvents.PageQueryReadsBack | src/hooks/useEvents.tsx:80-86 | The `per_page` and `page` parameters read back with `parseInt` as 100 and the page number. |
| TribeEvents.TotalPages | src/hooks/useEvents.tsx:101 | `parseInt(total_pages) \|\| 1` is never 0. |
| TribeEvents.TotalPagesDefault | src/hooks/useEvents.tsx:101 | A missing, unparsable or zero `total_pages` counts as one page. |
| TribeEvents.TotalPagesSent | src/hooks/useEvents.tsx:101 | A non-zero page count sent in decimal is read back as sent. |
| TribeEvents.Batch | src/hooks/useEvents.tsx:92-97 | A missing `events` gives `[]`. Otherwise there is one event per raw record, in order, mapped field by field. |
| TribeEvents.ToEventId | src/hooks/useEvents.tsx:93 | The event `id` is `String(e.id)`, which reads back as the numeric id. |
| TribeEvents.WalkFrom | src/hooks/useEvents.tsx:79-104 | From any page, given the earlier batches, the loop's outcome is explained. Every earlier page moved on, and the last one stopped the loop (events = all batches so far) or was rejected. |
| TribeEvents.WalkGathered | src/hooks/useEvents.tsx:79-104 | If pages 1..n-1 announce more pages and page n is non-OK or `n >= totalPages`, exactly n pages are requested. The result is the concatenation of their batches in page order. |
| TribeEvents.WalkThrew | src/hooks/useEvents.tsx:79-104 | If pages 1..n-1 move on and request n is rejected, the loop throws after n requests. |
| TribeEvents.ConsistentFeed | src/hooks/useEvents.tsx:79-104 | If every page is OK and announces the same `total`, exactly `total` pages are requested and all their batches are gathered. |
| TribeEvents.FirstPageNotOk | src/hooks/useEvents.tsx:89 | A non-OK first page ends the loop at once with the empty list. |
| TribeEvents.SinglePage | src/hooks/useEvents.tsx:101-102 | A first page without a usable `total_pages` above 1 is the only page; its batch is the list. |
| TribeEvents.FetchPages | src/hooks/useEvents.tsx:79-104 | The `while` loop requests pages 1, 2, … with `per_page=100` in order. Its outcome is the loop function's. |
| TribeEvents.EventRecords | src/hooks/useEvents.tsx:46-51 | The records exist iff every start and end is a valid date (otherwise `toISOString` throws). There is one record per event. |
| TribeEvents.EncodeEvents | src/hooks/useEvents.tsx:46-52 | `saveToStorage` writes text iff every date is valid. |
| TribeEvents.FromFourFields | src/hooks/useEvents.tsx:29-34 | A record with string `id`, `title`, `start`, `end` maps to the event with those fields and the parsed dates. |
| TribeEvents.RecordRoundTrip | src/hooks/useEvents.tsx:29-51 | One saved record reads back as the same event, given that ISO conversion is invertible. |
| TribeEvents.RecordsRoundTrip | src/hooks/useEvents.tsx:29-51 | A saved list of records reads back as the same list. |
| TribeEvents.SaveThenLoad | src/hooks/useEvents.tsx:25-56 | Saving and then loading gives back the same `id`, `title`, `start` and `end` of every event, whatever was shown before. |
| TribeEvents.LoadNothing | src/hooks/useEvents.tsx:27-28 | With nothing stored, loading keeps the current events. |
| TribeEvents.LoadUnparsable | src/hooks/useEvents.tsx:37-39 | Stored text that `JSON.parse` rejects keeps the current events. |
| TribeEvents.Hook.constructor | src/hooks/useEvents.tsx:21-22 | Events start empty and `loading` starts true. |
| TribeEvents.Hook.LoadFromStorage | src/hooks/useEvents.tsx:25-40 | Events become the stored list when it is present and readable, and are unchanged otherwise. `loading` is untouched. |
| TribeEvents.Hook.SaveToStorage | src/hooks/useEvents.tsx:43-56 | The cache key is rewritten with the records, or the store is unchanged when a date cannot be written. |
| TribeEvents.Hook.FetchAll | src/hooks/useEvents.tsx:59-114 | `loading` goes true then false. Offline: no request, events and store unchanged. Otherwise the pages are requested in order. A gathered list is published and saved, even when empty. A throw leaves events and store unchanged. |
| TribeEvents.Hook.Activate | src/hooks/useEvents.tsx:117-126 | The cache is loaded, `loading` is cleared, then `fetchAll` runs. The cached list stays shown offline or on a throw, and is replaced by the gathered list otherwise. |
| IcsEvents.ToEvents | app/hooks/useEvents.tsx:38-47 | There is one event per VEVENT, in component order, with `id`/`title`/`start`/`end`/`description` taken from `uid`/`summary`/start/end/`description`. |
| IcsEvents.Fetch | app/hooks/useEvents.tsx:31-47 | A list results iff the fetch succeeded and ical.js parsed the text, and it is then the mapped VEVENTs. |
| IcsEvents.ReadCache | app/hooks/useEvents.tsx:23-26 | With no stored value, `loadCache` changes nothing. |
| IcsEvents.CacheReadsBack | app/hooks/useEvents.tsx:50 | What a fetch caches reads back as the JSON records of the fetched list. |
| IcsEvents.FailureAfterSuccess | app/hooks/useEvents.tsx:51-53 | A failed fetch after a successful one shows the earlier list again, as records whose dates are strings. |
| IcsEvents.Hook.constructor | app/hooks/useEvents.tsx:19-20 | Events start empty and `loading` starts false. |
| IcsEvents.Hook.LoadCache | app/hooks/useEvents.tsx:23-26 | Events become the parsed stored JSON, with no date revival, when a value is stored; otherwise they are unchanged. Reports a `JSON.parse` throw. |
| IcsEvents.Hook.FetchAndCache | app/hooks/useEvents.tsx:29-57 | `loading` goes true then false on both paths. On success, events are the parsed list and the cache holds exactly its serialisation. On failure, the store is unchanged and the events are whatever `loadCache` makes of the cache. |
| IcsEvents.Hook.Refresh | app/hooks/useEvents.tsx:60-67 | The feed is requested iff connected. Online, it gives `fetchAndCache`'s outcome, including whether the fallback read threw. Offline, only the cache is read and `loading` is never touched. |
| DailyVerse.NoMatchIff | src/_components/DailyVerse.tsx:19-22 | The regex has no match iff no non-terminator is followed by a terminator. Then `splitSentences(p)` is `[p]`, untrimmed. |
| DailyVerse.MatchesShape | src/_components/DailyVerse.tsx:20 | Every match is a run of non-terminators followed by the whole following run of `.`, `!`, `?`. |
| DailyVerse.MatchesCover | src/_components/DailyVerse.tsx:20 | The text is its leading terminators, then the matches in order, then a tail with no terminator. So only text after the last terminator and leading terminators are dropped. |
| DailyVerse.SplitPieces | src/_components/DailyVerse.tsx:19-22 | When there is a match, there is one piece per match. Each piece is non-empty, ends in a terminator and starts with no white space. |
| DailyVerse.MatchesSentence | src/_components/DailyVerse.tsx:20 | A non-terminator run followed by a terminator run is one match, and matching resumes after it. |
| DailyVerse.TwoSentences | src/_components/DailyVerse.tsx:19-22 | Two sentences followed by unterminated text split into the two trimmed sentences; the tail is dropped. |
| DailyVerse.SentenceThenTail | src/_components/DailyVerse.tsx:19-22 | One sentence ending in a run of terminators (such as `Wow!!`) is a single piece, and the unterminated text after it is dropped. |
| DailyVerse.TakeTwo | src/_components/DailyVerse.tsx:58 | `slice(0, 2)` keeps the first two sentences, or all of them when there are fewer. |
| DailyVerse.FreshWithoutStamp | src/_components/DailyVerse.tsx:37-39 | Without a timestamp the cache counts from time 0. It is used iff a blob exists and `now < 3600000`. |
| DailyVerse.FreshAfterStamp | src/_components/DailyVerse.tsx:37-39 | A timestamp written as `now.toString()` keeps the cache fresh exactly while `later - now < 3600000`. |
| DailyVerse.AsStringsOfStrings | src/_components/DailyVerse.tsx:40 | A stored list of strings reads back as the same lines. |
| DailyVerse.BlobRoundTrip | src/_components/DailyVerse.tsx:40-60 | `JSON.parse(JSON.stringify({ ref, lines }))` gives back the same `ref` and `lines`. |
| DailyVerse.ReadAfterWrite | src/_components/DailyVerse.tsx:60-64 | After the `multiSet`, both keys hold what was written. A later mount uses the cache for exactly an hour and reads back the written `ref` and lines. |
| DailyVerse.Picked | src/_components/DailyVerse.tsx:54-58 | A verse is picked iff the search returned at least one verse. It is the first verse's reference with at most two sentences. |
| DailyVerse.Component.constructor | src/_components/DailyVerse.tsx:25-27 | No lines, no reference, `loading` true. |
| DailyVerse.Component.Render | src/_components/DailyVerse.tsx:77-108 | A spinner iff loading. The fallback message iff not loading and the reference is null or empty. The verse otherwise. |
| DailyVerse.Component.Mount | src/_components/DailyVerse.tsx:30-75 | A fresh cache is shown without writing (a blob of another shape throws and leaves `loading` set). Otherwise, a search with a verse sets reference and lines and writes both keys together. A failed or empty search writes nothing. `loading` ends false, and a null reference then shows the fallback. |
| Storage.SetAllLastWins | src/_components/DailyVerse.tsx:61-64 | After `multiSet`, a key holds the value of its last pair. |
| Storage.Store.MultiSet | src/_components/DailyVerse.tsx:61-64 | The loop applies the pairs in order. The new store is the old one updated pair by pair. |
| Media.RequestReadsBack | src/hooks/useMedia.ts:32 | The category list, page size and `_embed` read back from the query at their positions, with `,` and `&per_page=` between them. |
| Media.UrlReadsBack | src/hooks/useMedia.ts:32 | The URL is the project endpoint with categories 16 and 17 (comma-separated), `per_page` = the hook's `perPage`, and `&_embed` at the end. |
| Media.DefaultUrl | src/hooks/useMedia.ts:10 | With the default `perPage = 100`, the URL asks for 100 posts per page. |
| Media.Loaded | src/hooks/useMedia.ts:15-20 | With nothing stored, the list is unchanged. A changed list is the parsed stored value. |
| Media.SaveThenLoad | src/hooks/useMedia.ts:18-24 | A list saved by `saveToStorage` loads back unchanged. |
| Media.Hook.constructor | src/hooks/useMedia.ts:11-13 | The list starts empty, `loading` starts true and `error` starts false. |
| Media.Hook.LoadFromStorage | src/hooks/useMedia.ts:15-20 | `media` becomes the stored list when one is present and parses; otherwise it is unchanged. |
| Media.Hook.SaveToStorage | src/hooks/useMedia.ts:22-26 | The cache key holds `JSON.stringify(list)`. |
| Media.Hook.FetchMedia | src/hooks/useMedia.ts:28-43 | `loading` goes true then false and `error` is first set false. OK: `media` is the data and exactly that is saved. Non-OK or a throw: `error` becomes true and `media` and the store are unchanged. |
| Media.Hook.Activate | src/hooks/useMedia.ts:45-51 | The cache load completes before the fetch. `error` is set false, then true iff the fetch failed, and the cached list then stays shown. |
| CardTitle.StripTagRemoved | src/_components/MediaCard.tsx:16 | A `<`, one or more non-`>` characters and a `>` are removed. The text before it is kept, and the rest is stripped in turn. |
| CardTitle.StripWithoutLt | src/_components/MediaCard.tsx:16 | A title with no `<` is unchanged. |
| CardTitle.EmptyBracketsKept | src/_components/MediaCard.tsx:16 | `<>` survives stripping. |
| CardTitle.UnclosedKept | src/_components/ArticleCard.tsx:15 | A `<` with no later `>` survives stripping. |
| CardTitle.StripLeavesNoTag | src/_components/ArticleCard.tsx:15 | No `<…>` tag is left after stripping. |
| CardTitle.StripFixedPoints | src/_components/MediaCard.tsx:16 | A title is unchanged by stripping iff it holds no tag, and stripping is idempotent. |
| CardTitle.EncodedTagNotStripped | src/_components/MediaCard.tsx:16-17 | Stripping precedes decoding, so an entity-encoded tag reaches `decode` intact. |
| CardTitle.ContainsArabic | src/_components/MediaCard.tsx:18 | True iff some character lies in U+0600–U+06FF. |
| CardTitle.TitleAlign | src/_components/ArticleCard.tsx:15-37 | A title is right-aligned iff its cleaned (stripped, then decoded) form has an Arabic character, and left-aligned otherwise. |
| AnnouncementTitle.ClosedTagRemoved | src/_components/AnnouncementCard.tsx:39 | A closed tag `<x…>`, including `</x…>`, is removed; the rest is stripped in turn. |
| AnnouncementTitle.UnclosedRemoved | src/_components/AnnouncementCard.tsx:39 | A `<` followed by at least one character and no `>` is removed through to the end. |
| AnnouncementTitle.WithoutLtKept | src/_components/AnnouncementCard.tsx:39 | A title with no `<` is unchanged. |
| AnnouncementTitle.EmptyBracketsSurvive | src/_components/AnnouncementCard.tsx:39 | `<>` survives, since a character other than `>` must follow `<`. |
| AnnouncementTitle.UnclosedTagDiffers | src/_components/AnnouncementCard.tsx:39 | On an unclosed tag, this strip removes it and the cards' strip keeps it. |
| AnnouncementTitle.StripLeavesNoMarkup | src/_components/AnnouncementCard.tsx:39 | No `<` followed by a non-`>` character is left after stripping. |
| AnnouncementTitle.MarkupFixedPoints | src/_components/AnnouncementCard.tsx:39 | A title is unchanged iff it holds no markup, and stripping is idempotent. |

## Left out

- URL building with `new URL` and `searchParams` is not modelled as text. The Tribe query is
  the record of its four parameters, so percent-encoding is not modelled.
- AsyncStorage failures are not modelled: every `getItem`, `setItem` and `multiSet` succeeds.
  What each file does when one is rejected is listed below, one line per member.
- `TribeEvents.Hook.SaveToStorage`: a rejected write is logged and swallowed
  (src/hooks/useEvents.tsx:52-55), so the events stay published.
- `TribeEvents.Hook.LoadFromStorage`: a rejected read is logged and swallowed, and the events stay
  unchanged (src/hooks/useEvents.tsx:37-39).
- `IcsEvents.Hook.FetchAndCache`: a rejected `setItem` lands in the `catch`
  (app/hooks/useEvents.tsx:50-53). Its `loadCache` then replaces the list just published with
  the previous cache.
- `IcsEvents.Hook.LoadCache`: a rejected `getItem` is not caught (app/hooks/useEvents.tsx:24).
  It rejects `loadCache` and, through it, `refresh` or the `catch` of `fetchAndCache`.
- `DailyVerse.Component.Mount`: a rejected `multiSet` skips `setReference` and `setLines`
  (src/_components/DailyVerse.tsx:61-69), so a fetched verse gives way to the fallback message.
  A rejected `getItem` sits outside the `try` (src/_components/DailyVerse.tsx:33-36) and leaves
  the spinner up for good.
- `Media.Hook.SaveToStorage`: a rejected write is swallowed by an empty `catch`, with no log
  (src/hooks/useMedia.ts:22-26).
- `Media.Hook.LoadFromStorage`: a rejected read is swallowed the same way, and `media` stays
  unchanged (src/hooks/useMedia.ts:15-20).
- `console.warn` calls are not modelled.
- Overlapping refreshes of the calendar hook are left out, because they are concurrency
  (app/hooks/useEvents.tsx:70-87 triggers a refresh on mount, focus and foreground). One
  refresh is modelled at a time.
- React render timing and batching are left out. Each state setter is applied at once. The
  `media.length > 0` test of src/hooks/useMedia.ts:48 is taken to see the empty list
  captured at mount.
- Dates are abstract. `toISOString` and `new Date(string)` are a pair of functions, assumed
  invertible only where a round trip is stated. The range error `toISOString` throws for
  an out-of-range time value is not modelled; only Invalid Date throws.
- `Json.Parse`: numbers with fractions or exponents and `\u` surrogate pairs are rejected
  rather than read.
- `TribeEvents.Loaded`: a stored list whose records lack string `id`/`title`/`start`/`end`
  is treated like unparsable text. JavaScript would build events with `undefined` fields.
- `DailyVerse.DecodeBlob`: a fresh blob whose `ref` is not a string or whose `lines` is not a
  list of strings is treated as a throw. JavaScript would set those values as they are.
- `html-entities`' `decode`, ical.js, and the API.Bible search (its URL, API key and
  response shape) are parameters. Their behaviour is not modelled.
- `TribeEvents.FetchPages`: the network is a finite script of responses, and a request past
  its end counts as a rejection.
- `IcsEvents.Record`: `JSON.stringify` drops `undefined` fields; here every event field is a
  string.
- Date labels such as `toLocaleDateString` and the cards' layout are not modelled.
