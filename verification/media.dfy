/** The media tab's data source: the WordPress `project` posts in the hymn and sermon
    categories, shown from the cache first and then refreshed from the site. */
module Media {
  import opened Maybe
  import opened JsText
  import opened Json
  import opened Storage

  const StorageKey := "cached_wp_media_list"
  const HymnCategory := 16
  const SermonCategory := 17
  /** `useMedia(perPage = 100)`. */
  const DefaultPerPage := 100

  const Endpoint := "https://stgeorge-stmercurius.com/wp-json/wp/v2/project"
  const CategoryParam := "?project_category="
  const PerPageParam := "&per_page="
  const EmbedParam := "&_embed"

  /** The query that follows `base`: the two categories, the page size and `_embed`. */
  function Request(base: string, hymn: int, sermon: int, perPage: int): string {
    base + (DecimalString(hymn) + ("," + (DecimalString(sermon) + (PerPageParam + (DecimalString(perPage) + EmbedParam)))))
  }

  /** The request URL of `fetchMedia`; a number in a template literal is written in
      decimal. */
  function Url(perPage: int): string {
    Request(Endpoint + CategoryParam, HymnCategory, SermonCategory, perPage)
  }

  /** Each number of a request reads back with `parseInt` from where it starts, and the
      separators sit between them. */
  lemma RequestReadsBack(base: string, hymn: int, sermon: int, perPage: int)
    ensures var u := Request(base, hymn, sermon, perPage);
            var i := |base|;
            var j := i + |DecimalString(hymn)| + 1;
            var k := j + |DecimalString(sermon)|;
            k + |PerPageParam| <= |u|
            && u[..i] == base
            && ParseInt(u[i..]) == Some(hymn)
            && u[j - 1] == ','
            && ParseInt(u[j..]) == Some(sermon)
            && u[k..k + |PerPageParam|] == PerPageParam
            && ParseInt(u[k + |PerPageParam|..]) == Some(perPage)
            && u[|u| - |EmbedParam|..] == EmbedParam
  {
    RequestSeparators(base, hymn, sermon, perPage);
    HymnReadsBack(base, hymn, sermon, perPage);
    SermonReadsBack(base, hymn, sermon, perPage);
    PerPageReadsBack(base, hymn, sermon, perPage);
  }

  lemma RequestSeparators(base: string, hymn: int, sermon: int, perPage: int)
    ensures var u := Request(base, hymn, sermon, perPage);
            var i := |base|;
            var j := i + |DecimalString(hymn)| + 1;
            var k := j + |DecimalString(sermon)|;
            k + |PerPageParam| <= |u|
            && u[..i] == base
            && u[j - 1] == ','
            && u[k..k + |PerPageParam|] == PerPageParam
            && u[|u| - |EmbedParam|..] == EmbedParam
  {
    Layout(base, DecimalString(hymn), DecimalString(sermon), PerPageParam, DecimalString(perPage), EmbedParam);
  }

  /** The separators of a query, for any texts in place of the numbers and parameters. */
  lemma Layout(base: string, h: string, s: string, p: string, n: string, e: string)
    ensures var u := base + (h + ("," + (s + (p + (n + e)))));
            var k := |base| + |h| + 1 + |s|;
            k + |p| <= |u|
            && u[..|base|] == base
            && u[|base| + |h|] == ','
            && u[k..k + |p|] == p
            && u[|u| - |e|..] == e
  {
    var u := base + (h + ("," + (s + (p + (n + e)))));
    var k := |base| + |h| + 1 + |s|;
    assert u[k..] == p + (n + e);
    assert u[k..][..|p|] == p;
  }

  lemma HymnReadsBack(base: string, hymn: int, sermon: int, perPage: int)
    ensures |base| <= |Request(base, hymn, sermon, perPage)|
    ensures ParseInt(Request(base, hymn, sermon, perPage)[|base|..]) == Some(hymn)
  {
    var rest := RequestSlices(base, hymn, sermon, perPage);
    ReadsBackAt(Request(base, hymn, sermon, perPage), |base|, hymn, rest);
  }

  lemma SermonReadsBack(base: string, hymn: int, sermon: int, perPage: int)
    ensures var j := |base| + |DecimalString(hymn)| + 1;
            j <= |Request(base, hymn, sermon, perPage)|
            && ParseInt(Request(base, hymn, sermon, perPage)[j..]) == Some(sermon)
  {
    var _ := RequestSlices(base, hymn, sermon, perPage);
    var j := |base| + |DecimalString(hymn)| + 1;
    ReadsBackAt(Request(base, hymn, sermon, perPage), j, sermon, PerPageParam + (DecimalString(perPage) + EmbedParam));
  }

  lemma PerPageReadsBack(base: string, hymn: int, sermon: int, perPage: int)
    ensures var k := |base| + |DecimalString(hymn)| + 1 + |DecimalString(sermon)| + |PerPageParam|;
            k <= |Request(base, hymn, sermon, perPage)|
            && ParseInt(Request(base, hymn, sermon, perPage)[k..]) == Some(perPage)
  {
    var _ := RequestSlices(base, hymn, sermon, perPage);
    var k := |base| + |DecimalString(hymn)| + 1 + |DecimalString(sermon)| + |PerPageParam|;
    ReadsBackAt(Request(base, hymn, sermon, perPage), k, perPage, EmbedParam);
  }

  /** Where each number of a request starts, and what follows it. */
  lemma RequestSlices(base: string, hymn: int, sermon: int, perPage: int) returns (rest: string)
    ensures var u := Request(base, hymn, sermon, perPage);
            var j := |base| + |DecimalString(hymn)| + 1;
            var k := j + |DecimalString(sermon)| + |PerPageParam|;
            rest == "," + (DecimalString(sermon) + (PerPageParam + (DecimalString(perPage) + EmbedParam)))
            && k <= |u|
            && u[|base|..] == DecimalString(hymn) + rest
            && u[j..] == DecimalString(sermon) + (PerPageParam + (DecimalString(perPage) + EmbedParam))
            && u[k - |PerPageParam|..] == PerPageParam + (DecimalString(perPage) + EmbedParam)
            && u[k..] == DecimalString(perPage) + EmbedParam
  {
    rest := "," + (DecimalString(sermon) + (PerPageParam + (DecimalString(perPage) + EmbedParam)));
    Slices(base, DecimalString(hymn), DecimalString(sermon), PerPageParam, DecimalString(perPage), EmbedParam);
  }

  /** The suffixes of a query, for any texts in place of the numbers and parameters. */
  lemma Slices(base: string, h: string, s: string, p: string, n: string, e: string)
    ensures var u := base + (h + ("," + (s + (p + (n + e)))));
            var j := |base| + |h| + 1;
            var k := j + |s| + |p|;
            k <= |u|
            && u[|base|..] == h + ("," + (s + (p + (n + e))))
            && u[j..] == s + (p + (n + e))
            && u[k - |p|..] == p + (n + e)
            && u[k..] == n + e
  {
    var u := base + (h + ("," + (s + (p + (n + e)))));
    assert u[|base|..] == h + ("," + (s + (p + (n + e))));
    assert u[|base| + |h| + 1..] == s + (p + (n + e));
    assert u[|base| + |h| + 1 + |s|..] == p + (n + e);
  }

  /** A number written at `at` reads back with `parseInt` from there. */
  lemma ReadsBackAt(u: string, at: nat, n: int, rest: string)
    requires at <= |u| && u[at..] == DecimalString(n) + rest
    requires rest == [] || !IsDigit(rest[0])
    ensures ParseInt(u[at..]) == Some(n)
  {
    ParseIntDecimalString(n, rest);
  }

  /** Where the category list starts in the URL. */
  const CategoriesAt := |Endpoint + CategoryParam|

  /** Read back as `parseInt` would, the URL names categories 16 and 17, separated by a
      comma, and then asks for `perPage` posts with embedded media. */
  lemma UrlReadsBack(perPage: int)
    ensures var u := Url(perPage);
            var at := CategoriesAt + 5;
            at + |PerPageParam| <= |u|
            && u[..CategoriesAt] == Endpoint + CategoryParam
            && ParseInt(u[CategoriesAt..]) == Some(HymnCategory)
            && u[CategoriesAt + 2] == ','
            && ParseInt(u[CategoriesAt + 3..]) == Some(SermonCategory)
            && u[at..at + |PerPageParam|] == PerPageParam
            && ParseInt(u[at + |PerPageParam|..]) == Some(perPage)
            && u[|u| - |EmbedParam|..] == EmbedParam
  {
    assert |DecimalString(HymnCategory)| == 2 && |DecimalString(SermonCategory)| == 2;
    RequestReadsBack(Endpoint + CategoryParam, HymnCategory, SermonCategory, perPage);
  }

  /** With the default page size, the URL asks for 100 posts. */
  lemma DefaultUrl()
    ensures var u := Url(DefaultPerPage);
            var at := CategoriesAt + 5 + |PerPageParam|;
            at <= |u| && ParseInt(u[at..]) == Some(100)
  {
    UrlReadsBack(DefaultPerPage);
  }

  /** What the request gives: the parsed body of an OK response, a response that is not
      OK, or a throw from `fetch` or `res.json()`. */
  datatype Fetched = Ok(data: Json) | NotOk | Throws

  /** The list after `loadFromStorage`: the parsed cache when a value is stored and
      parses; otherwise (nothing stored, or `JSON.parse` throws) the list unchanged. */
  function Loaded(current: Json, items: map<string, string>): (r: Json)
    ensures StorageKey !in items ==> r == current
    ensures r != current ==> StorageKey in items && Parse(items[StorageKey]) == Some(r)
  {
    match Truthy(Lookup(items, StorageKey))
    case None => current
    case Some(text) =>
      match Parse(text)
      case Some(list) => list
      case None => current
  }

  /** A list saved by `saveToStorage` loads back unchanged, whatever was shown before. */
  lemma SaveThenLoad(current: Json, items: map<string, string>, list: Json)
    ensures Loaded(current, items[StorageKey := Stringify(list)]) == list
  {
    ParseStringify(list);
  }

  class Hook {
    /** The posts, as the JSON the site sent. */
    var media: Json
    var loading: bool
    var error: bool
    /** Every value passed to `setLoading`, in order. */
    ghost var loadingHistory: seq<bool>
    /** Every value passed to `setError`, in order. */
    ghost var errorHistory: seq<bool>
    const perPage: int
    const store: Store

    constructor(store: Store, perPage: int)
      ensures this.store == store && this.perPage == perPage
      ensures media == JArr([]) && loading && !error
      ensures loadingHistory == [] && errorHistory == []
    {
      this.store := store;
      this.perPage := perPage;
      media := JArr([]);
      loading := true;
      error := false;
      loadingHistory := [];
      errorHistory := [];
    }

    /** `loadFromStorage`; a throw from `JSON.parse` is swallowed. */
    method LoadFromStorage()
      modifies this
      ensures media == Loaded(old(media), store.items)
      ensures loading == old(loading) && error == old(error)
      ensures loadingHistory == old(loadingHistory) && errorHistory == old(errorHistory)
    {
      var json := store.GetItem(StorageKey);
      var text := Truthy(json);
      if text.Some? {
        var parsed := Parse(text.value);
        if parsed.Some? {
          media := parsed.value;
        }
      }
    }

    /** `saveToStorage(list)`. */
    method SaveToStorage(list: Json)
      modifies store
      ensures store.items == old(store.items)[StorageKey := Stringify(list)]
    {
      store.SetItem(StorageKey, Stringify(list));
    }

    /** `fetchMedia`, with `fetched` for the outcome of the request; `url` is the address
        requested. */
    method FetchMedia(fetched: Fetched) returns (url: string)
      modifies this, store
      ensures url == Url(perPage)
      ensures !loading && loadingHistory == old(loadingHistory) + [true, false]
      ensures fetched.Ok? ==>
                !error && errorHistory == old(errorHistory) + [false]
                && media == fetched.data
                && store.items == old(store.items)[StorageKey := Stringify(fetched.data)]
      ensures !fetched.Ok? ==>
                error && errorHistory == old(errorHistory) + [false, true]
                && media == old(media) && store.items == old(store.items)
    {
      loading := true;
      loadingHistory := loadingHistory + [true];
      error := false;
      errorHistory := errorHistory + [false];
      url := Url(perPage);
      if fetched.Ok? {
        media := fetched.data;
        SaveToStorage(fetched.data);
      } else {
        error := true;
        errorHistory := errorHistory + [true];
      }
      loading := false;
      loadingHistory := loadingHistory + [false];
    }

    /** The mount effect: the cache is read, then the fetch runs. A failed fetch leaves
        the cached list on screen; a successful one replaces it. */
    method Activate(fetched: Fetched) returns (url: string)
      modifies this, store
      ensures url == Url(perPage)
      ensures !loading && loadingHistory == old(loadingHistory) + [true, false]
      ensures error <==> !fetched.Ok?
      ensures errorHistory == old(errorHistory) + (if fetched.Ok? then [false] else [false, true])
      ensures fetched.Ok? ==>
                media == fetched.data
                && store.items == old(store.items)[StorageKey := Stringify(fetched.data)]
      ensures !fetched.Ok? ==>
                media == Loaded(old(media), old(store.items)) && store.items == old(store.items)
    {
      LoadFromStorage();
      url := FetchMedia(fetched);
    }
  }
}
