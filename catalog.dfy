/** The catalog client (SongCatalogRepository.kt): it builds the request URL
    from the base URL and the limit, treats a non-2xx answer as an error,
    and keeps the catalog records whose three fields are all non-blank.
    The HTTP exchange and the JSON parser are parameters. */
module SongCatalog {
  import opened Wrappers
  import opened Text
  import Seqs

  const DefaultBaseUrl := "https://r2-music-search.den1116.workers.dev"
  const DefaultLimit := 500

  datatype CatalogItem = CatalogItem(title: string, melodyUrl: string, midiUrl: string)

  /** One element of the `items` array as `optJSONObject` sees it; absent
      members are `None`. */
  datatype ItemEntry = NotAnObject | Entry(title: Option<string>, melodyUrl: Option<string>, midiUrl: Option<string>)

  /** The status code and body text of an HTTP answer. */
  datatype Reply = Reply(code: int, text: string)

  /** Kotlin `trimEnd('/')`: every trailing `/` removed. */
  function TrimEndChar(s: string, c: char): (r: string)
    ensures |r| <= |s| && r == s[..|r|]
    ensures forall i | |r| <= i < |s| :: s[i] == c
    ensures r == [] || r[|r| - 1] != c
  {
    if s != [] && s[|s| - 1] == c then TrimEndChar(s[..|s| - 1], c) else s
  }

  /** Appending the trimmed character changes nothing. */
  lemma TrimEndCharAppend(s: string, c: char)
    ensures TrimEndChar(s + [c], c) == TrimEndChar(s, c)
  {
    assert (s + [c])[..|s|] == s;
  }

  /** The request URL for a base and a limit. */
  function CatalogUrl(baseUrl: string, limit: int): string {
    TrimEndChar(baseUrl, '/') + "/catalog?limit=" + IntToString(limit)
  }

  /** The URL is the base without its trailing slashes, then the fixed path
      and the limit in decimal; a trailing slash on the base makes no
      difference. */
  lemma CatalogUrlShape(baseUrl: string, limit: int)
    ensures var b := TrimEndChar(baseUrl, '/');
            && CatalogUrl(baseUrl, limit) == b + "/catalog?limit=" + IntToString(limit)
            && (b == [] || b[|b| - 1] != '/')
            && baseUrl == b + baseUrl[|b|..]
            && forall i | |b| <= i < |baseUrl| :: baseUrl[i] == '/'
    ensures CatalogUrl(baseUrl + "/", limit) == CatalogUrl(baseUrl, limit)
  {
    TrimEndCharAppend(baseUrl, '/');
  }

  /** The default request: `https://r2-music-search.den1116.workers.dev/catalog?limit=500`. */
  lemma DefaultCatalogUrl()
    ensures CatalogUrl(DefaultBaseUrl, DefaultLimit) == DefaultBaseUrl + "/catalog?limit=500"
  {
    assert NatToString(500) == "500" by {
      assert NatToString(5) == "5";
      assert NatToString(50) == "50";
    }
  }

  predicate IsSuccess(code: int) {
    200 <= code <= 299
  }

  /** The item an entry contributes: objects whose title, melodyUrl and
      midiUrl (read with default "") are all non-blank. */
  function EntryItem(e: ItemEntry): Option<CatalogItem> {
    if e.NotAnObject? then None
    else
      var title := e.title.GetOr("");
      var melodyUrl := e.melodyUrl.GetOr("");
      var midiUrl := e.midiUrl.GetOr("");
      if !IsBlank(title) && !IsBlank(melodyUrl) && !IsBlank(midiUrl)
      then Some(CatalogItem(title, melodyUrl, midiUrl))
      else None
  }

  /** The records kept from an `items` array, in order. */
  function Items(es: seq<ItemEntry>): seq<CatalogItem> {
    Seqs.FilterMap(es, EntryItem)
  }

  /** What `fetchCatalog` returns for the answer to its request: the error
      message `HTTP <code>: <text>` for a non-2xx status, otherwise the kept
      records, with no records when `items` is missing. */
  function FetchResult(reply: Reply, items: Option<seq<ItemEntry>>): Result<seq<CatalogItem>, string> {
    if !IsSuccess(reply.code) then Err("HTTP " + IntToString(reply.code) + ": " + reply.text)
    else if items.None? then Ok([])
    else Ok(Items(items.value))
  }

  /** Exactly the entries that are objects with three non-blank fields
      are kept: every kept record is such an entry's, and every such
      entry's record is kept. */
  lemma ItemsShape(es: seq<ItemEntry>)
    ensures |Items(es)| <= |es|
    ensures forall c | c in Items(es) :: !IsBlank(c.title) && !IsBlank(c.melodyUrl) && !IsBlank(c.midiUrl)
    ensures forall c | c in Items(es) :: exists i | 0 <= i < |es| :: EntryItem(es[i]) == Some(c)
    ensures forall i | 0 <= i < |es| :: EntryItem(es[i]).Some? <==>
              && es[i].Entry? && !IsBlank(es[i].title.GetOr(""))
              && !IsBlank(es[i].melodyUrl.GetOr("")) && !IsBlank(es[i].midiUrl.GetOr(""))
    ensures forall i | 0 <= i < |es| && EntryItem(es[i]).Some? :: EntryItem(es[i]).value in Items(es)
  {
    Seqs.FilterMapShape(es, EntryItem);
    forall c | c in Items(es) ensures !IsBlank(c.title) && !IsBlank(c.melodyUrl) && !IsBlank(c.midiUrl) {
      var i :| 0 <= i < |es| && EntryItem(es[i]) == Some(c);
    }
  }

  /** A 2xx answer never fails, and any other status always does. */
  lemma FetchErrorIffNotSuccess(reply: Reply, items: Option<seq<ItemEntry>>)
    ensures FetchResult(reply, items).Err? <==> !IsSuccess(reply.code)
    ensures !IsSuccess(reply.code) ==>
              FetchResult(reply, items).error == "HTTP " + IntToString(reply.code) + ": " + reply.text
    ensures IsSuccess(reply.code) && items.None? ==> FetchResult(reply, items) == Ok([])
  {
  }

  /** `fetchCatalog(limit)` against the client's `baseUrl`: `http` answers
      the GET request, `parseItems` reads the `items` array of a body. */
  method FetchCatalog(baseUrl: string, limit: int, http: string -> Reply, parseItems: string -> Option<seq<ItemEntry>>)
    returns (r: Result<seq<CatalogItem>, string>)
    ensures var reply := http(CatalogUrl(baseUrl, limit));
            r == FetchResult(reply, parseItems(reply.text))
  {
    var url := TrimEndChar(baseUrl, '/') + "/catalog?limit=" + IntToString(limit);
    var reply := http(url);
    if !IsSuccess(reply.code) {
      return Err("HTTP " + IntToString(reply.code) + ": " + reply.text);
    }
    var doc := parseItems(reply.text);
    if doc.None? {
      return Ok([]);
    }
    var arr := doc.value;
    var out: seq<CatalogItem> := [];
    for i := 0 to |arr|
      invariant out == Items(arr[..i])
    {
      assert arr[..i + 1][..i] == arr[..i];
      var e := arr[i];
      if e.NotAnObject? {
        continue;
      }
      var title := e.title.GetOr("");
      var melodyUrl := e.melodyUrl.GetOr("");
      var midiUrl := e.midiUrl.GetOr("");
      if !IsBlank(title) && !IsBlank(melodyUrl) && !IsBlank(midiUrl) {
        out := out + [CatalogItem(title, melodyUrl, midiUrl)];
      }
    }
    assert arr[..|arr|] == arr;
    return Ok(out);
  }
}
