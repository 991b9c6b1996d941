/** The search screen (SearchFragment.kt): the catalog preview, the search
    results, the favourite badges and the two display modes.  The catalog
    fetch, the search request, the favourites store and `shuffled()` are
    outside the model: their results are parameters.  Visibility of the
    progress bar and of the empty-state text are fields. */
module SearchScreen {
  import opened Wrappers
  import opened Text
  import SongModel
  import Utf8
  import Favorites
  import SongCatalog
  import SongSearch
  import Seqs
  import opened SongItems

  const CatalogLimit := 500
  const CatalogPreviewCount := 5
  const EmptyCatalogText := "목록이 비어있습니다."
  const NoResultsText := "검색 결과가 없습니다."
  const LoadFailedText := "목록 로드 실패"

  datatype Mode = Catalog | Search

  // ---------------------------------------------------------------------
  // Favourite badges

  function EntryId(e: Favorites.FavoriteEntry): string {
    e.song.id
  }

  function EntryKeyOffset(e: Favorites.FavoriteEntry): int {
    e.keyOffset
  }

  /** `loadFavoriteMap`: `associate { it.song.id to it.keyOffset }`. */
  function FavMap(entries: seq<Favorites.FavoriteEntry>): map<string, int> {
    Seqs.LastWins(entries, EntryId, EntryKeyOffset)
  }

  /** An id is in the map exactly when an entry has it, and it maps to the
      key offset of the last entry with that id. */
  lemma FavMapShape(entries: seq<Favorites.FavoriteEntry>)
    ensures forall id :: id in FavMap(entries) <==> Favorites.HasId(entries, id)
    ensures forall id | id in FavMap(entries) ::
              exists j | 0 <= j < |entries| :: && entries[j].song.id == id && FavMap(entries)[id] == entries[j].keyOffset
                                               && forall i | j < i < |entries| :: entries[i].song.id != id
  {
    Seqs.LastWinsShape(entries, EntryId, EntryKeyOffset);
  }

  /** The badge of an id: favourite when mapped, with the mapped offset or 0. */
  function Badged(item: Item, favMap: map<string, int>): Item {
    item.(isFavorite := item.song.id in favMap, keyOffset := if item.song.id in favMap then favMap[item.song.id] else 0)
  }

  /** The list `refreshBadgesOnly` submits. */
  function Rebadged(items: seq<Item>, favMap: map<string, int>): seq<Item> {
    seq(|items|, k requires 0 <= k < |items| => Badged(items[k], favMap))
  }

  /** Re-badging keeps length, order, songs and subtitles, takes each
      badge and key offset from the favourites map (offset 0 for a song not
      in it), and it is idempotent. */
  lemma RebadgedShape(items: seq<Item>, favMap: map<string, int>)
    ensures |Rebadged(items, favMap)| == |items|
    ensures forall k | 0 <= k < |items| ::
              && Rebadged(items, favMap)[k].song == items[k].song
              && Rebadged(items, favMap)[k].subtitle == items[k].subtitle
              && (Rebadged(items, favMap)[k].isFavorite <==> items[k].song.id in favMap)
              && Rebadged(items, favMap)[k].keyOffset == (if items[k].song.id in favMap then favMap[items[k].song.id] else 0)
    ensures Rebadged(Rebadged(items, favMap), favMap) == Rebadged(items, favMap)
  {
    var r := Rebadged(items, favMap);
    assert forall k | 0 <= k < |r| :: Rebadged(r, favMap)[k] == r[k];
  }

  // ---------------------------------------------------------------------
  // Songs and items

  /** `CatalogItem.toSong`: the id from the two URLs and the catalog title
      as both title and query title. */
  function ToSong(c: SongCatalog.CatalogItem, sha1: seq<Utf8.Byte> -> seq<SongModel.SByte>): SongModel.Song {
    SongModel.Song(SongModel.MakeId(c.melodyUrl, c.midiUrl, sha1), c.title, c.melodyUrl, c.midiUrl, c.title)
  }

  function CatalogSongs(items: seq<SongCatalog.CatalogItem>, sha1: seq<Utf8.Byte> -> seq<SongModel.SByte>): seq<SongModel.Song> {
    seq(|items|, k requires 0 <= k < |items| => ToSong(items[k], sha1))
  }

  /** The item a song is shown as, in the preview and in the results alike:
      the main title as the title, the artist as subtitle, the query title
      kept, and the badge from the map. */
  function ItemFor(s: SongModel.Song, favMap: map<string, int>): (r: Item)
    ensures var (mainTitle, artist) := SplitTitleArtist(s.title);
            && r.song == s.(title := mainTitle) && r.subtitle == artist
            && r.song.queryTitle == s.queryTitle && r.song.id == s.id
    ensures r == Badged(r, favMap)
  {
    var (mainTitle, artist) := SplitTitleArtist(s.title);
    Badged(Item(s.(title := mainTitle), artist, false, 0), favMap)
  }

  /** The preview: the first five of the shuffled catalog. */
  function Preview(shuffled: seq<SongModel.Song>, favMap: map<string, int>): seq<Item> {
    var n := if |shuffled| < CatalogPreviewCount then |shuffled| else CatalogPreviewCount;
    seq(n, k requires 0 <= k < n => ItemFor(shuffled[k], favMap))
  }

  /** When the shuffle is a permutation of the catalog, the preview holds
      at most five items, as many as the catalog when it is smaller, each
      made from a catalog song with its id, URLs and query title. */
  lemma PreviewFromCatalog(catalog: seq<SongModel.Song>, shuffled: seq<SongModel.Song>, favMap: map<string, int>)
    requires multiset(shuffled) == multiset(catalog)
    ensures |Preview(shuffled, favMap)| <= CatalogPreviewCount
    ensures |Preview(shuffled, favMap)| == if |catalog| < CatalogPreviewCount then |catalog| else CatalogPreviewCount
    ensures forall k | 0 <= k < |Preview(shuffled, favMap)| ::
              exists s | s in catalog :: && Preview(shuffled, favMap)[k] == ItemFor(s, favMap)
                                         && Preview(shuffled, favMap)[k].song.id == s.id
                                         && Preview(shuffled, favMap)[k].song.queryTitle == s.queryTitle
  {
    assert |shuffled| == |multiset(shuffled)| == |multiset(catalog)| == |catalog|;
    var n := if |shuffled| < CatalogPreviewCount then |shuffled| else CatalogPreviewCount;
    assert |Preview(shuffled, favMap)| == n;
    assert forall k | 0 <= k < n :: Preview(shuffled, favMap)[k] == ItemFor(shuffled[k], favMap);
    forall k | 0 <= k < |Preview(shuffled, favMap)|
      ensures exists s | s in catalog :: && Preview(shuffled, favMap)[k] == ItemFor(s, favMap)
                                         && Preview(shuffled, favMap)[k].song.id == s.id
                                         && Preview(shuffled, favMap)[k].song.queryTitle == s.queryTitle
    {
      var s := shuffled[k];
      assert s in multiset(shuffled);
      assert s in catalog;
    }
  }

  /** What `fetchCatalog(CATALOG_LIMIT)` returns for the answer to its
      request. */
  function CatalogFetch(baseUrl: string, http: string -> SongCatalog.Reply,
                        parseItems: string -> Option<seq<SongCatalog.ItemEntry>>): Result<seq<SongCatalog.CatalogItem>, string> {
    var reply := http(SongCatalog.CatalogUrl(baseUrl, CatalogLimit));
    SongCatalog.FetchResult(reply, parseItems(reply.text))
  }

  /** Two catalog songs share an id exactly when the digests of their URL
      pairs agree, and a catalog song is titled, and searched by, its
      catalog title. */
  lemma CatalogSongIds(items: seq<SongCatalog.CatalogItem>, sha1: seq<Utf8.Byte> -> seq<SongModel.SByte>, k: nat, l: nat)
    requires k < |items| && l < |items|
    ensures |CatalogSongs(items, sha1)| == |items|
    ensures var s := CatalogSongs(items, sha1)[k];
            && s.title == items[k].title && s.queryTitle == items[k].title
            && s.melodyUrl == items[k].melodyUrl && s.midiUrl == items[k].midiUrl
    ensures CatalogSongs(items, sha1)[k].id == CatalogSongs(items, sha1)[l].id
            <==> sha1(Utf8.Encode(SongModel.IdSource(items[k].melodyUrl, items[k].midiUrl)))
                 == sha1(Utf8.Encode(SongModel.IdSource(items[l].melodyUrl, items[l].midiUrl)))
  {
    SongModel.MakeIdDigest(items[k].melodyUrl, items[k].midiUrl, items[l].melodyUrl, items[l].midiUrl, sha1);
  }

  /** The items of the search results. */
  function ResultItems(results: seq<SongSearch.Candidate>, favMap: map<string, int>): seq<Item> {
    seq(|results|, k requires 0 <= k < |results| => ItemFor(results[k].song, favMap))
  }

  /** The search results are shown one item per candidate in ranked order,
      each keeping its song's id and query title and badged exactly when
      the id is a favourite; the shown lists already carry the badges of the
      map they were built with, so `refreshBadgesOnly` with the same
      favourites changes neither the preview nor the results. */
  lemma ShownItemsBadged(shuffled: seq<SongModel.Song>, results: seq<SongSearch.Candidate>, favMap: map<string, int>)
    ensures |ResultItems(results, favMap)| == |results|
    ensures forall k | 0 <= k < |results| ::
              && ResultItems(results, favMap)[k].song.id == results[k].song.id
              && ResultItems(results, favMap)[k].song.queryTitle == results[k].song.queryTitle
              && (ResultItems(results, favMap)[k].isFavorite <==> results[k].song.id in favMap)
    ensures Rebadged(Preview(shuffled, favMap), favMap) == Preview(shuffled, favMap)
    ensures Rebadged(ResultItems(results, favMap), favMap) == ResultItems(results, favMap)
  {
    var p := Preview(shuffled, favMap);
    assert forall k | 0 <= k < |p| :: Rebadged(p, favMap)[k] == Badged(p[k], favMap) == p[k];
    var r := ResultItems(results, favMap);
    assert forall k | 0 <= k < |r| :: Rebadged(r, favMap)[k] == Badged(r[k], favMap) == r[k];
  }

  // ---------------------------------------------------------------------
  // The screen

  class SearchFragment {
    var mode: Mode
    var catalogSongs: seq<SongModel.Song>
    /** The list last submitted to the adapter. */
    var shown: seq<Item>
    var progressVisible: bool
    var emptyVisible: bool
    var emptyText: string

    /** The catalog mode as `showCatalog` leaves it (the empty-state text
        is set only for an empty catalog). */
    predicate ShowsCatalog(shuffled: seq<SongModel.Song>, entries: seq<Favorites.FavoriteEntry>)
      reads this
    {
      && mode == Catalog && !progressVisible
      && (catalogSongs == [] ==> emptyVisible && emptyText == EmptyCatalogText && shown == [])
      && (catalogSongs != [] ==> !emptyVisible && shown == Preview(shuffled, FavMap(entries)))
    }

    /** The layout's initial visibility and text are parameters. */
    constructor (progress: bool, empty: bool, text: string)
      ensures mode == Catalog && catalogSongs == [] && shown == []
      ensures progressVisible == progress && emptyVisible == empty && emptyText == text
    {
      mode := Catalog;
      catalogSongs := [];
      shown := [];
      progressVisible := progress;
      emptyVisible := empty;
      emptyText := text;
    }

    /** `refreshBadgesOnly`: only the badges of the shown list change. */
    method RefreshBadgesOnly(entries: seq<Favorites.FavoriteEntry>)
      modifies this
      ensures shown == Rebadged(old(shown), FavMap(entries))
      ensures mode == old(mode) && catalogSongs == old(catalogSongs)
      ensures progressVisible == old(progressVisible) && emptyVisible == old(emptyVisible) && emptyText == old(emptyText)
    {
      var favMap := FavMap(entries);
      shown := Rebadged(shown, favMap);
    }

    /** `showCatalog`: catalog mode; an empty catalog shows the empty text
        and an empty list, otherwise the preview of the shuffled catalog.
        `shuffled` is what `catalogSongs.shuffled()` returned. */
    method ShowCatalog(shuffled: seq<SongModel.Song>, entries: seq<Favorites.FavoriteEntry>)
      requires multiset(shuffled) == multiset(catalogSongs)
      modifies this
      ensures ShowsCatalog(shuffled, entries)
      ensures catalogSongs == old(catalogSongs)
      ensures catalogSongs != [] ==> emptyText == old(emptyText)
    {
      mode := Catalog;
      progressVisible := false;
      if catalogSongs == [] {
        emptyVisible := true;
        emptyText := EmptyCatalogText;
        shown := [];
        return;
      }
      emptyVisible := false;
      var favMap := FavMap(entries);
      shown := Preview(shuffled, favMap);
    }

    /** `loadCatalog`: `fetchCatalog(CATALOG_LIMIT)` against the client's
        base URL (`http` answers the request, `parseItems` reads the body);
        on success the songs become the catalog and it is shown; on failure
        the empty text says so and nothing else changes. */
    method LoadCatalog(baseUrl: string, http: string -> SongCatalog.Reply,
                       parseItems: string -> Option<seq<SongCatalog.ItemEntry>>,
                       sha1: seq<Utf8.Byte> -> seq<SongModel.SByte>,
                       shuffled: seq<SongModel.Song>, entries: seq<Favorites.FavoriteEntry>)
      requires var f := CatalogFetch(baseUrl, http, parseItems);
               f.Ok? ==> multiset(shuffled) == multiset(CatalogSongs(f.value, sha1))
      modifies this
      ensures var f := CatalogFetch(baseUrl, http, parseItems);
              f.Ok? ==> catalogSongs == CatalogSongs(f.value, sha1) && ShowsCatalog(shuffled, entries)
      ensures var f := CatalogFetch(baseUrl, http, parseItems);
              f.Err? ==> && !progressVisible && emptyVisible && emptyText == LoadFailedText
                         && mode == old(mode) && catalogSongs == old(catalogSongs) && shown == old(shown)
    {
      progressVisible := true;
      emptyVisible := false;
      var fetched := SongCatalog.FetchCatalog(baseUrl, CatalogLimit, http, parseItems);
      match fetched
      case Ok(items) =>
        catalogSongs := CatalogSongs(items, sha1);
        ShowCatalog(shuffled, entries);
      case Err(_) =>
        progressVisible := false;
        emptyVisible := true;
        emptyText := LoadFailedText;
    }

    /** The part of `doSearch` after the request: search mode, and the
        results shown (with the no-results text when there are none), or
        the list kept when the search failed. */
    method ShowResults(results: Result<seq<SongSearch.Candidate>, string>, entries: seq<Favorites.FavoriteEntry>)
      modifies this
      ensures mode == Search && !progressVisible && catalogSongs == old(catalogSongs)
      ensures results.Ok? ==>
                && shown == ResultItems(results.value, FavMap(entries))
                && (emptyVisible <==> results.value == [])
                && emptyText == if results.value == [] then NoResultsText else old(emptyText)
      ensures results.Err? ==> shown == old(shown) && !emptyVisible && emptyText == old(emptyText)
    {
      mode := Search;
      progressVisible := true;
      emptyVisible := false;
      match results
      case Ok(cs) =>
        var favMap := FavMap(entries);
        var items := ResultItems(cs, favMap);
        progressVisible := false;
        if |cs| == 0 {
          emptyVisible := true;
          emptyText := NoResultsText;
        } else {
          emptyVisible := false;
        }
        shown := items;
      case Err(_) =>
        progressVisible := false;
    }

    /** `doSearch`: a query that is blank after trimming (that is, empty)
        shows the catalog without searching; otherwise the results of the
        search are shown. */
    method DoSearch(text: string, results: Result<seq<SongSearch.Candidate>, string>,
                    shuffled: seq<SongModel.Song>, entries: seq<Favorites.FavoriteEntry>)
      requires multiset(shuffled) == multiset(catalogSongs)
      modifies this
      ensures catalogSongs == old(catalogSongs)
      ensures |Trim(text)| == 0 ==> ShowsCatalog(shuffled, entries)
      ensures |Trim(text)| != 0 ==> mode == Search && !progressVisible
      ensures |Trim(text)| != 0 && results.Ok? ==>
                && shown == ResultItems(results.value, FavMap(entries))
                && (emptyVisible <==> results.value == [])
                && emptyText == if results.value == [] then NoResultsText else old(emptyText)
      ensures |Trim(text)| != 0 && results.Err? ==> shown == old(shown) && !emptyVisible && emptyText == old(emptyText)
    {
      var q := Trim(text);
      // `q.isBlank()`: a trimmed string is blank exactly when it is empty.
      if |q| == 0 {
        ShowCatalog(shuffled, entries);
      } else {
        ShowResults(results, entries);
      }
    }

    /** The text listener: clearing the query while in search mode goes
        back to the catalog; otherwise nothing changes. */
    method TextChanged(text: string, shuffled: seq<SongModel.Song>, entries: seq<Favorites.FavoriteEntry>)
      requires multiset(shuffled) == multiset(catalogSongs)
      modifies this
      ensures |Trim(text)| == 0 && old(mode) == Search ==> ShowsCatalog(shuffled, entries)
      ensures !(|Trim(text)| == 0 && old(mode) == Search) ==>
                && mode == old(mode) && shown == old(shown) && progressVisible == old(progressVisible)
                && emptyVisible == old(emptyVisible) && emptyText == old(emptyText)
      ensures catalogSongs == old(catalogSongs)
    {
      var q := Trim(text);
      if |q| == 0 && mode == Search {
        ShowCatalog(shuffled, entries);
      }
    }
  }
}
