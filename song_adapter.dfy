/** The song list adapter (SongAdapter.kt): its item as declared there
    (song, optional subtitle, favourite flag), the list it shows, the
    favourite updates, the diff callbacks and the two binding rules.  The
    asynchronous diffing of `submitList` is left out: the submitted list is
    the list shown. */
module SongAdapter {
  import opened Wrappers
  import opened Text
  import SongModel

  datatype Item = Item(song: SongModel.Song, subtitle: Option<string>, isFavorite: bool)

  // ---------------------------------------------------------------------
  // Binding and diffing

  /** The subtitle row is visible exactly for a subtitle that is present
      and not blank (`isNullOrBlank`). */
  function ShowsSubtitle(item: Item): (b: bool)
    ensures b <==> item.subtitle.Some? && exists i | 0 <= i < |item.subtitle.value| :: !IsWhitespace(item.subtitle.value[i])
  {
    match item.subtitle
    case None => false
    case Some(s) => !IsBlank(s)
  }

  /** The star resource: `btn_star_big_on` for a favourite. */
  datatype Star = StarOn | StarOff

  function StarOf(item: Item): Star {
    if item.isFavorite then StarOn else StarOff
  }

  /** `areItemsTheSame`: the same song id. */
  predicate AreItemsTheSame(oldItem: Item, newItem: Item) {
    oldItem.song.id == newItem.song.id
  }

  /** `areContentsTheSame`: structural equality. */
  predicate AreContentsTheSame(oldItem: Item, newItem: Item) {
    oldItem == newItem
  }

  /** Same contents implies same item, and both callbacks are equivalence
      relations, so the diff is consistent. */
  lemma DiffConsistent(a: Item, b: Item, c: Item)
    ensures AreContentsTheSame(a, b) ==> AreItemsTheSame(a, b)
    ensures AreItemsTheSame(a, a) && AreContentsTheSame(a, a)
    ensures AreItemsTheSame(a, b) ==> AreItemsTheSame(b, a)
    ensures AreItemsTheSame(a, b) && AreItemsTheSame(b, c) ==> AreItemsTheSame(a, c)
    ensures AreContentsTheSame(a, b) <==> a.song == b.song && a.subtitle == b.subtitle && a.isFavorite == b.isFavorite
  {
  }

  // ---------------------------------------------------------------------
  // Favourite updates on values

  /** `indexOfFirst { it.song.id == songId }`. */
  function IndexOfSong(items: seq<Item>, songId: string): (r: int)
    ensures -1 <= r < |items|
    ensures r >= 0 ==> items[r].song.id == songId && forall k | 0 <= k < r :: items[k].song.id != songId
    ensures r == -1 <==> forall k | 0 <= k < |items| :: items[k].song.id != songId
  {
    if |items| == 0 then -1
    else if items[0].song.id == songId then 0
    else
      var r := IndexOfSong(items[1..], songId);
      assert forall k | 1 <= k < |items| :: items[k] == items[1..][k - 1];
      if r < 0 then -1 else r + 1
  }

  /** The list `updateFavorite` submits, or `None` when no item has the id
      and nothing is submitted. */
  function WithFavorite(items: seq<Item>, songId: string, isFav: bool): Option<seq<Item>> {
    var idx := IndexOfSong(items, songId);
    if idx >= 0 then Some(items[idx := items[idx].(isFavorite := isFav)]) else None
  }

  /** Nothing is submitted exactly when no item has the id; otherwise only
      the first item with it changes, and only in its favourite flag. */
  lemma WithFavoriteEffect(items: seq<Item>, songId: string, isFav: bool)
    ensures WithFavorite(items, songId, isFav).None? <==> forall k | 0 <= k < |items| :: items[k].song.id != songId
    ensures WithFavorite(items, songId, isFav).Some? ==>
              var r := WithFavorite(items, songId, isFav).value;
              exists idx | 0 <= idx < |items| ::
                && items[idx].song.id == songId
                && (forall k | 0 <= k < idx :: items[k].song.id != songId)
                && |r| == |items|
                && r[idx] == Item(items[idx].song, items[idx].subtitle, isFav)
                && (forall k | 0 <= k < |items| && k != idx :: r[k] == items[k])
  {
    var idx := IndexOfSong(items, songId);
    if idx >= 0 {
      assert WithFavorite(items, songId, isFav).value[idx] == Item(items[idx].song, items[idx].subtitle, isFav);
    }
  }

  /** The list `refreshFavorites` submits, given the favourite ids. */
  function Refreshed(items: seq<Item>, fav: set<string>): seq<Item> {
    seq(|items|, k requires 0 <= k < |items| => items[k].(isFavorite := items[k].song.id in fav))
  }

  /** The ids of `FavoritesStore.getAll`. */
  function IdSet(songs: seq<SongModel.Song>): set<string> {
    set i | 0 <= i < |songs| :: songs[i].id
  }

  /** Refreshing twice with the same favourites changes nothing more. */
  lemma RefreshedIdempotent(items: seq<Item>, fav: set<string>)
    ensures Refreshed(Refreshed(items, fav), fav) == Refreshed(items, fav)
  {
    var r := Refreshed(items, fav);
    assert forall k | 0 <= k < |r| :: Refreshed(r, fav)[k] == r[k];
  }

  /** After `refreshFavorites` an item shows the filled star exactly when a
      stored favourite has its song's id; songs, subtitles and order are
      kept. */
  lemma RefreshedStars(items: seq<Item>, favorites: seq<SongModel.Song>)
    ensures |Refreshed(items, IdSet(favorites))| == |items|
    ensures forall k | 0 <= k < |items| ::
              && Refreshed(items, IdSet(favorites))[k].song == items[k].song
              && Refreshed(items, IdSet(favorites))[k].subtitle == items[k].subtitle
              && (StarOf(Refreshed(items, IdSet(favorites))[k]) == StarOn
                  <==> exists i | 0 <= i < |favorites| :: favorites[i].id == items[k].song.id)
  {
    var fav := IdSet(favorites);
    forall k | 0 <= k < |items|
      ensures items[k].song.id in fav <==> exists i | 0 <= i < |favorites| :: favorites[i].id == items[k].song.id
    {
      if exists i | 0 <= i < |favorites| :: favorites[i].id == items[k].song.id {
        var i :| 0 <= i < |favorites| && favorites[i].id == items[k].song.id;
        assert favorites[i].id in fav;
      }
    }
  }

  // ---------------------------------------------------------------------
  // The adapter

  class SongListAdapter {
    /** `currentList`. */
    var currentList: seq<Item>
    /** How many lists were submitted. */
    var submissions: nat

    constructor ()
      ensures currentList == [] && submissions == 0
    {
      currentList := [];
      submissions := 0;
    }

    /** `submit`. */
    method Submit(items: seq<Item>)
      modifies this
      ensures currentList == items && submissions == old(submissions) + 1
    {
      currentList := items;
      submissions := submissions + 1;
    }

    /** `updateFavorite`: only the first item with the id changes, and a
        list is submitted only when there is one. */
    method UpdateFavorite(songId: string, isFav: bool)
      modifies this
      ensures WithFavorite(old(currentList), songId, isFav).Some? ==>
                currentList == WithFavorite(old(currentList), songId, isFav).value && submissions == old(submissions) + 1
      ensures WithFavorite(old(currentList), songId, isFav).None? ==>
                currentList == old(currentList) && submissions == old(submissions)
    {
      var cur := currentList;
      var idx := IndexOfSong(cur, songId);
      if idx >= 0 {
        cur := cur[idx := cur[idx].(isFavorite := isFav)];
        Submit(cur);
      }
    }

    /** `refreshFavorites`: every item's flag is set from the favourites. */
    method RefreshFavorites(favorites: seq<SongModel.Song>)
      modifies this
      ensures currentList == Refreshed(old(currentList), IdSet(favorites))
      ensures submissions == old(submissions) + 1
    {
      var fav := IdSet(favorites);
      Submit(Refreshed(currentList, fav));
    }
  }
}
