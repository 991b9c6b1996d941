/** The favourites screen (LibraryFragment.kt): every stored entry becomes
    one list item, marked favourite, with the entry's key offset and the
    title split into main title and artist. */
module LibraryScreen {
  import opened Wrappers
  import opened Text
  import Favorites
  import opened SongItems

  /** The title that is split: the query title, or the title when the
      query title is blank (`ifBlank`). */
  function FullTitle(e: Favorites.FavoriteEntry): string {
    if IsBlank(e.song.queryTitle) then e.song.title else e.song.queryTitle
  }

  /** The item of one entry. */
  function LibraryItem(e: Favorites.FavoriteEntry): Item {
    var (mainTitle, artist) := SplitTitleArtist(FullTitle(e));
    Item(e.song.(title := mainTitle), artist, true, e.keyOffset)
  }

  /** `loadFavorites`: the submitted items and whether the empty-state
      text is visible. */
  function LoadFavorites(entries: seq<Favorites.FavoriteEntry>): (seq<Item>, bool) {
    var items := seq(|entries|, k requires 0 <= k < |entries| => LibraryItem(entries[k]));
    (items, |items| == 0)
  }

  /** One item per entry in the same order, each a favourite titled by the
      split of the entry's query title (or of its title when the query
      title is blank), with the entry's id, URLs, query title and key
      offset. */
  lemma LoadFavoritesShape(entries: seq<Favorites.FavoriteEntry>)
    ensures |LoadFavorites(entries).0| == |entries|
    ensures var items := LoadFavorites(entries).0;
            forall k | 0 <= k < |entries| ::
              && (items[k].song.title, items[k].subtitle) == SplitTitleArtist(FullTitle(entries[k]))
              && items[k].isFavorite
              && items[k].keyOffset == entries[k].keyOffset
              && items[k].song.id == entries[k].song.id
              && items[k].song.melodyUrl == entries[k].song.melodyUrl
              && items[k].song.midiUrl == entries[k].song.midiUrl
              && items[k].song.queryTitle == entries[k].song.queryTitle
    ensures LoadFavorites(entries).1 <==> entries == []
  {
  }

  /** With a non-blank query title the title comes from it, and an entry
      whose query title is blank is shown by its title. */
  lemma FullTitleChoice(e: Favorites.FavoriteEntry)
    ensures !IsBlank(e.song.queryTitle) ==> FullTitle(e) == e.song.queryTitle
    ensures IsBlank(e.song.queryTitle) ==> FullTitle(e) == e.song.title
    ensures !IsBlank(FullTitle(e)) || (IsBlank(e.song.queryTitle) && IsBlank(e.song.title))
  {
  }
}
