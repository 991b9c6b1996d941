/** The favourites store (FavoritesStore.kt): a JSON array of song records
    kept in the app's preferences.  Every operation loads the whole list,
    changes it and writes it back; records that are not objects or whose
    title or URLs are blank are dropped on loading, so writing back also
    cleans the stored array. */
module Favorites {
  import opened Wrappers
  import opened Text
  import SongModel
  import Seqs

  datatype FavoriteEntry = FavoriteEntry(song: SongModel.Song, keyOffset: int)

  /** One element of the stored array: not an object, or an object whose
      members are absent (`None`) or hold the text (resp. the integer) that
      `optString` (resp. `optInt`) reads from them. */
  datatype StoredValue =
    | NotAnObject
    | Record(id: Option<string>, title: Option<string>, melodyUrl: Option<string>, midiUrl: Option<string>,
             queryTitle: Option<string>, keyOffset: Option<int>)

  /** The entries that survive loading: title and both URLs non-blank. */
  predicate Loadable(e: FavoriteEntry) {
    !IsBlank(e.song.title) && !IsBlank(e.song.melodyUrl) && !IsBlank(e.song.midiUrl)
  }

  /** One record as the loading loop reads it: missing strings are "",
      a missing `queryTitle` is the title, a missing `keyOffset` is 0. */
  function EntryOf(v: StoredValue): Option<FavoriteEntry> {
    if v.NotAnObject? then None
    else
      var title := v.title.GetOr("");
      var e := FavoriteEntry(SongModel.Song(v.id.GetOr(""), title, v.melodyUrl.GetOr(""), v.midiUrl.GetOr(""),
                                            v.queryTitle.GetOr(title)),
                             v.keyOffset.GetOr(0));
      if Loadable(e) then Some(e) else None
  }

  /** The entries of a stored array, in order. */
  function Entries(vs: seq<StoredValue>): (es: seq<FavoriteEntry>)
    ensures |es| <= |vs|
    ensures forall e | e in es :: Loadable(e)
    decreases |vs|
  {
    if vs == [] then []
    else
      var last := EntryOf(vs[|vs| - 1]);
      Entries(vs[..|vs| - 1]) + (if last.Some? then [last.value] else [])
  }

  /** `saveEntries` for one entry: every field is written. */
  function Encode(e: FavoriteEntry): StoredValue {
    Record(Some(e.song.id), Some(e.song.title), Some(e.song.melodyUrl), Some(e.song.midiUrl),
           Some(e.song.queryTitle), Some(e.keyOffset))
  }

  /** `saveEntries`: one record per entry, in order. */
  function Save(es: seq<FavoriteEntry>): seq<StoredValue> {
    Seqs.Map(es, Encode)
  }

  /** The entries that are loadable, in order. */
  function FilterLoadable(es: seq<FavoriteEntry>): seq<FavoriteEntry>
    decreases |es|
  {
    if es == [] then []
    else FilterLoadable(es[..|es| - 1]) + (if Loadable(es[|es| - 1]) then [es[|es| - 1]] else [])
  }

  /** Saving and loading again gives back the loadable entries, in order. */
  lemma {:induction false} LoadSave(es: seq<FavoriteEntry>)
    ensures Entries(Save(es)) == FilterLoadable(es)
    decreases |es|
  {
    if es != [] {
      var n := |es| - 1;
      assert Save(es)[..n] == Save(es[..n]);
      LoadSave(es[..n]);
    }
  }

  lemma {:induction false} FilterLoadableOfLoadable(es: seq<FavoriteEntry>)
    requires forall e | e in es :: Loadable(e)
    ensures FilterLoadable(es) == es
    decreases |es|
  {
    if es != [] {
      var n := |es| - 1;
      var front := es[..n];
      forall e | e in front ensures Loadable(e) {
        var j :| 0 <= j < n && front[j] == e;
        assert es[j] == e;
      }
      FilterLoadableOfLoadable(front);
      assert Loadable(es[n]) by {
        assert es[n] in es;
      }
      assert front + [es[n]] == es;
    }
  }

  /** A list of loadable entries survives the round trip unchanged; in
      particular what was loaded can be written back without loss. */
  lemma LoadSaveLoadable(es: seq<FavoriteEntry>)
    requires forall e | e in es :: Loadable(e)
    ensures Entries(Save(es)) == es
  {
    LoadSave(es);
    FilterLoadableOfLoadable(es);
  }

  // ---------------------------------------------------------------------
  // The list operations

  /** `indexOfFirst { it.song.id == id }`. */
  function IndexOfId(es: seq<FavoriteEntry>, id: string): (r: int)
    ensures -1 <= r < |es|
    ensures r >= 0 ==> es[r].song.id == id && forall k | 0 <= k < r :: es[k].song.id != id
    ensures r < 0 <==> forall k | 0 <= k < |es| :: es[k].song.id != id
    decreases |es|
  {
    if es == [] then -1
    else if es[0].song.id == id then 0
    else
      var r := IndexOfId(es[1..], id);
      if r < 0 then -1 else r + 1
  }

  /** `any { it.song.id == id }`. */
  predicate HasId(es: seq<FavoriteEntry>, id: string) {
    exists k | 0 <= k < |es| :: es[k].song.id == id
  }

  /** `firstOrNull { it.song.id == id }?.keyOffset ?: 0`. */
  function KeyOffsetIn(es: seq<FavoriteEntry>, id: string): int {
    var i := IndexOfId(es, id);
    if i < 0 then 0 else es[i].keyOffset
  }

  /** No two entries share an id. */
  predicate DistinctIds(es: seq<FavoriteEntry>) {
    forall i, j | 0 <= i < j < |es| :: es[i].song.id != es[j].song.id
  }

  /** The list after `toggle`, and whether the song is now a favourite:
      an existing entry is removed, otherwise the song goes first. */
  function Toggled(es: seq<FavoriteEntry>, song: SongModel.Song, keyOffsetWhenAdd: Option<int>)
    : (seq<FavoriteEntry>, bool)
  {
    var idx := IndexOfId(es, song.id);
    if idx >= 0 then (es[..idx] + es[idx + 1..], false)
    else ([FavoriteEntry(song, keyOffsetWhenAdd.GetOr(0))] + es, true)
  }

  /** The list after `setKeyOffset`, or `None` when the id is absent and
      nothing is written. */
  function WithKeyOffset(es: seq<FavoriteEntry>, id: string, keyOffset: int): Option<seq<FavoriteEntry>> {
    var idx := IndexOfId(es, id);
    if idx < 0 then None
    else Some(es[idx := FavoriteEntry(es[idx].song, keyOffset)])
  }

  /** `filterNot { it.song.id == id }`. */
  function WithoutId(es: seq<FavoriteEntry>, id: string): (r: seq<FavoriteEntry>)
    ensures forall e | e in r :: e in es && e.song.id != id
    ensures forall e | e in es && e.song.id != id :: e in r
    decreases |es|
  {
    if es == [] then []
    else
      var rest := WithoutId(es[..|es| - 1], id);
      var last := es[|es| - 1];
      assert es == es[..|es| - 1] + [last];
      if last.song.id == id then rest else rest + [last]
  }

  /** Each entry is kept or dropped on its own, so removal distributes over
      concatenation: the remaining entries keep their order. */
  lemma {:induction false} WithoutIdAppend(a: seq<FavoriteEntry>, b: seq<FavoriteEntry>, id: string)
    ensures WithoutId(a + b, id) == WithoutId(a, id) + WithoutId(b, id)
    decreases |b|
  {
    if b == [] {
      assert a + b == a;
    } else {
      assert (a + b)[..|a + b| - 1] == a + b[..|b| - 1];
      WithoutIdAppend(a, b[..|b| - 1], id);
    }
  }

  /** A list without the id is left unchanged. */
  lemma {:induction false} WithoutIdOfAbsent(es: seq<FavoriteEntry>, id: string)
    requires forall k | 0 <= k < |es| :: es[k].song.id != id
    ensures WithoutId(es, id) == es
    decreases |es|
  {
    if es != [] {
      var front := es[..|es| - 1];
      assert forall k | 0 <= k < |front| :: front[k] == es[k];
      WithoutIdOfAbsent(front, id);
      assert front + [es[|es| - 1]] == es;
    }
  }

  /** Removing the entry at `idx` keeps the others, in order. */
  lemma RemoveAt(es: seq<FavoriteEntry>, idx: nat)
    requires idx < |es|
    ensures var next := es[..idx] + es[idx + 1..];
            && |next| == |es| - 1
            && (forall k | 0 <= k < |next| :: next[k] == (if k < idx then es[k] else es[k + 1]))
  {
  }

  /** Removing the one entry with the id leaves none with it. */
  lemma RemoveOnlyMatch(es: seq<FavoriteEntry>, idx: nat, id: string)
    requires DistinctIds(es) && idx < |es| && es[idx].song.id == id
    ensures var next := es[..idx] + es[idx + 1..];
            && !HasId(next, id)
            && DistinctIds(next)
            && forall e | e in next :: e in es
  {
    var next := es[..idx] + es[idx + 1..];
    RemoveAt(es, idx);
    forall k | 0 <= k < |next| ensures next[k].song.id != id {
      if k >= idx {
        assert next[k] == es[k + 1];
      }
    }
    forall e | e in next ensures e in es {
      var k :| 0 <= k < |next| && next[k] == e;
    }
  }

  /** Toggling reports the new state: a song that was not a favourite is
      one afterwards, and one that was is not, provided ids are distinct
      (which every operation keeps) and the song's title and URLs are
      non-blank (otherwise it is saved but dropped on the next load). */
  lemma ToggleReportsState(es: seq<FavoriteEntry>, song: SongModel.Song, keyOffsetWhenAdd: Option<int>)
    requires DistinctIds(es) && forall e | e in es :: Loadable(e)
    requires Loadable(FavoriteEntry(song, 0))
    ensures var (next, nowFav) := Toggled(es, song, keyOffsetWhenAdd);
            && Entries(Save(next)) == next
            && DistinctIds(next)
            && (HasId(next, song.id) <==> nowFav)
            && (nowFav <==> !HasId(es, song.id))
  {
    var idx := IndexOfId(es, song.id);
    var next := Toggled(es, song, keyOffsetWhenAdd).0;
    if idx >= 0 {
      RemoveOnlyMatch(es, idx, song.id);
    } else {
      AddFirst(es, FavoriteEntry(song, keyOffsetWhenAdd.GetOr(0)));
    }
    LoadSaveLoadable(next);
  }

  /** Putting an entry with a new id first keeps the ids distinct. */
  lemma AddFirst(es: seq<FavoriteEntry>, e: FavoriteEntry)
    requires DistinctIds(es) && forall x | x in es :: Loadable(x)
    requires Loadable(e) && forall k | 0 <= k < |es| :: es[k].song.id != e.song.id
    ensures var next := [e] + es;
            && DistinctIds(next)
            && HasId(next, e.song.id)
            && forall x | x in next :: Loadable(x)
  {
    var next := [e] + es;
    assert next[0] == e;
    assert forall k | 1 <= k < |next| :: next[k] == es[k - 1];
  }

  /** Toggling a song in and out again restores the list. */
  lemma ToggleTwice(es: seq<FavoriteEntry>, song: SongModel.Song, k: Option<int>)
    requires !HasId(es, song.id)
    ensures var once := Toggled(es, song, k).0;
            Toggled(once, song, k) == (es, false)
  {
    var once := Toggled(es, song, k).0;
    assert IndexOfId(once, song.id) == 0;
    assert once[..0] + once[1..] == es;
  }

  /** Setting the key offset of a favourite keeps the songs and their
      order and changes that one offset; other ids are not affected. */
  lemma WithKeyOffsetEffect(es: seq<FavoriteEntry>, id: string, keyOffset: int, other: string)
    requires HasId(es, id)
    ensures WithKeyOffset(es, id, keyOffset).Some?
    ensures var next := WithKeyOffset(es, id, keyOffset).value;
            && |next| == |es|
            && (forall k | 0 <= k < |es| :: next[k].song == es[k].song)
            && KeyOffsetIn(next, id) == keyOffset
            && (other != id ==> KeyOffsetIn(next, other) == KeyOffsetIn(es, other))
  {
    var next := WithKeyOffset(es, id, keyOffset).value;
    assert forall k | 0 <= k < |es| :: next[k].song.id == es[k].song.id;
    assert IndexOfId(next, id) == IndexOfId(es, id);
    assert IndexOfId(next, other) == IndexOfId(es, other) by {
      var a, b := IndexOfId(next, other), IndexOfId(es, other);
      if a < 0 {
        assert forall k | 0 <= k < |es| :: es[k].song.id != other;
      }
    }
  }

  // ---------------------------------------------------------------------
  // The store

  /** The preferences entry `favorites_json`, as the array it holds. */
  class FavoritesStore {
    var stored: seq<StoredValue>

    /** Nothing saved yet: `getString` falls back to "[]". */
    constructor()
      ensures stored == []
    {
      stored := [];
    }

    /** `getAllEntries`: the loading loop. */
    method GetAllEntries() returns (out: seq<FavoriteEntry>)
      ensures out == Entries(stored)
    {
      var arr := stored;
      out := [];
      for i := 0 to |arr|
        invariant out == Entries(arr[..i])
      {
        assert arr[..i + 1][..i] == arr[..i];
        var v := arr[i];
        if v.NotAnObject? {
          continue;
        }
        var id := v.id.GetOr("");
        var title := v.title.GetOr("");
        var melodyUrl := v.melodyUrl.GetOr("");
        var midiUrl := v.midiUrl.GetOr("");
        var queryTitle := v.queryTitle.GetOr(title);
        var keyOffset := v.keyOffset.GetOr(0);
        if !IsBlank(title) && !IsBlank(melodyUrl) && !IsBlank(midiUrl) {
          out := out + [FavoriteEntry(SongModel.Song(id, title, melodyUrl, midiUrl, queryTitle), keyOffset)];
        }
      }
      assert arr[..|arr|] == arr;
    }

    /** `getAll`: the songs of the entries. */
    method GetAll() returns (songs: seq<SongModel.Song>)
      ensures |songs| == |Entries(stored)|
      ensures forall i | 0 <= i < |songs| :: songs[i] == Entries(stored)[i].song
    {
      var es := GetAllEntries();
      songs := seq(|es|, i requires 0 <= i < |es| => es[i].song);
    }

    /** `isFavorite`. */
    method IsFavorite(songId: string) returns (b: bool)
      ensures b <==> HasId(Entries(stored), songId)
    {
      var es := GetAllEntries();
      b := IndexOfId(es, songId) >= 0;
    }

    /** `getKeyOffset`: the first entry's offset, or 0. */
    method GetKeyOffset(songId: string) returns (k: int)
      ensures k == KeyOffsetIn(Entries(stored), songId)
      ensures !HasId(Entries(stored), songId) ==> k == 0
    {
      var es := GetAllEntries();
      var idx := IndexOfId(es, songId);
      k := if idx < 0 then 0 else es[idx].keyOffset;
    }

    /** `setKeyOffset`: nothing is written for a song that is not a
        favourite. */
    method SetKeyOffset(songId: string, keyOffset: int)
      modifies this
      ensures var next := WithKeyOffset(Entries(old(stored)), songId, keyOffset);
              stored == if next.None? then old(stored) else Save(next.value)
    {
      var list := GetAllEntries();
      var idx := IndexOfId(list, songId);
      if idx < 0 {
        return;
      }
      list := list[idx := FavoriteEntry(list[idx].song, keyOffset)];
      SaveEntries(list);
    }

    /** `toggle`: returns whether the song is a favourite afterwards. */
    method Toggle(song: SongModel.Song, keyOffsetWhenAdd: Option<int>) returns (nowFav: bool)
      modifies this
      ensures (Save(Toggled(Entries(old(stored)), song, keyOffsetWhenAdd).0), nowFav)
              == (stored, Toggled(Entries(old(stored)), song, keyOffsetWhenAdd).1)
    {
      var list := GetAllEntries();
      var idx := IndexOfId(list, song.id);
      if idx >= 0 {
        list := list[..idx] + list[idx + 1..];
        nowFav := false;
      } else {
        var key := keyOffsetWhenAdd.GetOr(0);
        list := [FavoriteEntry(song, key)] + list;
        nowFav := true;
      }
      SaveEntries(list);
    }

    /** `remove`: drops every entry with the id. */
    method Remove(songId: string)
      modifies this
      ensures stored == Save(WithoutId(Entries(old(stored)), songId))
    {
      var list := GetAllEntries();
      SaveEntries(WithoutId(list, songId));
    }

    /** `saveEntries`. */
    method SaveEntries(list: seq<FavoriteEntry>)
      modifies this
      ensures stored == Save(list)
    {
      var arr: seq<StoredValue> := [];
      for i := 0 to |list|
        invariant arr == Save(list[..i])
      {
        var s := list[i].song;
        arr := arr + [Record(Some(s.id), Some(s.title), Some(s.melodyUrl), Some(s.midiUrl),
                             Some(s.queryTitle), Some(list[i].keyOffset))];
      }
      assert list[..|list|] == list;
      stored := arr;
    }
  }

  /** Once anything has been written, loading what was written gives the
      same list again: the stored array holds only loadable records with
      distinct ids when it started that way. */
  lemma StoreStaysClean(vs: seq<StoredValue>, song: SongModel.Song, k: Option<int>)
    requires DistinctIds(Entries(vs)) && Loadable(FavoriteEntry(song, 0))
    ensures var next := Save(Toggled(Entries(vs), song, k).0);
            Entries(next) == Toggled(Entries(vs), song, k).0 && DistinctIds(Entries(next))
  {
    ToggleReportsState(Entries(vs), song, k);
  }
}
