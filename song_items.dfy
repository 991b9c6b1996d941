/** The list item the search and library screens build, and the
    title/artist split both of them apply to a stored title.  Both fragments
    construct the adapter's item with a `keyOffset` argument (it is part of
    the item as they write it, although SongAdapter.kt declares no such
    field); that item is this one. */
module SongItems {
  import opened Wrappers
  import opened Text
  import SongModel

  const Separator := " - "

  datatype Item = Item(song: SongModel.Song, subtitle: Option<string>, isFavorite: bool, keyOffset: int)

  /** `splitTitleArtist`: `split(" - ", limit = 2)`; with two parts both
      are trimmed, otherwise the whole title stays and there is no artist. */
  function SplitTitleArtist(full: string): (string, Option<string>) {
    match SplitOnce(full, Separator)
    case None => (full, None)
    case Some((before, after)) => (Trim(before), Some(Trim(after)))
  }

  /** Without a separator the title is kept whole with no artist; with one,
      the split is at its first occurrence and both sides are trimmed. */
  lemma SplitTitleArtistShape(full: string)
    ensures SplitTitleArtist(full).1.None? <==> forall k :: !OccursAt(full, Separator, k)
    ensures SplitTitleArtist(full).1.None? ==> SplitTitleArtist(full).0 == full
    ensures SplitTitleArtist(full).1.Some? ==>
              exists i :: && OccursAt(full, Separator, i)
                          && (forall k | 0 <= k < i :: !OccursAt(full, Separator, k))
                          && SplitTitleArtist(full).0 == Trim(full[..i])
                          && SplitTitleArtist(full).1 == Some(Trim(full[i + |Separator|..]))
  {
    var i := IndexOf(full, Separator);
    if i >= 0 {
      SplitAtFirstSeparator(full);
      assert OccursAt(full, Separator, i);
    } else {
      assert SplitOnce(full, Separator) == None;
    }
  }

  lemma SplitAtFirstSeparator(full: string)
    requires IndexOf(full, Separator) >= 0
    ensures var i := IndexOf(full, Separator);
            SplitTitleArtist(full) == (Trim(full[..i]), Some(Trim(full[i + |Separator|..])))
  {
    var i := IndexOf(full, Separator);
    assert SplitOnce(full, Separator) == Some((full[..i], full[i + |Separator|..]));
  }

  /** A slice of a string has no occurrence of `sep` that the string lacks. */
  lemma NoOccurrenceInSlice(s: string, sep: string, a: nat, b: nat)
    requires a <= b <= |s|
    requires forall k | 0 <= k && k + |sep| <= b :: !OccursAt(s, sep, k)
    ensures forall k :: !OccursAt(s[a..b], sep, k)
  {
    forall k | 0 <= k && k + |sep| <= b - a
      ensures !OccursAt(s[a..b], sep, k)
    {
      var t := s[a..b];
      var u, v := t[k..k + |sep|], s[a + k..a + k + |sep|];
      assert forall j | 0 <= j < |sep| :: u[j] == v[j];
      assert u == v;
      assert !OccursAt(s, sep, a + k);
    }
  }

  /** Trimming keeps a string free of `sep`. */
  lemma NoOccurrenceInTrim(s: string, sep: string)
    requires forall k :: !OccursAt(s, sep, k)
    ensures forall k :: !OccursAt(Trim(s), sep, k)
  {
    TrimSlice(s);
    var a := |s| - |TrimStart(s)|;
    NoOccurrenceInSlice(s, sep, a, a + |Trim(s)|);
  }

  /** When an artist is split off, the title part has no separator left
      in it: the split is at the first one. */
  lemma TitleHasNoSeparator(full: string)
    requires SplitTitleArtist(full).1.Some?
    ensures forall k :: !OccursAt(SplitTitleArtist(full).0, Separator, k)
  {
    var i := IndexOf(full, Separator);
    assert SplitOnce(full, Separator) == Some((full[..i], full[i + |Separator|..]));
    NoOccurrenceInSlice(full, Separator, 0, i);
    assert full[0..i] == full[..i];
    NoOccurrenceInTrim(full[..i], Separator);
  }
}
