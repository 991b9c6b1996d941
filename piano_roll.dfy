/** The state of the piano-roll view (PianoRollView.kt): the notes sorted by
    start time, the pitch range shown, the timeline length and the live
    pitch trace.  Drawing, sizes in pixels and the clock are left out. */
module PianoRoll {
  import opened Wrappers
  import Sorting

  /** MusicalNote.kt: MIDI number, start and duration in milliseconds. */
  datatype MusicalNote = MusicalNote(note: int, startTime: int, duration: int)

  const InitialMinPitch := 48
  const InitialMaxPitch := 72
  const DefaultDurationMs := 10000
  const LiveTailMs := 2000
  const RangeMargin := 4
  const TopPitch := 83

  /** The smallest MIDI number (`minOf { it.note }`). */
  function MinNote(ns: seq<MusicalNote>): (m: int)
    requires ns != []
    ensures exists i | 0 <= i < |ns| :: ns[i].note == m
    ensures forall i | 0 <= i < |ns| :: m <= ns[i].note
  {
    if |ns| == 1 then ns[0].note
    else
      var rest := MinNote(ns[1..]);
      assert forall i | 1 <= i < |ns| :: ns[i] == ns[1..][i - 1];
      if ns[0].note <= rest then ns[0].note else rest
  }

  /** The largest MIDI number (`maxOf { it.note }`). */
  function MaxNote(ns: seq<MusicalNote>): (m: int)
    requires ns != []
    ensures exists i | 0 <= i < |ns| :: ns[i].note == m
    ensures forall i | 0 <= i < |ns| :: ns[i].note <= m
  {
    if |ns| == 1 then ns[0].note
    else
      var rest := MaxNote(ns[1..]);
      assert forall i | 1 <= i < |ns| :: ns[i] == ns[1..][i - 1];
      if ns[0].note >= rest then ns[0].note else rest
  }

  function End(n: MusicalNote): int {
    n.startTime + n.duration
  }

  /** The latest end time (`maxOfOrNull { it.startTime + it.duration }`). */
  function MaxEnd(ns: seq<MusicalNote>): (m: int)
    requires ns != []
    ensures exists i | 0 <= i < |ns| :: End(ns[i]) == m
    ensures forall i | 0 <= i < |ns| :: End(ns[i]) <= m
  {
    if |ns| == 1 then End(ns[0])
    else
      var rest := MaxEnd(ns[1..]);
      assert forall i | 1 <= i < |ns| :: ns[i] == ns[1..][i - 1];
      if End(ns[0]) >= rest then End(ns[0]) else rest
  }

  /** The lowest pitch shown: four below the lowest note, not below 0. */
  function ComputedMin(ns: seq<MusicalNote>): int
    requires ns != []
  {
    var m := MinNote(ns) - RangeMargin;
    if m < 0 then 0 else m
  }

  /** The highest pitch shown: four above the highest note, not above 83. */
  function ComputedMax(ns: seq<MusicalNote>): int
    requires ns != []
  {
    var m := MaxNote(ns) + RangeMargin;
    if m > TopPitch then TopPitch else m
  }

  /** The computed range stays within 0..83 at its bounded ends, and it
      covers every note that lies in 0..83. */
  lemma ComputedRangeCovers(ns: seq<MusicalNote>)
    requires ns != []
    ensures ComputedMin(ns) >= 0 && ComputedMax(ns) <= TopPitch
    ensures forall i | 0 <= i < |ns| && 0 <= ns[i].note <= TopPitch ::
              ComputedMin(ns) <= ns[i].note <= ComputedMax(ns)
  {
  }

  predicate StartsNoLater(a: MusicalNote, b: MusicalNote) {
    a.startTime <= b.startTime
  }

  lemma StartsNoLaterIsTotalPreorder()
    ensures Sorting.IsTotalPreorder(StartsNoLater)
  {
  }

  /** `sortedBy { it.startTime }`, which is stable: notes that start
      together stay in their given order. */
  function SortedByStart(ns: seq<MusicalNote>): (r: seq<MusicalNote>)
    ensures |r| == |ns| && multiset(r) == multiset(ns)
    ensures forall i, j | 0 <= i < j < |r| :: r[i].startTime <= r[j].startTime
    ensures forall z :: Sorting.Equivalents(r, StartsNoLater, z) == Sorting.Equivalents(ns, StartsNoLater, z)
  {
    StartsNoLaterIsTotalPreorder();
    Sorting.SortByStable(ns, StartsNoLater);
    var r := Sorting.SortBy(ns, StartsNoLater);
    assert forall i, j | 0 <= i < j < |r| :: StartsNoLater(r[i], r[j]);
    r
  }

  class PianoRollView {
    var notes: seq<MusicalNote>
    var minPitch: int
    var maxPitch: int
    var totalDurationMs: int
    /** The live trace: (timeline ms, MIDI note). */
    var livePitches: seq<(int, real)>

    constructor ()
      ensures notes == [] && livePitches == []
      ensures minPitch == InitialMinPitch && maxPitch == InitialMaxPitch
      ensures totalDurationMs == DefaultDurationMs
    {
      notes := [];
      minPitch := InitialMinPitch;
      maxPitch := InitialMaxPitch;
      totalDurationMs := DefaultDurationMs;
      livePitches := [];
    }

    /** `setNotes(newNotes, fixedMinPitch, fixedMaxPitch, resetLivePitches)`:
        the notes sorted by start; for a non-empty list a given bound wins
        over the computed one and the timeline spans to the latest end; for
        an empty list the range is kept and the timeline is 10 s. */
    method SetNotes(newNotes: seq<MusicalNote>, fixedMinPitch: Option<int>, fixedMaxPitch: Option<int>, resetLivePitches: bool)
      modifies this
      ensures notes == SortedByStart(newNotes)
      ensures newNotes != [] ==> && minPitch == fixedMinPitch.GetOr(ComputedMin(newNotes))
                                 && maxPitch == fixedMaxPitch.GetOr(ComputedMax(newNotes))
                                 && totalDurationMs == MaxEnd(newNotes)
      ensures newNotes == [] ==> && minPitch == old(minPitch) && maxPitch == old(maxPitch)
                                 && totalDurationMs == DefaultDurationMs
      ensures livePitches == if resetLivePitches then [] else old(livePitches)
    {
      notes := SortedByStart(newNotes);
      if newNotes != [] {
        var computedMin := ComputedMin(newNotes);
        var computedMax := ComputedMax(newNotes);
        minPitch := fixedMinPitch.GetOr(computedMin);
        maxPitch := fixedMaxPitch.GetOr(computedMax);
        totalDurationMs := MaxEnd(newNotes);
      } else {
        totalDurationMs := DefaultDurationMs;
      }
      if resetLivePitches {
        livePitches := [];
      }
    }

    /** `setNotes(newNotes)`: no fixed bounds, live trace cleared. */
    method SetNotesDefault(newNotes: seq<MusicalNote>)
      modifies this
      ensures notes == SortedByStart(newNotes)
      ensures newNotes != [] ==> && minPitch == ComputedMin(newNotes) && maxPitch == ComputedMax(newNotes)
                                 && totalDurationMs == MaxEnd(newNotes)
      ensures newNotes == [] ==> && minPitch == old(minPitch) && maxPitch == old(maxPitch)
                                 && totalDurationMs == DefaultDurationMs
      ensures livePitches == []
    {
      SetNotes(newNotes, None, None, true);
    }

    /** `addLivePitchAt`: one point appended; the timeline grows to two
        seconds past it when it would end earlier. */
    method AddLivePitchAt(timeMs: int, midiNote: real)
      modifies this
      ensures livePitches == old(livePitches) + [(timeMs, midiNote)]
      ensures totalDurationMs == if timeMs + LiveTailMs > old(totalDurationMs) then timeMs + LiveTailMs else old(totalDurationMs)
      ensures totalDurationMs >= old(totalDurationMs) && totalDurationMs >= timeMs + LiveTailMs
      ensures notes == old(notes) && minPitch == old(minPitch) && maxPitch == old(maxPitch)
    {
      livePitches := livePitches + [(timeMs, midiNote)];
      if timeMs + LiveTailMs > totalDurationMs {
        totalDurationMs := timeMs + LiveTailMs;
      }
    }

    /** `clearLivePitches`: only the live trace is emptied. */
    method ClearLivePitches()
      modifies this
      ensures livePitches == []
      ensures notes == old(notes) && minPitch == old(minPitch) && maxPitch == old(maxPitch)
      ensures totalDurationMs == old(totalDurationMs)
    {
      livePitches := [];
    }
  }
}
