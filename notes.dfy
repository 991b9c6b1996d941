/** Note names from MIDI numbers: the twelve names of an octave, the
    piano roll's `midiToNoteName` and the pitch screens' `pitchToNote`.
    Kotlin's `/` and `%` on `Int` truncate toward zero, which is written out
    here. */
module NoteNames {
  import opened Wrappers
  import opened Text

  const Names: seq<string> := ["C", "C#", "D", "D#", "E", "F", "F#", "G", "G#", "A", "A#", "B"]

  /** Kotlin `a / b` for `b > 0`: the quotient rounded toward zero. */
  function KDiv(a: int, b: int): int
    requires b > 0
  {
    if a >= 0 then a / b else -((-a) / b)
  }

  /** Kotlin `a % b` for `b > 0`: the remainder takes the sign of `a`. */
  function KRem(a: int, b: int): int
    requires b > 0
  {
    if a >= 0 then a % b else -((-a) % b)
  }

  /** Truncating division and remainder still recompose the dividend, and
      the remainder lies strictly between `-b` and `b` with the sign of `a`. */
  lemma KDivRem(a: int, b: int)
    requires b > 0
    ensures KDiv(a, b) * b + KRem(a, b) == a
    ensures a >= 0 ==> 0 <= KRem(a, b) < b
    ensures a < 0 ==> -b < KRem(a, b) <= 0
  {
  }

  /** `midiToNoteName`: `noteNames[midi % 12] + ((midi / 12) - 1)`.  A
      negative number that is not a multiple of 12 gives a negative index,
      which throws; that is `None` here. */
  function MidiToNoteName(midi: int): Option<string> {
    var i := KRem(midi, 12);
    if 0 <= i < 12 then Some(Names[i] + IntToString(KDiv(midi, 12) - 1)) else None
  }

  /** The name of a MIDI number from 0 to 127 (the integer part of
      `pitchToNote`). */
  function NoteName(m: int): string
    requires 0 <= m <= 127
  {
    Names[m % 12] + IntToString(m / 12 - 1)
  }

  /** For every non-negative number the name is the pitch class followed by
      the octave, counting from -1; a negative number is named only when it
      is a multiple of 12. */
  lemma MidiToNoteNameShape(midi: int)
    ensures midi >= 0 ==> MidiToNoteName(midi) == Some(Names[midi % 12] + IntToString(midi / 12 - 1))
    ensures 0 <= midi <= 127 ==> MidiToNoteName(midi) == Some(NoteName(midi))
    ensures midi < 0 ==> (MidiToNoteName(midi).Some? <==> midi % 12 == 0)
  {
    KDivRem(midi, 12);
    if midi < 0 {
      assert KRem(midi, 12) == 0 <==> (-midi) % 12 == 0;
      assert (-midi) % 12 == 0 <==> midi % 12 == 0 by {
        if (-midi) % 12 == 0 {
          assert midi == -((-midi) / 12) * 12;
        }
        if midi % 12 == 0 {
          assert -midi == -(midi / 12) * 12;
        }
      }
    }
  }

  /** The pitch class repeats every octave and the octave number counts
      octaves: a number and the one twelve above share a pitch class, and the
      octave goes up by one. */
  lemma NoteNameOctave(m: int)
    requires 0 <= m <= 115
    ensures (m + 12) % 12 == m % 12 && (m + 12) / 12 - 1 == (m / 12 - 1) + 1
    ensures NoteName(m + 12) == Names[m % 12] + IntToString(m / 12)
  {
  }

  /** Middle C: 60 is `C4`, and 69 (A 440 Hz) is `A4`. */
  lemma MiddleC()
    ensures MidiToNoteName(60) == Some("C4")
    ensures NoteName(60) == "C4" && NoteName(69) == "A4"
  {
    assert IntToString(4) == "4";
    assert KRem(60, 12) == 0 && KDiv(60, 12) == 5;
    assert Names[0] + "4" == "C4";
  }

  /** `pitchToNote`: `-` for a frequency that is not positive or a rounded
      MIDI number outside 0..127, the note name otherwise.  The rounding of
      `12 * log2(f / 440) + 69` is floating point; the rounded number is the
      argument `midi`. */
  function PitchToNote(frequency: real, midi: int): string {
    if frequency <= 0.0 then "-"
    else if midi < 0 || midi > 127 then "-"
    else NoteName(midi)
  }

  /** The name is `-` exactly when the frequency is not positive or the
      number is out of range; otherwise it starts with one of the twelve
      names and ends with the octave from -1 to 9. */
  lemma PitchToNoteShape(frequency: real, midi: int)
    ensures PitchToNote(frequency, midi) == "-" <==> frequency <= 0.0 || midi < 0 || midi > 127
    ensures frequency > 0.0 && 0 <= midi <= 127 ==>
              var i := midi % 12;
              var octave := midi / 12 - 1;
              && 0 <= i < 12 && -1 <= octave <= 9
              && PitchToNote(frequency, midi) == Names[i] + IntToString(octave)
  {
    if frequency > 0.0 && 0 <= midi <= 127 {
      assert |Names[midi % 12] + IntToString(midi / 12 - 1)| >= 2;
    }
  }
}
