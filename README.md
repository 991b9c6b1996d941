# Yellow — a verified model of the song search, catalog and pitch core

Yellow is an Android app for singing practice. You search a song by title.
The app pairs the song's melody file with its MIDI file, both stored in
Cloudflare R2 buckets, and keeps favourites with a key offset. While you
sing, a piano roll shows the pitch. Three Cloudflare workers stand in
front of the buckets:

- the search worker, `/search`;
- the catalog worker, `/catalog` in `index.ts`;
- an older catalog worker, `worker.js`.

This project models that core in Dafny and proves properties of it:

- `song.dfy`: the song record and its id, the lower-case hex of the
  SHA-1 digest of `melodyUrl|midiUrl`.
- `search.dfy`: the on-device search. It parses the worker's matches,
  derives titles from keys and normalises them. It computes the
  Levenshtein distance with the one-row loop of the source, the
  similarity and the query/title score. It pairs each melody with its
  first most similar MIDI file, then removes duplicates, ranks and
  truncates.
- `search_worker.dfy`, `catalog_worker.dfy`, `songs_worker.dfy`: the three
  workers' request handling, key-to-title rules, URL joining, limits and
  bucket joins. `http.dfy`, `jsstring.dfy` and `uri.dfy` hold the parts
  of `URLSearchParams`, `trim`, `parseInt` and `encodeURIComponent` the
  workers use.
- `catalog.dfy`: the app's catalog client.
- `favorites.dfy`: the favourites store, a JSON array kept in
  preferences. It is a class whose methods load, change and write back
  the stored list.
- `song_adapter.dfy`, `song_items.dfy`, `search_screen.dfy`,
  `library_screen.dfy`: the list adapter and the two screens that fill
  it. Each screen is a class with the state its callbacks change.
- `voice_pitch.dfy`: the autocorrelation pitch estimate.
- `notes.dfy`: note names, with Kotlin's truncating `/` and `%`.
- `pitch_screen.dfy`: the recorder screen's state machine.
- `piano_roll.dfy`: the piano roll's state.
- `onset.dfy`: the onset detector's decision logic. This covers the noise
  floor from a percentile, the required level, the hit window, and the
  ring buffer of hit flags, which stays an `array`.
- `fft.dfy`: the bit-reversal permutation that opens the detector's FFT,
  done in place on two arrays.

External services are parameters of the model:

- HTTP and the two R2 listings;
- the JSON parser;
- SharedPreferences;
- SHA-1;
- the collation behind `localeCompare`;
- `shuffled()`;
- the floating-point feature extractors.

Kotlin `Double` values are modelled as `real`.

`seqs.dfy` and `sorting.dfy` state shared loop shapes once:

- filter-and-map;
- a map where a later key overwrites an earlier one;
- a stable insertion sort over a total preorder.

`text.dfy`, `utf8.dfy` and `wrappers.dfy` hold string helpers, UTF-8
encoding and `Option`/`Result`.

Source paths below are relative to the repository root.

## Model

| member | source | states |
|---|---|---|
| SongModel.HexByte | app/src/main/java/com/example/yellow/data/Song.kt:16 | `%02x` of a byte is exactly two lower-case hex digits |
| SongModel.Hex | app/src/main/java/com/example/yellow/data/Song.kt:16 | the joined rendering has two characters per byte, all lower-case hex digits |
| SongModel.UnhexHex | app/src/main/java/com/example/yellow/data/Song.kt:16 | decoding the hex rendering gives back the digest bytes |
| SongModel.HexInjective | app/src/main/java/com/example/yellow/data/Song.kt:16 | different digests never render to the same hex text |
| SongModel.MakeIdShape | app/src/main/java/com/example/yellow/data/Song.kt:13-17 | the id is lower-case hex, twice as long as the digest, and decodes to SHA-1 of the UTF-8 bytes of `melodyUrl|midiUrl` |
| SongModel.MakeIdDigest | app/src/main/java/com/example/yellow/data/Song.kt:13-17 | two ids are equal exactly when the digests of their `melodyUrl|midiUrl` texts are equal |
| SongSearch.KeptShape | app/src/main/java/com/example/yellow/data/SongSearchRepository.kt:73-77 | a match is kept exactly for object entries whose url and key (default "") are both non-blank, in order |
| SongSearch.ParseMatches | app/src/main/java/com/example/yellow/data/SongSearchRepository.kt:69-80 | the parsing loop returns exactly the kept matches, and none when `matches` is missing |
| SongSearch.TitleOfPathKey | app/src/main/java/com/example/yellow/data/SongSearchRepository.kt:82-85 | for `dir/name.ext` with a non-blank, slash-free name and a dot-free extension the title is `name` |
| SongSearch.TitleFromKeyShape | app/src/main/java/com/example/yellow/data/SongSearchRepository.kt:82-85 | the title is either the whole key or a slash-free, non-blank text |
| SongSearch.DropSpaces | app/src/main/java/com/example/yellow/data/SongSearchRepository.kt:106 | exactly the non-white-space characters survive, none added, and text without white space is unchanged |
| SongSearch.KeepAllowed | app/src/main/java/com/example/yellow/data/SongSearchRepository.kt:107 | exactly the ASCII letters, digits and Hangul syllables survive, none added, and text made only of them is unchanged |
| SongSearch.DropSpacesAppend | app/src/main/java/com/example/yellow/data/SongSearchRepository.kt:106 | removing white space commutes with concatenation, so the survivors keep their order |
| SongSearch.KeepAllowedAppend | app/src/main/java/com/example/yellow/data/SongSearchRepository.kt:107 | keeping the allowed characters commutes with concatenation, so the survivors keep their order |
| SongSearch.NormalizeAppend | app/src/main/java/com/example/yellow/data/SongSearchRepository.kt:104-107 | the normal form of a text is the normal forms of its parts, and one character is kept, lower-cased, exactly when its lower-case form is allowed |
| SongSearch.NormalizeShape | app/src/main/java/com/example/yellow/data/SongSearchRepository.kt:104-107 | a normalised title holds only digits, lower-case letters and Hangul; normalising twice changes nothing; dropping white space first makes no difference |
| SongSearch.EditDistanceBound | app/src/main/java/com/example/yellow/data/SongSearchRepository.kt:144-157 | the distance between two prefixes is at most the longer prefix's length |
| SongSearch.EditDistanceZero | app/src/main/java/com/example/yellow/data/SongSearchRepository.kt:144-157 | a zero distance means the two prefixes have the same length and are equal |
| SongSearch.EditDistanceSelf | app/src/main/java/com/example/yellow/data/SongSearchRepository.kt:144-157 | a string is at distance zero from itself |
| SongSearch.DistanceZeroIffEqual | app/src/main/java/com/example/yellow/data/SongSearchRepository.kt:144-157 | the distance to the empty string is the length, and the distance is zero exactly for equal strings |
| SongSearch.EditDistanceCell | app/src/main/java/com/example/yellow/data/SongSearchRepository.kt:151-152 | each table cell is the minimum of deletion, insertion and substitution from its three neighbours |
| SongSearch.Cell | app/src/main/java/com/example/yellow/data/SongSearchRepository.kt:150-153 | one inner step writes the recurrence's value for that cell |
| SongSearch.NextRow | app/src/main/java/com/example/yellow/data/SongSearchRepository.kt:147-154 | one outer step turns the row for `i-1` into the row of distances for `i` |
| SongSearch.Levenshtein | app/src/main/java/com/example/yellow/data/SongSearchRepository.kt:144-157 | the one-row dynamic program returns the edit distance of the two strings |
| SongSearch.RatioBounds | app/src/main/java/com/example/yellow/data/SongSearchRepository.kt:139-141 | a distance no larger than the longer length gives a ratio in [0, 1], 0 exactly for distance 0 |
| SongSearch.SimilarityBounds | app/src/main/java/com/example/yellow/data/SongSearchRepository.kt:136-142 | similarity is in [0, 1], is 1 exactly for equal strings, and is 0 when exactly one side is empty |
| SongSearch.SimilarityOf | app/src/main/java/com/example/yellow/data/SongSearchRepository.kt:136-142 | the computed similarity is the specified one, with the distance from the loop |
| SongSearch.CoverageBounds | app/src/main/java/com/example/yellow/data/SongSearchRepository.kt:124-127 | a query shorter than the title covers a fraction strictly between 0 and 1 |
| SongSearch.QueryTitleScoreBands | app/src/main/java/com/example/yellow/data/SongSearchRepository.kt:114-134 | 0 with an empty side, 1 for equal strings, in [0.7, 1) for a proper prefix, in [0.6, 0.9) when contained elsewhere, otherwise the similarity and below 1; always in [0, 1] |
| SongSearch.QueryTitleScoreOf | app/src/main/java/com/example/yellow/data/SongSearchRepository.kt:114-134 | the computed score is the specified one |
| SongSearch.SimsTo | app/src/main/java/com/example/yellow/data/SongSearchRepository.kt:36-38 | one similarity per MIDI match, against that match's normalised title |
| SongSearch.SimsToBounds | app/src/main/java/com/example/yellow/data/SongSearchRepository.kt:36-38 | every similarity lies in [0, 1] |
| SongSearch.FirstMaxIsFirstMaximum | app/src/main/java/com/example/yellow/data/SongSearchRepository.kt:34-43 | the strict `>` scan starting at -1 picks the first position of the maximum, or nothing for an empty list |
| SongSearch.FirstMaxSnoc | app/src/main/java/com/example/yellow/data/SongSearchRepository.kt:39-42 | one more element replaces the best only when strictly greater |
| SongSearch.SimToOf | app/src/main/java/com/example/yellow/data/SongSearchRepository.kt:37-38 | the loop's similarity is the specified one |
| SongSearch.BestMatch | app/src/main/java/com/example/yellow/data/SongSearchRepository.kt:34-43 | the inner loop yields the first most similar MIDI match and its similarity |
| SongSearch.CandidateForShape | app/src/main/java/com/example/yellow/data/SongSearchRepository.kt:44-60 | a candidate has the melody's title and URL and the query as query title. Its MIDI is the first most similar one, with similarity at least 0.3. Its id is `makeId` of the two URLs and its score is in [0.075, 1] |
| SongSearch.PairWithShape | app/src/main/java/com/example/yellow/data/SongSearchRepository.kt:44-60 | a pair exists only with a best match of similarity at least 0.3, and it is built from exactly those fields |
| SongSearch.CandidateOrigin | app/src/main/java/com/example/yellow/data/SongSearchRepository.kt:30-61 | every collected candidate is the pairing of one of the melody matches |
| SongSearch.DistinctFrom | app/src/main/java/com/example/yellow/data/SongSearchRepository.kt:64 | `distinctBy { id }` keeps only input elements, with ids all different |
| SongSearch.DistinctFromKeepsFirst | app/src/main/java/com/example/yellow/data/SongSearchRepository.kt:64 | the first element with each id is kept |
| SongSearch.ScoreOrder | app/src/main/java/com/example/yellow/data/SongSearchRepository.kt:65 | ordering by descending score is a total preorder |
| SongSearch.PairMelody | app/src/main/java/com/example/yellow/data/SongSearchRepository.kt:31-60 | the body of the outer loop yields the candidate specified for that melody |
| SongSearch.PairStep | app/src/main/java/com/example/yellow/data/SongSearchRepository.kt:44-60 | the part after the inner loop applies the 0.3 cut, the 0.75/0.25 weighting and `makeId` |
| SongSearch.PairAll | app/src/main/java/com/example/yellow/data/SongSearchRepository.kt:29-61 | the outer loop collects the candidates of all melody matches in order |
| SongSearch.Search | app/src/main/java/com/example/yellow/data/SongSearchRepository.kt:14-67 | `search` returns the specified ranked result for the query and the two fetched documents |
| SongSearch.SearchTrimmed | app/src/main/java/com/example/yellow/data/SongSearchRepository.kt:22-67 | for a trimmed non-blank query the method returns the specified result |
| SongSearch.RankedShape | app/src/main/java/com/example/yellow/data/SongSearchRepository.kt:63-66 | exactly min(30, n) results, where n counts the collected candidates after `distinctBy` on the id; ids all different; scores non-increasing; each result one of those candidates; no candidate left out scores above one kept; candidates of equal score keep their collected order |
| SongSearch.RankedBest | app/src/main/java/com/example/yellow/data/SongSearchRepository.kt:63-66 | no distinct-id candidate left out of the 30 scores above one that is kept |
| SongSearch.RankedStable | app/src/main/java/com/example/yellow/data/SongSearchRepository.kt:63-66 | among candidates of equal score, the ranking keeps a prefix of them in their collected order |
| SongSearch.RankedOrigin | app/src/main/java/com/example/yellow/data/SongSearchRepository.kt:29-66 | every ranked result is one melody's candidate |
| SongSearch.SearchShape | app/src/main/java/com/example/yellow/data/SongSearchRepository.kt:14-67 | empty for a blank query or an empty match list on either side. Otherwise at most 30 results with distinct ids in non-increasing score, each the candidate of one of the first 50 melodies against the first 80 MIDI matches; exactly min(30, n) of the n distinct-id candidates, none of the others scoring above one kept, equal scores in collected order |
| NoteNames.KDivRem | app/src/main/java/com/example/yellow/PianoRollView.kt:26-30 | Kotlin's truncating `/` and `%` satisfy `a == (a/b)*b + a%b` with the remainder taking the dividend's sign |
| NoteNames.MidiToNoteNameShape | app/src/main/java/com/example/yellow/PianoRollView.kt:26-30 | a non-negative MIDI number names `Names[m % 12]` with octave `m/12 - 1`; a negative one has a name only when its remainder is 0 |
| NoteNames.NoteNameOctave | app/src/main/java/com/example/yellow/PianoRollView.kt:26-30 | twelve semitones up is the same name, one octave higher |
| NoteNames.MiddleC | app/src/main/java/com/example/yellow/PianoRollView.kt:26-30 | MIDI 60 is `C4` and MIDI 69 is `A4` |
| NoteNames.PitchToNoteShape | app/src/main/java/com/example/yellow/ui/home/HomeFragment.kt:121-130 | the note is `-` exactly when the frequency is not positive or the MIDI number is outside 0..127; otherwise it is the name of that number, with an octave in -1..9 |
| PianoRoll.MinNote | app/src/main/java/com/example/yellow/PianoRollView.kt:84-92 | the lowest pitch is one of the notes' pitches and bounds every pitch from below |
| PianoRoll.MaxNote | app/src/main/java/com/example/yellow/PianoRollView.kt:84-92 | the highest pitch is one of the notes' pitches and bounds every pitch from above |
| PianoRoll.MaxEnd | app/src/main/java/com/example/yellow/PianoRollView.kt:84-92 | the latest end is one of the notes' ends and bounds every end |
| PianoRoll.ComputedRangeCovers | app/src/main/java/com/example/yellow/PianoRollView.kt:84-92 | the padded range lies within 0..83 and covers every note whose pitch is in 0..83 |
| PianoRoll.StartsNoLaterIsTotalPreorder | app/src/main/java/com/example/yellow/PianoRollView.kt:82 | ordering by start time is a total preorder |
| Sorting.SortByStable | app/src/main/java/com/example/yellow/PianoRollView.kt:82 | the sort is stable: for every element, the elements ranked equal to it appear in the same order in the result as in the input |
| Sorting.SortedPrefixDominates | app/src/main/java/com/example/yellow/data/SongSearchRepository.kt:65-66 | a prefix taken from a sorted rearrangement holds the best elements: every element left out ranks no earlier than every element kept |
| PianoRoll.SortedByStart | app/src/main/java/com/example/yellow/PianoRollView.kt:82 | the stored notes are a permutation of the given ones, ordered by start time, and notes with the same start time keep their given order |
| PianoRoll.PianoRollView.constructor | app/src/main/java/com/example/yellow/PianoRollView.kt:32-45 | a new view shows pitches 48..72 over 10000 ms with no notes and no live trace |
| PianoRoll.PianoRollView.SetNotes | app/src/main/java/com/example/yellow/PianoRollView.kt:76-104 | notes sorted by start. A non-empty list sets the pitch range (fixed bounds win) and the timeline to the latest end. An empty list keeps the range and uses the default length. The live trace is cleared on request |
| PianoRoll.PianoRollView.SetNotesDefault | app/src/main/java/com/example/yellow/PianoRollView.kt:71-73 | the one-argument form resets the live trace |
| PianoRoll.PianoRollView.AddLivePitchAt | app/src/main/java/com/example/yellow/PianoRollView.kt:148-158 | appends one point; the timeline becomes the maximum of the old length and `t + 2000` |
| PianoRoll.PianoRollView.ClearLivePitches | app/src/main/java/com/example/yellow/PianoRollView.kt:160-163 | empties the live trace and changes nothing else |
| PitchScreen.RecorderScreen.constructor | app/src/main/java/com/example/yellow/ui/home/HomeFragment.kt:30-33 | not recording, with the layout's initial texts |
| PitchScreen.RecorderScreen.StartRecording | app/src/main/java/com/example/yellow/ui/home/HomeFragment.kt:55-73 | without the permission it only requests it; with it, it starts recording and shows the stop label |
| PitchScreen.RecorderScreen.StopRecording | app/src/main/java/com/example/yellow/ui/home/HomeFragment.kt:75-89 | stops recording, shows the start label and resets the pitch and note texts |
| PitchScreen.RecorderScreen.Click | app/src/main/java/com/example/yellow/ui/home/HomeFragment.kt:46-52 | a click while the audio runs stops it; with the permission held a click turns the audio on or off; the screen stays consistent |
| PitchScreen.RecorderScreen.HandlePitch | app/src/main/java/com/example/yellow/ui/home/HomeFragment.kt:113-119 | a detected pitch shows its text in Hz and its note name; no pitch leaves the texts; nothing else changes |
| PitchScreen.RecorderScreen.OnRequestPermissionsResult | app/src/main/java/com/example/yellow/ui/home/HomeFragment.kt:132-145 | a granted answer to the app's request code starts recording, a denied one shows the need-permission text, and another request code changes nothing |
| PitchScreen.RecorderScreen.OnDestroy | app/src/main/java/com/example/yellow/ui/home/HomeFragment.kt:147-151 | tearing down stops recording |
| VoicePitch.ComputeAutoCorrelation | app/src/main/java/com/example/yellow/VoicePitchDetector.kt:53-61 | the array written holds, at every lag, the sum of products of samples that lag apart |
| VoicePitch.EnergyNonNegative | app/src/main/java/com/example/yellow/VoicePitchDetector.kt:53-61 | the lag-0 correlation is a sum of squares, never negative |
| VoicePitch.DescentEnd | app/src/main/java/com/example/yellow/VoicePitchDetector.kt:63-66 | the descent stops at the first lag where the correlation does not fall, or at the last lag |
| VoicePitch.Descend | app/src/main/java/com/example/yellow/VoicePitchDetector.kt:63-66 | the descent loop stops at that lag |
| VoicePitch.PeakFromShape | app/src/main/java/com/example/yellow/VoicePitchDetector.kt:68-74 | the chosen lag lies at or after the descent end and inside the buffer. It is the descent end or a strict local maximum. It is at least every later strict local maximum and strictly above every earlier one |
| VoicePitch.PeakLagShape | app/src/main/java/com/example/yellow/VoicePitchDetector.kt:63-74 | the peak lag is that choice made from the descent end |
| VoicePitch.Frequency | app/src/main/java/com/example/yellow/VoicePitchDetector.kt:76-77 | 0 for a non-positive lag; otherwise positive, and frequency times lag is the sample rate |
| VoicePitch.StrongestPeak | app/src/main/java/com/example/yellow/VoicePitchDetector.kt:68-74 | the peak loop yields the specified lag |
| VoicePitch.FindFundamentalFrequency | app/src/main/java/com/example/yellow/VoicePitchDetector.kt:50-78 | the result is 44100 divided by the peak lag of the buffer's autocorrelation, and 0.0 exactly when that lag is 0 |
| OnsetDetector.Round | app/src/main/java/com/example/yellow/Mp3OnsetDetector.kt:127 | `roundToInt` gives the integer within one half, rounding halves up |
| OnsetDetector.Ceil | app/src/main/java/com/example/yellow/Mp3OnsetDetector.kt:128 | `ceil` gives the least integer not below the value |
| OnsetDetector.Truncate | app/src/main/java/com/example/yellow/Mp3OnsetDetector.kt:96 | `toInt` truncates toward zero |
| OnsetDetector.OffsetIsProduct | app/src/main/java/com/example/yellow/Mp3OnsetDetector.kt:137-197 | after `k` hops the frame offset is `k * hop` |
| OnsetDetector.FrameCountSpec | app/src/main/java/com/example/yellow/Mp3OnsetDetector.kt:101 | frame `k` is scanned exactly when it fits below the limit |
| OnsetDetector.SortReals | app/src/main/java/com/example/yellow/Mp3OnsetDetector.kt:523 | `sorted()` yields an ascending permutation of the values |
| OnsetDetector.PercentileIndex | app/src/main/java/com/example/yellow/Mp3OnsetDetector.kt:524 | the rounded, clamped index lies inside the list |
| OnsetDetector.Percentile | app/src/main/java/com/example/yellow/Mp3OnsetDetector.kt:521-526 | -120 for no values, otherwise one of the values |
| OnsetDetector.PercentileMonotone | app/src/main/java/com/example/yellow/Mp3OnsetDetector.kt:521-526 | a higher percentile is never lower |
| OnsetDetector.PercentileExtremes | app/src/main/java/com/example/yellow/Mp3OnsetDetector.kt:521-526 | the 0th and 100th percentiles bound every value |
| OnsetDetector.LeadInDbs | app/src/main/java/com/example/yellow/Mp3OnsetDetector.kt:101-105 | one level per lead-in frame |
| OnsetDetector.NoiseDbs | app/src/main/java/com/example/yellow/Mp3OnsetDetector.kt:108 | the noise candidates are at most one per frame and are lead-in levels |
| OnsetDetector.NoiseFloorIsLeadInLevel | app/src/main/java/com/example/yellow/Mp3OnsetDetector.kt:113-117 | the noise floor is -120 when the lead-in has no frame, otherwise one of its frame levels |
| OnsetDetector.ScanLeadIn | app/src/main/java/com/example/yellow/Mp3OnsetDetector.kt:96-111 | the lead-in loop collects exactly the specified level lists |
| OnsetDetector.EstimateNoiseFloor | app/src/main/java/com/example/yellow/Mp3OnsetDetector.kt:96-117 | the estimate is the specified noise floor |
| OnsetDetector.RequiredDb | app/src/main/java/com/example/yellow/Mp3OnsetDetector.kt:119 | the required level is at least the absolute threshold and the floor plus the margin, and equals one of them |
| OnsetDetector.WindowFrames | app/src/main/java/com/example/yellow/Mp3OnsetDetector.kt:126-127 | the window length is at least 1, and above 1 it is the rounded hit time over the hop time |
| OnsetDetector.NeedHits | app/src/main/java/com/example/yellow/Mp3OnsetDetector.kt:128 | the quota is at least 1, is the ceiling of window times ratio when above 1, and fits in the window for a ratio in [0, 1] |
| OnsetDetector.DefaultWindowAt44k | app/src/main/java/com/example/yellow/Mp3OnsetDetector.kt:126-128 | with the shipped tunables at 44.1 kHz the window is 10 frames and the quota 7 |
| OnsetDetector.Hits | app/src/main/java/com/example/yellow/Mp3OnsetDetector.kt:151-166 | one hit flag per frame |
| OnsetDetector.HitsPrefix | app/src/main/java/com/example/yellow/Mp3OnsetDetector.kt:137-198 | the flags of fewer frames are a prefix of the flags of more |
| OnsetDetector.HitsIndex | app/src/main/java/com/example/yellow/Mp3OnsetDetector.kt:151-166 | flag `k` is the hit test of frame `k` |
| OnsetDetector.QuietFramesMissed | app/src/main/java/com/example/yellow/Mp3OnsetDetector.kt:151 | a frame below the required level is never a hit |
| OnsetDetector.CountTrueUpdate | app/src/main/java/com/example/yellow/Mp3OnsetDetector.kt:182-185 | overwriting one cell changes the count by the new flag minus the old one |
| OnsetDetector.SlotAdvance | app/src/main/java/com/example/yellow/Mp3OnsetDetector.kt:186 | advancing the ring index wraps around the window |
| OnsetDetector.SlotDistinct | app/src/main/java/com/example/yellow/Mp3OnsetDetector.kt:186 | frames less than a window apart use different cells |
| OnsetDetector.RingCells | app/src/main/java/com/example/yellow/Mp3OnsetDetector.kt:130-186 | every cell holds the flag of the latest frame that used it, and unused cells are false |
| OnsetDetector.WindowStep | app/src/main/java/com/example/yellow/Mp3OnsetDetector.kt:182-185 | one frame more adds the new flag and drops the one leaving the window |
| OnsetDetector.RingStep | app/src/main/java/com/example/yellow/Mp3OnsetDetector.kt:182-185 | the ring's count changes the same way |
| OnsetDetector.RingCount | app/src/main/java/com/example/yellow/Mp3OnsetDetector.kt:130-186 | the ring holds as many hits as the last window of frames |
| OnsetDetector.RingInvariant | app/src/main/java/com/example/yellow/Mp3OnsetDetector.kt:130-186 | `hitCount` is the hits in the last window, lies in 0..window, and the index stays in the ring |
| OnsetDetector.FirstQuotaFrom | app/src/main/java/com/example/yellow/Mp3OnsetDetector.kt:188 | the first frame from a start whose window meets the quota, or none |
| OnsetDetector.FirstQuotaOfPrefix | app/src/main/java/com/example/yellow/Mp3OnsetDetector.kt:188-193 | a quota first met at the end of a prefix is the first quota of the whole scan |
| OnsetDetector.RingPush | app/src/main/java/com/example/yellow/Mp3OnsetDetector.kt:182-186 | writing the flag and advancing gives the ring of one more frame, with the updated count |
| OnsetDetector.NoQuotaExtends | app/src/main/java/com/example/yellow/Mp3OnsetDetector.kt:188 | a frame that does not meet the quota keeps "no quota yet" |
| OnsetDetector.OutcomeIffQuota | app/src/main/java/com/example/yellow/Mp3OnsetDetector.kt:188-201 | an onset is reported exactly when some window meets the quota. Its time is the first such frame's offset minus `(window-1)` hops, over the sample rate, with reason `window_hit_ratio`; otherwise the reason is "no onset within" |
| OnsetDetector.EarlyQuotaGivesNegativeOnset | app/src/main/java/com/example/yellow/Mp3OnsetDetector.kt:189-190 | a quota met before the window has filled reports a negative onset time |
| OnsetDetector.OutcomeWithoutQuota | app/src/main/java/com/example/yellow/Mp3OnsetDetector.kt:188-201 | with no hits, or a quota above the window, there is no onset |
| OnsetDetector.MeasureFrame | app/src/main/java/com/example/yellow/Mp3OnsetDetector.kt:139-166 | a frame's measurements and hit test are the specified ones |
| OnsetDetector.OutcomeAt | app/src/main/java/com/example/yellow/Mp3OnsetDetector.kt:188-192 | the result for a first quota at frame `k` |
| OnsetDetector.OutcomeNone | app/src/main/java/com/example/yellow/Mp3OnsetDetector.kt:200-201 | the result when no window meets the quota |
| OnsetDetector.PushHit | app/src/main/java/com/example/yellow/Mp3OnsetDetector.kt:182-186 | the ring update on the array gives the ring, index and count of one more frame |
| OnsetDetector.FrameStep | app/src/main/java/com/example/yellow/Mp3OnsetDetector.kt:139-197 | one iteration measures the frame, updates the ring, and tells whether the quota is met |
| OnsetDetector.ScanFrames | app/src/main/java/com/example/yellow/Mp3OnsetDetector.kt:130-201 | the scan loop returns the outcome of the frames' hit flags |
| OnsetDetector.Analyze | app/src/main/java/com/example/yellow/Mp3OnsetDetector.kt:76-202 | `analyze` returns the specified result for the decoded samples, or the exception `fftRadix2` throws for a frame size that is not a power of two |
| OnsetDetector.AnalyzeOutcome | app/src/main/java/com/example/yellow/Mp3OnsetDetector.kt:79-119 | a failed decode and an empty decode have the fixed results; the exception comes exactly for a non-power-of-two frame size that fits in the samples; the required level is at least the absolute threshold and the floor plus the margin |
| OnsetDetector.AnalyzeError | app/src/main/java/com/example/yellow/Mp3OnsetDetector.kt:471-472 | the result is the "FFT size must be power of 2" error exactly when the samples are non-empty, a frame fits and the frame size is not a power of two |
| OnsetDetector.AnalyzeLevels | app/src/main/java/com/example/yellow/Mp3OnsetDetector.kt:113-119 | once frames are measured, the result reports the estimated noise floor and, as the required level, the larger of the absolute threshold and the floor plus the margin |
| OnsetDetector.QuietTrackHasNoOnset | app/src/main/java/com/example/yellow/Mp3OnsetDetector.kt:151-201 | a track whose frames are all below the required level has a result without an onset |
| FftBitReversal.PowerOfTwoTest | app/src/main/java/com/example/yellow/Mp3OnsetDetector.kt:472 | for `n >= 1`, `n and (n - 1) == 0` holds exactly for powers of two |
| FftBitReversal.SingleBit | app/src/main/java/com/example/yellow/Mp3OnsetDetector.kt:477-482 | below twice a bit, `j and bit` is set exactly when `j >= bit`, and `j xor bit` subtracts or adds that bit |
| FftBitReversal.RevBound | app/src/main/java/com/example/yellow/Mp3OnsetDetector.kt:475-487 | the reversed index stays below `n` |
| FftBitReversal.RevIsReversedBits | app/src/main/java/com/example/yellow/Mp3OnsetDetector.kt:475-487 | the reversed index is the index's bits in reverse order |
| FftBitReversal.RevInvolution | app/src/main/java/com/example/yellow/Mp3OnsetDetector.kt:475-487 | reversing bits twice gives back the index |
| FftBitReversal.RevIncIsSucc | app/src/main/java/com/example/yellow/Mp3OnsetDetector.kt:477-482 | the xor walk turns the reversal of `i-1` into the reversal of `i` |
| FftBitReversal.ReversedIncrement | app/src/main/java/com/example/yellow/Mp3OnsetDetector.kt:477-482 | the inner while loop with the final xor computes the carry walk that turns one reversed index into the next |
| FftBitReversal.PermutedStart | app/src/main/java/com/example/yellow/Mp3OnsetDetector.kt:475 | index 0 never swaps, so before the loop the arrays are unchanged |
| FftBitReversal.PermutedEnd | app/src/main/java/com/example/yellow/Mp3OnsetDetector.kt:487 | after the last index, every position holds its reversed partner |
| FftBitReversal.PermutedStep | app/src/main/java/com/example/yellow/Mp3OnsetDetector.kt:483-486 | swapping when `i < j` adds the pair `i`, `j` to the permuted part |
| FftBitReversal.Visit | app/src/main/java/com/example/yellow/Mp3OnsetDetector.kt:483-486 | one visit swaps both arrays at `i` and `j` only when `i < j` |
| FftBitReversal.BitReverse | app/src/main/java/com/example/yellow/Mp3OnsetDetector.kt:470-487 | accepted exactly for 0 and powers of two. A rejected size leaves the arrays untouched. Otherwise both arrays end with position `p` holding the old value at the reversed index of `p` |
| FftBitReversal.ReverseAll | app/src/main/java/com/example/yellow/Mp3OnsetDetector.kt:475-487 | the loop over all indices performs that permutation |
| FftBitReversal.BitReversalInvolution | app/src/main/java/com/example/yellow/Mp3OnsetDetector.kt:475-487 | the bit-reversal index map `Rev` at `log2 n` bits is its own inverse on every index below `n`, so the swap loop pairs each index with exactly one partner |
| FftBitReversal.EightPoints | app/src/main/java/com/example/yellow/Mp3OnsetDetector.kt:475-487 | for eight points 1 and 4 swap, 3 and 6 swap, and 7 stays |
| Favorites.Entries | app/src/main/java/com/example/yellow/data/FavoritesStore.kt:16-41 | loading yields at most one entry per stored value, each with a non-blank title and URLs |
| Favorites.LoadSave | app/src/main/java/com/example/yellow/data/FavoritesStore.kt:16-106 | loading what was saved gives back the entries that pass the load filter |
| Favorites.FilterLoadableOfLoadable | app/src/main/java/com/example/yellow/data/FavoritesStore.kt:31 | filtering an already loaded list changes nothing |
| Favorites.LoadSaveLoadable | app/src/main/java/com/example/yellow/data/FavoritesStore.kt:16-106 | a loaded list round-trips unchanged through save and load |
| Favorites.IndexOfId | app/src/main/java/com/example/yellow/data/FavoritesStore.kt:71 | the first position with the id, or -1 exactly when none has it |
| Favorites.WithoutId | app/src/main/java/com/example/yellow/data/FavoritesStore.kt:87 | `filterNot` keeps exactly the entries with another id |
| Favorites.WithoutIdAppend | app/src/main/java/com/example/yellow/data/FavoritesStore.kt:87 | removal distributes over concatenation |
| Favorites.WithoutIdOfAbsent | app/src/main/java/com/example/yellow/data/FavoritesStore.kt:87 | removing an absent id changes nothing |
| Favorites.RemoveAt | app/src/main/java/com/example/yellow/data/FavoritesStore.kt:73-75 | `removeAt` drops exactly that position |
| Favorites.RemoveOnlyMatch | app/src/main/java/com/example/yellow/data/FavoritesStore.kt:73-75 | with distinct ids, dropping the matching position leaves no entry with the id, distinct ids, and no new entry |
| Favorites.ToggleReportsState | app/src/main/java/com/example/yellow/data/FavoritesStore.kt:69-84 | toggle reports true exactly when the song was not a favourite. Afterwards the list has the id exactly when it reports true, ids stay distinct, and the list round-trips through save and load |
| Favorites.AddFirst | app/src/main/java/com/example/yellow/data/FavoritesStore.kt:77-78 | an entry with a new id put first keeps ids distinct and every entry loadable |
| Favorites.ToggleTwice | app/src/main/java/com/example/yellow/data/FavoritesStore.kt:69-84 | toggling an absent song twice restores the list |
| Favorites.WithKeyOffsetEffect | app/src/main/java/com/example/yellow/data/FavoritesStore.kt:56-63 | for a present id the songs stay the same, that id's offset becomes the new one, and every other id's offset is unchanged |
| Favorites.FavoritesStore.constructor | app/src/main/java/com/example/yellow/data/FavoritesStore.kt:18 | a new store holds no records |
| Favorites.FavoritesStore.GetAllEntries | app/src/main/java/com/example/yellow/data/FavoritesStore.kt:16-41 | returns the loaded entries and leaves the store unchanged |
| Favorites.FavoritesStore.GetAll | app/src/main/java/com/example/yellow/data/FavoritesStore.kt:43 | the songs of the loaded entries |
| Favorites.FavoritesStore.IsFavorite | app/src/main/java/com/example/yellow/data/FavoritesStore.kt:45-47 | true exactly when a loaded entry has the id |
| Favorites.FavoritesStore.GetKeyOffset | app/src/main/java/com/example/yellow/data/FavoritesStore.kt:49-51 | the first such entry's offset, or 0 |
| Favorites.FavoritesStore.SetKeyOffset | app/src/main/java/com/example/yellow/data/FavoritesStore.kt:56-63 | stores the list with that offset changed, or leaves the store untouched for an absent id |
| Favorites.FavoritesStore.Toggle | app/src/main/java/com/example/yellow/data/FavoritesStore.kt:69-84 | stores the saved toggled list and returns whether the song is now a favourite |
| Favorites.FavoritesStore.Remove | app/src/main/java/com/example/yellow/data/FavoritesStore.kt:86-89 | stores the list without the id |
| Favorites.FavoritesStore.SaveEntries | app/src/main/java/com/example/yellow/data/FavoritesStore.kt:91-106 | the stored text is the saved form of the list |
| Favorites.StoreStaysClean | app/src/main/java/com/example/yellow/data/FavoritesStore.kt:56-106 | after a toggle the stored text loads back to exactly the toggled list, with ids still distinct |
| SongCatalog.TrimEndChar | app/src/main/java/com/example/yellow/data/SongCatalogRepository.kt:17 | `trimEnd('/')` drops exactly the trailing slashes |
| SongCatalog.TrimEndCharAppend | app/src/main/java/com/example/yellow/data/SongCatalogRepository.kt:17 | one more trailing slash changes nothing |
| SongCatalog.CatalogUrlShape | app/src/main/java/com/example/yellow/data/SongCatalogRepository.kt:17 | the URL is the base without trailing slashes, then `/catalog?limit=` and the limit; a trailing slash on the base makes no difference |
| SongCatalog.DefaultCatalogUrl | app/src/main/java/com/example/yellow/data/SongCatalogRepository.kt:8-17 | the default request asks for 500 items |
| SongCatalog.ItemsShape | app/src/main/java/com/example/yellow/data/SongCatalogRepository.kt:23-32 | exactly the object entries with three non-blank fields are kept, in order |
| SongCatalog.FetchErrorIffNotSuccess | app/src/main/java/com/example/yellow/data/SongCatalogRepository.kt:36-52 | the fetch fails exactly on a non-2xx status, with `HTTP <code>: <text>`; a missing `items` gives no records |
| SongCatalog.FetchCatalog | app/src/main/java/com/example/yellow/data/SongCatalogRepository.kt:16-34 | `fetchCatalog` returns the result specified for the answer to its URL |
| CatalogWorker.BaseTitleOfPathKey | app/src/index.ts:11-14 | `dir/name.ext` with a dot-free extension gives `name`, dots in the name kept |
| CatalogWorker.BaseTitleKeepsBareName | app/src/index.ts:11-14 | a last segment without an extension is kept whole |
| CatalogWorker.BaseTitleShape | app/src/index.ts:11-14 | the title is a slash-free prefix of the last segment |
| CatalogWorker.UrlJoinShape | app/src/index.ts:21-24 | the base, then exactly one slash, then the key encoded segment by segment; the base's own trailing slash makes no difference |
| CatalogWorker.LimitRule | app/src/index.ts:54 | the limit is at most 1000, and 200 when the parameter is missing, unreadable or 0 |
| CatalogWorker.DefaultLimitText | app/src/index.ts:54 | the default text parses to 200 |
| CatalogWorker.LimitOfDecimal | app/src/index.ts:54 | a decimal limit is taken as given up to 1000 and capped above it; 0 means 200 |
| CatalogWorker.MidiMapLastWins | app/src/index.ts:66-70 | a title is mapped exactly when some MIDI key has it, to the last such key and its URL |
| CatalogWorker.ItemsShape | app/src/index.ts:72-84 | every item is a melody key whose title has a MIDI entry, with that entry's URL; every such key yields an item |
| CatalogWorker.Routing | app/src/index.ts:37-95 | a preflight gets 204, `/catalog` gets the JSON catalog with status 200, and every other path gets 404 |
| CatalogWorker.BuildMidiMap | app/src/index.ts:66-70 | the first loop builds the specified map |
| CatalogWorker.BuildItems | app/src/index.ts:72-84 | the second loop builds the specified items |
| CatalogWorker.Fetch | app/src/index.ts:38-94 | the handler returns the specified answer |
| SongsWorker.LastNameShape | app/src/worker.js:43-46 | the text after the last slash, or the whole key when that is empty |
| SongsWorker.StripExtShape | app/src/worker.js:48-51 | `name.ext` gives `name` for a non-empty name; a leading-dot name is kept |
| SongsWorker.JoinPublicUrlShape | app/src/worker.js:53-58 | the base without one trailing slash, a slash, and the key encoded segment by segment |
| SongsWorker.DefaultLimitText | app/src/worker.js:6 | the default text parses to 500 |
| SongsWorker.LimitRule | app/src/worker.js:6 | missing or empty means 500, a readable limit is at most 1000, and an unreadable one is NaN |
| SongsWorker.LimitOfDecimal | app/src/worker.js:6 | a decimal limit is capped at 1000 |
| SongsWorker.MelodyMapLastWins | app/src/worker.js:15-19 | each base maps to the last melody key with it |
| SongsWorker.ByTitleIsTotalPreorder | app/src/worker.js:35 | comparing titles by the collation is a total preorder |
| SongsWorker.SongsShape | app/src/worker.js:21-35 | every song is a MIDI key with a melody of the same base; every such key yields a song; the list is in title order, and songs the collation ranks equal keep the order of their MIDI keys |
| SongsWorker.Routing | app/src/worker.js:1-41 | `/catalog` gets 200 with the sorted songs whatever the method; any other path gets 404 |
| SongsWorker.BuildMelodyMap | app/src/worker.js:15-19 | the first loop builds the specified map |
| SongsWorker.BuildSongs | app/src/worker.js:21-33 | the second loop pushes the specified songs |
| SongsWorker.Fetch | app/src/worker.js:2-40 | the handler returns the specified answer |
| SearchWorker.EnsureSlashShape | r2-music-search/src/worker.ts:80-82 | the base ends with a slash, gains at most that slash, and fixing it twice changes nothing |
| SearchWorker.MatchesShape | r2-music-search/src/worker.ts:87-97 | exactly the objects whose lower-cased key contains the lower-cased query, in listing order, each with base plus encoded key |
| SearchWorker.FetchStatus | r2-music-search/src/worker.ts:13-109 | 404 off `/search`; 400 for a blank query, checked first; 400 for another bucket; 200 otherwise |
| SearchWorker.FetchResults | r2-music-search/src/worker.ts:42-109 | a 200 answer carries the bucket, the trimmed non-empty query and that bucket's matches |
| SearchWorker.DefaultBucket | r2-music-search/src/worker.ts:44 | a missing or empty bucket means `melody` |
| Http.QueryGet | r2-music-search/src/worker.ts:44-45 | `searchParams.get` is the first pair with that name, or null exactly when none has it |
| JsString.TrimEmptyIffBlank | r2-music-search/src/worker.ts:45 | `trim` gives the empty string exactly for all-white-space input |
| JsString.ParseIntOfIntToString | app/src/index.ts:54 | `parseInt` reads back any integer written in decimal |
| JsString.ParseIntNaN | app/src/index.ts:54 | `parseInt` is NaN exactly when no digit follows the white space and sign |
| UriComponent.Encode | r2-music-search/src/worker.ts:87-97 | the encoding uses only unreserved characters and `%`, has no slash, and leaves unreserved text unchanged |
| UriComponent.EncodeSlash | app/src/index.ts:17-19 | a slash alone would be encoded as `%2F` |
| UriComponent.EncodeKeySegments | app/src/index.ts:17-19 | the slashes of the key are kept, and the segments between them are the encoded segments |
| UriComponent.EncodeKeyOfPlainKey | app/src/index.ts:17-19 | a key of unreserved characters and slashes is unchanged |
| SongItems.SplitTitleArtistShape | app/src/main/java/com/example/yellow/ui/search/SearchFragment.kt:261-268 | without ` - ` the title stays whole with no artist; with it, the split is at its first occurrence and both sides are trimmed |
| SongItems.SplitAtFirstSeparator | app/src/main/java/com/example/yellow/ui/search/SearchFragment.kt:261-268 | the two parts are the trimmed text before and after the first separator |
| SongItems.TitleHasNoSeparator | app/src/main/java/com/example/yellow/ui/search/SearchFragment.kt:261-268 | when an artist is split off, the main title holds no separator |
| SongAdapter.ShowsSubtitle | app/src/main/java/com/example/yellow/ui/search/SongAdapter.kt:42-48 | the subtitle row is shown exactly for a present subtitle with a non-white-space character |
| SongAdapter.DiffConsistent | app/src/main/java/com/example/yellow/ui/search/SongAdapter.kt:77-83 | same contents imply the same item, and both callbacks are equivalences |
| SongAdapter.IndexOfSong | app/src/main/java/com/example/yellow/ui/search/SongAdapter.kt:63 | the first position with the id, or -1 exactly when none has it |
| SongAdapter.WithFavoriteEffect | app/src/main/java/com/example/yellow/ui/search/SongAdapter.kt:61-68 | nothing is submitted for an absent id; otherwise only the first item's favourite flag changes |
| SongAdapter.RefreshedIdempotent | app/src/main/java/com/example/yellow/ui/search/SongAdapter.kt:70-74 | refreshing twice is refreshing once |
| SongAdapter.RefreshedStars | app/src/main/java/com/example/yellow/ui/search/SongAdapter.kt:50-74 | after refreshing, an item shows the filled star exactly when a stored favourite has its id; songs, subtitles and order are kept |
| SongAdapter.SongListAdapter.constructor | app/src/main/java/com/example/yellow/ui/search/SongAdapter.kt:59 | a new adapter shows nothing |
| SongAdapter.SongListAdapter.Submit | app/src/main/java/com/example/yellow/ui/search/SongAdapter.kt:59 | the submitted list is shown |
| SongAdapter.SongListAdapter.UpdateFavorite | app/src/main/java/com/example/yellow/ui/search/SongAdapter.kt:61-68 | submits the list with that item's flag changed, or nothing for an absent id |
| SongAdapter.SongListAdapter.RefreshFavorites | app/src/main/java/com/example/yellow/ui/search/SongAdapter.kt:70-74 | submits the refreshed list |
| SearchScreen.FavMapShape | app/src/main/java/com/example/yellow/ui/search/SearchFragment.kt:102-105 | an id is in the map exactly when an entry has it, mapped to the last such entry's offset |
| SearchScreen.RebadgedShape | app/src/main/java/com/example/yellow/ui/search/SearchFragment.kt:107-117 | rebadging keeps the length, the songs and the subtitles; an item is a favourite exactly when its id is in the map, and its key offset is the map's value for that id, or 0 when the id is absent; doing it twice changes nothing |
| SearchScreen.ItemFor | app/src/main/java/com/example/yellow/ui/search/SearchFragment.kt:159-188 | a preview item has the split title, the artist and the badge |
| SearchScreen.PreviewFromCatalog | app/src/main/java/com/example/yellow/ui/search/SearchFragment.kt:159-188 | at most five items, as many as the catalog when it is smaller, each the item of a catalog song |
| SearchScreen.CatalogSongIds | app/src/main/java/com/example/yellow/ui/search/SearchFragment.kt:148-157 | catalog songs are titled and searched by their catalog title, and two of them share an id exactly when the digests of their URL pairs agree |
| SearchScreen.ShownItemsBadged | app/src/main/java/com/example/yellow/ui/search/SearchFragment.kt:159-240 | one result item per candidate in ranked order, keeping id and query title, badged exactly for favourites; rebadging the shown preview or results with the same favourites changes nothing |
| SearchScreen.SearchFragment.constructor | app/src/main/java/com/example/yellow/ui/search/SearchFragment.kt:48-53 | catalog mode, no songs, nothing shown, and the layout's initial visibility and text |
| SearchScreen.SearchFragment.RefreshBadgesOnly | app/src/main/java/com/example/yellow/ui/search/SearchFragment.kt:107-117 | only the badges of the shown list change |
| SearchScreen.SearchFragment.ShowCatalog | app/src/main/java/com/example/yellow/ui/search/SearchFragment.kt:159-188 | catalog mode; an empty catalog shows the empty text, otherwise the preview |
| SearchScreen.SearchFragment.LoadCatalog | app/src/main/java/com/example/yellow/ui/search/SearchFragment.kt:119-146 | fetches the catalog with limit 500; success stores the songs and shows the catalog; failure shows the failure text and keeps the rest |
| SearchScreen.SearchFragment.ShowResults | app/src/main/java/com/example/yellow/ui/search/SearchFragment.kt:190-240 | search mode; results are shown with the no-results text when empty; a failed search keeps the list |
| SearchScreen.SearchFragment.DoSearch | app/src/main/java/com/example/yellow/ui/search/SearchFragment.kt:190-240 | a blank query shows the catalog; otherwise the results are shown |
| SearchScreen.SearchFragment.TextChanged | app/src/main/java/com/example/yellow/ui/search/SearchFragment.kt:88-93 | clearing the query in search mode returns to the catalog; otherwise nothing changes |
| LibraryScreen.LoadFavoritesShape | app/src/main/java/com/example/yellow/ui/library/LibraryFragment.kt:57-80 | one item per entry; each item's title and subtitle are the title-artist split of the entry's query title, or of its title when the query title is blank; every item is a favourite and keeps its entry's id, URLs, query title and key offset; the empty flag is set exactly when there are no entries |
| LibraryScreen.FullTitleChoice | app/src/main/java/com/example/yellow/ui/library/LibraryFragment.kt:63 | the full title is the query title unless that is blank, then the title |

## Left out

- Network I/O, JSON parsing, R2 listings and SharedPreferences are not
  modelled. Their results are parameters or fields. HTTP timeouts,
  redirects and the exceptions they throw are left out.
- SongModel.MakeIdShape: SHA-1 is a parameter, so the id is tied to the
  digest, not to a particular hash value.
- Text trimming, `isBlank` and `lowercase` cover ASCII white space and
  ASCII letters only. Kotlin's Unicode white space and case mapping are
  wider.
- SearchWorker.MatchesShape: JavaScript's `toLowerCase` in
  r2-music-search/src/worker.ts:87-97 maps every Unicode letter, but the
  model lower-cases ASCII letters only.
- SongSearch.Search: the request URL built with `URLEncoder` is not
  modelled. The two fetched documents are parameters, so the model does
  not say which query reaches the worker.
- SongsWorker.SongsShape: sorting is stated up to a total-preorder
  collation that stands for `localeCompare`; the ICU collation itself is
  not modelled.
- Android `Log.d`/`Log.e` calls (in Mp3OnsetDetector, PianoRollView,
  SearchFragment and FirstFragment) are left out: they only write to the
  system log and change no result.
- Kotlin and JavaScript strings count UTF-16 code units, while a Dafny
  `char` is one Unicode scalar value. For characters outside the Basic
  Multilingual Plane, lengths, indices, `substring`/`slice` positions and
  the edit distance counted by the model differ from the source's.
- VoicePitch.ComputeAutoCorrelation: the sums are mathematical integers.
  Kotlin `Int` arithmetic would wrap for very loud, long buffers.
- VoicePitch.FindFundamentalFrequency: the recording loop, `AudioRecord`
  and the detector thread are left out.
- `log2` is left out: the MIDI number of a frequency is a parameter of
  `pitchToNote`.
- `%.2f` formatting is left out. The pitch text is a parameter of
  `HandlePitch`.
- `addLivePitch(Hz)` and `resetLiveTimelineBase` read the system clock
  and are left out. `addLivePitchAt` takes the time as given.
- Drawing, pixel sizes and touch handling of the piano roll are left out.
- The floating-point feature extractors of the onset detector are
  parameters: RMS level, Hann window, power spectrum, flatness, crest,
  top-bin ratio, autocorrelation peak and spectral flux. Decoding an
  MP3 to PCM is too.
- OnsetDetector.ValidConfig: the tunables `FFT_SIZE` and `HOP_SIZE` are
  mutable, but the model requires both to be at least 1. With
  `HOP_SIZE` 0 both frame loops of `analyze` never end once a frame
  fits, and a negative frame size fails when the arrays are allocated.
  Neither case, nor a frame size of 0, is modelled.
- FftBitReversal.BitReverse: only the bit-reversal permutation of the
  FFT is modelled. The floating-point butterflies that follow it are
  not, and a rejected size is an `ok == false` result rather than the
  exception `require` throws.
- `MainActivity.kt` repeats the recorder screen of `HomeFragment.kt`. One
  model stands for both, and the differing View and Fragment lifecycles
  are left out.
- The fragments build the adapter's item with a `keyOffset` that
  SongAdapter.kt does not declare. `SongItems.Item` carries it for the two
  screens, and `SongAdapter.Item` is the item as declared.
- `submitList`'s asynchronous diffing, Toasts, navigation to the piano
  screen, coroutines and dispatchers are left out. A submitted list is
  the list shown.
- The search list's star callback calls `updateFavorite` with a
  `keyOffset` argument that SongAdapter.kt does not declare. It is
  covered by Favorites.FavoritesStore.Toggle and
  SongAdapter.SongListAdapter.UpdateFavorite on their own, not as one
  callback.
- The `isInitialized` guard of `refreshBadgesOnly` is left out. The model
  refreshes the adapter that the screen always holds.
- `shuffled()` is a parameter: any permutation of the catalog songs.
- The initial texts and visibilities of the layouts are constructor
  parameters.
- `optInt` coercion of string and floating-point key offsets is left out.
  A stored key offset is an optional integer.
