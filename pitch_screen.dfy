/** The recorder screen: the start/stop button, the pitch line and the note
    line of HomeFragment.kt and MainActivity.kt, which behave alike.  The
    microphone, the audio thread and the pitch detector are outside the
    model: whether the permission is held is a parameter, and the running
    dispatcher with its thread is one flag. */
module PitchScreen {
  import NoteNames

  const RecordAudioPermissionCode := 1
  /** `PackageManager.PERMISSION_GRANTED`. */
  const PermissionGranted := 0
  /** `PitchDetectionResult.pitch` when no pitch was found. */
  const NoPitch := -1.0

  const StopLabel := "중지"
  const StartLabel := "시작"
  /** "음고: " and "음이름: ". */
  const PitchPrefix := "음고: "
  const NotePrefix := "음이름: "
  const Analyzing := PitchPrefix + "분석 중..."
  const NoPitchText := PitchPrefix + "-"
  const NoNoteText := NotePrefix + "-"
  const NeedPermission := PitchPrefix + "마이크 권한 필요"

  class RecorderScreen {
    var isRecording: bool
    /** `dispatcher` and `audioThread` are set. */
    var listening: bool
    /** How many times the permission was asked for. */
    var permissionRequests: nat
    var buttonText: string
    var pitchText: string
    var noteText: string

    /** The screen is recording exactly while the dispatcher runs, and then
        the button offers to stop. */
    predicate Valid()
      reads this
    {
      && isRecording == listening
      && (isRecording ==> buttonText == StopLabel)
    }

    /** The texts the layout starts with are parameters. */
    constructor (button: string, pitch: string, note: string)
      ensures Valid() && !isRecording && permissionRequests == 0
      ensures buttonText == button && pitchText == pitch && noteText == note
    {
      isRecording := false;
      listening := false;
      permissionRequests := 0;
      buttonText := button;
      pitchText := pitch;
      noteText := note;
    }

    /** `startRecording`: without the permission it is requested and
        nothing else happens; with it the dispatcher starts and the three
        texts are set. */
    method StartRecording(permissionHeld: bool)
      requires Valid()
      modifies this
      ensures permissionHeld ==> && listening && isRecording && permissionRequests == old(permissionRequests)
                                 && buttonText == StopLabel && pitchText == Analyzing && noteText == NoNoteText
      ensures !permissionHeld ==> && permissionRequests == old(permissionRequests) + 1
                                  && listening == old(listening) && isRecording == old(isRecording)
                                  && buttonText == old(buttonText) && pitchText == old(pitchText)
                                  && noteText == old(noteText)
      ensures Valid()
    {
      if !permissionHeld {
        permissionRequests := permissionRequests + 1;
      } else {
        listening := true;
        isRecording := true;
        buttonText := StopLabel;
        pitchText := Analyzing;
        noteText := NoNoteText;
      }
    }

    /** `stopRecording`: the dispatcher is dropped and the texts reset. */
    method StopRecording()
      modifies this
      ensures !listening && !isRecording && permissionRequests == old(permissionRequests)
      ensures buttonText == StartLabel && pitchText == NoPitchText && noteText == NoNoteText
      ensures Valid()
    {
      listening := false;
      isRecording := false;
      buttonText := StartLabel;
      pitchText := NoPitchText;
      noteText := NoNoteText;
    }

    /** The button: stop while recording, start otherwise.  Since the
        screen records exactly while the dispatcher runs, a click while
        listening stops the audio, and with the permission held a click
        turns the audio on or off. */
    method Click(permissionHeld: bool)
      requires Valid()
      modifies this
      ensures old(listening) ==> !listening && !isRecording && buttonText == StartLabel && pitchText == NoPitchText
      ensures !old(listening) && permissionHeld ==> listening && isRecording && buttonText == StopLabel && pitchText == Analyzing
      ensures !old(listening) && !permissionHeld ==> && !listening && !isRecording
                                                     && permissionRequests == old(permissionRequests) + 1
      ensures Valid()
      ensures permissionHeld ==> listening == !old(listening)
    {
      if isRecording {
        StopRecording();
      } else {
        StartRecording(permissionHeld);
      }
    }

    /** `handlePitch`: a detected pitch is shown together with its note
        name; `-1` leaves the screen as it is.  `hzText` is the frequency as
        `%.2f` prints it and `midi` its rounded MIDI number. */
    method HandlePitch(pitch: real, hzText: string, midi: int)
      requires Valid()
      modifies this
      ensures pitch == NoPitch ==> pitchText == old(pitchText) && noteText == old(noteText)
      ensures pitch != NoPitch ==> && pitchText == PitchPrefix + hzText + " Hz"
                                   && noteText == NotePrefix + NoteNames.PitchToNote(pitch, midi)
      ensures isRecording == old(isRecording) && listening == old(listening)
      ensures buttonText == old(buttonText) && permissionRequests == old(permissionRequests)
      ensures Valid()
    {
      if pitch != NoPitch {
        pitchText := PitchPrefix + hzText + " Hz";
        noteText := NotePrefix + NoteNames.PitchToNote(pitch, midi);
      }
    }

    /** `onRequestPermissionsResult`: for the microphone request, a first
        grant starts recording (which checks the permission again) and
        anything else says the permission is needed; other requests are
        ignored. */
    method OnRequestPermissionsResult(requestCode: int, grantResults: seq<int>, permissionHeld: bool)
      requires Valid()
      modifies this
      ensures requestCode != RecordAudioPermissionCode ==>
                && isRecording == old(isRecording) && listening == old(listening)
                && buttonText == old(buttonText) && pitchText == old(pitchText) && noteText == old(noteText)
                && permissionRequests == old(permissionRequests)
      ensures (requestCode == RecordAudioPermissionCode && grantResults != [] && grantResults[0] == PermissionGranted
               && permissionHeld) ==> isRecording && listening && pitchText == Analyzing
      ensures requestCode == RecordAudioPermissionCode && !(grantResults != [] && grantResults[0] == PermissionGranted) ==>
                && pitchText == NeedPermission
                && isRecording == old(isRecording) && listening == old(listening)
                && buttonText == old(buttonText) && noteText == old(noteText)
                && permissionRequests == old(permissionRequests)
      ensures Valid()
    {
      if requestCode == RecordAudioPermissionCode {
        if |grantResults| > 0 && grantResults[0] == PermissionGranted {
          StartRecording(permissionHeld);
        } else {
          pitchText := NeedPermission;
        }
      }
    }

    /** `onDestroyView` / `onDestroy`: recording stops. */
    method OnDestroy()
      modifies this
      ensures !isRecording && !listening && buttonText == StartLabel
      ensures Valid()
    {
      StopRecording();
    }
  }
}
