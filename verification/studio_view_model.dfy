/**
 * `LessonStudioViewModel` (ui/studio/LessonStudioViewModel.kt): the flags
 * of the studio screen that the playback and recording buttons drive. The
 * audio player and recorder are collaborators with no state of their own
 * here; the progress-polling job is a flag saying whether it runs, and the
 * progress it would write is left alone (only the values the view-model
 * itself assigns, 0 and 1, are modelled).
 */
module Studio {
  import opened Text
  import opened Wrappers
  import opened Entities
  import opened Files
  import opened Store
  import LessonSegment

  datatype StudioUiState = StudioUiState(
    lesson: Option<Lesson>,
    userRecordings: seq<Recording>,
    segments: seq<LessonSegment.Segment>,
    isRecording: bool,
    isPlayingReference: bool,
    isPlayingUser: bool,
    playingRecordingId: Option<int>,
    playbackProgress: real,
    hasListenedToReference: bool,
    error: Option<string>)

  const InitialState := StudioUiState(None, [], [], false, false, false, None, 0.0, false, None)

  const ListenFirstMessage := "Please listen to the reference audio first."

  /** The state `stopPlayback` leaves: nothing playing, no recording selected, progress 0. */
  function Stopped(s: StudioUiState): (r: StudioUiState)
    ensures !r.isPlayingReference && !r.isPlayingUser && r.playingRecordingId == None && r.playbackProgress == 0.0
    ensures PlaybackConsistent(r)
    ensures r.(isPlayingReference := s.isPlayingReference, isPlayingUser := s.isPlayingUser,
               playingRecordingId := s.playingRecordingId, playbackProgress := s.playbackProgress) == s
  {
    s.(isPlayingReference := false, isPlayingUser := false, playingRecordingId := None, playbackProgress := 0.0)
  }

  /**
   * The flag invariant: at most one kind of playback at a time; user
   * playback names the recording it plays, reference playback names none.
   */
  predicate PlaybackConsistent(s: StudioUiState) {
    && !(s.isPlayingReference && s.isPlayingUser)
    && (s.isPlayingUser ==> s.playingRecordingId.Some?)
    && (s.isPlayingReference ==> s.playingRecordingId.None?)
  }

  /**
   * Stopping settles the player: stopping again changes nothing, the flag
   * invariant holds afterwards whatever held before, and the lesson, the
   * recordings, the recording flag, the listened flag and the error are
   * untouched.
   */
  lemma StoppedSettles(s: StudioUiState)
    ensures Stopped(Stopped(s)) == Stopped(s)
    ensures PlaybackConsistent(Stopped(s))
    ensures Stopped(s).lesson == s.lesson && Stopped(s).segments == s.segments
            && Stopped(s).userRecordings == s.userRecordings && Stopped(s).isRecording == s.isRecording
            && Stopped(s).hasListenedToReference == s.hasListenedToReference && Stopped(s).error == s.error
  {
  }

  /** The name of a new recording's file. */
  function RecordingFileName(lessonId: int, uuid: string): string {
    "rec_" + Decimal(lessonId) + "_" + uuid + ".m4a"
  }

  class LessonStudioViewModel {
    /** The lesson id from the navigation arguments. */
    const lessonId: int
    /** `_uiState`. */
    var uiState: StudioUiState
    /** `currentRecordingFile`: the file of the recording under way, if any. */
    var currentRecordingFile: Option<string>
    /** Whether `playbackJob` (the progress poller) is running. */
    var polling: bool

    ghost predicate Valid()
      reads this
    {
      PlaybackConsistent(uiState)
    }

    constructor (lessonId: int)
      ensures Valid()
      ensures this.lessonId == lessonId && uiState == InitialState
      ensures currentRecordingFile == None && !polling
    {
      this.lessonId := lessonId;
      uiState := InitialState;
      currentRecordingFile := None;
      polling := false;
    }

    /** `loadLesson`: the lesson with this id, if stored, and its parsed script. */
    method LoadLesson(db: Database)
      requires Valid()
      modifies this
      ensures Valid()
      ensures db.GetLesson(lessonId).Some? ==>
        uiState == old(uiState).(lesson := db.GetLesson(lessonId),
                                 segments := LessonSegment.ParseSpec(db.GetLesson(lessonId).value.textContent))
      ensures db.GetLesson(lessonId).None? ==> uiState == old(uiState)
      ensures currentRecordingFile == old(currentRecordingFile) && polling == old(polling)
    {
      var lesson := db.GetLesson(lessonId);
      if lesson.Some? {
        var segments := LessonSegment.Parse(lesson.value.textContent);
        uiState := uiState.(lesson := lesson, segments := segments);
      }
    }

    /** `loadRecordings`: each new list of this lesson's recordings replaces the shown one. */
    method OnRecordings(recordings: seq<Recording>)
      requires Valid()
      modifies this
      ensures Valid()
      ensures uiState == old(uiState).(userRecordings := recordings)
      ensures currentRecordingFile == old(currentRecordingFile) && polling == old(polling)
    {
      uiState := uiState.(userRecordings := recordings);
    }

    /** `stopPlayback`: stops the player and the poller and clears every playback flag. */
    method StopPlayback()
      requires Valid()
      modifies this
      ensures Valid()
      ensures uiState == Stopped(old(uiState))
      ensures !polling && currentRecordingFile == old(currentRecordingFile)
    {
      polling := false;
      uiState := uiState.(isPlayingReference := false, isPlayingUser := false, playingRecordingId := None, playbackProgress := 0.0);
    }

    /**
     * `toggleReferencePlayback`: nothing without a lesson; pauses the
     * reference when it plays; otherwise stops all playback and starts the
     * reference from the beginning, which counts as having listened to it.
     */
    method ToggleReferencePlayback()
      requires Valid()
      modifies this
      ensures Valid()
      ensures old(uiState).lesson.None? ==> uiState == old(uiState) && polling == old(polling)
      ensures old(uiState).lesson.Some? && old(uiState).isPlayingReference ==>
        uiState == old(uiState).(isPlayingReference := false) && !polling
      ensures old(uiState).lesson.Some? && !old(uiState).isPlayingReference ==>
        uiState == Stopped(old(uiState)).(isPlayingReference := true, hasListenedToReference := true) && polling
      ensures currentRecordingFile == old(currentRecordingFile)
    {
      if uiState.lesson.None? {
        return;
      }
      if uiState.isPlayingReference {
        polling := false;
        uiState := uiState.(isPlayingReference := false);
      } else {
        StopPlayback();
        if 0.0 < uiState.playbackProgress < 1.0 {
          // The resume branch: progress was just set to 0, so it is never taken.
          assert false;
        } else {
          polling := true;
          uiState := uiState.(isPlayingReference := true, hasListenedToReference := true);
        }
      }
    }

    /** The player's completion callback for the reference: stopped at the end. */
    method OnReferenceCompleted()
      requires Valid()
      modifies this
      ensures Valid()
      ensures uiState == old(uiState).(isPlayingReference := false, playbackProgress := 1.0)
      ensures !polling && currentRecordingFile == old(currentRecordingFile)
    {
      polling := false;
      uiState := uiState.(isPlayingReference := false, playbackProgress := 1.0);
    }

    /**
     * `toggleUserPlayback`: pauses the recording that is playing; for any
     * other recording, stops all playback and plays that one.
     */
    method ToggleUserPlayback(recording: Recording)
      requires Valid()
      modifies this
      ensures Valid()
      ensures old(uiState).playingRecordingId == Some(recording.id) && old(uiState).isPlayingUser ==>
        uiState == old(uiState).(isPlayingUser := false) && !polling
      ensures !(old(uiState).playingRecordingId == Some(recording.id) && old(uiState).isPlayingUser) ==>
        uiState == Stopped(old(uiState)).(isPlayingUser := true, playingRecordingId := Some(recording.id)) && polling
      ensures currentRecordingFile == old(currentRecordingFile)
    {
      if uiState.playingRecordingId == Some(recording.id) && uiState.isPlayingUser {
        polling := false;
        uiState := uiState.(isPlayingUser := false);
      } else {
        StopPlayback();
        polling := true;
        uiState := uiState.(isPlayingUser := true, playingRecordingId := Some(recording.id));
      }
    }

    /** The player's completion callback for a recording: stopped at the end, none selected. */
    method OnUserCompleted()
      requires Valid()
      modifies this
      ensures Valid()
      ensures uiState == old(uiState).(isPlayingUser := false, playingRecordingId := None, playbackProgress := 1.0)
      ensures !polling && currentRecordingFile == old(currentRecordingFile)
    {
      polling := false;
      uiState := uiState.(isPlayingUser := false, playingRecordingId := None, playbackProgress := 1.0);
    }

    /**
     * `startRecordingSecure`: stops playback; before the reference has been
     * heard it only reports the error; otherwise it remembers the new file
     * and starts recording. The UUID is a parameter.
     */
    method StartRecordingSecure(filesDir: string, uuid: string)
      requires Valid()
      modifies this
      ensures Valid() && !polling
      ensures !old(uiState).hasListenedToReference ==>
        uiState == Stopped(old(uiState)).(error := Some(ListenFirstMessage))
        && currentRecordingFile == old(currentRecordingFile)
      ensures old(uiState).hasListenedToReference ==>
        uiState == Stopped(old(uiState)).(isRecording := true, error := None)
        && currentRecordingFile == Some(Child(filesDir, RecordingFileName(lessonId, uuid)))
    {
      StopPlayback();
      if !uiState.hasListenedToReference {
        uiState := uiState.(error := Some(ListenFirstMessage));
        return;
      }
      var fileName := RecordingFileName(lessonId, uuid);
      currentRecordingFile := Some(Child(filesDir, fileName));
      uiState := uiState.(isRecording := true, error := None);
    }

    /**
     * `stopRecordingSecure`: stops recording and, when a file is remembered,
     * inserts one recording of it for this lesson with duration 0, then
     * forgets the file. The insertion needs the lesson to be stored (the
     * foreign key); otherwise nothing is inserted. `now` is the clock.
     */
    method StopRecordingSecure(db: Database, now: int)
      requires Valid() && db.Valid()
      modifies this, db
      ensures Valid() && db.Valid()
      ensures uiState == old(uiState).(isRecording := false)
      ensures currentRecordingFile == None && polling == old(polling)
      ensures old(currentRecordingFile).Some? && HasLessonId(old(db.lessons), lessonId) ==>
        db.recordings == old(db.recordings) + [Recording(old(db.nextRecordingId), lessonId, old(currentRecordingFile).value, now, 0)]
        && db.nextRecordingId == old(db.nextRecordingId) + 1
      ensures !(old(currentRecordingFile).Some? && HasLessonId(old(db.lessons), lessonId)) ==>
        db.recordings == old(db.recordings) && db.nextRecordingId == old(db.nextRecordingId)
      ensures db.lessons == old(db.lessons) && db.nextLessonId == old(db.nextLessonId)
    {
      uiState := uiState.(isRecording := false);
      if currentRecordingFile.Some? && HasLessonId(db.lessons, lessonId) {
        var _ := db.InsertRecording(Recording(0, lessonId, currentRecordingFile.value, now, 0));
      }
      currentRecordingFile := None;
    }

    /** `startRecording`, the variant that does not remember the file. */
    method StartRecording()
      requires Valid()
      modifies this
      ensures Valid() && !polling && currentRecordingFile == old(currentRecordingFile)
      ensures !old(uiState).hasListenedToReference ==> uiState == Stopped(old(uiState)).(error := Some(ListenFirstMessage))
      ensures old(uiState).hasListenedToReference ==> uiState == Stopped(old(uiState)).(isRecording := true, error := None)
    {
      StopPlayback();
      if !uiState.hasListenedToReference {
        uiState := uiState.(error := Some(ListenFirstMessage));
        return;
      }
      uiState := uiState.(isRecording := true, error := None);
    }

    /** `stopRecording`, the variant that saves nothing. */
    method StopRecording()
      requires Valid()
      modifies this
      ensures Valid()
      ensures uiState == old(uiState).(isRecording := false)
      ensures currentRecordingFile == old(currentRecordingFile) && polling == old(polling)
    {
      uiState := uiState.(isRecording := false);
    }

    /** `deleteRecording`: removes the row and the file. */
    method DeleteRecording(db: Database, fs: FileSystem, recording: Recording)
      requires db.Valid()
      modifies db, fs
      ensures db.Valid()
      ensures db.recordings == WithoutRecording(old(db.recordings), recording.id)
      ensures db.lessons == old(db.lessons)
      ensures fs.files == old(fs.files) - {recording.audioPath}
    {
      db.DeleteRecording(recording);
      fs.Delete(recording.audioPath);
    }

    /** `dismissError`: clears the error and nothing else. */
    method DismissError()
      requires Valid()
      modifies this
      ensures Valid()
      ensures uiState == old(uiState).(error := None)
      ensures currentRecordingFile == old(currentRecordingFile) && polling == old(polling)
    {
      uiState := uiState.(error := None);
    }
  }

  /** A recording, once stopped, is inserted once: a second stop finds no file to save. */
  method StopTwice(vm: LessonStudioViewModel, db: Database, now: int)
    requires vm.Valid() && db.Valid()
    modifies vm, db
    ensures |db.recordings| <= |old(db.recordings)| + 1
    ensures forall k :: |old(db.recordings)| <= k < |db.recordings| ==> db.recordings[k].lessonId == vm.lessonId && db.recordings[k].durationMs == 0
  {
    vm.StopRecordingSecure(db, now);
    vm.StopRecordingSecure(db, now);
  }

  /** Starting the reference from rest always marks it heard, so recording may start afterwards. */
  method ListenThenRecord(vm: LessonStudioViewModel, filesDir: string, uuid: string)
    requires vm.Valid() && vm.uiState.lesson.Some? && !vm.uiState.isPlayingReference
    modifies vm
    ensures vm.Valid() && vm.uiState.isRecording && vm.uiState.error == None
    ensures vm.currentRecordingFile == Some(Child(filesDir, RecordingFileName(vm.lessonId, uuid)))
    ensures !vm.uiState.isPlayingReference && !vm.uiState.isPlayingUser
  {
    vm.ToggleReferencePlayback();
    vm.StartRecordingSecure(filesDir, uuid);
  }
}
