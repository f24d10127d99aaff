/**
 * `CreateLessonViewModel` (ui/create/CreateLessonViewModel.kt): a form
 * whose setters each change one field, and a guarded save that copies the
 * chosen audio into private storage and inserts a user lesson. The random
 * UUID and the bytes read from the chosen audio are parameters.
 */
module CreateLesson {
  import opened Text
  import opened Wrappers
  import opened Entities
  import opened Files
  import opened Store

  datatype CreateLessonUiState = CreateLessonUiState(
    title: string,
    language: string,
    accent: string,
    textContent: string,
    selectedAudioUri: Option<string>)

  const InitialState := CreateLessonUiState("", "English", "Neutral", "", None)

  /** The guard of `saveLesson`: title and text not blank, an audio file chosen. */
  predicate CanSave(s: CreateLessonUiState) {
    !IsBlank(s.title) && !IsBlank(s.textContent) && s.selectedAudioUri.Some?
  }

  /** Language and accent are not validated: they do not affect the guard, blank or not. */
  lemma LanguageAndAccentNotValidated(s: CreateLessonUiState, language: string, accent: string)
    ensures CanSave(s.(language := language, accent := accent)) == CanSave(s)
  {
  }

  /** The guard fails for the initial form, which has neither title, text nor audio. */
  lemma InitialStateCannotSave()
    ensures !CanSave(InitialState)
  {
  }

  /** The name of the copied audio file. */
  function AudioFileName(uuid: string): string {
    "custom_" + uuid + ".audio"
  }

  /** The lesson `saveLesson` inserts: the form's four fields, a user lesson, the copied file. */
  function NewLesson(s: CreateLessonUiState, filesDir: string, uuid: string): Lesson {
    Lesson(0, s.title, s.language, s.accent, s.textContent, Child(filesDir, AudioFileName(uuid)), false)
  }

  /**
   * The new lesson is a user lesson whose audio lives directly in the app's
   * storage directory, named after the UUID.
   */
  lemma NewLessonAudio(s: CreateLessonUiState, filesDir: string, uuid: string)
    requires NoSlash(uuid)
    ensures var l := NewLesson(s, filesDir, uuid);
      !l.isBuiltIn && Basename(l.referenceAudioPath) == "custom_" + uuid + ".audio"
      && l.referenceAudioPath[..|filesDir| + 1] == filesDir + "/"
  {
    var name := AudioFileName(uuid);
    assert NoSlash(name) by {
      forall i | 0 <= i < |name| ensures name[i] != '/' {
        if 7 <= i < 7 + |uuid| { assert name[i] == uuid[i - 7]; }
      }
    }
    BasenameOfChild(filesDir, name);
  }

  class CreateLessonViewModel {
    var uiState: CreateLessonUiState

    constructor ()
      ensures uiState == InitialState
    {
      uiState := InitialState;
    }

    method UpdateTitle(title: string)
      modifies this
      ensures uiState == old(uiState).(title := title)
    {
      uiState := uiState.(title := title);
    }

    method UpdateLanguage(language: string)
      modifies this
      ensures uiState == old(uiState).(language := language)
    {
      uiState := uiState.(language := language);
    }

    method UpdateAccent(accent: string)
      modifies this
      ensures uiState == old(uiState).(accent := accent)
    {
      uiState := uiState.(accent := accent);
    }

    method UpdateText(text: string)
      modifies this
      ensures uiState == old(uiState).(textContent := text)
    {
      uiState := uiState.(textContent := text);
    }

    method SelectAudio(uri: Option<string>)
      modifies this
      ensures uiState == old(uiState).(selectedAudioUri := uri)
    {
      uiState := uiState.(selectedAudioUri := uri);
    }

    /**
     * `saveLesson`. When the guard fails nothing changes. Otherwise the
     * chosen audio (absent when the content resolver yields no stream) is
     * written to the new file and the lesson is inserted with a fresh id;
     * `saved` says whether `onSuccess` is called.
     */
    method SaveLesson(db: Database, fs: FileSystem, filesDir: string, uuid: string, audio: Option<Bytes>)
      returns (saved: bool)
      requires db.Valid()
      modifies db, fs
      ensures db.Valid()
      ensures saved <==> CanSave(uiState)
      ensures !saved ==> db.lessons == old(db.lessons) && db.nextLessonId == old(db.nextLessonId) && fs.files == old(fs.files)
      ensures saved ==> db.lessons == old(db.lessons) + [NewLesson(uiState, filesDir, uuid).(id := old(db.nextLessonId))]
      ensures saved ==> fs.files == if audio.Some? then old(fs.files)[Child(filesDir, AudioFileName(uuid)) := audio.value] else old(fs.files)
      ensures db.recordings == old(db.recordings) && db.nextRecordingId == old(db.nextRecordingId)
    {
      var state := uiState;
      if IsBlank(state.title) || IsBlank(state.textContent) || state.selectedAudioUri.None? {
        return false;
      }
      var destFile := Child(filesDir, AudioFileName(uuid));
      if audio.Some? {
        fs.Write(destFile, audio.value);
      }
      var lesson := Lesson(0, state.title, state.language, state.accent, state.textContent, destFile, false);
      var _ := db.InsertLesson(lesson);
      saved := true;
    }
  }
}
