/**
 * `EditLessonViewModel` (ui/create/EditLessonViewModel.kt): loads one
 * lesson into a form, lets each setter change one field, and saves by
 * updating the original row with only the four editable fields replaced.
 */
module EditLesson {
  import opened Text
  import opened Wrappers
  import opened Entities
  import opened Store

  datatype EditLessonUiState = EditLessonUiState(
    title: string,
    language: string,
    accent: string,
    textContent: string,
    originalLesson: Option<Lesson>)

  const InitialState := EditLessonUiState("", "", "", "", None)

  /** The guard of `saveLesson`: a lesson was loaded, and title and text are not blank. */
  predicate CanSave(s: EditLessonUiState) {
    s.originalLesson.Some? && !IsBlank(s.title) && !IsBlank(s.textContent)
  }

  /** `original.copy(title, language, accent, textContent)`. */
  function Edited(original: Lesson, s: EditLessonUiState): Lesson {
    original.(title := s.title, language := s.language, accent := s.accent, textContent := s.textContent)
  }

  /**
   * Saving writes the form back into the row of the original lesson: the
   * editable fields come from the form, the id, the audio path and the
   * built-in flag from the original, and every other row is untouched.
   */
  lemma SavePreservesIdentity(lessons: seq<Lesson>, original: Lesson, s: EditLessonUiState)
    requires IdsAscending(lessons) && HasLessonId(lessons, original.id)
    ensures var r := ReplaceLesson(lessons, Edited(original, s));
      var e := FindLesson(r, original.id).value;
      FindLesson(r, original.id).Some?
      && e.id == original.id && e.referenceAudioPath == original.referenceAudioPath && e.isBuiltIn == original.isBuiltIn
      && e.title == s.title && e.language == s.language && e.accent == s.accent && e.textContent == s.textContent
      && |r| == |lessons|
      && forall i :: 0 <= i < |r| && lessons[i].id != original.id ==> r[i] == lessons[i]
  {
    var r := ReplaceLesson(lessons, Edited(original, s));
    var k :| 0 <= k < |lessons| && lessons[k].id == original.id;
    assert r[k] == Edited(original, s);
    assert IdsAscending(r);
    FindLessonAt(r, k);
  }

  class EditLessonViewModel {
    const lessonId: int
    var uiState: EditLessonUiState

    constructor (lessonId: int)
      ensures this.lessonId == lessonId && uiState == InitialState
    {
      this.lessonId := lessonId;
      uiState := InitialState;
    }

    /** `loadLesson`: fills the form from the stored lesson; an absent lesson leaves the form alone. */
    method LoadLesson(db: Database)
      modifies this
      ensures db.GetLesson(lessonId).Some? ==>
        var l := db.GetLesson(lessonId).value;
        uiState == old(uiState).(title := l.title, language := l.language, accent := l.accent,
                                 textContent := l.textContent, originalLesson := Some(l))
      ensures db.GetLesson(lessonId).None? ==> uiState == old(uiState)
    {
      var lesson := db.GetLesson(lessonId);
      if lesson.Some? {
        var l := lesson.value;
        uiState := uiState.(title := l.title, language := l.language, accent := l.accent,
                            textContent := l.textContent, originalLesson := Some(l));
      }
    }

    method UpdateTitle(title: string)
      modifies this
      ensures uiState == old(uiState).(title := title)
    {
      uiState := uiState.(title := title);
    }

    method UpdateLanguage(language: string)
      modifies this
      ensures uiState == old(uiState).(language := language)
    {
      uiState := uiState.(language := language);
    }

    method UpdateAccent(accent: string)
      modifies this
      ensures uiState == old(uiState).(accent := accent)
    {
      uiState := uiState.(accent := accent);
    }

    method UpdateText(text: string)
      modifies this
      ensures uiState == old(uiState).(textContent := text)
    {
      uiState := uiState.(textContent := text);
    }

    /** `saveLesson`: a no-op unless the guard holds; otherwise an update of the original's row. */
    method SaveLesson(db: Database) returns (saved: bool)
      requires db.Valid()
      modifies db
      ensures db.Valid()
      ensures saved <==> CanSave(uiState)
      ensures saved ==> db.lessons == ReplaceLesson(old(db.lessons), Edited(uiState.originalLesson.value, uiState))
      ensures !saved ==> db.lessons == old(db.lessons)
      ensures db.recordings == old(db.recordings)
      ensures db.nextLessonId == old(db.nextLessonId) && db.nextRecordingId == old(db.nextRecordingId)
    {
      var state := uiState;
      if state.originalLesson.None? {
        return false;
      }
      var original := state.originalLesson.value;
      if IsBlank(state.title) || IsBlank(state.textContent) {
        return false;
      }
      db.UpdateLesson(Edited(original, state));
      saved := true;
    }
  }
}
