/** The two Room entities: a lesson and a user's recording of it. */
module Entities {
  /** `Lesson` (data/Lesson.kt); `id` 0 asks the database to generate one. */
  datatype Lesson = Lesson(
    id: int,
    title: string,
    language: string,
    accent: string,
    textContent: string,
    referenceAudioPath: string,
    isBuiltIn: bool)

  /** `UserRecording` (data/UserRecording.kt); `lessonId` refers to a lesson's id. */
  datatype Recording = Recording(
    id: int,
    lessonId: int,
    audioPath: string,
    createdAt: int,
    durationMs: int)
}
