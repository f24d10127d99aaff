/**
 * The two Room tables, `lessons` and `user_recordings`, as the app uses
 * them: auto-generated ids from a counter that never goes back, lessons
 * listed in ascending id order, update and delete by primary key, and a
 * foreign key from a recording to its lesson with cascading delete.
 */
module Store {
  import opened Wrappers
  import opened Entities

  predicate HasLessonId(lessons: seq<Lesson>, id: int) {
    exists i :: 0 <= i < |lessons| && lessons[i].id == id
  }

  /** Appending a row keeps every id that was there. */
  lemma HasLessonIdSnoc(lessons: seq<Lesson>, l: Lesson, id: int)
    requires HasLessonId(lessons, id)
    ensures HasLessonId(lessons + [l], id)
  {
    var k :| 0 <= k < |lessons| && lessons[k].id == id;
    assert (lessons + [l])[k] == lessons[k];
  }

  /** `getLesson(id)`: the row with that primary key, if any. */
  function FindLesson(lessons: seq<Lesson>, id: int): (r: Option<Lesson>)
    ensures r.Some? <==> HasLessonId(lessons, id)
    ensures r.Some? ==> r.value.id == id && r.value in lessons
  {
    if lessons == [] then None
    else if lessons[|lessons| - 1].id == id then Some(lessons[|lessons| - 1])
    else
      var r := FindLesson(lessons[..|lessons| - 1], id);
      assert forall i :: 0 <= i < |lessons| - 1 ==> lessons[..|lessons| - 1][i] == lessons[i];
      r
  }

  predicate IdsAscending(lessons: seq<Lesson>) {
    forall i, j :: 0 <= i < j < |lessons| ==> lessons[i].id < lessons[j].id
  }

  /** In a table with distinct ids, the row found is the one at that key. */
  lemma FindLessonAt(lessons: seq<Lesson>, k: int)
    requires IdsAscending(lessons) && 0 <= k < |lessons|
    ensures FindLesson(lessons, lessons[k].id) == Some(lessons[k])
  {
    var r := FindLesson(lessons, lessons[k].id);
    var i :| 0 <= i < |lessons| && lessons[i] == r.value;
  }

  /** The table after Room's delete of the row with key `id`: every other row, in order. */
  function WithoutLesson(lessons: seq<Lesson>, id: int): (r: seq<Lesson>)
    ensures forall l :: l in r <==> l in lessons && l.id != id
    ensures |r| <= |lessons|
  {
    if lessons == [] then []
    else
      var init := lessons[..|lessons| - 1];
      var last := lessons[|lessons| - 1];
      assert lessons == init + [last];
      if last.id == id then WithoutLesson(init, id) else WithoutLesson(init, id) + [last]
  }

  lemma {:induction false} WithoutLessonAscending(lessons: seq<Lesson>, id: int)
    requires IdsAscending(lessons)
    ensures IdsAscending(WithoutLesson(lessons, id))
  {
    if lessons != [] {
      var init := lessons[..|lessons| - 1];
      WithoutLessonAscending(init, id);
      var r := WithoutLesson(init, id);
      forall k | 0 <= k < |r| ensures r[k].id < lessons[|lessons| - 1].id {
        assert r[k] in init;
      }
    }
  }

  /** The cascade: recordings of the deleted lesson go with it, the others stay in order. */
  function WithoutRecordingsOf(recordings: seq<Recording>, lessonId: int): (r: seq<Recording>)
    ensures forall x :: x in r <==> x in recordings && x.lessonId != lessonId
  {
    if recordings == [] then []
    else
      var init := recordings[..|recordings| - 1];
      var last := recordings[|recordings| - 1];
      assert recordings == init + [last];
      if last.lessonId == lessonId then WithoutRecordingsOf(init, lessonId)
      else WithoutRecordingsOf(init, lessonId) + [last]
  }

  /** Room's delete of a recording: rows with a different key, in order. */
  function WithoutRecording(recordings: seq<Recording>, id: int): (r: seq<Recording>)
    ensures forall x :: x in r <==> x in recordings && x.id != id
  {
    if recordings == [] then []
    else
      var init := recordings[..|recordings| - 1];
      var last := recordings[|recordings| - 1];
      assert recordings == init + [last];
      if last.id == id then WithoutRecording(init, id) else WithoutRecording(init, id) + [last]
  }

  predicate RecordingIdsAscending(recordings: seq<Recording>) {
    forall i, j :: 0 <= i < j < |recordings| ==> recordings[i].id < recordings[j].id
  }

  lemma {:induction false} WithoutRecordingsOfAscending(recordings: seq<Recording>, lessonId: int)
    requires RecordingIdsAscending(recordings)
    ensures RecordingIdsAscending(WithoutRecordingsOf(recordings, lessonId))
  {
    if recordings != [] {
      var init := recordings[..|recordings| - 1];
      var last := recordings[|recordings| - 1];
      assert RecordingIdsAscending(init);
      WithoutRecordingsOfAscending(init, lessonId);
      var r := WithoutRecordingsOf(init, lessonId);
      forall k | 0 <= k < |r| ensures r[k].id < last.id {
        assert r[k] in init;
      }
    }
  }

  lemma {:induction false} WithoutRecordingAscending(recordings: seq<Recording>, id: int)
    requires RecordingIdsAscending(recordings)
    ensures RecordingIdsAscending(WithoutRecording(recordings, id))
  {
    if recordings != [] {
      var init := recordings[..|recordings| - 1];
      var last := recordings[|recordings| - 1];
      assert RecordingIdsAscending(init);
      WithoutRecordingAscending(init, id);
      var r := WithoutRecording(init, id);
      forall k | 0 <= k < |r| ensures r[k].id < last.id {
        assert r[k] in init;
      }
    }
  }

  predicate ForeignKeys(lessons: seq<Lesson>, recordings: seq<Recording>) {
    forall i :: 0 <= i < |recordings| ==> HasLessonId(lessons, recordings[i].lessonId)
  }

  predicate LessonIdsBelow(lessons: seq<Lesson>, next: int) {
    forall i :: 0 <= i < |lessons| ==> 1 <= lessons[i].id < next
  }

  predicate RecordingIdsBelow(recordings: seq<Recording>, next: int) {
    forall i :: 0 <= i < |recordings| ==> 1 <= recordings[i].id < next
  }

  /** The cascade keeps the foreign key: every remaining recording still has its lesson. */
  lemma CascadeKeepsForeignKeys(lessons: seq<Lesson>, recordings: seq<Recording>, id: int)
    requires ForeignKeys(lessons, recordings)
    ensures ForeignKeys(WithoutLesson(lessons, id), WithoutRecordingsOf(recordings, id))
  {
    var ls := WithoutLesson(lessons, id);
    var rs := WithoutRecordingsOf(recordings, id);
    forall i | 0 <= i < |rs| ensures HasLessonId(ls, rs[i].lessonId) {
      assert rs[i] in recordings;
      var j :| 0 <= j < |recordings| && recordings[j] == rs[i];
      var k :| 0 <= k < |lessons| && lessons[k].id == rs[i].lessonId;
      assert lessons[k] in ls;
    }
  }

  lemma FiltersKeepIdBounds(lessons: seq<Lesson>, recordings: seq<Recording>, id: int, nl: int, nr: int)
    requires LessonIdsBelow(lessons, nl) && RecordingIdsBelow(recordings, nr)
    ensures LessonIdsBelow(WithoutLesson(lessons, id), nl)
    ensures RecordingIdsBelow(WithoutRecordingsOf(recordings, id), nr)
    ensures RecordingIdsBelow(WithoutRecording(recordings, id), nr)
  {
    var ls := WithoutLesson(lessons, id);
    forall i | 0 <= i < |ls| ensures 1 <= ls[i].id < nl {
      assert ls[i] in lessons;
    }
    var rs := WithoutRecordingsOf(recordings, id);
    forall i | 0 <= i < |rs| ensures 1 <= rs[i].id < nr {
      assert rs[i] in recordings;
    }
    var rs2 := WithoutRecording(recordings, id);
    forall i | 0 <= i < |rs2| ensures 1 <= rs2[i].id < nr {
      assert rs2[i] in recordings;
    }
  }

  /** Room's update: the row with the same key takes the new values; no row is added. */
  lemma ReplaceKeepsIds(lessons: seq<Lesson>, l: Lesson, id: int)
    requires HasLessonId(lessons, id)
    ensures HasLessonId(ReplaceLesson(lessons, l), id)
  {
    var k :| 0 <= k < |lessons| && lessons[k].id == id;
    assert ReplaceLesson(lessons, l)[k].id == id;
  }

  function ReplaceLesson(lessons: seq<Lesson>, l: Lesson): (r: seq<Lesson>)
    ensures |r| == |lessons|
    ensures forall i :: 0 <= i < |r| ==> r[i].id == lessons[i].id
    ensures forall i :: 0 <= i < |r| && lessons[i].id == l.id ==> r[i] == l
    ensures forall i :: 0 <= i < |r| && lessons[i].id != l.id ==> r[i] == lessons[i]
    ensures !HasLessonId(lessons, l.id) ==> r == lessons
  {
    seq(|lessons|, i requires 0 <= i < |lessons| => if lessons[i].id == l.id then l else lessons[i])
  }

  class Database {
    /** The `lessons` table in ascending id order (`getAllLessonsSync`). */
    var lessons: seq<Lesson>
    /** The `user_recordings` table in insertion order. */
    var recordings: seq<Recording>
    /** The next auto-generated ids. */
    var nextLessonId: int
    var nextRecordingId: int

    ghost predicate Valid()
      reads this
    {
      && 1 <= nextLessonId && 1 <= nextRecordingId
      && IdsAscending(lessons) && LessonIdsBelow(lessons, nextLessonId)
      && RecordingIdsAscending(recordings) && RecordingIdsBelow(recordings, nextRecordingId)
      && ForeignKeys(lessons, recordings)
    }

    constructor ()
      ensures Valid() && lessons == [] && recordings == []
    {
      lessons := [];
      recordings := [];
      nextLessonId := 1;
      nextRecordingId := 1;
    }

    /** `getLesson(id)`. */
    function GetLesson(id: int): (r: Option<Lesson>)
      reads this
      ensures r.Some? <==> HasLessonId(lessons, id)
      ensures r.Some? ==> r.value.id == id && r.value in lessons
    {
      FindLesson(lessons, id)
    }

    /**
     * `insertLesson` of a lesson with id 0 (every caller passes 0): the row
     * gets a fresh id, larger than any before, which is returned.
     */
    method InsertLesson(l: Lesson) returns (id: int)
      requires Valid()
      modifies this
      ensures Valid()
      ensures id == old(nextLessonId) && nextLessonId == id + 1
      ensures lessons == old(lessons) + [l.(id := id)]
      ensures recordings == old(recordings) && nextRecordingId == old(nextRecordingId)
    {
      id := nextLessonId;
      lessons := lessons + [l.(id := id)];
      nextLessonId := nextLessonId + 1;
      forall i | 0 <= i < |recordings| ensures HasLessonId(lessons, recordings[i].lessonId) {
        HasLessonIdSnoc(old(lessons), l.(id := id), recordings[i].lessonId);
      }
    }

    /** `updateLesson`: rewrites the row with the same id, if there is one. */
    method UpdateLesson(l: Lesson)
      requires Valid()
      modifies this
      ensures Valid()
      ensures lessons == ReplaceLesson(old(lessons), l)
      ensures recordings == old(recordings)
      ensures nextLessonId == old(nextLessonId) && nextRecordingId == old(nextRecordingId)
    {
      ghost var before := lessons;
      lessons := ReplaceLesson(lessons, l);
      forall i | 0 <= i < |recordings| ensures HasLessonId(lessons, recordings[i].lessonId) {
        ReplaceKeepsIds(before, l, recordings[i].lessonId);
      }
    }

    /** `deleteLesson`: removes the row with that id and, by the cascade, its recordings. */
    method DeleteLesson(l: Lesson)
      requires Valid()
      modifies this
      ensures Valid()
      ensures lessons == WithoutLesson(old(lessons), l.id)
      ensures recordings == WithoutRecordingsOf(old(recordings), l.id)
      ensures nextLessonId == old(nextLessonId) && nextRecordingId == old(nextRecordingId)
    {
      WithoutLessonAscending(lessons, l.id);
      WithoutRecordingsOfAscending(recordings, l.id);
      CascadeKeepsForeignKeys(lessons, recordings, l.id);
      FiltersKeepIdBounds(lessons, recordings, l.id, nextLessonId, nextRecordingId);
      lessons := WithoutLesson(lessons, l.id);
      recordings := WithoutRecordingsOf(recordings, l.id);
    }

    /** `insertRecording` of a recording with id 0; the foreign key demands its lesson exist. */
    method InsertRecording(r: Recording) returns (id: int)
      requires Valid() && HasLessonId(lessons, r.lessonId)
      modifies this
      ensures Valid()
      ensures id == old(nextRecordingId) && nextRecordingId == id + 1
      ensures recordings == old(recordings) + [r.(id := id)]
      ensures lessons == old(lessons) && nextLessonId == old(nextLessonId)
    {
      id := nextRecordingId;
      recordings := recordings + [r.(id := id)];
      nextRecordingId := nextRecordingId + 1;
    }

    /** `deleteRecording`: removes the row with that id. */
    method DeleteRecording(r: Recording)
      requires Valid()
      modifies this
      ensures Valid()
      ensures recordings == WithoutRecording(old(recordings), r.id)
      ensures lessons == old(lessons)
      ensures nextLessonId == old(nextLessonId) && nextRecordingId == old(nextRecordingId)
    {
      WithoutRecordingAscending(recordings, r.id);
      FiltersKeepIdBounds(lessons, recordings, r.id, nextLessonId, nextRecordingId);
      var rs := WithoutRecording(recordings, r.id);
      forall i | 0 <= i < |rs| ensures HasLessonId(lessons, rs[i].lessonId) {
        assert rs[i] in recordings;
      }
      recordings := rs;
    }
  }
}
