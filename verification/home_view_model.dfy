/**
 * `HomeViewModel` (ui/home/HomeViewModel.kt): the first-start import of the
 * built-in lessons shipped as raw resources, and the deletion of a lesson
 * with its audio file. The app's raw resources are a parameter: a resource
 * exists exactly when its name is a key of the map (`getIdentifier` returns
 * 0 otherwise).
 */
module HomeViewModel {
  import opened Text
  import opened Wrappers
  import opened Entities
  import opened Files
  import opened Store
  import opened Collections

  /** The raw resources by name: audio as bytes, lesson scripts as text. */
  datatype RawResources = RawResources(audio: map<string, Bytes>, text: map<string, string>)

  /** The last index the bootstrap tries. */
  const LastBuiltIn := 20

  /** `String.format("%02d", i)`: the suffix of the resource and file names. */
  function Suffix(i: int): string {
    ZeroPad2(i)
  }

  function AudioResource(i: int): string {
    "lesson_" + Suffix(i)
  }

  function TextResource(i: int): string {
    "lesson_" + Suffix(i) + "_text"
  }

  /** The name of the copied audio file in the app's storage directory. */
  function AudioFileName(i: int): string {
    "lesson_" + Suffix(i) + ".opus"
  }

  /** The title a built-in lesson is given, and that the bootstrap looks for. */
  function BuiltInTitle(i: int): string {
    "Lesson " + Decimal(i)
  }

  /** The title snapshot: one title per lesson, and exactly the lessons' titles. */
  function Titles(lessons: seq<Lesson>): (r: seq<string>)
    ensures |r| == |lessons| && forall k :: 0 <= k < |lessons| ==> r[k] == lessons[k].title
    ensures forall x :: x in r <==> exists l :: l in lessons && l.title == x
  {
    seq(|lessons|, k requires 0 <= k < |lessons| => lessons[k].title)
  }

  /** `lessonsInDb.any { it.contains("Lesson $i") }`: a substring test, not an equality. */
  predicate AlreadyImported(titles: seq<string>, i: int) {
    exists k :: 0 <= k < |titles| && Contains(titles[k], BuiltInTitle(i))
  }

  /** Lesson `i` is imported when both its resources exist and no title snapshot mentions it. */
  predicate ShouldImport(res: RawResources, titles: seq<string>, i: int) {
    AudioResource(i) in res.audio && TextResource(i) in res.text && !AlreadyImported(titles, i)
  }

  /** The lesson `importLesson` inserts (before the database gives it an id). */
  function BuiltInLesson(i: int, filesDir: string, text: string): Lesson {
    Lesson(0, BuiltInTitle(i), "English", "Neutral", text, Child(filesDir, AudioFileName(i)), true)
  }

  // ---------------------------------------------------------------------------
  // The selection loop as functions

  /** The indices among 1..n the bootstrap imports, in the order it imports them. */
  function ImportedIndices(res: RawResources, titles: seq<string>, n: int): (r: seq<int>)
    ensures forall k :: 0 <= k < |r| ==> AudioResource(r[k]) in res.audio && TextResource(r[k]) in res.text
    decreases n
  {
    if n <= 0 then []
    else ImportedIndices(res, titles, n - 1) + (if ShouldImport(res, titles, n) then [n] else [])
  }

  /** The rows inserted for the indices `idx`, with consecutive ids from `firstId`. */
  function ImportedRows(res: RawResources, idx: seq<int>, filesDir: string, firstId: int): (r: seq<Lesson>)
    requires forall k :: 0 <= k < |idx| ==> TextResource(idx[k]) in res.text
    ensures |r| == |idx|
  {
    seq(|idx|, k requires 0 <= k < |idx| =>
      BuiltInLesson(idx[k], filesDir, res.text[TextResource(idx[k])]).(id := firstId + k))
  }

  /** The storage after the audio of the indices `idx` has been copied where it was absent. */
  function ImportedFiles(res: RawResources, idx: seq<int>, filesDir: string, files: map<string, Bytes>): map<string, Bytes>
    requires forall k :: 0 <= k < |idx| ==> AudioResource(idx[k]) in res.audio
  {
    if idx == [] then files
    else
      var before := ImportedFiles(res, idx[..|idx| - 1], filesDir, files);
      var i := idx[|idx| - 1];
      var path := Child(filesDir, AudioFileName(i));
      if path in before then before else before[path := res.audio[AudioResource(i)]]
  }

  /** Lesson `i` is imported exactly when it lies in 1..n and passes the test. */
  lemma {:induction false} ImportedIndicesExact(res: RawResources, titles: seq<string>, n: int)
    ensures forall i :: i in ImportedIndices(res, titles, n) <==> 1 <= i <= n && ShouldImport(res, titles, i)
    decreases n
  {
    if n > 0 {
      ImportedIndicesExact(res, titles, n - 1);
      var prev := ImportedIndices(res, titles, n - 1);
      var t: seq<int> := if ShouldImport(res, titles, n) then [n] else [];
      assert ImportedIndices(res, titles, n) == prev + t;
      forall i ensures i in prev + t <==> 1 <= i <= n && ShouldImport(res, titles, i) {
        assert i in prev + t <==> i in prev || i in t;
      }
    }
  }

  lemma {:induction false} ImportedIndicesBetween(res: RawResources, titles: seq<string>, n: int)
    ensures forall k :: 0 <= k < |ImportedIndices(res, titles, n)| ==> 1 <= ImportedIndices(res, titles, n)[k] <= n
    decreases n
  {
    if n > 0 {
      ImportedIndicesBetween(res, titles, n - 1);
      var prev := ImportedIndices(res, titles, n - 1);
      var t: seq<int> := if ShouldImport(res, titles, n) then [n] else [];
      assert ImportedIndices(res, titles, n) == prev + t;
      forall k | 0 <= k < |prev + t| ensures 1 <= (prev + t)[k] <= n {
        if k < |prev| {
          assert (prev + t)[k] == prev[k];
        }
      }
    }
  }

  predicate StrictlyAscending(s: seq<int>) {
    forall a, b :: 0 <= a < b < |s| ==> s[a] < s[b]
  }

  /** The bootstrap imports in ascending order of index. */
  lemma {:induction false} ImportedIndicesAscending(res: RawResources, titles: seq<string>, n: int)
    ensures StrictlyAscending(ImportedIndices(res, titles, n))
    decreases n
  {
    if n > 0 {
      ImportedIndicesAscending(res, titles, n - 1);
      ImportedIndicesBetween(res, titles, n - 1);
      var prev := ImportedIndices(res, titles, n - 1);
      var t: seq<int> := if ShouldImport(res, titles, n) then [n] else [];
      assert ImportedIndices(res, titles, n) == prev + t;
      AscendingSnoc(prev, t, n);
    }
  }

  lemma AscendingSnoc(prev: seq<int>, t: seq<int>, n: int)
    requires StrictlyAscending(prev)
    requires forall k :: 0 <= k < |prev| ==> prev[k] < n
    requires t == [] || t == [n]
    ensures StrictlyAscending(prev + t)
  {
    var idx := prev + t;
    forall a, b | 0 <= a < b < |idx| ensures idx[a] < idx[b] {
      assert idx[a] == prev[a];
      if b < |prev| {
        assert idx[b] == prev[b];
      } else {
        assert idx[b] == n;
      }
    }
  }

  /** A title snapshot that says nothing about any index in 1..n leads to no import. */
  lemma {:induction false} NothingToImport(res: RawResources, titles: seq<string>, n: int)
    requires forall i :: 1 <= i <= n ==> !ShouldImport(res, titles, i)
    ensures ImportedIndices(res, titles, n) == []
    decreases n
  {
    if n > 0 {
      NothingToImport(res, titles, n - 1);
    }
  }

  // ---------------------------------------------------------------------------
  // Names

  /** Below 100 the suffix is exactly two digits. */
  lemma SuffixDigits(i: int)
    requires 0 <= i < 100
    ensures Suffix(i) == [DigitChar(i / 10), DigitChar(i % 10)]
  {
    ZeroPad2TwoDigits(i);
  }

  /** The audio file of lesson `i` sits directly in the storage directory under `lesson_<dd>.opus`. */
  lemma BuiltInAudioPath(i: int, filesDir: string)
    requires 0 <= i < 100
    ensures Basename(Child(filesDir, AudioFileName(i))) == "lesson_" + [DigitChar(i / 10), DigitChar(i % 10)] + ".opus"
  {
    SuffixDigits(i);
    var name := AudioFileName(i);
    assert NoSlash(name) by {
      forall k | 0 <= k < |name| ensures name[k] != '/' {
        if 7 <= k < 9 { assert name[k] == Suffix(i)[k - 7]; }
      }
    }
    BasenameOfChild(filesDir, name);
  }

  /** Different lessons below 100 have different audio files. */
  lemma AudioFilesDistinct(i: int, j: int, filesDir: string)
    requires 0 <= i < 100 && 0 <= j < 100 && i != j
    ensures Child(filesDir, AudioFileName(i)) != Child(filesDir, AudioFileName(j))
  {
    SuffixDigits(i);
    SuffixDigits(j);
    var p, q := Child(filesDir, AudioFileName(i)), Child(filesDir, AudioFileName(j));
    var n := |filesDir| + 8;
    assert p[n] == DigitChar(i / 10) && p[n + 1] == DigitChar(i % 10);
    assert q[n] == DigitChar(j / 10) && q[n + 1] == DigitChar(j % 10);
    if i / 10 == j / 10 {
      assert i % 10 != j % 10;
      assert p[n + 1] != q[n + 1];
    } else {
      assert p[n] != q[n];
    }
  }

  /** The substring test: an existing "Lesson 10" stops "Lesson 1" from being imported. */
  lemma LessonTenBlocksLessonOne()
    ensures AlreadyImported(["Lesson 10"], 1)
    ensures BuiltInTitle(1) == "Lesson 1"
  {
    assert BuiltInTitle(1) == "Lesson 1";
    assert StartsWith("Lesson 10", "Lesson 1");
    assert Contains(["Lesson 10"][0], BuiltInTitle(1));
  }

  /** Copying only absent files: a file present before the import keeps its contents. */
  lemma {:induction false} ImportNeverOverwrites(res: RawResources, idx: seq<int>, filesDir: string, files: map<string, Bytes>, p: string)
    requires forall k :: 0 <= k < |idx| ==> AudioResource(idx[k]) in res.audio
    requires p in files
    ensures var r := ImportedFiles(res, idx, filesDir, files); p in r && r[p] == files[p]
    decreases |idx|
  {
    if idx != [] {
      ImportNeverOverwrites(res, idx[..|idx| - 1], filesDir, files, p);
    }
  }

  /** After the import every imported lesson's audio file exists. */
  lemma {:induction false} ImportedAudioExists(res: RawResources, idx: seq<int>, filesDir: string, files: map<string, Bytes>, k: int)
    requires forall k :: 0 <= k < |idx| ==> AudioResource(idx[k]) in res.audio
    requires 0 <= k < |idx|
    ensures Child(filesDir, AudioFileName(idx[k])) in ImportedFiles(res, idx, filesDir, files)
    decreases |idx|
  {
    var init := idx[..|idx| - 1];
    if k < |idx| - 1 {
      assert init[k] == idx[k];
      ImportedAudioExists(res, init, filesDir, files, k);
      var before := ImportedFiles(res, init, filesDir, files);
      var path := Child(filesDir, AudioFileName(idx[|idx| - 1]));
      if path !in before {
        assert ImportedFiles(res, idx, filesDir, files) == before[path := res.audio[AudioResource(idx[|idx| - 1])]];
      }
    }
  }

  lemma TitlesAppend(a: seq<Lesson>, b: seq<Lesson>)
    ensures Titles(a + b) == Titles(a) + Titles(b)
  {
    assert forall k :: 0 <= k < |a + b| ==> Titles(a + b)[k] == (Titles(a) + Titles(b))[k];
  }

  /** More titles never unmark a lesson as imported. */
  lemma AlreadyImportedAfter(titles: seq<string>, extra: seq<string>, i: int)
    requires AlreadyImported(titles, i)
    ensures AlreadyImported(titles + extra, i)
  {
    var k :| 0 <= k < |titles| && Contains(titles[k], BuiltInTitle(i));
    assert (titles + extra)[k] == titles[k];
  }

  /** A title equal to the built-in title marks that lesson as imported. */
  lemma ImportedTitleFound(titles: seq<string>, extra: seq<string>, k: int, i: int)
    requires 0 <= k < |extra| && extra[k] == BuiltInTitle(i)
    ensures AlreadyImported(titles + extra, i)
  {
    ContainsSelf(BuiltInTitle(i));
    assert (titles + extra)[|titles| + k] == BuiltInTitle(i);
  }

  /**
   * The bootstrap is idempotent: with the same resources, a second run over
   * the titles after the first inserts nothing, since every imported title
   * contains itself and every earlier title is still there.
   */
  lemma SecondBootstrapImportsNothing(res: RawResources, lessons: seq<Lesson>, filesDir: string, firstId: int, n: int)
    ensures var titles := Titles(lessons);
      var idx := ImportedIndices(res, titles, n);
      var after := lessons + ImportedRows(res, idx, filesDir, firstId);
      ImportedIndices(res, Titles(after), n) == []
  {
    var titles := Titles(lessons);
    var idx := ImportedIndices(res, titles, n);
    ImportedIndicesExact(res, titles, n);
    var rows := ImportedRows(res, idx, filesDir, firstId);
    TitlesAppend(lessons, rows);
    var extra := Titles(rows);
    forall i | 1 <= i <= n ensures !ShouldImport(res, titles + extra, i) {
      if AlreadyImported(titles, i) {
        AlreadyImportedAfter(titles, extra, i);
      } else if AudioResource(i) in res.audio && TextResource(i) in res.text {
        assert i in idx;
        var k :| 0 <= k < |idx| && idx[k] == i;
        assert extra[k] == rows[k].title == BuiltInTitle(i);
        ImportedTitleFound(titles, extra, k, i);
      }
    }
    NothingToImport(res, titles + extra, n);
  }

  // ---------------------------------------------------------------------------
  // The methods

  /**
   * `importLesson`: copies the audio into storage unless that file already
   * exists, then inserts the built-in lesson with the script as its text.
   */
  method ImportLesson(db: Database, fs: FileSystem, res: RawResources, filesDir: string, i: int) returns (id: int)
    requires db.Valid() && AudioResource(i) in res.audio && TextResource(i) in res.text
    modifies db, fs
    ensures db.Valid()
    ensures id == old(db.nextLessonId) && db.nextLessonId == id + 1
    ensures db.lessons == old(db.lessons) + [BuiltInLesson(i, filesDir, res.text[TextResource(i)]).(id := id)]
    ensures db.recordings == old(db.recordings) && db.nextRecordingId == old(db.nextRecordingId)
    ensures var path := Child(filesDir, AudioFileName(i));
      fs.files == if path in old(fs.files) then old(fs.files) else old(fs.files)[path := res.audio[AudioResource(i)]]
  {
    var audioFile := Child(filesDir, AudioFileName(i));
    if !fs.Exists(audioFile) {
      fs.Write(audioFile, res.audio[AudioResource(i)]);
    }
    var textContent := res.text[TextResource(i)];
    var lesson := Lesson(0, BuiltInTitle(i), "English", "Neutral", textContent, audioFile, true);
    id := db.InsertLesson(lesson);
  }

  /** Turn `i` of the loop adds index `i` when it passes the test, and nothing otherwise. */
  lemma IndicesTurn(res: RawResources, titles: seq<string>, i: int)
    requires 1 <= i
    ensures ImportedIndices(res, titles, i)
      == if ShouldImport(res, titles, i) then ImportedIndices(res, titles, i - 1) + [i] else ImportedIndices(res, titles, i - 1)
  {
    if !ShouldImport(res, titles, i) {
      assert ImportedIndices(res, titles, i - 1) + [] == ImportedIndices(res, titles, i - 1);
    }
  }

  lemma RowsTurn(res: RawResources, idx: seq<int>, i: int, filesDir: string, firstId: int, newId: int)
    requires forall k :: 0 <= k < |idx| ==> TextResource(idx[k]) in res.text
    requires TextResource(i) in res.text && newId == firstId + |idx|
    ensures ImportedRows(res, idx + [i], filesDir, firstId)
      == ImportedRows(res, idx, filesDir, firstId) + [BuiltInLesson(i, filesDir, res.text[TextResource(i)]).(id := newId)]
  {
    var a := ImportedRows(res, idx + [i], filesDir, firstId);
    var b := ImportedRows(res, idx, filesDir, firstId) + [BuiltInLesson(i, filesDir, res.text[TextResource(i)]).(id := newId)];
    forall k | 0 <= k < |a| ensures a[k] == b[k] {
      if k < |idx| {
        assert (idx + [i])[k] == idx[k];
      }
    }
  }

  lemma FilesTurn(res: RawResources, idx: seq<int>, i: int, filesDir: string, files0: map<string, Bytes>)
    requires forall k :: 0 <= k < |idx| ==> AudioResource(idx[k]) in res.audio
    requires AudioResource(i) in res.audio
    ensures var before := ImportedFiles(res, idx, filesDir, files0);
      var path := Child(filesDir, AudioFileName(i));
      ImportedFiles(res, idx + [i], filesDir, files0)
        == if path in before then before else before[path := res.audio[AudioResource(i)]]
  {
    assert (idx + [i])[..|idx|] == idx;
  }

  /** The state of the bootstrap after the indices below `i` (the loop invariant). */
  ghost predicate Bootstrapped(db: Database, fs: FileSystem, res: RawResources, titles: seq<string>, filesDir: string,
                               i: int, firstId: int, lessons0: seq<Lesson>, recordings0: seq<Recording>,
                               nextRecordingId0: int, files0: map<string, Bytes>)
    reads db, fs
  {
    var idx := ImportedIndices(res, titles, i - 1);
    && db.Valid()
    && db.lessons == lessons0 + ImportedRows(res, idx, filesDir, firstId)
    && db.nextLessonId == firstId + |idx|
    && db.recordings == recordings0 && db.nextRecordingId == nextRecordingId0
    && fs.files == ImportedFiles(res, idx, filesDir, files0)
  }

  /** A turn of the loop in which lesson `i` passes the test and is imported. */
  method ImportTurn(db: Database, fs: FileSystem, res: RawResources, titles: seq<string>, filesDir: string, i: int,
                    ghost firstId: int, ghost lessons0: seq<Lesson>, ghost recordings0: seq<Recording>,
                    ghost nextRecordingId0: int, ghost files0: map<string, Bytes>)
    requires 1 <= i && ShouldImport(res, titles, i)
    requires Bootstrapped(db, fs, res, titles, filesDir, i, firstId, lessons0, recordings0, nextRecordingId0, files0)
    modifies db, fs
    ensures Bootstrapped(db, fs, res, titles, filesDir, i + 1, firstId, lessons0, recordings0, nextRecordingId0, files0)
  {
    ghost var idx := ImportedIndices(res, titles, i - 1);
    IndicesTurn(res, titles, i);
    ghost var before := db.lessons;
    var newId := ImportLesson(db, fs, res, filesDir, i);
    RowsTurn(res, idx, i, filesDir, firstId, newId);
    AppendSnoc(lessons0, before, db.lessons, ImportedRows(res, idx, filesDir, firstId),
      ImportedRows(res, idx + [i], filesDir, firstId), BuiltInLesson(i, filesDir, res.text[TextResource(i)]).(id := newId));
    FilesTurn(res, idx, i, filesDir, files0);
  }

  /** One turn of the loop: lesson `i` is imported when it passes the test. */
  method BootstrapStep(db: Database, fs: FileSystem, res: RawResources, titles: seq<string>, filesDir: string, i: int,
                       ghost firstId: int, ghost lessons0: seq<Lesson>, ghost recordings0: seq<Recording>,
                       ghost nextRecordingId0: int, ghost files0: map<string, Bytes>)
    requires 1 <= i
    requires Bootstrapped(db, fs, res, titles, filesDir, i, firstId, lessons0, recordings0, nextRecordingId0, files0)
    modifies db, fs
    ensures Bootstrapped(db, fs, res, titles, filesDir, i + 1, firstId, lessons0, recordings0, nextRecordingId0, files0)
  {
    if AudioResource(i) in res.audio && TextResource(i) in res.text {
      var isAlreadyImported := AlreadyImported(titles, i);
      if !isAlreadyImported {
        ImportTurn(db, fs, res, titles, filesDir, i, firstId, lessons0, recordings0, nextRecordingId0, files0);
        return;
      }
    }
    IndicesTurn(res, titles, i);
  }

  /**
   * `importBuiltInLessons`: takes the titles once, then for 1..20 in order
   * imports every lesson whose resources exist and whose title is not yet
   * mentioned by a snapshot title.
   */
  method ImportBuiltInLessons(db: Database, fs: FileSystem, res: RawResources, filesDir: string)
    requires db.Valid()
    modifies db, fs
    ensures db.Valid()
    ensures var titles := Titles(old(db.lessons));
      var idx := ImportedIndices(res, titles, LastBuiltIn);
      && db.lessons == old(db.lessons) + ImportedRows(res, idx, filesDir, old(db.nextLessonId))
      && db.nextLessonId == old(db.nextLessonId) + |idx|
      && fs.files == ImportedFiles(res, idx, filesDir, old(fs.files))
    ensures db.recordings == old(db.recordings) && db.nextRecordingId == old(db.nextRecordingId)
  {
    var lessonsInDb := Titles(db.lessons);
    ghost var firstId, lessons0, recordings0, next0, files0 := db.nextLessonId, db.lessons, db.recordings, db.nextRecordingId, fs.files;
    assert db.lessons == lessons0 + [];
    for i := 1 to LastBuiltIn + 1
      invariant Bootstrapped(db, fs, res, lessonsInDb, filesDir, i, firstId, lessons0, recordings0, next0, files0)
    {
      BootstrapStep(db, fs, res, lessonsInDb, filesDir, i, firstId, lessons0, recordings0, next0, files0);
    }
  }

  /**
   * `deleteLesson`: a user lesson's audio file is deleted (when it exists),
   * a built-in lesson's never; the row always goes, with its recordings.
   */
  method DeleteLesson(db: Database, fs: FileSystem, lesson: Lesson)
    requires db.Valid()
    modifies db, fs
    ensures db.Valid()
    ensures fs.files == if lesson.isBuiltIn then old(fs.files) else old(fs.files) - {lesson.referenceAudioPath}
    ensures db.lessons == WithoutLesson(old(db.lessons), lesson.id)
    ensures db.recordings == WithoutRecordingsOf(old(db.recordings), lesson.id)
    ensures db.nextLessonId == old(db.nextLessonId) && db.nextRecordingId == old(db.nextRecordingId)
  {
    if !lesson.isBuiltIn {
      if fs.Exists(lesson.referenceAudioPath) {
        fs.Delete(lesson.referenceAudioPath);
      }
    }
    db.DeleteLesson(lesson);
  }
}
