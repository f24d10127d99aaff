/**
 * `BackupManager` (data/BackupManager.kt): export of both tables and the
 * audio they refer to into an archive, and import of such an archive
 * into the current tables with fresh ids, remapped lesson references and
 * a placement policy for the audio files.
 *
 * The archive is the sequence of its named entries, in order; the JSON
 * codec is a pair of functions given as parameters, and the lemmas that
 * need it ask that decoding undoes encoding. The audio extracted from an
 * archive is a map from file name to contents (the scratch directory).
 */
module Backup {
  import opened Text
  import opened Wrappers
  import opened Entities
  import opened Collections
  import opened Files
  import opened Store

  /** `BackupData`: the two tables as they were exported. */
  datatype BackupData = BackupData(lessons: seq<Lesson>, recordings: seq<Recording>)

  /** One archive entry: its name and its bytes. */
  datatype Entry = Entry(name: string, bytes: Bytes)

  /** What `gson.fromJson` gives for an entry: malformed text throws, empty text yields null. */
  datatype Decoded = Malformed | JsonNull | Data(data: BackupData)

  const MetadataName := "metadata.json"
  const AudioPrefix := "audio/"

  /** A round trip of the codec: decoding what was encoded gives it back. */
  ghost predicate RoundTrip(encode: BackupData -> Bytes, decode: Bytes -> Decoded) {
    forall d :: decode(encode(d)) == Data(d)
  }

  // ---------------------------------------------------------------------------
  // Export
  // ---------------------------------------------------------------------------

  /** The lessons' audio paths: one per lesson, and exactly those paths. */
  function LessonPaths(lessons: seq<Lesson>): (r: seq<string>)
    ensures |r| == |lessons| && forall i :: 0 <= i < |r| ==> r[i] == lessons[i].referenceAudioPath
    ensures forall p :: p in r <==> exists l :: l in lessons && l.referenceAudioPath == p
  {
    seq(|lessons|, i requires 0 <= i < |lessons| => lessons[i].referenceAudioPath)
  }

  /** The recordings' audio paths: one per recording, and exactly those paths. */
  function RecordingPaths(recordings: seq<Recording>): (r: seq<string>)
    ensures |r| == |recordings| && forall i :: 0 <= i < |r| ==> r[i] == recordings[i].audioPath
    ensures forall p :: p in r <==> exists x :: x in recordings && x.audioPath == p
  {
    seq(|recordings|, i requires 0 <= i < |recordings| => recordings[i].audioPath)
  }

  /**
   * The insertion-ordered set `filesToBackup`: lesson audio paths, then
   * recording audio paths, each kept at its first occurrence.
   */
  function BackupPaths(lessons: seq<Lesson>, recordings: seq<Recording>): seq<string> {
    Distinct(AllPaths(lessons, recordings))
  }

  /** The entry for an existing audio file: `audio/` and the file's name. */
  function AudioEntry(path: string, bytes: Bytes): Entry {
    Entry(AudioPrefix + Basename(path), bytes)
  }

  /** One entry per path that exists, in path order; a missing path gives none. */
  function AudioEntries(paths: seq<string>, files: map<string, Bytes>): seq<Entry> {
    if paths == [] then []
    else
      var p := paths[|paths| - 1];
      AudioEntries(paths[..|paths| - 1], files) + (if p in files then [AudioEntry(p, files[p])] else [])
  }

  /** The archive `exportBackup` writes: the metadata entry, then the audio entries. */
  function ExportSpec(lessons: seq<Lesson>, recordings: seq<Recording>, files: map<string, Bytes>,
                      encode: BackupData -> Bytes): seq<Entry>
  {
    [Entry(MetadataName, encode(BackupData(lessons, recordings)))] + AudioEntries(BackupPaths(lessons, recordings), files)
  }

  /**
   * The audio entries are exactly those of the paths that exist, and when
   * the paths are distinct there is one entry per existing path.
   */
  lemma {:induction false} AudioEntriesExact(paths: seq<string>, files: map<string, Bytes>)
    ensures forall e :: e in AudioEntries(paths, files) <==>
      exists p :: p in paths && p in files && e == AudioEntry(p, files[p])
    ensures NoDuplicates(paths) ==> |AudioEntries(paths, files)| == |set p | p in paths && p in files|
  {
    if paths != [] {
      var init := paths[..|paths| - 1];
      var p := paths[|paths| - 1];
      assert paths == init + [p];
      AudioEntriesExact(init, files);
      if NoDuplicates(paths) {
        assert NoDuplicates(init);
        assert p !in init;
        var s0 := set q | q in init && q in files;
        var s1 := set q | q in paths && q in files;
        if p in files {
          assert s1 == s0 + {p};
        } else {
          assert s1 == s0;
        }
      }
    }
  }

  /** Every audio path the tables refer to: lesson paths, then recording paths. */
  function AllPaths(lessons: seq<Lesson>, recordings: seq<Recording>): (r: seq<string>)
    ensures forall p :: p in r <==>
      (exists i :: 0 <= i < |lessons| && lessons[i].referenceAudioPath == p)
      || (exists i :: 0 <= i < |recordings| && recordings[i].audioPath == p)
  {
    var r := LessonPaths(lessons) + RecordingPaths(recordings);
    assert forall i :: 0 <= i < |recordings| ==> r[|lessons| + i] == recordings[i].audioPath;
    r
  }

  /** The exported archive starts with the metadata, which decodes to both tables unchanged. */
  lemma ExportMetadataFirst(lessons: seq<Lesson>, recordings: seq<Recording>, files: map<string, Bytes>,
                            encode: BackupData -> Bytes, decode: Bytes -> Decoded)
    requires RoundTrip(encode, decode)
    ensures var r := ExportSpec(lessons, recordings, files, encode);
      |r| >= 1 && r[0].name == MetadataName && decode(r[0].bytes) == Data(BackupData(lessons, recordings))
  {
  }

  /**
   * After the metadata, the archive holds exactly the `audio/` entries of
   * the lesson and recording paths that exist, each with that file's bytes,
   * one per distinct existing path; missing paths are skipped.
   */
  lemma ExportAudio(lessons: seq<Lesson>, recordings: seq<Recording>, files: map<string, Bytes>,
                    encode: BackupData -> Bytes)
    ensures var r := ExportSpec(lessons, recordings, files, encode);
      && (forall e :: e in r[1..] <==>
            exists p :: p in AllPaths(lessons, recordings) && p in files && e == AudioEntry(p, files[p]))
      && |r| == 1 + |set p | p in AllPaths(lessons, recordings) && p in files|
  {
    var r := ExportSpec(lessons, recordings, files, encode);
    var all := AllPaths(lessons, recordings);
    var ps := BackupPaths(lessons, recordings);
    AudioEntriesExact(ps, files);
    assert r[1..] == AudioEntries(ps, files);
    assert (set p | p in ps && p in files) == (set p | p in all && p in files);
  }

  /**
   * Adding paths to the insertion-ordered set `filesToBackup`: a path
   * already present is skipped, so the set stays the first occurrences of
   * everything added so far.
   */
  method AddPaths(filesToBackup: seq<string>, ghost added: seq<string>, paths: seq<string>) returns (r: seq<string>)
    requires filesToBackup == Distinct(added)
    ensures r == Distinct(added + paths)
  {
    r := filesToBackup;
    var i := 0;
    assert added + paths[..0] == added;
    while i < |paths|
      invariant 0 <= i <= |paths|
      invariant r == Distinct(added + paths[..i])
    {
      assert added + paths[..i + 1] == (added + paths[..i]) + [paths[i]];
      DistinctSnoc(added + paths[..i], paths[i]);
      if paths[i] !in r {
        r := r + [paths[i]];
      }
      i := i + 1;
    }
    assert paths[..i] == paths;
  }

  /** The loop that writes the audio entries: one per path whose file exists, in path order. */
  method AppendAudioEntries(fs: FileSystem, archive: seq<Entry>, paths: seq<string>) returns (r: seq<Entry>)
    ensures r == archive + AudioEntries(paths, fs.files)
  {
    r := archive;
    var k := 0;
    while k < |paths|
      invariant 0 <= k <= |paths|
      invariant r == archive + AudioEntries(paths[..k], fs.files)
    {
      var path := paths[k];
      assert paths[..k + 1][..k] == paths[..k];
      if fs.Exists(path) {
        r := r + [AudioEntry(path, fs.files[path])];
      }
      k := k + 1;
    }
    assert paths[..k] == paths;
  }

  /** `exportBackup`: reads both tables and the files, changes nothing, returns the archive. */
  method ExportBackup(db: Database, fs: FileSystem, encode: BackupData -> Bytes) returns (archive: seq<Entry>)
    ensures archive == ExportSpec(db.lessons, db.recordings, fs.files, encode)
  {
    var lessons := db.lessons;
    var recordings := db.recordings;
    archive := [Entry(MetadataName, encode(BackupData(lessons, recordings)))];
    assert [] + LessonPaths(lessons) == LessonPaths(lessons);
    var filesToBackup := AddPaths([], [], LessonPaths(lessons));
    filesToBackup := AddPaths(filesToBackup, LessonPaths(lessons), RecordingPaths(recordings));
    archive := AppendAudioEntries(fs, archive, filesToBackup);
  }

  // ---------------------------------------------------------------------------
  // Reading an archive
  // ---------------------------------------------------------------------------

  /** What the entry loop of `importBackup` leaves: the metadata, and the extracted audio by name. */
  datatype Extracted = Extracted(metadata: Option<BackupData>, scratch: map<string, Bytes>)

  predicate IsAudioEntry(name: string) {
    StartsWith(name, AudioPrefix)
  }

  /**
   * One turn of the entry loop: `metadata.json` is decoded (a malformed one
   * throws, which ends the import), an `audio/` entry is extracted under its
   * file name, anything else is skipped. An `audio/` entry whose file name
   * resolves to a directory (`audio/.`, `audio/x/..`) makes the output
   * stream fail to open, which also ends the import.
   */
  function ReadEntry(st: Extracted, e: Entry, decode: Bytes -> Decoded): Option<Extracted> {
    if e.name == MetadataName then
      match decode(e.bytes)
      case Malformed => None
      case JsonNull => Some(st.(metadata := None))
      case Data(d) => Some(st.(metadata := Some(d)))
    else if IsAudioEntry(e.name) then
      if IsDirectoryName(Basename(e.name)) then None
      else Some(st.(scratch := st.scratch[Basename(e.name) := e.bytes]))
    else Some(st)
  }

  /** The entry loop over the whole archive, from no metadata and an empty scratch directory. */
  function ReadEntries(entries: seq<Entry>, decode: Bytes -> Decoded): Option<Extracted> {
    if entries == [] then Some(Extracted(None, map[]))
    else
      var prev := ReadEntries(entries[..|entries| - 1], decode);
      if prev.None? then None else ReadEntry(prev.value, entries[|entries| - 1], decode)
  }

  predicate MalformedMetadata(e: Entry, decode: Bytes -> Decoded) {
    e.name == MetadataName && decode(e.bytes).Malformed?
  }

  /** An entry the loop cannot read: malformed metadata, or audio named like a directory. */
  predicate FailingEntry(e: Entry, decode: Bytes -> Decoded) {
    MalformedMetadata(e, decode) || (IsAudioEntry(e.name) && IsDirectoryName(Basename(e.name)))
  }

  /** One turn of the loop fails exactly on a failing entry. */
  lemma ReadEntryFails(st: Extracted, e: Entry, decode: Bytes -> Decoded)
    ensures ReadEntry(st, e, decode).None? <==> FailingEntry(e, decode)
  {
    if e.name == MetadataName {
      assert MetadataName[0] != AudioPrefix[0];
    }
  }

  /**
   * Reading fails exactly when some entry is a malformed `metadata.json` or
   * an `audio/` entry whose file name resolves to a directory.
   */
  lemma {:induction false} ReadFailsIffFailingEntry(entries: seq<Entry>, decode: Bytes -> Decoded)
    ensures ReadEntries(entries, decode).None? <==>
      exists k :: 0 <= k < |entries| && FailingEntry(entries[k], decode)
  {
    if entries != [] {
      var n := |entries| - 1;
      var init := entries[..n];
      ReadFailsIffFailingEntry(init, decode);
      if exists k :: 0 <= k < |init| && FailingEntry(init[k], decode) {
        var k :| 0 <= k < |init| && FailingEntry(init[k], decode);
        assert entries[k] == init[k];
      } else {
        ReadEntryFails(ReadEntries(init, decode).value, entries[n], decode);
        if !FailingEntry(entries[n], decode) {
          forall k | 0 <= k < |entries| ensures !FailingEntry(entries[k], decode) {
            if k < n { assert entries[k] == init[k]; }
          }
        }
      }
    }
  }

  /** The value `metadata` takes from one entry: the data, or null. */
  function MetadataOf(d: Decoded): Option<BackupData> {
    if d.Data? then Some(d.data) else None
  }

  /** One entry changes the metadata only when it is `metadata.json`. */
  lemma ReadEntryMetadata(st: Extracted, e: Entry, decode: Bytes -> Decoded)
    requires ReadEntry(st, e, decode).Some?
    ensures ReadEntry(st, e, decode).value.metadata
      == if e.name == MetadataName then MetadataOf(decode(e.bytes)) else st.metadata
  {
  }

  /** An archive without a `metadata.json` entry yields no metadata. */
  lemma {:induction false} NoMetadataEntry(entries: seq<Entry>, decode: Bytes -> Decoded)
    requires ReadEntries(entries, decode).Some?
    requires forall k :: 0 <= k < |entries| ==> entries[k].name != MetadataName
    ensures ReadEntries(entries, decode).value.metadata == None
  {
    if entries != [] {
      var init := entries[..|entries| - 1];
      assert forall k :: 0 <= k < |init| ==> init[k] == entries[k];
      NoMetadataEntry(init, decode);
      ReadEntryMetadata(ReadEntries(init, decode).value, entries[|entries| - 1], decode);
    }
  }

  /** The last `metadata.json` entry decides the metadata: its data, or none when it is empty. */
  lemma {:induction false} LastMetadataWins(entries: seq<Entry>, decode: Bytes -> Decoded, k: int)
    requires ReadEntries(entries, decode).Some?
    requires 0 <= k < |entries| && entries[k].name == MetadataName
    requires forall j :: k < j < |entries| ==> entries[j].name != MetadataName
    ensures ReadEntries(entries, decode).value.metadata == MetadataOf(decode(entries[k].bytes))
  {
    var init := entries[..|entries| - 1];
    ReadEntryMetadata(ReadEntries(init, decode).value, entries[|entries| - 1], decode);
    if k < |entries| - 1 {
      assert init[k] == entries[k];
      assert forall j :: k < j < |init| ==> init[j] == entries[j];
      LastMetadataWins(init, decode, k);
    }
  }

  /** No audio entry is named `metadata.json`: every one starts with `audio/`. */
  lemma AudioEntriesNotMetadata(paths: seq<string>, files: map<string, Bytes>)
    ensures forall k :: 0 <= k < |AudioEntries(paths, files)| ==> AudioEntries(paths, files)[k].name != MetadataName
  {
    var es := AudioEntries(paths, files);
    AudioEntriesExact(paths, files);
    forall k | 0 <= k < |es| ensures es[k].name != MetadataName {
      assert es[k] in es;
      var p :| p in paths && p in files && es[k] == AudioEntry(p, files[p]);
      assert es[k].name[0] == 'a';
    }
  }

  /**
   * Reading back an exported archive succeeds and yields exactly the
   * exported tables as metadata. The storage holds regular files only, so
   * no stored path ends in `.` or `..`.
   */
  lemma ExportThenRead(lessons: seq<Lesson>, recordings: seq<Recording>, files: map<string, Bytes>,
                       encode: BackupData -> Bytes, decode: Bytes -> Decoded)
    requires RoundTrip(encode, decode)
    requires forall p :: p in files ==> !IsDirectoryName(Basename(p))
    ensures var r := ReadEntries(ExportSpec(lessons, recordings, files, encode), decode);
      r.Some? && r.value.metadata == Some(BackupData(lessons, recordings))
  {
    var archive := ExportSpec(lessons, recordings, files, encode);
    var audio := AudioEntries(BackupPaths(lessons, recordings), files);
    AudioEntriesNotMetadata(BackupPaths(lessons, recordings), files);
    assert decode(archive[0].bytes) == Data(BackupData(lessons, recordings));
    assert !FailingEntry(archive[0], decode) by {
      assert MetadataName[0] != AudioPrefix[0];
    }
    AudioEntriesExact(BackupPaths(lessons, recordings), files);
    forall j | 0 < j < |archive| ensures archive[j].name != MetadataName && !FailingEntry(archive[j], decode) {
      assert archive[j] == audio[j - 1];
      assert audio[j - 1].name != MetadataName;
      assert audio[j - 1] in audio;
      var p :| p in BackupPaths(lessons, recordings) && p in files && audio[j - 1] == AudioEntry(p, files[p]);
      AudioEntryName(p);
    }
    ReadFailsIffFailingEntry(archive, decode);
    LastMetadataWins(archive, decode, 0);
  }

  /** An exported entry's file name is the file's own name, or `audio` for a path without one. */
  lemma AudioEntryName(p: string)
    ensures Basename(AudioPrefix + Basename(p)) == if Basename(p) == [] then "audio" else Basename(p)
  {
    var name := Basename(p);
    if name == [] {
      assert AudioPrefix + name == AudioPrefix;
      AudioDirName();
    } else {
      assert AudioPrefix + name == Child("audio", name);
      BasenameOfChild("audio", name);
    }
  }

  lemma AudioDirName()
    ensures Basename(AudioPrefix) == "audio"
  {
    assert AudioPrefix[..5] == "audio";
    assert StripTrailingSlashes(AudioPrefix) == "audio";
    LastComponentOfName("audio");
  }

  /** The last `audio/` entry with a given file name, as an index. */
  predicate LastAudioNamed(entries: seq<Entry>, k: int, name: string) {
    0 <= k < |entries| && IsAudioEntry(entries[k].name) && Basename(entries[k].name) == name
    && forall j :: k < j < |entries| ==> !(IsAudioEntry(entries[j].name) && Basename(entries[j].name) == name)
  }

  /** One entry changes the scratch directory only when it is an `audio/` entry. */
  lemma ReadEntryScratch(st: Extracted, e: Entry, decode: Bytes -> Decoded)
    requires ReadEntry(st, e, decode).Some?
    ensures ReadEntry(st, e, decode).value.scratch ==
      if IsAudioEntry(e.name) then st.scratch[Basename(e.name) := e.bytes] else st.scratch
  {
    if e.name == MetadataName {
      assert MetadataName[0] != AudioPrefix[0];
    }
  }

  /** The scratch directory holds one file per name of an `audio/` entry, and no other. */
  lemma {:induction false} ScratchNames(entries: seq<Entry>, decode: Bytes -> Decoded)
    requires ReadEntries(entries, decode).Some?
    ensures var sc := ReadEntries(entries, decode).value.scratch;
      forall n :: n in sc <==>
        exists k :: 0 <= k < |entries| && IsAudioEntry(entries[k].name) && Basename(entries[k].name) == n
  {
    if entries != [] {
      var init := entries[..|entries| - 1];
      var last := entries[|entries| - 1];
      ScratchNames(init, decode);
      ReadEntryScratch(ReadEntries(init, decode).value, last, decode);
      assert forall k :: 0 <= k < |init| ==> init[k] == entries[k];
    }
  }

  /** Each file in the scratch directory has the bytes of the last `audio/` entry of its name. */
  lemma {:induction false} ScratchLastWins(entries: seq<Entry>, decode: Bytes -> Decoded)
    requires ReadEntries(entries, decode).Some?
    ensures var sc := ReadEntries(entries, decode).value.scratch;
      forall k, n :: LastAudioNamed(entries, k, n) ==> n in sc && sc[n] == entries[k].bytes
  {
    if entries != [] {
      var init := entries[..|entries| - 1];
      var last := entries[|entries| - 1];
      ScratchLastWins(init, decode);
      ReadEntryScratch(ReadEntries(init, decode).value, last, decode);
      var sc := ReadEntries(entries, decode).value.scratch;
      forall k, n | LastAudioNamed(entries, k, n) ensures n in sc && sc[n] == entries[k].bytes {
        if k < |init| {
          assert forall j :: k < j < |init| ==> init[j] == entries[j];
          assert LastAudioNamed(init, k, n);
        }
      }
    }
  }

  // ---------------------------------------------------------------------------
  // Restoring
  // ---------------------------------------------------------------------------

  /**
   * The names for which `File(dir, name)` is a directory that exists
   * whenever `dir` does: `""` (`dir` itself), `.` and `..` (its parent),
   * that is, at most two characters, all of them dots.
   */
  predicate IsDirectoryName(name: string) {
    |name| <= 2 && (|name| >= 1 ==> name[0] == '.') && (|name| == 2 ==> name[1] == '.')
  }

  lemma DirectoryNames(name: string)
    ensures IsDirectoryName(name) <==> name == "" || name == "." || name == ".."
  {
    if |name| == 2 && IsDirectoryName(name) {
      assert name == [name[0], name[1]];
    }
    if |name| == 1 && IsDirectoryName(name) {
      assert name == [name[0]];
    }
  }

  /**
   * `File(tempAudioDir, name).exists()`: an audio file of that name was
   * extracted, or the name resolves to a directory.
   */
  predicate InScratchDir(name: string, scratch: map<string, Bytes>) {
    IsDirectoryName(name) || name in scratch
  }

  /** `File(dir, name).absolutePath` for an absolute directory: `dir` itself for the empty name. */
  function FileIn(dir: string, name: string): string {
    if name == "" then dir else Child(dir, name)
  }

  /**
   * The path a restored lesson refers to. When nothing of the same name is
   * in the scratch directory the original path is kept; otherwise a
   * built-in lesson gets its name in the storage directory and a user
   * lesson a name prefixed with `restored_` and the clock reading.
   */
  function LessonTarget(l: Lesson, scratch: map<string, Bytes>, filesDir: string, t: int): string {
    var name := Basename(l.referenceAudioPath);
    if !InScratchDir(name, scratch) then l.referenceAudioPath
    else if l.isBuiltIn then FileIn(filesDir, name)
    else Child(filesDir, RestoredLessonName(t, name))
  }

  /**
   * The files after placing a lesson's audio: a user lesson's copy
   * overwrites, a built-in lesson's copy is made only when its target is
   * absent. When the name resolves to a directory, a built-in target is
   * a directory that exists (no copy), and copying to a user target leaves
   * an empty directory there in place of any file.
   */
  function PlaceLessonAudio(l: Lesson, scratch: map<string, Bytes>, files: map<string, Bytes>,
                            filesDir: string, t: int): map<string, Bytes>
  {
    var name := Basename(l.referenceAudioPath);
    var target := LessonTarget(l, scratch, filesDir, t);
    if !InScratchDir(name, scratch) then files
    else if l.isBuiltIn then
      if IsDirectoryName(name) || target in files then files else files[target := scratch[name]]
    else if IsDirectoryName(name) then files - {target}
    else files[target := scratch[name]]
  }

  /** The path a restored recording refers to: its original one, or a `restored_rec_` copy. */
  function RecordingTarget(r: Recording, scratch: map<string, Bytes>, filesDir: string, t: int): string {
    var name := Basename(r.audioPath);
    if !InScratchDir(name, scratch) then r.audioPath
    else Child(filesDir, RestoredRecordingName(t, name))
  }

  /** The files after placing a recording's audio: an overwriting copy, or an empty directory for a directory name. */
  function PlaceRecordingAudio(r: Recording, scratch: map<string, Bytes>, files: map<string, Bytes>,
                               filesDir: string, t: int): map<string, Bytes>
  {
    var name := Basename(r.audioPath);
    var target := RecordingTarget(r, scratch, filesDir, t);
    if !InScratchDir(name, scratch) then files
    else if IsDirectoryName(name) then files - {target}
    else files[target := scratch[name]]
  }

  /** An archived lesson as `restoreData` inserts it: with a new id and its new audio path. */
  function RestoredLesson(l: Lesson, scratch: map<string, Bytes>, filesDir: string, t: int, id: int): Lesson {
    l.(id := id, referenceAudioPath := LessonTarget(l, scratch, filesDir, t))
  }

  /**
   * The lessons the first loop of `restoreData` inserts: each archived
   * lesson with the next id and its new path. The clock is read once per
   * lesson, by position.
   */
  function RestoredLessonRows(lessons: seq<Lesson>, scratch: map<string, Bytes>, filesDir: string,
                              clock: nat -> int, firstId: int): seq<Lesson>
  {
    if lessons == [] then []
    else
      var i := |lessons| - 1;
      var l := lessons[i];
      RestoredLessonRows(lessons[..i], scratch, filesDir, clock, firstId)
        + [RestoredLesson(l, scratch, filesDir, clock(i), firstId + i)]
  }

  /**
   * The lesson loop inserts one lesson per archived lesson, in order, with
   * consecutive fresh ids; a restored lesson differs from the archived one
   * only in id and audio path, and keeps the path when nothing of its name
   * is in the scratch directory.
   */
  lemma {:induction false} RestoredLessonFields(lessons: seq<Lesson>, scratch: map<string, Bytes>, filesDir: string,
                                                clock: nat -> int, firstId: int)
    ensures |RestoredLessonRows(lessons, scratch, filesDir, clock, firstId)| == |lessons|
    ensures forall i :: 0 <= i < |lessons| ==>
      RestoredAs(RestoredLessonRows(lessons, scratch, filesDir, clock, firstId)[i], lessons[i], scratch, firstId + i)
  {
    if lessons != [] {
      var n := |lessons| - 1;
      RestoredLessonFields(lessons[..n], scratch, filesDir, clock, firstId);
      assert lessons[..n] + [lessons[n]] == lessons;
      RestoredLessonRowsSnoc(lessons[..n], lessons[n], scratch, filesDir, clock, firstId, n, firstId + n);
      RestoredLessonOne(lessons[n], scratch, filesDir, clock(n), firstId + n);
      var prev := RestoredLessonRows(lessons[..n], scratch, filesDir, clock, firstId);
      var rows := RestoredLessonRows(lessons, scratch, filesDir, clock, firstId);
      forall i | 0 <= i < n ensures RestoredAs(rows[i], lessons[i], scratch, firstId + i) {
        assert rows[i] == prev[i] && lessons[..n][i] == lessons[i];
      }
    }
  }

  /**
   * `r` is `l` restored with the id `id`: it differs from `l` only in id and
   * audio path, and keeps the path when nothing of its name is in the
   * scratch directory.
   */
  predicate RestoredAs(r: Lesson, l: Lesson, scratch: map<string, Bytes>, id: int) {
    && r.id == id
    && r.(id := l.id, referenceAudioPath := l.referenceAudioPath) == l
    && (!InScratchDir(Basename(l.referenceAudioPath), scratch) ==> r.referenceAudioPath == l.referenceAudioPath)
  }

  lemma RestoredLessonOne(l: Lesson, scratch: map<string, Bytes>, filesDir: string, t: int, id: int)
    ensures RestoredAs(RestoredLesson(l, scratch, filesDir, t, id), l, scratch, id)
  {
  }

  /** `lessonIdMap` after the first loop: each archived id to the new id, later ones overriding. */
  function IdMap(lessons: seq<Lesson>, firstId: int): map<int, int> {
    if lessons == [] then map[]
    else
      var i := |lessons| - 1;
      IdMap(lessons[..i], firstId)[lessons[i].id := firstId + i]
  }

  /** The files after the first loop. */
  function LessonFiles(lessons: seq<Lesson>, scratch: map<string, Bytes>, files: map<string, Bytes>,
                       filesDir: string, clock: nat -> int): map<string, Bytes>
  {
    if lessons == [] then files
    else
      var i := |lessons| - 1;
      PlaceLessonAudio(lessons[i], scratch, LessonFiles(lessons[..i], scratch, files, filesDir, clock), filesDir, clock(i))
  }

  /** An archived recording as `restoreData` inserts it: new id, new lesson id, new audio path. */
  function RestoredRecording(r: Recording, lessonId: int, scratch: map<string, Bytes>, filesDir: string, t: int,
                             id: int): Recording
  {
    r.(id := id, lessonId := lessonId, audioPath := RecordingTarget(r, scratch, filesDir, t))
  }

  /**
   * The recordings the second loop of `restoreData` inserts: a recording
   * whose lesson id is not in the map is dropped; the others get the next
   * id, the new lesson id and their new path.
   */
  function RestoredRecordingRows(recordings: seq<Recording>, idMap: map<int, int>, scratch: map<string, Bytes>,
                                 filesDir: string, clock: nat -> int, firstId: int): seq<Recording>
  {
    if recordings == [] then []
    else
      var i := |recordings| - 1;
      var prev := RestoredRecordingRows(recordings[..i], idMap, scratch, filesDir, clock, firstId);
      var r := recordings[i];
      if r.lessonId !in idMap then prev
      else prev + [RestoredRecording(r, idMap[r.lessonId], scratch, filesDir, clock(i), firstId + |prev|)]
  }

  /** The files after the second loop. */
  function RecordingFiles(recordings: seq<Recording>, idMap: map<int, int>, scratch: map<string, Bytes>,
                          files: map<string, Bytes>, filesDir: string, clock: nat -> int): map<string, Bytes>
  {
    if recordings == [] then files
    else
      var i := |recordings| - 1;
      var prev := RecordingFiles(recordings[..i], idMap, scratch, files, filesDir, clock);
      if recordings[i].lessonId !in idMap then prev
      else PlaceRecordingAudio(recordings[i], scratch, prev, filesDir, clock(i))
  }

  /** The tables and files `restoreData` leaves, given the ones it started from. */
  ghost predicate RestoredFrom(
    lessons0: seq<Lesson>, recordings0: seq<Recording>, files0: map<string, Bytes>,
    nextLessonId0: int, nextRecordingId0: int,
    data: BackupData, scratch: map<string, Bytes>, filesDir: string,
    lessonClock: nat -> int, recordingClock: nat -> int,
    lessons: seq<Lesson>, recordings: seq<Recording>, files: map<string, Bytes>)
  {
    var idMap := IdMap(data.lessons, nextLessonId0);
    && lessons == lessons0 + RestoredLessonRows(data.lessons, scratch, filesDir, lessonClock, nextLessonId0)
    && recordings == recordings0 + RestoredRecordingRows(data.recordings, idMap, scratch, filesDir, recordingClock, nextRecordingId0)
    && files == RecordingFiles(data.recordings, idMap, scratch,
                               LessonFiles(data.lessons, scratch, files0, filesDir, lessonClock), filesDir, recordingClock)
  }

  /** The id map has a key for each archived id, and each maps to one of the new ids. */
  lemma {:induction false} IdMapKeys(lessons: seq<Lesson>, firstId: int)
    ensures forall k :: k in IdMap(lessons, firstId) <==> exists i :: 0 <= i < |lessons| && lessons[i].id == k
    ensures forall k :: k in IdMap(lessons, firstId) ==> firstId <= IdMap(lessons, firstId)[k] < firstId + |lessons|
  {
    if lessons != [] {
      var i := |lessons| - 1;
      var pre := lessons[..i];
      IdMapKeys(pre, firstId);
      var m0 := IdMap(pre, firstId);
      var m := IdMap(lessons, firstId);
      assert m == m0[lessons[i].id := firstId + i];
      forall k | k in m ensures exists j :: 0 <= j < |lessons| && lessons[j].id == k {
        if k != lessons[i].id {
          var j :| 0 <= j < i && pre[j].id == k;
          assert lessons[j].id == k;
        }
      }
      forall k | exists j :: 0 <= j < |lessons| && lessons[j].id == k ensures k in m {
        var j :| 0 <= j < |lessons| && lessons[j].id == k;
        if j < i { assert pre[j].id == k; }
      }
    }
  }

  /**
   * The id map sends the id of the last lesson with that id to the id of
   * its restored copy; so with distinct ids every archived lesson's id maps
   * to its own copy.
   */
  lemma {:induction false} IdMapToLastCopy(lessons: seq<Lesson>, firstId: int, i: int)
    requires 0 <= i < |lessons| && forall j :: i < j < |lessons| ==> lessons[j].id != lessons[i].id
    ensures lessons[i].id in IdMap(lessons, firstId) && IdMap(lessons, firstId)[lessons[i].id] == firstId + i
  {
    var n := |lessons| - 1;
    if i < n {
      assert forall j :: i < j < n ==> lessons[..n][j] == lessons[j];
      IdMapToLastCopy(lessons[..n], firstId, i);
    }
  }

  /** The recordings whose lesson id is a key of the map, in order. */
  function KeptRecordings(recordings: seq<Recording>, idMap: map<int, int>): (r: seq<Recording>)
    ensures forall x :: x in r <==> x in recordings && x.lessonId in idMap
    ensures |r| <= |recordings|
  {
    if recordings == [] then []
    else
      var i := |recordings| - 1;
      assert recordings == recordings[..i] + [recordings[i]];
      var prev := KeptRecordings(recordings[..i], idMap);
      if recordings[i].lessonId in idMap then prev + [recordings[i]] else prev
  }

  /**
   * The recording loop keeps exactly the recordings whose lesson id is
   * mapped, in order, with consecutive fresh ids, the mapped lesson id, and
   * creation time and duration unchanged; when nothing of its name is in
   * the scratch directory the path is unchanged too.
   */
  lemma {:induction false} RestoredRecordings(recordings: seq<Recording>, idMap: map<int, int>,
                                              scratch: map<string, Bytes>, filesDir: string,
                                              clock: nat -> int, firstId: int)
    ensures var rs := RestoredRecordingRows(recordings, idMap, scratch, filesDir, clock, firstId);
      var kept := KeptRecordings(recordings, idMap);
      && |rs| == |kept|
      && forall j :: 0 <= j < |rs| ==>
           && kept[j].lessonId in idMap
           && rs[j].id == firstId + j
           && rs[j].lessonId == idMap[kept[j].lessonId]
           && rs[j].createdAt == kept[j].createdAt && rs[j].durationMs == kept[j].durationMs
           && (!InScratchDir(Basename(kept[j].audioPath), scratch) ==> rs[j].audioPath == kept[j].audioPath)
  {
    if recordings != [] {
      var i := |recordings| - 1;
      RestoredRecordings(recordings[..i], idMap, scratch, filesDir, clock, firstId);
    }
  }

  const RestoredPrefix := "restored_"

  /** `restored_<t>_<name>`, the name of a user lesson's restored audio. */
  function RestoredLessonName(t: int, name: string): string {
    RestoredPrefix + (Decimal(t) + "_" + name)
  }

  /** `restored_rec_<t>_<name>`, the name of a recording's restored audio. */
  function RestoredRecordingName(t: int, name: string): string {
    RestoredPrefix + ("rec_" + Decimal(t) + "_" + name)
  }

  /** The part of the storage directory whose files a restore may overwrite. */
  predicate InRestoredNamespace(p: string, filesDir: string) {
    StartsWith(p, Child(filesDir, RestoredPrefix))
  }

  lemma ChildPrefix(dir: string, prefix: string, rest: string)
    ensures StartsWith(Child(dir, prefix + rest), Child(dir, prefix))
  {
    assert Child(dir, prefix + rest) == Child(dir, prefix) + rest;
  }

  /** The files a restore must leave as they were: every file outside the `restored_` namespace. */
  predicate KeepsOutsideRestored(files: map<string, Bytes>, f: map<string, Bytes>, filesDir: string) {
    forall p :: p in files && !InRestoredNamespace(p, filesDir) ==> p in f && f[p] == files[p]
  }

  /** Writing a new file, or any file under `restored_`, keeps every other file as it was. */
  lemma WriteKeeps(files: map<string, Bytes>, target: string, bytes: Bytes, filesDir: string)
    requires target !in files || InRestoredNamespace(target, filesDir)
    ensures KeepsOutsideRestored(files, files[target := bytes], filesDir)
  {
  }

  /** Placing one lesson's audio changes or removes existing files only in the `restored_` namespace. */
  lemma PlaceLessonKeeps(l: Lesson, scratch: map<string, Bytes>, files: map<string, Bytes>, filesDir: string, t: int)
    ensures KeepsOutsideRestored(files, PlaceLessonAudio(l, scratch, files, filesDir, t), filesDir)
  {
    var name := Basename(l.referenceAudioPath);
    var target := LessonTarget(l, scratch, filesDir, t);
    if InScratchDir(name, scratch) {
      if !l.isBuiltIn {
        ChildPrefix(filesDir, RestoredPrefix, Decimal(t) + "_" + name);
        if !IsDirectoryName(name) {
          WriteKeeps(files, target, scratch[name], filesDir);
        }
      } else if !IsDirectoryName(name) && target !in files {
        WriteKeeps(files, target, scratch[name], filesDir);
      }
    }
  }

  /** Placing one recording's audio changes or removes existing files only in the `restored_` namespace. */
  lemma PlaceRecordingKeeps(r: Recording, scratch: map<string, Bytes>, files: map<string, Bytes>, filesDir: string, t: int)
    ensures KeepsOutsideRestored(files, PlaceRecordingAudio(r, scratch, files, filesDir, t), filesDir)
  {
    var name := Basename(r.audioPath);
    if InScratchDir(name, scratch) {
      ChildPrefix(filesDir, RestoredPrefix, "rec_" + Decimal(t) + "_" + name);
    }
  }

  /**
   * An archived audio path whose name resolves to a directory (`""`, `.` or
   * `..`) always counts as present: a built-in lesson then points at that
   * directory and no file changes, while a user lesson or a recording points
   * at a fresh `restored_` path where no file is left.
   */
  lemma DirectoryNameTargets(l: Lesson, r: Recording, scratch: map<string, Bytes>, files: map<string, Bytes>,
                             filesDir: string, t: int)
    ensures IsDirectoryName(Basename(l.referenceAudioPath)) && l.isBuiltIn ==>
      LessonTarget(l, scratch, filesDir, t) == FileIn(filesDir, Basename(l.referenceAudioPath))
      && PlaceLessonAudio(l, scratch, files, filesDir, t) == files
    ensures IsDirectoryName(Basename(l.referenceAudioPath)) && !l.isBuiltIn ==>
      LessonTarget(l, scratch, filesDir, t) == Child(filesDir, RestoredLessonName(t, Basename(l.referenceAudioPath)))
      && LessonTarget(l, scratch, filesDir, t) !in PlaceLessonAudio(l, scratch, files, filesDir, t)
    ensures IsDirectoryName(Basename(r.audioPath)) ==>
      RecordingTarget(r, scratch, filesDir, t) == Child(filesDir, RestoredRecordingName(t, Basename(r.audioPath)))
      && RecordingTarget(r, scratch, filesDir, t) !in PlaceRecordingAudio(r, scratch, files, filesDir, t)
  {
  }

  /** Keeping the files outside `restored_` composes over successive steps. */
  lemma KeepsTransitive(f0: map<string, Bytes>, f1: map<string, Bytes>, f2: map<string, Bytes>, filesDir: string)
    requires KeepsOutsideRestored(f0, f1, filesDir) && KeepsOutsideRestored(f1, f2, filesDir)
    ensures KeepsOutsideRestored(f0, f2, filesDir)
  {
  }

  lemma {:induction false} LessonFilesKeep(lessons: seq<Lesson>, scratch: map<string, Bytes>, files: map<string, Bytes>,
                                           filesDir: string, clock: nat -> int)
    ensures KeepsOutsideRestored(files, LessonFiles(lessons, scratch, files, filesDir, clock), filesDir)
  {
    if lessons != [] {
      var i := |lessons| - 1;
      var before := LessonFiles(lessons[..i], scratch, files, filesDir, clock);
      LessonFilesKeep(lessons[..i], scratch, files, filesDir, clock);
      PlaceLessonKeeps(lessons[i], scratch, before, filesDir, clock(i));
      KeepsTransitive(files, before, LessonFiles(lessons, scratch, files, filesDir, clock), filesDir);
    }
  }

  lemma {:induction false} RecordingFilesKeep(recordings: seq<Recording>, idMap: map<int, int>, scratch: map<string, Bytes>,
                                              files: map<string, Bytes>, filesDir: string, clock: nat -> int)
    ensures KeepsOutsideRestored(files, RecordingFiles(recordings, idMap, scratch, files, filesDir, clock), filesDir)
  {
    if recordings != [] {
      var i := |recordings| - 1;
      var before := RecordingFiles(recordings[..i], idMap, scratch, files, filesDir, clock);
      RecordingFilesKeep(recordings[..i], idMap, scratch, files, filesDir, clock);
      if recordings[i].lessonId in idMap {
        PlaceRecordingKeeps(recordings[i], scratch, before, filesDir, clock(i));
      }
      KeepsTransitive(files, before, RecordingFiles(recordings, idMap, scratch, files, filesDir, clock), filesDir);
    }
  }

  /**
   * A restore leaves every existing file outside the `restored_` namespace
   * as it was: in particular a built-in lesson's file already in place is
   * never overwritten, and no file of the app's own is removed.
   */
  lemma RestoreKeepsFiles(data: BackupData, scratch: map<string, Bytes>, files: map<string, Bytes>, filesDir: string,
                          lessonClock: nat -> int, recordingClock: nat -> int, firstLessonId: int)
    ensures var idMap := IdMap(data.lessons, firstLessonId);
      var f := RecordingFiles(data.recordings, idMap, scratch,
                              LessonFiles(data.lessons, scratch, files, filesDir, lessonClock), filesDir, recordingClock);
      KeepsOutsideRestored(files, f, filesDir)
  {
    var idMap := IdMap(data.lessons, firstLessonId);
    var f1 := LessonFiles(data.lessons, scratch, files, filesDir, lessonClock);
    LessonFilesKeep(data.lessons, scratch, files, filesDir, lessonClock);
    RecordingFilesKeep(data.recordings, idMap, scratch, f1, filesDir, recordingClock);
    KeepsTransitive(files, f1, RecordingFiles(data.recordings, idMap, scratch, f1, filesDir, recordingClock), filesDir);
  }

  /** One more lesson for the first loop of `restoreData`: its row. */
  lemma LessonRowStep(lessons: seq<Lesson>, i: int, scratch: map<string, Bytes>, filesDir: string, clock: nat -> int,
                      firstId: int, newId: int)
    requires 0 <= i < |lessons| && newId == firstId + i
    ensures RestoredLessonRows(lessons[..i + 1], scratch, filesDir, clock, firstId)
      == RestoredLessonRows(lessons[..i], scratch, filesDir, clock, firstId)
         + [RestoredLesson(lessons[i], scratch, filesDir, clock(i), newId)]
  {
    RestoredLessonRowsPrefix(lessons, i, scratch, filesDir, clock, firstId);
    RestoredLessonRowsSnoc(lessons[..i], lessons[i], scratch, filesDir, clock, firstId, i, newId);
  }

  lemma RestoredLessonRowsPrefix(lessons: seq<Lesson>, i: int, scratch: map<string, Bytes>, filesDir: string,
                                 clock: nat -> int, firstId: int)
    requires 0 <= i < |lessons|
    ensures RestoredLessonRows(lessons[..i + 1], scratch, filesDir, clock, firstId)
      == RestoredLessonRows(lessons[..i] + [lessons[i]], scratch, filesDir, clock, firstId)
  {
    assert lessons[..i + 1] == lessons[..i] + [lessons[i]];
  }

  lemma RestoredLessonRowsSnoc(prefix: seq<Lesson>, l: Lesson, scratch: map<string, Bytes>, filesDir: string,
                               clock: nat -> int, firstId: int, i: nat, newId: int)
    requires i == |prefix| && newId == firstId + i
    ensures RestoredLessonRows(prefix + [l], scratch, filesDir, clock, firstId)
      == RestoredLessonRows(prefix, scratch, filesDir, clock, firstId)
         + [RestoredLesson(l, scratch, filesDir, clock(i), newId)]
  {
    var s := prefix + [l];
    assert s[..|s| - 1] == prefix;
    assert s[|s| - 1] == l;
  }

  /** One more lesson for the first loop of `restoreData`: its id map entry. */
  lemma IdMapStep(before: map<int, int>, lessons: seq<Lesson>, i: int, firstId: int, newId: int)
    requires 0 <= i < |lessons| && newId == firstId + i
    requires before == IdMap(lessons[..i], firstId)
    ensures before[lessons[i].id := newId] == IdMap(lessons[..i + 1], firstId)
  {
    assert lessons[..i + 1][..i] == lessons[..i];
  }

  /** One more lesson for the first loop of `restoreData`: its audio. */
  lemma LessonFilesStep(before: map<string, Bytes>, lessons: seq<Lesson>, i: int,
                        scratch: map<string, Bytes>, files: map<string, Bytes>, filesDir: string, clock: nat -> int)
    requires 0 <= i < |lessons|
    requires before == LessonFiles(lessons[..i], scratch, files, filesDir, clock)
    ensures PlaceLessonAudio(lessons[i], scratch, before, filesDir, clock(i)) == LessonFiles(lessons[..i + 1], scratch, files, filesDir, clock)
  {
    assert lessons[..i + 1][..i] == lessons[..i];
  }

  /** One more recording for the second loop of `restoreData`: its row, if kept. */
  lemma RecordingRowStep(recordings: seq<Recording>, j: int, idMap: map<int, int>, scratch: map<string, Bytes>,
                         filesDir: string, clock: nat -> int, firstId: int, newId: int)
    requires 0 <= j < |recordings|
    requires newId == firstId + |RestoredRecordingRows(recordings[..j], idMap, scratch, filesDir, clock, firstId)|
    ensures var r := recordings[j];
      var prev := RestoredRecordingRows(recordings[..j], idMap, scratch, filesDir, clock, firstId);
      RestoredRecordingRows(recordings[..j + 1], idMap, scratch, filesDir, clock, firstId)
      == if r.lessonId !in idMap then prev
         else prev + [RestoredRecording(r, idMap[r.lessonId], scratch, filesDir, clock(j), newId)]
  {
    var s := recordings[..j + 1];
    assert s[..|s| - 1] == recordings[..j];
    assert s[|s| - 1] == recordings[j];
  }

  /** One more recording for the second loop of `restoreData`: its audio, if kept. */
  lemma RecordingFilesStep(recordings: seq<Recording>, j: int, idMap: map<int, int>, scratch: map<string, Bytes>,
                           files: map<string, Bytes>, filesDir: string, clock: nat -> int)
    requires 0 <= j < |recordings|
    ensures var r := recordings[j];
      var prev := RecordingFiles(recordings[..j], idMap, scratch, files, filesDir, clock);
      RecordingFiles(recordings[..j + 1], idMap, scratch, files, filesDir, clock)
      == if r.lessonId !in idMap then prev else PlaceRecordingAudio(r, scratch, prev, filesDir, clock(j))
  {
    assert recordings[..j + 1][..j] == recordings[..j];
  }

  /** Every value of the id map is the id of one of the restored lessons. */
  lemma IdMapTargetsRestored(lessons0: seq<Lesson>, lessons: seq<Lesson>, scratch: map<string, Bytes>,
                             filesDir: string, clock: nat -> int, firstId: int)
    ensures forall k :: k in IdMap(lessons, firstId) ==>
      HasLessonId(lessons0 + RestoredLessonRows(lessons, scratch, filesDir, clock, firstId), IdMap(lessons, firstId)[k])
  {
    var m := IdMap(lessons, firstId);
    var all := lessons0 + RestoredLessonRows(lessons, scratch, filesDir, clock, firstId);
    IdMapKeys(lessons, firstId);
    RestoredLessonFields(lessons, scratch, filesDir, clock, firstId);
    forall k | k in m ensures HasLessonId(all, m[k]) {
      var t := |lessons0| + (m[k] - firstId);
      assert all[t].id == m[k];
    }
  }

  /** The audio placement for one lesson: copies from the scratch directory and returns the new path. */
  method CopyLessonAudio(fs: FileSystem, oldLesson: Lesson, scratch: map<string, Bytes>, filesDir: string, t: int)
    returns (newAudioPath: string)
    modifies fs
    ensures newAudioPath == LessonTarget(oldLesson, scratch, filesDir, t)
    ensures fs.files == PlaceLessonAudio(oldLesson, scratch, old(fs.files), filesDir, t)
  {
    var name := Basename(oldLesson.referenceAudioPath);
    newAudioPath := oldLesson.referenceAudioPath;
    if IsDirectoryName(name) || name in scratch {
      if !oldLesson.isBuiltIn {
        var finalFile := Child(filesDir, RestoredLessonName(t, name));
        if IsDirectoryName(name) {
          // Copying a directory leaves an empty directory in place of any file there.
          fs.Delete(finalFile);
        } else {
          fs.Write(finalFile, scratch[name]);
        }
        newAudioPath := finalFile;
      } else {
        var finalFile := FileIn(filesDir, name);
        // `exists()` also holds for the storage directory, its `.` entry and its parent.
        if !IsDirectoryName(name) && !fs.Exists(finalFile) {
          fs.Write(finalFile, scratch[name]);
        }
        newAudioPath := finalFile;
      }
    }
  }

  /** The audio placement for one recording: copies from the scratch directory and returns the new path. */
  method CopyRecordingAudio(fs: FileSystem, recording: Recording, scratch: map<string, Bytes>, filesDir: string, t: int)
    returns (newAudioPath: string)
    modifies fs
    ensures newAudioPath == RecordingTarget(recording, scratch, filesDir, t)
    ensures fs.files == PlaceRecordingAudio(recording, scratch, old(fs.files), filesDir, t)
  {
    var name := Basename(recording.audioPath);
    newAudioPath := recording.audioPath;
    if IsDirectoryName(name) || name in scratch {
      var finalFile := Child(filesDir, RestoredRecordingName(t, name));
      if IsDirectoryName(name) {
        fs.Delete(finalFile);
      } else {
        fs.Write(finalFile, scratch[name]);
      }
      newAudioPath := finalFile;
    }
  }

  /** One turn of the first loop of `restoreData`: places the lesson's audio and inserts the lesson. */
  method RestoreLesson(db: Database, fs: FileSystem, oldLesson: Lesson, scratch: map<string, Bytes>,
                       filesDir: string, t: int)
    returns (newId: int)
    requires db.Valid()
    modifies db, fs
    ensures db.Valid()
    ensures newId == old(db.nextLessonId) && db.nextLessonId == newId + 1
    ensures db.lessons == old(db.lessons) + [RestoredLesson(oldLesson, scratch, filesDir, t, newId)]
    ensures fs.files == PlaceLessonAudio(oldLesson, scratch, old(fs.files), filesDir, t)
    ensures db.recordings == old(db.recordings) && db.nextRecordingId == old(db.nextRecordingId)
  {
    var newAudioPath := CopyLessonAudio(fs, oldLesson, scratch, filesDir, t);
    newId := db.InsertLesson(oldLesson.(id := 0, referenceAudioPath := newAudioPath));
  }

  /**
   * The inductive step of the first loop of `restoreData`: restoring
   * `lessons[i]` extends the inserted rows, the id map and the placed
   * files by that lesson.
   */
  method RestoreLessonAt(db: Database, fs: FileSystem, lessons: seq<Lesson>, i: int, scratch: map<string, Bytes>,
                         filesDir: string, clock: nat -> int, firstId: int, idMap: map<int, int>,
                         ghost lessons0: seq<Lesson>, ghost files0: map<string, Bytes>)
    returns (idMap': map<int, int>)
    requires db.Valid() && 0 <= i < |lessons|
    requires db.nextLessonId == firstId + i
    requires db.lessons == lessons0 + RestoredLessonRows(lessons[..i], scratch, filesDir, clock, firstId)
    requires idMap == IdMap(lessons[..i], firstId)
    requires fs.files == LessonFiles(lessons[..i], scratch, files0, filesDir, clock)
    modifies db, fs
    ensures db.Valid()
    ensures db.nextLessonId == firstId + i + 1
    ensures db.lessons == lessons0 + RestoredLessonRows(lessons[..i + 1], scratch, filesDir, clock, firstId)
    ensures idMap' == IdMap(lessons[..i + 1], firstId)
    ensures fs.files == LessonFiles(lessons[..i + 1], scratch, files0, filesDir, clock)
    ensures db.recordings == old(db.recordings) && db.nextRecordingId == old(db.nextRecordingId)
  {
    ghost var before := db.lessons;
    ghost var filesBefore := fs.files;
    var newId := RestoreLesson(db, fs, lessons[i], scratch, filesDir, clock(i));
    LessonRowStep(lessons, i, scratch, filesDir, clock, firstId, newId);
    AppendSnoc(lessons0, before, db.lessons, RestoredLessonRows(lessons[..i], scratch, filesDir, clock, firstId),
               RestoredLessonRows(lessons[..i + 1], scratch, filesDir, clock, firstId),
               RestoredLesson(lessons[i], scratch, filesDir, clock(i), newId));
    LessonFilesStep(filesBefore, lessons, i, scratch, files0, filesDir, clock);
    IdMapStep(idMap, lessons, i, firstId, newId);
    idMap' := idMap[lessons[i].id := newId];
  }

  /** The first loop of `restoreData`: inserts the archived lessons and returns `lessonIdMap`. */
  method InsertLessons(db: Database, fs: FileSystem, lessons: seq<Lesson>, scratch: map<string, Bytes>,
                       filesDir: string, clock: nat -> int)
    returns (lessonIdMap: map<int, int>)
    requires db.Valid()
    modifies db, fs
    ensures db.Valid()
    ensures db.lessons == old(db.lessons) + RestoredLessonRows(lessons, scratch, filesDir, clock, old(db.nextLessonId))
    ensures lessonIdMap == IdMap(lessons, old(db.nextLessonId))
    ensures fs.files == LessonFiles(lessons, scratch, old(fs.files), filesDir, clock)
    ensures db.recordings == old(db.recordings) && db.nextRecordingId == old(db.nextRecordingId)
  {
    var firstId := db.nextLessonId;
    ghost var lessons0 := db.lessons;
    ghost var files0 := fs.files;
    lessonIdMap := map[];
    var i := 0;
    while i < |lessons|
      invariant 0 <= i <= |lessons|
      invariant db.Valid()
      invariant db.nextLessonId == firstId + i
      invariant db.lessons == lessons0 + RestoredLessonRows(lessons[..i], scratch, filesDir, clock, firstId)
      invariant lessonIdMap == IdMap(lessons[..i], firstId)
      invariant fs.files == LessonFiles(lessons[..i], scratch, files0, filesDir, clock)
      invariant db.recordings == old(db.recordings) && db.nextRecordingId == old(db.nextRecordingId)
    {
      lessonIdMap := RestoreLessonAt(db, fs, lessons, i, scratch, filesDir, clock, firstId, lessonIdMap, lessons0, files0);
      i := i + 1;
    }
    assert lessons[..i] == lessons;
  }

  /** One turn of the second loop of `restoreData` for a mapped recording: places its audio and inserts it. */
  method RestoreRecording(db: Database, fs: FileSystem, recording: Recording, newLessonId: int,
                          scratch: map<string, Bytes>, filesDir: string, t: int)
    returns (newId: int)
    requires db.Valid() && HasLessonId(db.lessons, newLessonId)
    modifies db, fs
    ensures db.Valid()
    ensures newId == old(db.nextRecordingId) && db.nextRecordingId == newId + 1
    ensures db.recordings == old(db.recordings) + [RestoredRecording(recording, newLessonId, scratch, filesDir, t, newId)]
    ensures fs.files == PlaceRecordingAudio(recording, scratch, old(fs.files), filesDir, t)
    ensures db.lessons == old(db.lessons) && db.nextLessonId == old(db.nextLessonId)
  {
    var newAudioPath := CopyRecordingAudio(fs, recording, scratch, filesDir, t);
    newId := db.InsertRecording(recording.(id := 0, lessonId := newLessonId, audioPath := newAudioPath));
  }

  /**
   * The inductive step of the second loop of `restoreData`: handling
   * `recordings[j]` extends the inserted rows and the placed files by that
   * recording when its lesson was mapped, and changes nothing otherwise.
   */
  method RestoreRecordingAt(db: Database, fs: FileSystem, recordings: seq<Recording>, j: int,
                            lessonIdMap: map<int, int>, scratch: map<string, Bytes>, filesDir: string,
                            clock: nat -> int, firstId: int,
                            ghost recordings0: seq<Recording>, ghost files0: map<string, Bytes>)
    requires db.Valid() && 0 <= j < |recordings|
    requires forall k :: k in lessonIdMap ==> HasLessonId(db.lessons, lessonIdMap[k])
    requires db.recordings == recordings0
      + RestoredRecordingRows(recordings[..j], lessonIdMap, scratch, filesDir, clock, firstId)
    requires db.nextRecordingId
      == firstId + |RestoredRecordingRows(recordings[..j], lessonIdMap, scratch, filesDir, clock, firstId)|
    requires fs.files == RecordingFiles(recordings[..j], lessonIdMap, scratch, files0, filesDir, clock)
    modifies db, fs
    ensures db.Valid()
    ensures db.recordings == recordings0
      + RestoredRecordingRows(recordings[..j + 1], lessonIdMap, scratch, filesDir, clock, firstId)
    ensures db.nextRecordingId
      == firstId + |RestoredRecordingRows(recordings[..j + 1], lessonIdMap, scratch, filesDir, clock, firstId)|
    ensures fs.files == RecordingFiles(recordings[..j + 1], lessonIdMap, scratch, files0, filesDir, clock)
    ensures db.lessons == old(db.lessons) && db.nextLessonId == old(db.nextLessonId)
  {
    var recording := recordings[j];
    ghost var before := db.recordings;
    ghost var nextId := db.nextRecordingId;
    RecordingRowStep(recordings, j, lessonIdMap, scratch, filesDir, clock, firstId, nextId);
    RecordingFilesStep(recordings, j, lessonIdMap, scratch, files0, filesDir, clock);
    if recording.lessonId in lessonIdMap {
      var newId := RestoreRecording(db, fs, recording, lessonIdMap[recording.lessonId], scratch, filesDir, clock(j));
      AppendSnoc(recordings0, before, db.recordings,
                 RestoredRecordingRows(recordings[..j], lessonIdMap, scratch, filesDir, clock, firstId),
                 RestoredRecordingRows(recordings[..j + 1], lessonIdMap, scratch, filesDir, clock, firstId),
                 RestoredRecording(recording, lessonIdMap[recording.lessonId], scratch, filesDir, clock(j), newId));
    }
  }

  /** The second loop of `restoreData`: inserts the recordings whose lesson was mapped. */
  method InsertRecordings(db: Database, fs: FileSystem, recordings: seq<Recording>, lessonIdMap: map<int, int>,
                          scratch: map<string, Bytes>, filesDir: string, clock: nat -> int)
    requires db.Valid()
    requires forall k :: k in lessonIdMap ==> HasLessonId(db.lessons, lessonIdMap[k])
    modifies db, fs
    ensures db.Valid()
    ensures db.recordings == old(db.recordings)
      + RestoredRecordingRows(recordings, lessonIdMap, scratch, filesDir, clock, old(db.nextRecordingId))
    ensures fs.files == RecordingFiles(recordings, lessonIdMap, scratch, old(fs.files), filesDir, clock)
    ensures db.lessons == old(db.lessons) && db.nextLessonId == old(db.nextLessonId)
  {
    var firstId := db.nextRecordingId;
    ghost var recordings0 := db.recordings;
    ghost var files0 := fs.files;
    var j := 0;
    while j < |recordings|
      invariant 0 <= j <= |recordings|
      invariant db.Valid()
      invariant db.recordings == recordings0
        + RestoredRecordingRows(recordings[..j], lessonIdMap, scratch, filesDir, clock, firstId)
      invariant db.nextRecordingId
        == firstId + |RestoredRecordingRows(recordings[..j], lessonIdMap, scratch, filesDir, clock, firstId)|
      invariant fs.files == RecordingFiles(recordings[..j], lessonIdMap, scratch, files0, filesDir, clock)
      invariant db.lessons == old(db.lessons) && db.nextLessonId == old(db.nextLessonId)
    {
      RestoreRecordingAt(db, fs, recordings, j, lessonIdMap, scratch, filesDir, clock, firstId, recordings0, files0);
      j := j + 1;
    }
    assert recordings[..j] == recordings;
  }

  /**
   * `restoreData`: inserts the archived lessons, then the archived
   * recordings whose lesson was restored, copying audio from the scratch
   * directory as it goes. It only inserts: no row is updated or deleted.
   */
  method RestoreData(db: Database, fs: FileSystem, data: BackupData, scratch: map<string, Bytes>, filesDir: string,
                     lessonClock: nat -> int, recordingClock: nat -> int)
    requires db.Valid()
    modifies db, fs
    ensures db.Valid()
    ensures RestoredFrom(old(db.lessons), old(db.recordings), old(fs.files), old(db.nextLessonId), old(db.nextRecordingId),
                         data, scratch, filesDir, lessonClock, recordingClock, db.lessons, db.recordings, fs.files)
  {
    IdMapTargetsRestored(db.lessons, data.lessons, scratch, filesDir, lessonClock, db.nextLessonId);
    var lessonIdMap := InsertLessons(db, fs, data.lessons, scratch, filesDir, lessonClock);
    InsertRecordings(db, fs, data.recordings, lessonIdMap, scratch, filesDir, recordingClock);
  }

  /**
   * `importBackup`: reads the archive's entries, then restores the last
   * metadata found. `completed` is false when a malformed metadata entry or
   * an audio entry named like a directory ends the import with an exception; then, and when the archive has no
   * metadata, neither table nor the storage directory changes.
   */
  method ImportBackup(db: Database, fs: FileSystem, archive: seq<Entry>, decode: Bytes -> Decoded, filesDir: string,
                      lessonClock: nat -> int, recordingClock: nat -> int)
    returns (completed: bool)
    requires db.Valid()
    modifies db, fs
    ensures db.Valid()
    ensures completed <==> ReadEntries(archive, decode).Some?
    ensures (!completed || ReadEntries(archive, decode).value.metadata.None?) ==>
      db.lessons == old(db.lessons) && db.recordings == old(db.recordings) && fs.files == old(fs.files)
    ensures completed && ReadEntries(archive, decode).value.metadata.Some? ==>
      var x := ReadEntries(archive, decode).value;
      RestoredFrom(old(db.lessons), old(db.recordings), old(fs.files), old(db.nextLessonId), old(db.nextRecordingId),
                   x.metadata.value, x.scratch, filesDir, lessonClock, recordingClock, db.lessons, db.recordings, fs.files)
  {
    var metadata: Option<BackupData> := None;
    var scratch: map<string, Bytes> := map[];
    var i := 0;
    while i < |archive|
      invariant 0 <= i <= |archive|
      invariant ReadEntries(archive[..i], decode) == Some(Extracted(metadata, scratch))
    {
      var entry := archive[i];
      assert archive[..i + 1][..i] == archive[..i];
      if entry.name == MetadataName {
        var d := decode(entry.bytes);
        if d.Malformed? {
          ReadFailsIffFailingEntry(archive, decode);
          assert FailingEntry(archive[i], decode);
          return false;
        }
        metadata := MetadataOf(d);
      } else if StartsWith(entry.name, AudioPrefix) {
        var fileName := Basename(entry.name);
        if IsDirectoryName(fileName) {
          // `FileOutputStream` cannot open a directory for writing.
          ReadFailsIffFailingEntry(archive, decode);
          assert FailingEntry(archive[i], decode);
          return false;
        }
        scratch := scratch[fileName := entry.bytes];
      }
      i := i + 1;
    }
    assert archive[..i] == archive;
    if metadata.Some? {
      RestoreData(db, fs, metadata.value, scratch, filesDir, lessonClock, recordingClock);
    }
    completed := true;
  }
}
