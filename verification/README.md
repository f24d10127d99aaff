# Build Accent: a verified model of the lesson, studio and backup logic

Build Accent is an Android app for accent practice. A *lesson* holds a title, a language, an accent, a
script and a reference recording. The script may carry `[m:ss]` / `[mm:ss]` time markers that split it
into timed *segments*. In the studio the learner plays the reference, records an attempt and plays it
back. Lessons and recordings live in two Room tables, linked by a foreign key with a cascading delete.
The whole collection can be exported to, and imported from, a ZIP backup that holds a `metadata.json`
entry and an `audio/` entry per audio file.

This project models, in Dafny, the parts of the app that carry decisions:

- **`LessonSegment`** (`lesson_segment.dfy`): `SegmentParser.parse`.
  - The method `Parse` keeps the source's loop over lines, with its accumulator, current start time and
    "found any marker" flag.
  - It is proved equal to a fold, `ParseSpec`.
  - The lemmas about the fold cover the edge cases: unanchored marker search, unchecked seconds,
    swallowed blank markers, the verbatim fallback, one-space continuation joining and time order.
- **`Backup`** (`backup.dfy`): `BackupManager`.
  - Export plans a metadata entry plus one `audio/<basename>` entry per distinct existing path.
  - Import scans the entries: the last `metadata.json` wins, and `audio/*` is extracted by base name.
  - Restore remaps ids through a per-import map and places audio files by the built-in/user policy.
  - Every loop is a method proved against a specification function.
- **`Store`** (`store.dfy`): the two Room tables, as a class holding two sequences and two auto-id
  counters. Its invariant has ids ascending and below the counters, and every recording pointing at an
  existing lesson. `Files` (`files.dfy`) is the app's files directory, a map from path to bytes.
- **`HomeViewModel`** (`home_view_model.dfy`):
  - the built-in lesson bootstrap (`importBuiltInLessons` over lessons 1..20 and `importLesson`);
  - the delete policy.
- **`HomeScreen`** (`home_screen.dfy`): the language tabs (ordering, clamp, filter) and the lesson
  card's chevron rule.
- **`Studio`** (`studio_view_model.dfy`): the playback and recording flag machine of the studio.
- **`StudioTime`** (`studio_time.dfy`): `formatTime`, and how it relates to the parser's markers.
- **`Settings`** (`settings.dfy`): the available-language list and the backup UI state machine.
- **`CreateLesson`** and **`EditLesson`** (`create_lesson.dfy`, `edit_lesson.dfy`): the form setters,
  the save guards and the field-preserving save.
- **`Text`** and **`Collections`** (`text.dfy`, `collections.dfy`): the Kotlin library behaviour the
  rest relies on.
  - `trim` uses Kotlin's whitespace set.
  - `lines` splits on CRLF, LF and CR.
  - `contains` and `%02d` are modelled, as are `distinct()` and `sorted()`, with strings ordered character by character (see Left out for characters above U+FFFF).

Clock readings, UUIDs, the raw resources bundled with the app and the JSON codec are parameters. The
codec is a pair `encode`/`decode` required to round-trip. `decode` can also fail, or yield JSON `null`
for an empty entry, as Gson does.

## Model

| member | source | states |
|---|---|---|
| Text.TrimStart | app/src/main/kotlin/com/buildaccent/as/ui/studio/LessonSegment.kt:20 | drops exactly the leading whitespace: the result is a suffix, what was removed is blank, and the result is empty or starts with a non-whitespace character |
| Text.TrimEnd | app/src/main/kotlin/com/buildaccent/as/ui/studio/LessonSegment.kt:20 | drops exactly the trailing whitespace: the result is a prefix, what was removed is blank, and the result is empty or ends with a non-whitespace character |
| Text.Trim | app/src/main/kotlin/com/buildaccent/as/ui/studio/LessonSegment.kt:20 | `trim()` yields a string with no whitespace at either end |
| Text.TrimOfTrimmed | app/src/main/kotlin/com/buildaccent/as/ui/studio/LessonSegment.kt:25 | trimming a string that has no whitespace at either end leaves it unchanged |
| Text.TrimIdempotent | app/src/main/kotlin/com/buildaccent/as/ui/studio/LessonSegment.kt:25 | trimming twice is the same as trimming once, so the second `trim()` of an accumulated segment changes nothing already trimmed |
| Text.TrimStrips | app/src/main/kotlin/com/buildaccent/as/ui/studio/LessonSegment.kt:31 | blank text around a trimmed non-empty core is removed and the core is returned exactly |
| Text.BlankIffTrimEmpty | app/src/main/kotlin/com/buildaccent/as/ui/create/CreateLessonViewModel.kt:42 | `isBlank()` holds exactly when `trim()` is empty |
| Text.Lines | app/src/main/kotlin/com/buildaccent/as/ui/studio/LessonSegment.kt:14 | `lines()` yields at least one line, and no line contains a line break (CRLF, LF and CR all split) |
| Text.LinesJoinRoundTrip | app/src/main/kotlin/com/buildaccent/as/ui/studio/LessonSegment.kt:14 | for text without CR, joining the lines with LF gives back the text (`lines()` loses nothing) |
| Text.LinesOfSingleLine | app/src/main/kotlin/com/buildaccent/as/ui/studio/LessonSegment.kt:14 | text without a line break is one line |
| Text.LinesCons | app/src/main/kotlin/com/buildaccent/as/ui/studio/LessonSegment.kt:14 | a first line followed by LF splits off as the first element |
| Text.ContainsIff | app/src/main/kotlin/com/buildaccent/as/ui/home/HomeViewModel.kt:81-83 | `contains` holds exactly when the pattern occurs at some position |
| Text.ContainsSelf | app/src/main/kotlin/com/buildaccent/as/ui/home/HomeViewModel.kt:82 | every string contains itself |
| Text.DigitChar | app/src/main/kotlin/com/buildaccent/as/ui/studio/LessonStudioScreen.kt:217 | the digit character for `d` is a digit whose value is `d` |
| Text.NatDigits | app/src/main/kotlin/com/buildaccent/as/ui/home/HomeViewModel.kt:82 | the decimal rendering of `n` is non-empty, all digits, has value `n`, and is one character exactly when `n < 10` |
| Text.ZeroPad2TwoDigits | app/src/main/kotlin/com/buildaccent/as/ui/home/HomeViewModel.kt:76 | `%02d` of a number below 100 is exactly its two decimal digits, tens first |
| Text.ZeroPad2Wide | app/src/main/kotlin/com/buildaccent/as/ui/studio/LessonStudioScreen.kt:217 | `%02d` of a number of 100 or more is its full decimal rendering (three digits or more), not truncated |
| Text.LessIrreflexive | app/src/main/kotlin/com/buildaccent/as/ui/home/HomeScreen.kt:119 | the string order `sorted()` uses is irreflexive |
| Text.LessTransitive | app/src/main/kotlin/com/buildaccent/as/ui/home/HomeScreen.kt:119 | the string order `sorted()` uses is transitive |
| Text.LessTotal | app/src/main/kotlin/com/buildaccent/as/ui/home/HomeScreen.kt:119 | any two different strings are ordered one way or the other |
| Text.LessAsymmetric | app/src/main/kotlin/com/buildaccent/as/ui/home/HomeScreen.kt:119 | the string order is asymmetric |
| Collections.Distinct | app/src/main/kotlin/com/buildaccent/as/ui/home/HomeScreen.kt:119 | `distinct()` has no duplicates, the same elements as its input, and is no longer |
| Collections.DistinctSnoc | app/src/main/kotlin/com/buildaccent/as/ui/home/HomeScreen.kt:119 | `distinct()` keeps first occurrences: appending an element already seen changes nothing, a new one is appended |
| Collections.Insert | app/src/main/kotlin/com/buildaccent/as/ui/home/HomeScreen.kt:119 | inserting into a sorted list keeps it sorted and adds exactly that element |
| Collections.Sort | app/src/main/kotlin/com/buildaccent/as/ui/home/HomeScreen.kt:119 | `sorted()` is sorted and a permutation of its input |
| Collections.SortElements | app/src/main/kotlin/com/buildaccent/as/ui/home/HomeScreen.kt:119 | sorting keeps the same elements and preserves the absence of duplicates |
| Collections.Without | app/src/main/kotlin/com/buildaccent/as/ui/home/HomeScreen.kt:121 | `filter { it != x }` keeps exactly the other elements, and keeps sortedness and distinctness |
| Files.StripTrailingSlashes | app/src/main/kotlin/com/buildaccent/as/data/BackupManager.kt:51 | `File(path)` drops trailing separators: the result is a prefix of the path and does not end in `/` |
| Files.LastComponent | app/src/main/kotlin/com/buildaccent/as/data/BackupManager.kt:54 | the last path component contains no separator |
| Files.Basename | app/src/main/kotlin/com/buildaccent/as/data/BackupManager.kt:54 | `File(path).name` contains no separator |
| Files.BasenameOfChild | app/src/main/kotlin/com/buildaccent/as/data/BackupManager.kt:117 | the name of `File(dir, name)` is `name`, for a non-empty name without separators |
| Files.FileSystem.constructor | app/src/main/kotlin/com/buildaccent/as/ui/home/HomeViewModel.kt:98 | the storage starts with the given files |
| Files.FileSystem.Write | app/src/main/kotlin/com/buildaccent/as/ui/home/HomeViewModel.kt:100-102 | writing a file sets that path's contents and changes no other path |
| Files.FileSystem.Delete | app/src/main/kotlin/com/buildaccent/as/ui/home/HomeViewModel.kt:58-61 | deleting removes exactly that path (deleting an absent file is a no-op) |
| Store.FindLesson | app/src/main/kotlin/com/buildaccent/as/data/AppDatabase.kt:23-24 | `getLesson` finds a row exactly when one has that id, and the row found has that id and is in the table |
| Store.FindLessonAt | app/src/main/kotlin/com/buildaccent/as/data/AppDatabase.kt:23-24 | with unique ascending ids, looking up a row's id returns that row |
| Store.WithoutLesson | app/src/main/kotlin/com/buildaccent/as/data/AppDatabase.kt:32-33 | `deleteLesson` leaves exactly the rows with a different id |
| Store.WithoutLessonAscending | app/src/main/kotlin/com/buildaccent/as/data/AppDatabase.kt:20-21 | deleting a lesson keeps the ids ascending |
| Store.WithoutRecordingsOf | app/src/main/kotlin/com/buildaccent/as/data/UserRecording.kt:11-16 | the cascade leaves exactly the recordings of other lessons |
| Store.WithoutRecording | app/src/main/kotlin/com/buildaccent/as/data/AppDatabase.kt:50-51 | `deleteRecording` leaves exactly the recordings with a different id |
| Store.WithoutRecordingsOfAscending | app/src/main/kotlin/com/buildaccent/as/data/AppDatabase.kt:20-21 | the cascade keeps recording ids ascending |
| Store.WithoutRecordingAscending | app/src/main/kotlin/com/buildaccent/as/data/AppDatabase.kt:50-51 | deleting a recording keeps recording ids ascending |
| Store.CascadeKeepsForeignKeys | app/src/main/kotlin/com/buildaccent/as/data/UserRecording.kt:10-17 | deleting a lesson with the cascade leaves every remaining recording pointing at an existing lesson |
| Store.FiltersKeepIdBounds | app/src/main/kotlin/com/buildaccent/as/data/Lesson.kt:8 | deleting rows keeps every id below the auto-id counter |
| Store.ReplaceLesson | app/src/main/kotlin/com/buildaccent/as/data/AppDatabase.kt:29-30 | `updateLesson` replaces every row carrying the lesson's id by the lesson and leaves every other row in place; the ids at each position are kept, and an unknown id changes nothing |
| Store.Database.constructor | app/src/main/kotlin/com/buildaccent/as/data/Lesson.kt:6-8 | the database starts empty and valid (ids ascending, below the counters, foreign keys hold) |
| Store.Database.GetLesson | app/src/main/kotlin/com/buildaccent/as/data/AppDatabase.kt:23-24 | `getLesson` returns a row exactly when one has the id, and that row |
| Store.Database.InsertLesson | app/src/main/kotlin/com/buildaccent/as/data/AppDatabase.kt:26-27 | insert appends the row with the next auto id, advances the counter, and keeps the invariant |
| Store.Database.UpdateLesson | app/src/main/kotlin/com/buildaccent/as/data/AppDatabase.kt:29-30 | update rewrites the row with the same id, changes nothing else, and keeps the invariant |
| Store.Database.DeleteLesson | app/src/main/kotlin/com/buildaccent/as/data/UserRecording.kt:15 | delete removes the lesson and, by the cascade, its recordings, keeping the invariant |
| Store.Database.InsertRecording | app/src/main/kotlin/com/buildaccent/as/data/AppDatabase.kt:47-48 | insert of a recording whose lesson exists appends it with the next auto id and keeps the invariant |
| Store.Database.DeleteRecording | app/src/main/kotlin/com/buildaccent/as/data/AppDatabase.kt:50-51 | delete removes the recording with that id and leaves the lessons alone |
| LessonSegment.UpToTerminator | app/src/main/kotlin/com/buildaccent/as/ui/studio/LessonSegment.kt:12 | group 3 (`.*`) is the longest prefix without a line terminator: it stops at the first terminator or the end |
| LessonSegment.MatchAt | app/src/main/kotlin/com/buildaccent/as/ui/studio/LessonSegment.kt:12 | a match at a position yields a well-formed marker: 1-2 minute digits, exactly 2 second digits |
| LessonSegment.FindFrom | app/src/main/kotlin/com/buildaccent/as/ui/studio/LessonSegment.kt:20 | a search from a position yields only well-formed markers |
| LessonSegment.Find | app/src/main/kotlin/com/buildaccent/as/ui/studio/LessonSegment.kt:20 | `regex.find` yields only well-formed markers |
| LessonSegment.Classify | app/src/main/kotlin/com/buildaccent/as/ui/studio/LessonSegment.kt:20-21 | a line is a marker line carrying a well-formed marker, or a plain line |
| LessonSegment.ClassifyAll | app/src/main/kotlin/com/buildaccent/as/ui/studio/LessonSegment.kt:19-20 | one classification per line, each marker well-formed |
| LessonSegment.ParseLine | app/src/main/kotlin/com/buildaccent/as/ui/studio/LessonSegment.kt:20-42 | one pass of the loop body updates the four loop variables exactly as one step of the fold |
| LessonSegment.ParseLines | app/src/main/kotlin/com/buildaccent/as/ui/studio/LessonSegment.kt:19-43 | the loop leaves the loop variables equal to the fold over the classified lines |
| LessonSegment.Parse | app/src/main/kotlin/com/buildaccent/as/ui/studio/LessonSegment.kt:9-56 | `parse` returns exactly the specification result (fold, final flush, fallback) |
| LessonSegment.MatchAtShape | app/src/main/kotlin/com/buildaccent/as/ui/studio/LessonSegment.kt:12 | a match at `p` is the token spelled out at `p`, and its content is the text after the token up to a line terminator |
| LessonSegment.MatchAtShortToken | app/src/main/kotlin/com/buildaccent/as/ui/studio/LessonSegment.kt:12 | a `[m:ss]` token at `p` matches with the text after it as content |
| LessonSegment.MatchAtLongToken | app/src/main/kotlin/com/buildaccent/as/ui/studio/LessonSegment.kt:12 | a `[mm:ss]` token at `p` matches with the text after it as content |
| LessonSegment.MatchAtToken | app/src/main/kotlin/com/buildaccent/as/ui/studio/LessonSegment.kt:12 | any well-formed token spelled out at `p` matches there |
| LessonSegment.FindFromLeftmost | app/src/main/kotlin/com/buildaccent/as/ui/studio/LessonSegment.kt:20 | the search finds nothing exactly when no position matches; otherwise it returns the match at the leftmost matching position |
| LessonSegment.FindLeftmost | app/src/main/kotlin/com/buildaccent/as/ui/studio/LessonSegment.kt:20 | `find` is unanchored and leftmost: nothing iff no position matches, else the first match |
| LessonSegment.FindAtStart | app/src/main/kotlin/com/buildaccent/as/ui/studio/LessonSegment.kt:20 | a line starting with a token is a marker line whose content is the rest of the line |
| LessonSegment.MarkerAfterText | app/src/main/kotlin/com/buildaccent/as/ui/studio/LessonSegment.kt:20 | text before the token on a marker line is discarded: the marker found is the token and its content is what follows it |
| LessonSegment.UpToTerminatorAll | app/src/main/kotlin/com/buildaccent/as/ui/studio/LessonSegment.kt:12 | text without line terminators is captured whole |
| LessonSegment.SecondsNotRangeChecked | app/src/main/kotlin/com/buildaccent/as/ui/studio/LessonSegment.kt:29-33 | `[0:75]` is accepted and starts at 75000 ms, the same as `[1:15]` |
| LessonSegment.ClassifiedPlainTrimmed | app/src/main/kotlin/com/buildaccent/as/ui/studio/LessonSegment.kt:38-40 | every plain line reaches the accumulator trimmed |
| LessonSegment.FoundIffMarker | app/src/main/kotlin/com/buildaccent/as/ui/studio/LessonSegment.kt:22 | `foundAnyTimestamp` ends true exactly when some line is a marker line |
| LessonSegment.PlainOnlyEmitsNothing | app/src/main/kotlin/com/buildaccent/as/ui/studio/LessonSegment.kt:35-42 | plain lines only ever accumulate: nothing is emitted before the final flush |
| LessonSegment.NoMarkerFallback | app/src/main/kotlin/com/buildaccent/as/ui/studio/LessonSegment.kt:50-53 | text with no marker on any line yields exactly one segment at time 0 holding the raw text verbatim |
| LessonSegment.MarkerNoFallback | app/src/main/kotlin/com/buildaccent/as/ui/studio/LessonSegment.kt:51-55 | once any marker line exists the fallback never applies: the result is the flushed fold |
| LessonSegment.FlushedClean | app/src/main/kotlin/com/buildaccent/as/ui/studio/LessonSegment.kt:46-47 | the final flush only adds a non-empty trimmed segment |
| LessonSegment.FoldClean | app/src/main/kotlin/com/buildaccent/as/ui/studio/LessonSegment.kt:24-25 | every segment emitted by the loop has non-empty text equal to its own trim |
| LessonSegment.MarkedSegmentsClean | app/src/main/kotlin/com/buildaccent/as/ui/studio/LessonSegment.kt:24-47 | in non-fallback output every segment's text is non-empty and equal to its trim |
| LessonSegment.BlankMarkerSwallowed | app/src/main/kotlin/com/buildaccent/as/ui/studio/LessonSegment.kt:24-27 | a marker with blank content directly followed by another marker emits nothing for the first: its time is lost |
| LessonSegment.SilentEmitsNothing | app/src/main/kotlin/com/buildaccent/as/ui/studio/LessonSegment.kt:24-40 | blank lines and content-free markers neither emit nor accumulate anything |
| LessonSegment.BlankMarkersOnly | app/src/main/kotlin/com/buildaccent/as/ui/studio/LessonSegment.kt:22-55 | input made only of blank lines and content-free markers (at least one) yields the empty list |
| LessonSegment.StartIsLastMarker | app/src/main/kotlin/com/buildaccent/as/ui/studio/LessonSegment.kt:16-33 | the current start time is that of the most recent marker line, or 0 before any |
| LessonSegment.LastTimeBelow | app/src/main/kotlin/com/buildaccent/as/ui/studio/LessonSegment.kt:33 | if every marker time is at most `t`, so is the most recent one |
| LessonSegment.FlushedTimesOrdered | app/src/main/kotlin/com/buildaccent/as/ui/studio/LessonSegment.kt:25-47 | flushing keeps emitted start times non-decreasing and at most the current start time |
| LessonSegment.StepTimesOrdered | app/src/main/kotlin/com/buildaccent/as/ui/studio/LessonSegment.kt:21-42 | one loop step keeps the start times ordered when the new marker is not earlier than the current one |
| LessonSegment.FoldTimesOrdered | app/src/main/kotlin/com/buildaccent/as/ui/studio/LessonSegment.kt:19-43 | with non-decreasing marker times the loop emits segments in non-decreasing time order |
| LessonSegment.FinishSorted | app/src/main/kotlin/com/buildaccent/as/ui/studio/LessonSegment.kt:46-55 | the final flush and the fallback keep the start times sorted |
| LessonSegment.SortedWhenMarkersSorted | app/src/main/kotlin/com/buildaccent/as/ui/studio/LessonSegment.kt:9-56 | segments appear in line order: when the markers' times never decrease, the result's start times are sorted |
| LessonSegment.LeadingTextAtZero | app/src/main/kotlin/com/buildaccent/as/ui/studio/LessonSegment.kt:16-40 | text before the first marker is emitted first, at time 0 |
| LessonSegment.FindMarkerLine | app/src/main/kotlin/com/buildaccent/as/ui/studio/LessonSegment.kt:12-20 | `[0:05]Hello` is found as minutes 0, seconds 05, content `Hello` |
| LessonSegment.ClassifyMarkerLine | app/src/main/kotlin/com/buildaccent/as/ui/studio/LessonSegment.kt:20-21 | the line `[0:05]Hello` is a marker line with that marker |
| LessonSegment.FinishJoined | app/src/main/kotlin/com/buildaccent/as/ui/studio/LessonSegment.kt:34-47 | a content marker then a trimmed plain line finish as one segment: content, one space, the line |
| LessonSegment.ContinuationJoined | app/src/main/kotlin/com/buildaccent/as/ui/studio/LessonSegment.kt:35-42 | a marker line with content and a non-blank unmarked line give one segment at the marker's time: the trimmed content and the trimmed continuation joined by exactly one space |
| LessonSegment.FinishTwoMarkers | app/src/main/kotlin/com/buildaccent/as/ui/studio/LessonSegment.kt:19-55 | two marker lines with content: the first closes as a segment when the second is met, the second is flushed at the end, each at its own marker's time with its trimmed content |
| LessonSegment.TwoMarkerLines | app/src/main/kotlin/com/buildaccent/as/ui/studio/LessonSegment.kt:9-55 | text of two lines that each carry a marker with content parses into two segments, each at its own marker's time with its trimmed content |
| StudioTime.TruncDiv | app/src/main/kotlin/com/buildaccent/as/ui/studio/LessonStudioScreen.kt:214-215 | Kotlin `Long` division truncates toward zero: the remainder has the sign of the dividend and is smaller than the divisor |
| StudioTime.TruncRem | app/src/main/kotlin/com/buildaccent/as/ui/studio/LessonStudioScreen.kt:216 | Kotlin `%` takes the sign of the dividend and satisfies `a == (a / b) * b + a % b` |
| StudioTime.FieldsOfTime | app/src/main/kotlin/com/buildaccent/as/ui/studio/LessonStudioScreen.kt:214-216 | for ms ≥ 0, seconds lie in 0..59 and `minutes * 60 + seconds == ms / 1000` (sub-second remainders dropped) |
| StudioTime.FormatShort | app/src/main/kotlin/com/buildaccent/as/ui/studio/LessonStudioScreen.kt:217 | below 100 minutes the text has length 5, `:` at index 2, and both fields as two zero-padded digits |
| StudioTime.FormatWide | app/src/main/kotlin/com/buildaccent/as/ui/studio/LessonStudioScreen.kt:215-217 | from 6,000,000 ms the minutes field has three or more digits with value `ms / 60000`; there is no hours field |
| StudioTime.TwoDigits | app/src/main/kotlin/com/buildaccent/as/ui/studio/LessonStudioScreen.kt:217 | two digits re-padded with `%02d` give themselves back |
| StudioTime.FormatMarkerTime | app/src/main/kotlin/com/buildaccent/as/ui/studio/LessonStudioScreen.kt:213-218 | for a parsed marker with seconds below 60, `formatTime` of its start time reproduces the minutes zero-padded and the seconds |
| StudioTime.FindBracketed | app/src/main/kotlin/com/buildaccent/as/ui/studio/LessonSegment.kt:12 | a bracketed `mm:ss` text parses as a marker with those fields and no content |
| StudioTime.FormatThenParse | app/src/main/kotlin/com/buildaccent/as/ui/studio/LessonStudioScreen.kt:213-218 | for times below 100 minutes, bracketing `formatTime` gives a marker whose start time is the time rounded down to a whole second |
| HomeScreen.LanguagesOf | app/src/main/kotlin/com/buildaccent/as/ui/home/HomeScreen.kt:119 | `map { it.language }` has one entry per lesson, in order, and its values are exactly the lessons' languages |
| HomeScreen.AllLanguagesExact | app/src/main/kotlin/com/buildaccent/as/ui/home/HomeScreen.kt:119 | the distinct, sorted languages: sorted, no duplicates, exactly the lessons' languages |
| HomeScreen.TabLanguagesExact | app/src/main/kotlin/com/buildaccent/as/ui/home/HomeScreen.kt:118-126 | each lesson language appears as a tab exactly once, and nothing else |
| HomeScreen.TabLanguagesOrder | app/src/main/kotlin/com/buildaccent/as/ui/home/HomeScreen.kt:120-125 | a present preferred language comes first with the rest sorted after it; otherwise the whole list is sorted |
| HomeScreen.TwoTabsTwoLanguages | app/src/main/kotlin/com/buildaccent/as/ui/home/HomeScreen.kt:137 | more than one tab implies two lessons with different languages |
| HomeScreen.TwoLanguagesTwoTabs | app/src/main/kotlin/com/buildaccent/as/ui/home/HomeScreen.kt:137 | two lessons with different languages give more than one tab |
| HomeScreen.TabRowIffTwoLanguages | app/src/main/kotlin/com/buildaccent/as/ui/home/HomeScreen.kt:137 | the tab row is shown exactly when two lessons differ in language |
| HomeScreen.LessonsIn | app/src/main/kotlin/com/buildaccent/as/ui/home/HomeScreen.kt:156 | `filter { it.language == lang }` keeps exactly the lessons in that language and is no longer than its input |
| HomeScreen.LessonsInSingle | app/src/main/kotlin/com/buildaccent/as/ui/home/HomeScreen.kt:156 | a single lesson is kept exactly when its language is the filtered one |
| HomeScreen.LessonsInAppend | app/src/main/kotlin/com/buildaccent/as/ui/home/HomeScreen.kt:156 | filtering distributes over concatenation, so the filter keeps order and repeated lessons |
| HomeScreen.FilteredLessonsExact | app/src/main/kotlin/com/buildaccent/as/ui/home/HomeScreen.kt:153-162 | with several tabs and a valid selection the list is that tab's language filter, with exactly its lessons; with one tab all lessons; no tabs exactly when there are no lessons |
| HomeScreen.OutOfRangeTabShowsUnnamed | app/src/main/kotlin/com/buildaccent/as/ui/home/HomeScreen.kt:155-156 | an out-of-range selection falls back to `""` and shows exactly the lessons with an empty language |
| HomeScreen.Clamped | app/src/main/kotlin/com/buildaccent/as/ui/home/HomeScreen.kt:131-133 | an in-range selection is kept, one past the end becomes the last tab, or 0 without tabs; a non-negative selection ends up a valid index |
| HomeScreen.TabSelection.constructor | app/src/main/kotlin/com/buildaccent/as/ui/home/HomeScreen.kt:127 | the selected tab starts at 0 |
| HomeScreen.TabSelection.Select | app/src/main/kotlin/com/buildaccent/as/ui/home/HomeScreen.kt:146 | clicking a tab selects exactly its index |
| HomeScreen.TabSelection.OnLanguagesChanged | app/src/main/kotlin/com/buildaccent/as/ui/home/HomeScreen.kt:130-134 | the selection becomes the clamped index: unchanged when in range, otherwise the last tab |
| HomeScreen.ClampToLastTab | app/src/main/kotlin/com/buildaccent/as/ui/home/HomeScreen.kt:132 | an out-of-range selection with tabs becomes the last tab, which is in range, not tab 0 |
| HomeScreen.CardIcons | app/src/main/kotlin/com/buildaccent/as/ui/home/HomeScreen.kt:215-229 | the card always shows an icon, and the chevron exactly when neither action icon is shown |
| HomeScreen.ChevronIffNoActions | app/src/main/kotlin/com/buildaccent/as/ui/home/HomeScreen.kt:227-229 | the chevron is shown exactly when neither edit nor delete is enabled |
| HomeViewModel.Titles | app/src/main/kotlin/com/buildaccent/as/ui/home/HomeViewModel.kt:73 | the title snapshot has one entry per lesson, in order, and its values are exactly the lessons' titles |
| HomeViewModel.ImportedIndices | app/src/main/kotlin/com/buildaccent/as/ui/home/HomeViewModel.kt:75-89 | every index the loop imports has both raw resources |
| HomeViewModel.ImportedRows | app/src/main/kotlin/com/buildaccent/as/ui/home/HomeViewModel.kt:107-115 | one inserted row per imported index |
| HomeViewModel.ImportedIndicesExact | app/src/main/kotlin/com/buildaccent/as/ui/home/HomeViewModel.kt:75-87 | lesson `i` is imported exactly when `1 <= i <= n`, both resources exist and no snapshot title contains `Lesson i` |
| HomeViewModel.ImportedIndicesAscending | app/src/main/kotlin/com/buildaccent/as/ui/home/HomeViewModel.kt:75 | the imports happen in strictly ascending index order |
| HomeViewModel.NothingToImport | app/src/main/kotlin/com/buildaccent/as/ui/home/HomeViewModel.kt:80-87 | if no index passes the test, nothing is imported |
| HomeViewModel.SuffixDigits | app/src/main/kotlin/com/buildaccent/as/ui/home/HomeViewModel.kt:76 | the suffix of an index below 100 is its two decimal digits |
| HomeViewModel.BuiltInAudioPath | app/src/main/kotlin/com/buildaccent/as/ui/home/HomeViewModel.kt:76-98 | a built-in lesson's audio file is named `lesson_<dd>.opus` (two zero-padded digits) inside `filesDir` |
| HomeViewModel.AudioFilesDistinct | app/src/main/kotlin/com/buildaccent/as/ui/home/HomeViewModel.kt:98 | different lessons below 100 get different audio files |
| HomeViewModel.LessonTenBlocksLessonOne | app/src/main/kotlin/com/buildaccent/as/ui/home/HomeViewModel.kt:81-83 | the substring test: an existing `Lesson 10` counts as `Lesson 1` already imported |
| HomeViewModel.ImportNeverOverwrites | app/src/main/kotlin/com/buildaccent/as/ui/home/HomeViewModel.kt:99-103 | a file present before the bootstrap keeps its contents |
| HomeViewModel.ImportedAudioExists | app/src/main/kotlin/com/buildaccent/as/ui/home/HomeViewModel.kt:98-103 | after the bootstrap every imported lesson's audio file exists |
| HomeViewModel.SecondBootstrapImportsNothing | app/src/main/kotlin/com/buildaccent/as/ui/home/HomeViewModel.kt:73-89 | running the bootstrap again over the titles after a first run imports nothing |
| HomeViewModel.ImportLesson | app/src/main/kotlin/com/buildaccent/as/ui/home/HomeViewModel.kt:96-115 | writes the audio only if the file is absent and inserts `Lesson i`, English, Neutral, built-in, with the script text and the file's path |
| HomeViewModel.IndicesTurn | app/src/main/kotlin/com/buildaccent/as/ui/home/HomeViewModel.kt:80-87 | turn `i` adds `i` exactly when it passes the test |
| HomeViewModel.RowsTurn | app/src/main/kotlin/com/buildaccent/as/ui/home/HomeViewModel.kt:115 | importing one more index appends its row with the next id |
| HomeViewModel.FilesTurn | app/src/main/kotlin/com/buildaccent/as/ui/home/HomeViewModel.kt:99-103 | importing one more index writes its audio only when absent |
| HomeViewModel.ImportTurn | app/src/main/kotlin/com/buildaccent/as/ui/home/HomeViewModel.kt:85-86 | an import turn keeps the loop invariant: rows, counter and files equal the specification after one more index |
| HomeViewModel.BootstrapStep | app/src/main/kotlin/com/buildaccent/as/ui/home/HomeViewModel.kt:76-88 | each turn of the loop keeps the loop invariant |
| HomeViewModel.ImportBuiltInLessons | app/src/main/kotlin/com/buildaccent/as/ui/home/HomeViewModel.kt:70-94 | the bootstrap appends exactly the specified rows with consecutive ids, writes exactly the specified files, and leaves the recordings alone |
| HomeViewModel.DeleteLesson | app/src/main/kotlin/com/buildaccent/as/ui/home/HomeViewModel.kt:54-68 | deletes the audio file only for a user lesson, always deletes the row, and the cascade deletes its recordings |
| Studio.StoppedSettles | app/src/main/kotlin/com/buildaccent/as/ui/studio/LessonStudioViewModel.kt:170-181 | `stopPlayback` leaves a consistent playback state, is idempotent, and keeps the lesson, segments, recordings, recording flag, listened flag and error |
| Studio.LessonStudioViewModel.constructor | app/src/main/kotlin/com/buildaccent/as/ui/studio/LessonStudioViewModel.kt:28-50 | the studio starts in the default state with no recording file and no polling |
| Studio.LessonStudioViewModel.LoadLesson | app/src/main/kotlin/com/buildaccent/as/ui/studio/LessonStudioViewModel.kt:63-71 | a found lesson is stored with its parsed segments; otherwise the state is unchanged |
| Studio.LessonStudioViewModel.OnRecordings | app/src/main/kotlin/com/buildaccent/as/ui/studio/LessonStudioViewModel.kt:73-79 | each emission of the recordings flow replaces the recording list and nothing else |
| Studio.LessonStudioViewModel.StopPlayback | app/src/main/kotlin/com/buildaccent/as/ui/studio/LessonStudioViewModel.kt:170-181 | the state becomes `Stopped`, polling ends, and the consistency invariant holds |
| Studio.LessonStudioViewModel.ToggleReferencePlayback | app/src/main/kotlin/com/buildaccent/as/ui/studio/LessonStudioViewModel.kt:83-121 | no-op without a lesson; pauses the playing reference; otherwise always restarts it (the resume branch is dead) and marks it heard; never both playing |
| Studio.LessonStudioViewModel.OnReferenceCompleted | app/src/main/kotlin/com/buildaccent/as/ui/studio/LessonStudioViewModel.kt:113-116 | completion stops the reference at progress 1 |
| Studio.LessonStudioViewModel.ToggleUserPlayback | app/src/main/kotlin/com/buildaccent/as/ui/studio/LessonStudioViewModel.kt:152-168 | pauses the recording that is playing; on any other recording stops playback and plays that one; never both playing |
| Studio.LessonStudioViewModel.OnUserCompleted | app/src/main/kotlin/com/buildaccent/as/ui/studio/LessonStudioViewModel.kt:161-164 | completion stops user playback, clears the recording and sets progress 1 |
| Studio.LessonStudioViewModel.StartRecordingSecure | app/src/main/kotlin/com/buildaccent/as/ui/studio/LessonStudioViewModel.kt:206-219 | stops playback; before the reference has been heard sets the error and neither records nor sets the file; afterwards records into `filesDir/rec_<lessonId>_<uuid>.m4a` and clears the error |
| Studio.LessonStudioViewModel.StopRecordingSecure | app/src/main/kotlin/com/buildaccent/as/ui/studio/LessonStudioViewModel.kt:221-237 | stops recording, inserts at most one recording (this lesson, the file, duration 0) and clears the file |
| Studio.LessonStudioViewModel.StartRecording | app/src/main/kotlin/com/buildaccent/as/ui/studio/LessonStudioViewModel.kt:183-195 | stops playback and applies the same listen-first guard as the secure variant, without remembering a file |
| Studio.LessonStudioViewModel.StopRecording | app/src/main/kotlin/com/buildaccent/as/ui/studio/LessonStudioViewModel.kt:197-200 | clears only the recording flag |
| Studio.LessonStudioViewModel.DeleteRecording | app/src/main/kotlin/com/buildaccent/as/ui/studio/LessonStudioViewModel.kt:239-245 | deletes the row with that id and its file, leaving lessons alone |
| Studio.LessonStudioViewModel.DismissError | app/src/main/kotlin/com/buildaccent/as/ui/studio/LessonStudioViewModel.kt:247-249 | clears the error and changes nothing else |
| Studio.StopTwice | app/src/main/kotlin/com/buildaccent/as/ui/studio/LessonStudioViewModel.kt:221-237 | two stops in a row insert at most one recording, for this lesson with duration 0 |
| Studio.ListenThenRecord | app/src/main/kotlin/com/buildaccent/as/ui/studio/LessonStudioViewModel.kt:206-218 | starting the reference from rest marks it heard, so recording then starts without error, with its file set and no playback running |
| Settings.AvailableLanguagesExact | app/src/main/kotlin/com/buildaccent/as/ui/settings/SettingsViewModel.kt:37 | `availableLanguages` is sorted, duplicate-free and exactly the lessons' languages |
| Settings.Finished | app/src/main/kotlin/com/buildaccent/as/ui/settings/SettingsViewModel.kt:73-89 | a completed operation shows its success message; a failed one an error starting with its prefix |
| Settings.SettingsBackup.constructor | app/src/main/kotlin/com/buildaccent/as/ui/settings/SettingsViewModel.kt:27 | the backup state starts as Idle |
| Settings.SettingsBackup.ExportBackup | app/src/main/kotlin/com/buildaccent/as/ui/settings/SettingsViewModel.kt:68-79 | export shows `Loading("Exporting...")` and then settles on the finished state for its outcome (success message or `Export Failed: ` error) |
| Settings.SettingsBackup.ImportBackup | app/src/main/kotlin/com/buildaccent/as/ui/settings/SettingsViewModel.kt:81-92 | import shows `Loading("Importing...")` and then settles on the finished state for its outcome (success message or `Import Failed: ` error) |
| Settings.SettingsBackup.ClearBackupState | app/src/main/kotlin/com/buildaccent/as/ui/settings/SettingsViewModel.kt:94-96 | clearing returns to Idle from any state |
| Settings.FinishedSettles | app/src/main/kotlin/com/buildaccent/as/ui/settings/SettingsViewModel.kt:71-77 | the final state is Success exactly when the operation completed, Error exactly when it failed |
| Settings.FailureMessage | app/src/main/kotlin/com/buildaccent/as/ui/settings/SettingsViewModel.kt:76-89 | the error text is the prefix followed by the exception message, `null` when it has none |
| CreateLesson.LanguageAndAccentNotValidated | app/src/main/kotlin/com/buildaccent/as/ui/create/CreateLessonViewModel.kt:42 | language and accent never affect whether a lesson can be saved |
| CreateLesson.InitialStateCannotSave | app/src/main/kotlin/com/buildaccent/as/ui/create/CreateLessonViewModel.kt:42-45 | the initial form (blank title and text, no audio) cannot be saved |
| CreateLesson.NewLessonAudio | app/src/main/kotlin/com/buildaccent/as/ui/create/CreateLessonViewModel.kt:52-68 | the new lesson is a user lesson whose audio is `filesDir/custom_<uuid>.audio` |
| CreateLesson.CreateLessonViewModel.constructor | app/src/main/kotlin/com/buildaccent/as/ui/create/CreateLessonViewModel.kt:92-98 | the form starts with title "", English, Neutral, text "" and no audio |
| CreateLesson.CreateLessonViewModel.UpdateTitle | app/src/main/kotlin/com/buildaccent/as/ui/create/CreateLessonViewModel.kt:31 | changes only the title |
| CreateLesson.CreateLessonViewModel.UpdateLanguage | app/src/main/kotlin/com/buildaccent/as/ui/create/CreateLessonViewModel.kt:32 | changes only the language |
| CreateLesson.CreateLessonViewModel.UpdateAccent | app/src/main/kotlin/com/buildaccent/as/ui/create/CreateLessonViewModel.kt:33 | changes only the accent |
| CreateLesson.CreateLessonViewModel.UpdateText | app/src/main/kotlin/com/buildaccent/as/ui/create/CreateLessonViewModel.kt:34 | changes only the text |
| CreateLesson.CreateLessonViewModel.SelectAudio | app/src/main/kotlin/com/buildaccent/as/ui/create/CreateLessonViewModel.kt:36-38 | changes only the selected audio |
| CreateLesson.CreateLessonViewModel.SaveLesson | app/src/main/kotlin/com/buildaccent/as/ui/create/CreateLessonViewModel.kt:40-80 | saves exactly when title and text are non-blank and an audio file is selected; then copies the audio to `filesDir/custom_<uuid>.audio` and appends the form's fields as a user lesson with the next id; otherwise changes nothing |
| EditLesson.SavePreservesIdentity | app/src/main/kotlin/com/buildaccent/as/ui/create/EditLessonViewModel.kt:67-73 | the updated row keeps id, audio path and built-in flag, takes the four editable fields from the form, and no other row changes |
| EditLesson.EditLessonViewModel.constructor | app/src/main/kotlin/com/buildaccent/as/ui/create/EditLessonViewModel.kt:93-99 | the form starts empty for the given lesson id, with no original lesson |
| EditLesson.EditLessonViewModel.LoadLesson | app/src/main/kotlin/com/buildaccent/as/ui/create/EditLessonViewModel.kt:36-51 | a found lesson's four editable fields fill the form and it becomes the original; otherwise the form is unchanged |
| EditLesson.EditLessonViewModel.UpdateTitle | app/src/main/kotlin/com/buildaccent/as/ui/create/EditLessonViewModel.kt:53 | changes only the title |
| EditLesson.EditLessonViewModel.UpdateLanguage | app/src/main/kotlin/com/buildaccent/as/ui/create/EditLessonViewModel.kt:54 | changes only the language |
| EditLesson.EditLessonViewModel.UpdateAccent | app/src/main/kotlin/com/buildaccent/as/ui/create/EditLessonViewModel.kt:55 | changes only the accent |
| EditLesson.EditLessonViewModel.UpdateText | app/src/main/kotlin/com/buildaccent/as/ui/create/EditLessonViewModel.kt:56 | changes only the text |
| EditLesson.EditLessonViewModel.SaveLesson | app/src/main/kotlin/com/buildaccent/as/ui/create/EditLessonViewModel.kt:58-76 | a no-op without an original lesson or with a blank title or text; otherwise rewrites the original's row with the form's fields |
| Backup.LessonPaths | app/src/main/kotlin/com/buildaccent/as/data/BackupManager.kt:47 | one path per lesson, in order, and exactly the lessons' reference paths |
| Backup.RecordingPaths | app/src/main/kotlin/com/buildaccent/as/data/BackupManager.kt:48 | one path per recording, in order, and exactly the recordings' audio paths |
| Backup.AudioEntriesExact | app/src/main/kotlin/com/buildaccent/as/data/BackupManager.kt:50-61 | exactly one `audio/<basename>` entry per listed path that exists, holding its bytes; missing paths are skipped |
| Backup.AllPaths | app/src/main/kotlin/com/buildaccent/as/data/BackupManager.kt:46-48 | the path set is exactly the lessons' and recordings' paths |
| Backup.ExportMetadataFirst | app/src/main/kotlin/com/buildaccent/as/data/BackupManager.kt:31-42 | the first entry is `metadata.json`, and it decodes to all lessons and recordings unchanged |
| Backup.ExportAudio | app/src/main/kotlin/com/buildaccent/as/data/BackupManager.kt:46-61 | after the metadata, one audio entry per distinct existing path, and no other entries |
| Backup.AddPaths | app/src/main/kotlin/com/buildaccent/as/data/BackupManager.kt:47-48 | adding paths to the set leaves it equal to the distinct paths seen so far |
| Backup.AppendAudioEntries | app/src/main/kotlin/com/buildaccent/as/data/BackupManager.kt:50-62 | the loop appends exactly the audio entries of the existing paths |
| Backup.ExportBackup | app/src/main/kotlin/com/buildaccent/as/data/BackupManager.kt:29-66 | `exportBackup` writes exactly the specified archive |
| Backup.ReadFailsIffFailingEntry | app/src/main/kotlin/com/buildaccent/as/data/BackupManager.kt:84-93 | the entry loop ends with an exception exactly when some `metadata.json` entry cannot be decoded or some `audio/` entry's name resolves to a directory |
| Backup.ReadEntryMetadata | app/src/main/kotlin/com/buildaccent/as/data/BackupManager.kt:84-86 | only an entry named exactly `metadata.json` changes the metadata |
| Backup.NoMetadataEntry | app/src/main/kotlin/com/buildaccent/as/data/BackupManager.kt:70-84 | with no `metadata.json` entry the metadata stays null |
| Backup.LastMetadataWins | app/src/main/kotlin/com/buildaccent/as/data/BackupManager.kt:83-96 | the last `metadata.json` entry decides the metadata |
| Backup.ExportThenRead | app/src/main/kotlin/com/buildaccent/as/data/BackupManager.kt:29-102 | when the storage holds only regular files, reading an exported archive succeeds and recovers all lessons and recordings |
| Backup.ReadEntryScratch | app/src/main/kotlin/com/buildaccent/as/data/BackupManager.kt:87-93 | only `audio/` entries are extracted, under their base name |
| Backup.ReadEntryFails | app/src/main/kotlin/com/buildaccent/as/data/BackupManager.kt:84-93 | one entry fails exactly when it is malformed metadata or an audio entry named like a directory |
| Backup.AudioEntryName | app/src/main/kotlin/com/buildaccent/as/data/BackupManager.kt:52-58 | an exported entry's file name is the file's own name, so a regular file is never read back as a directory |
| Backup.ScratchNames | app/src/main/kotlin/com/buildaccent/as/data/BackupManager.kt:87-93 | the scratch directory holds exactly the base names of the `audio/` entries |
| Backup.ScratchLastWins | app/src/main/kotlin/com/buildaccent/as/data/BackupManager.kt:88-92 | a later `audio/` entry with the same base name overwrites an earlier one |
| Backup.RestoredLessonFields | app/src/main/kotlin/com/buildaccent/as/data/BackupManager.kt:114-146 | one row per archived lesson, in order, with consecutive fresh ids; only id and audio path change, and the path is kept when nothing of its name is in the scratch directory |
| Backup.IdMapKeys | app/src/main/kotlin/com/buildaccent/as/data/BackupManager.kt:111-146 | the id map has a key for each archived id, each mapped to one of the new ids |
| Backup.IdMapToLastCopy | app/src/main/kotlin/com/buildaccent/as/data/BackupManager.kt:146 | a repeated archived id maps to its last copy's new id |
| Backup.KeptRecordings | app/src/main/kotlin/com/buildaccent/as/data/BackupManager.kt:151-152 | exactly the recordings whose lesson was mapped are kept |
| Backup.RestoredRecordings | app/src/main/kotlin/com/buildaccent/as/data/BackupManager.kt:150-171 | one row per kept recording with fresh ids and the mapped lesson id, unchanged createdAt and durationMs, and its path kept when nothing of its name is in the scratch directory |
| Backup.PlaceLessonKeeps | app/src/main/kotlin/com/buildaccent/as/data/BackupManager.kt:116-137 | placing a lesson's audio changes or removes files only under `restored_`; a built-in copy never overwrites |
| Backup.DirectoryNameTargets | app/src/main/kotlin/com/buildaccent/as/data/BackupManager.kt:116-162 | an archived name resolving to a directory counts as present: a built-in lesson then points at that directory and no file changes; a user lesson or recording points at a `restored_` path where no file is left |
| Backup.DirectoryNames | app/src/main/kotlin/com/buildaccent/as/data/BackupManager.kt:116-117 | the names for which `File(dir, name)` is an existing directory are exactly `""`, `.` and `..` |
| Backup.PlaceRecordingKeeps | app/src/main/kotlin/com/buildaccent/as/data/BackupManager.kt:153-162 | placing a recording's audio changes or removes files only under `restored_` |
| Backup.LessonFilesKeep | app/src/main/kotlin/com/buildaccent/as/data/BackupManager.kt:114-147 | the lesson loop leaves every file outside `restored_` as it was |
| Backup.RecordingFilesKeep | app/src/main/kotlin/com/buildaccent/as/data/BackupManager.kt:150-171 | the recording loop leaves every file outside `restored_` as it was |
| Backup.RestoreKeepsFiles | app/src/main/kotlin/com/buildaccent/as/data/BackupManager.kt:109-172 | a restore leaves every existing file outside `restored_` as it was, so no app file is removed and no built-in file overwritten |
| Backup.KeepsTransitive | app/src/main/kotlin/com/buildaccent/as/data/BackupManager.kt:109-172 | leaving the files outside `restored_` as they were composes over successive steps |
| Backup.IdMapTargetsRestored | app/src/main/kotlin/com/buildaccent/as/data/BackupManager.kt:145-146 | every id-map target is the id of an inserted lesson, so restored recordings satisfy the foreign key |
| Backup.CopyLessonAudio | app/src/main/kotlin/com/buildaccent/as/data/BackupManager.kt:116-137 | returns the lesson's new path and leaves exactly the files the built-in/user policy gives, including the directory-name case |
| Backup.CopyRecordingAudio | app/src/main/kotlin/com/buildaccent/as/data/BackupManager.kt:153-162 | returns the recording's new path and leaves exactly the files the copy gives, including the directory-name case |
| Backup.RestoreLesson | app/src/main/kotlin/com/buildaccent/as/data/BackupManager.kt:140-145 | inserts the archived lesson with a fresh id and its new path |
| Backup.RestoreLessonAt | app/src/main/kotlin/com/buildaccent/as/data/BackupManager.kt:114-147 | one lesson turn keeps the loop invariant: rows, id map and files equal the specification one lesson further |
| Backup.InsertLessons | app/src/main/kotlin/com/buildaccent/as/data/BackupManager.kt:114-147 | the lesson loop appends exactly the restored rows, builds the id map and places the files |
| Backup.RestoreRecording | app/src/main/kotlin/com/buildaccent/as/data/BackupManager.kt:164-169 | inserts a recording with a fresh id, the mapped lesson id and its new path |
| Backup.RestoreRecordingAt | app/src/main/kotlin/com/buildaccent/as/data/BackupManager.kt:150-171 | one recording turn keeps the loop invariant |
| Backup.InsertRecordings | app/src/main/kotlin/com/buildaccent/as/data/BackupManager.kt:150-171 | the recording loop appends exactly the restored recordings and places their files |
| Backup.RestoreData | app/src/main/kotlin/com/buildaccent/as/data/BackupManager.kt:109-172 | `restoreData` only appends: the stores become the old rows plus the restored rows, the files the specified placement |
| Backup.ImportBackup | app/src/main/kotlin/com/buildaccent/as/data/BackupManager.kt:68-107 | completes exactly when no entry fails (malformed metadata, audio named like a directory); without metadata nothing changes; otherwise the store and files are restored from the last metadata and the extracted audio |
| Backup.AudioEntriesNotMetadata | app/src/main/kotlin/com/buildaccent/as/data/BackupManager.kt:54 | no audio entry is named `metadata.json`, so audio never disturbs the metadata on import |
| Backup.WriteKeeps | app/src/main/kotlin/com/buildaccent/as/data/BackupManager.kt:140-168 | writing to a new file or under `restored_` leaves every file outside `restored_` as it was |
| Backup.LessonRowStep | app/src/main/kotlin/com/buildaccent/as/data/BackupManager.kt:145 | one more archived lesson adds exactly its restored row |
| Backup.IdMapStep | app/src/main/kotlin/com/buildaccent/as/data/BackupManager.kt:146 | recording one more lesson's new id in the map is the specified map one lesson further |
| Backup.LessonFilesStep | app/src/main/kotlin/com/buildaccent/as/data/BackupManager.kt:116-143 | placing one more lesson's audio is the specified placement one lesson further |
| Backup.RecordingRowStep | app/src/main/kotlin/com/buildaccent/as/data/BackupManager.kt:151-169 | one more archived recording adds its restored row exactly when its lesson is mapped |
| Backup.RecordingFilesStep | app/src/main/kotlin/com/buildaccent/as/data/BackupManager.kt:151-168 | one more archived recording places its audio exactly when its lesson is mapped |
| LessonSegment.FindFromSkips | app/src/main/kotlin/com/buildaccent/as/ui/studio/LessonSegment.kt:20 | positions without `[` cannot start a match, so the search may skip them |
| LessonSegment.FoldMarkerThenPlain | app/src/main/kotlin/com/buildaccent/as/ui/studio/LessonSegment.kt:31-38 | after a content marker and a plain line the accumulator holds the trimmed content, one space, the line, at the marker's time |
| HomeViewModel.ImportedIndicesBetween | app/src/main/kotlin/com/buildaccent/as/ui/home/HomeViewModel.kt:75 | every imported index lies in `1..n` |
| Text.TrimKeepsLeadingText | app/src/main/kotlin/com/buildaccent/as/ui/studio/LessonSegment.kt:25 | a string starting with a non-whitespace character never trims to empty |

## Left out

- Compose rendering, theming, navigation and lifecycle wiring. Of the screens, only the tab and filter logic and the chevron rule of `HomeScreen.kt` and `formatTime` of `LessonStudioScreen.kt` are modelled.
- `AudioPlayer` and `AudioRecorder` are abstract collaborators. The model keeps only their effect on the studio flags. A playback completion callback is a separate method (`OnReferenceCompleted`, `OnUserCompleted`).
- The 100 ms progress poller and `seekTo`/`seekToProgress` (`LessonStudioViewModel.kt:123-150,251-267`) are concurrency and `Float` ratios. `playbackProgress` is a `real` that the modelled transitions set only to 0 or 1. Whether the poller runs is a boolean.
- Studio.LessonStudioViewModel.ToggleReferencePlayback: the resume branch (`LessonStudioViewModel.kt:108-111`) is dead, because `stopPlayback` has just set the progress to 0. The model proves it dead instead of modelling a seek.
- Studio.LessonStudioViewModel.StopRecordingSecure: if the lesson row no longer exists, the model inserts nothing. The source's insert would fail on the foreign key inside its coroutine.
- Studio.LessonStudioViewModel.OnRecordings: the `getRecordingsForLesson` flow collected by `loadRecordings` is modelled as one call per emitted list.
- Room, the repository and DataStore (`AppDatabase.kt`, `LessonRepository.kt`, `UserPreferencesRepository.kt`) are library-backed. The tables are sequences with a fresh-id insert, listed in ascending id order, with the cascading delete of `UserRecording.kt:15`. The preference toggles are DataStore writes and are not part of this model. The `combine` flows building `HomeUiState` and `SettingsUiState` are modelled only for their language computations.
- Store.Database.InsertLesson: `OnConflictStrategy.REPLACE` never fires, because every caller inserts with id 0, which Room replaces by the next auto id. An insert with an explicit existing id is not modelled.
- The ZIP container and Gson are abstract. The archive is a list of named entries, and the metadata codec is a round-tripping `encode`/`decode` pair. ZIP's exception on a duplicate entry name is not modelled.
- The storage directory is a map of regular files, so a path that names a directory is absent from it. On export, the source finds such a path to exist and `FileInputStream` throws; the model skips it as missing. On restore, an archived path whose name resolves to a directory (`""`, `.` or `..`) is modelled (see `DirectoryNameTargets`): `copyTo` makes an empty directory at a user target, and that directory is not a file of the model.
- Backup.ExportThenRead: requires that no stored path ends in a directory name (`""`, `.` or `..`), which no regular file's path does; a stored entry under such a path would be read back as an `audio/` entry named like a directory and end the import.
- Backup.RestoreKeepsFiles: a file already under `restored_` may be removed, because copying a directory over it with `overwrite = true` deletes it first. Files outside `restored_` are kept as they were.
- HomeViewModel.Suffix, StudioTime.FormatTime, Text.ZeroPad2: `%02d` is modelled with ASCII digits, as under a locale with Latin digits. Under a locale with other native digits, `String.format` writes those, so the built-in resource lookup fails and the time label differs.
- Text.Less, Collections.Sort: strings are compared character by character as code points. Kotlin's `compareTo` compares UTF-16 code units, which orders differently only when a character above U+FFFF meets one at U+E000 or above.
- Exception paths are not modelled, apart from a malformed `metadata.json` or an `audio/` entry named like a directory (`audio/.`, `audio/x/..`) ending the import. This includes failed copies, I/O errors and the scratch-directory cleanup (`BackupManager.kt:105`), which is skipped on an exception. The scratch directory and its cleanup are not files of the model.
- `System.currentTimeMillis()` and `UUID.randomUUID()` are parameters: one clock reading per restored lesson and recording, one UUID per new file name. Restored names are not claimed to be unique, because the source copies with `overwrite = true`.
- ContentResolver URIs: the selected audio of a new lesson is given as the bytes its URI resolves to, or nothing when `openInputStream` returns `null`.
- `WelcomeScreen.kt`, `SettingsScreen.kt`, `CreateLessonScreen.kt`, `EditLessonScreen.kt`, `MainActivity.kt`, `Navigation.kt` and the theme files are not part of this model.
