/**
 * The pure parts of `HomeBody` and `LessonCard` (ui/home/HomeScreen.kt):
 * the ordered list of language tabs, the clamp of the selected tab when
 * that list changes, the lessons shown under the selected tab, and which
 * icons a lesson card shows.
 */
module HomeScreen {
  import opened Text
  import opened Wrappers
  import opened Entities
  import opened Collections

  /** `lessons.map { it.language }`: one language per lesson, and exactly the lessons' languages. */
  function LanguagesOf(lessons: seq<Lesson>): (r: seq<string>)
    ensures |r| == |lessons| && forall i :: 0 <= i < |lessons| ==> r[i] == lessons[i].language
    ensures forall x :: x in r <==> exists l :: l in lessons && l.language == x
  {
    seq(|lessons|, i requires 0 <= i < |lessons| => lessons[i].language)
  }

  /** `lessons.map { it.language }.distinct().sorted()`. */
  function AllLanguages(lessons: seq<Lesson>): seq<string> {
    Sort(Distinct(LanguagesOf(lessons)))
  }

  predicate IsLessonLanguage(lessons: seq<Lesson>, x: string) {
    exists i :: 0 <= i < |lessons| && lessons[i].language == x
  }

  /** Every language of some lesson, once each, in ascending order. */
  lemma AllLanguagesExact(lessons: seq<Lesson>)
    ensures var r := AllLanguages(lessons);
      Sorted(r) && NoDuplicates(r) && forall x :: x in r <==> IsLessonLanguage(lessons, x)
  {
    var names := LanguagesOf(lessons);
    SortElements(Distinct(names));
    forall x ensures x in names <==> IsLessonLanguage(lessons, x) {
      if x in names {
        var i :| 0 <= i < |names| && names[i] == x;
      }
      if IsLessonLanguage(lessons, x) {
        var i :| 0 <= i < |lessons| && lessons[i].language == x;
        assert names[i] == x;
      }
    }
  }

  /** The tab languages: the preferred language first when some lesson has it, the rest ascending. */
  function TabLanguages(lessons: seq<Lesson>, preferred: Option<string>): seq<string> {
    var all := AllLanguages(lessons);
    if preferred.Some? && preferred.value in all then [preferred.value] + Without(all, preferred.value)
    else all
  }

  lemma ConsNoDuplicates(x: string, t: seq<string>)
    requires NoDuplicates(t) && x !in t
    ensures NoDuplicates([x] + t)
  {
    var r := [x] + t;
    forall i, j | 0 <= i < j < |r| ensures r[i] != r[j] {
      assert r[j] == t[j - 1];
      if i > 0 {
        assert r[i] == t[i - 1];
      }
    }
  }

  /** The tabs name each lesson language exactly once. */
  lemma TabLanguagesExact(lessons: seq<Lesson>, preferred: Option<string>)
    ensures var r := TabLanguages(lessons, preferred);
      NoDuplicates(r) && forall x :: x in r <==> IsLessonLanguage(lessons, x)
  {
    AllLanguagesExact(lessons);
    var all := AllLanguages(lessons);
    if preferred.Some? && preferred.value in all {
      ConsNoDuplicates(preferred.value, Without(all, preferred.value));
    }
  }

  /**
   * With a preferred language that some lesson has, it is the first tab and
   * the others follow in ascending order; otherwise all tabs are ascending.
   */
  lemma TabLanguagesOrder(lessons: seq<Lesson>, preferred: Option<string>)
    ensures var r := TabLanguages(lessons, preferred);
      if preferred.Some? && IsLessonLanguage(lessons, preferred.value)
      then |r| >= 1 && r[0] == preferred.value && Sorted(r[1..]) && preferred.value !in r[1..]
      else Sorted(r)
  {
    AllLanguagesExact(lessons);
  }

  /** The tab row appears only when there is more than one language. */
  function ShowTabRow(languages: seq<string>): bool {
    |languages| > 1
  }

  predicate TwoLanguages(lessons: seq<Lesson>) {
    exists i, j :: 0 <= i < |lessons| && 0 <= j < |lessons| && lessons[i].language != lessons[j].language
  }

  lemma TwoTabsTwoLanguages(lessons: seq<Lesson>, r: seq<string>)
    requires |r| > 1 && NoDuplicates(r) && forall x :: x in r <==> IsLessonLanguage(lessons, x)
    ensures TwoLanguages(lessons)
  {
    assert r[0] != r[1];
    assert r[0] in r && r[1] in r;
    var i :| 0 <= i < |lessons| && lessons[i].language == r[0];
    var j :| 0 <= j < |lessons| && lessons[j].language == r[1];
  }

  lemma TwoLanguagesTwoTabs(lessons: seq<Lesson>, r: seq<string>)
    requires TwoLanguages(lessons) && forall x :: x in r <==> IsLessonLanguage(lessons, x)
    ensures |r| > 1
  {
    var i, j :| 0 <= i < |lessons| && 0 <= j < |lessons| && lessons[i].language != lessons[j].language;
    var a, b := lessons[i].language, lessons[j].language;
    assert IsLessonLanguage(lessons, a) && IsLessonLanguage(lessons, b);
    assert a in r && b in r;
  }

  /** The tab row shows exactly when two lessons differ in language. */
  lemma TabRowIffTwoLanguages(lessons: seq<Lesson>, preferred: Option<string>)
    ensures ShowTabRow(TabLanguages(lessons, preferred)) <==>
      exists i, j :: 0 <= i < |lessons| && 0 <= j < |lessons| && lessons[i].language != lessons[j].language
  {
    var r := TabLanguages(lessons, preferred);
    TabLanguagesExact(lessons, preferred);
    if |r| > 1 {
      TwoTabsTwoLanguages(lessons, r);
    }
    if TwoLanguages(lessons) {
      TwoLanguagesTwoTabs(lessons, r);
    }
  }

  /** `lessonList.filter { it.language == lang }`: the matching lessons in their order. */
  function LessonsIn(lessons: seq<Lesson>, lang: string): (r: seq<Lesson>)
    ensures forall l :: l in r <==> l in lessons && l.language == lang
    ensures |r| <= |lessons|
  {
    if lessons == [] then []
    else
      var init := lessons[..|lessons| - 1];
      var last := lessons[|lessons| - 1];
      assert lessons == init + [last];
      if last.language == lang then LessonsIn(init, lang) + [last] else LessonsIn(init, lang)
  }

  /** A single lesson is kept exactly when its language matches. */
  lemma LessonsInSingle(l: Lesson, lang: string)
    ensures LessonsIn([l], lang) == if l.language == lang then [l] else []
  {
    assert [l][..0] == [];
  }

  /**
   * Filtering distributes over concatenation: the kept lessons of `a` come,
   * in their order, before those of `b`. With `LessonsInSingle` this pins the
   * result down as the order- and multiplicity-preserving filter.
   */
  lemma {:induction false} LessonsInAppend(a: seq<Lesson>, b: seq<Lesson>, lang: string)
    ensures LessonsIn(a + b, lang) == LessonsIn(a, lang) + LessonsIn(b, lang)
    decreases |b|
  {
    if b == [] {
      assert a + b == a;
    } else {
      var init := b[..|b| - 1];
      var last := b[|b| - 1];
      assert (a + b)[..|a + b| - 1] == a + init;
      assert (a + b)[|a + b| - 1] == last;
      LessonsInAppend(a, init, lang);
    }
  }

  /** `languages.getOrElse(selected) { "" }`. */
  function TabLanguage(languages: seq<string>, selected: int): string {
    if 0 <= selected < |languages| then languages[selected] else ""
  }

  /** The lessons listed under the tabs. */
  function FilteredLessons(lessons: seq<Lesson>, languages: seq<string>, selected: int): seq<Lesson> {
    if |languages| == 0 then []
    else if |languages| > 1 then LessonsIn(lessons, TabLanguage(languages, selected))
    else lessons
  }

  /**
   * With several tabs and a selection in range, exactly the lessons in the
   * selected language are shown, in their order; with one tab, all lessons.
   */
  lemma FilteredLessonsExact(lessons: seq<Lesson>, preferred: Option<string>, selected: int)
    ensures var languages := TabLanguages(lessons, preferred);
      var r := FilteredLessons(lessons, languages, selected);
      (|languages| > 1 && 0 <= selected < |languages| ==>
        r == LessonsIn(lessons, languages[selected]) &&
        forall l :: l in r <==> l in lessons && l.language == languages[selected])
      && (|languages| == 1 ==> r == lessons)
      && (|languages| == 0 <==> lessons == [])
  {
    var languages := TabLanguages(lessons, preferred);
    TabLanguagesExact(lessons, preferred);
    if lessons != [] {
      assert IsLessonLanguage(lessons, lessons[0].language);
      assert lessons[0].language in languages;
    }
  }

  /** Before the clamp runs, an out-of-range tab selects the language "", which no tab names. */
  lemma OutOfRangeTabShowsUnnamed(lessons: seq<Lesson>, languages: seq<string>, selected: int)
    requires |languages| > 1 && !(0 <= selected < |languages|)
    ensures forall l :: l in FilteredLessons(lessons, languages, selected) <==> l in lessons && l.language == ""
  {
  }

  /**
   * The clamp applied when the languages change: a selection the tabs
   * still have is kept, any other becomes the last tab, and a valid
   * selection stays a valid tab index whenever there is a tab.
   */
  function Clamped(selected: int, size: int): (r: int)
    ensures selected < size ==> r == selected
    ensures selected >= size ==> (size >= 1 ==> r == size - 1) && (size < 1 ==> r == 0)
    ensures 0 <= selected ==> 0 <= r && (size >= 1 ==> r < size)
  {
    if selected >= size then (if 0 > size - 1 then 0 else size - 1) else selected
  }

  /** `selectedTabIndex`, kept across recompositions. */
  class TabSelection {
    var selected: int

    ghost predicate Valid()
      reads this
    {
      selected >= 0
    }

    constructor ()
      ensures Valid() && selected == 0
    {
      selected := 0;
    }

    /** A tab was clicked. */
    method Select(index: int)
      requires 0 <= index
      modifies this
      ensures Valid() && selected == index
    {
      selected := index;
    }

    /** The `LaunchedEffect(languages)` clamp. */
    method OnLanguagesChanged(languages: seq<string>)
      requires Valid()
      modifies this
      ensures Valid() && selected == Clamped(old(selected), |languages|)
      ensures languages != [] ==> selected < |languages|
      ensures old(selected) < |languages| ==> selected == old(selected)
    {
      if selected >= |languages| {
        selected := if 0 > |languages| - 1 then 0 else |languages| - 1;
      }
    }
  }

  /** After the clamp, a selection that fell out of range lands on the last tab, not the first. */
  lemma ClampToLastTab(selected: int, size: int)
    requires size >= 1 && selected >= size
    ensures Clamped(selected, size) == size - 1
    ensures 0 <= Clamped(selected, size) < size
  {
  }

  datatype Icon = EditIcon | DeleteIcon | Chevron

  /** The trailing icons of a `LessonCard`, left to right. */
  function CardIcons(isEditEnabled: bool, isDeleteEnabled: bool): (r: seq<Icon>)
    ensures Chevron in r <==> EditIcon !in r && DeleteIcon !in r
    ensures |r| >= 1
  {
    (if isEditEnabled then [EditIcon] else [])
    + (if isDeleteEnabled then [DeleteIcon] else [])
    + (if !isEditEnabled && !isDeleteEnabled then [Chevron] else [])
  }

  /** The chevron shows exactly when neither editing nor deleting is enabled. */
  lemma ChevronIffNoActions(isEditEnabled: bool, isDeleteEnabled: bool)
    ensures Chevron in CardIcons(isEditEnabled, isDeleteEnabled) <==> !isEditEnabled && !isDeleteEnabled
  {
  }
}
