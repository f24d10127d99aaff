/**
 * `SegmentParser.parse` (ui/studio/LessonSegment.kt): splits a lesson script
 * into `(startTimeMs, text)` segments at `[M:SS]` / `[MM:SS]` markers.
 *
 * The parser is a loop over the lines that updates an accumulator, the
 * current start time and a "found any marker" flag; `Parse` is that loop and
 * `ParseSpec` the same computation written as a left fold over the lines,
 * about which the lemmas below are stated.
 */
module LessonSegment {
  import opened Text
  import opened Wrappers

  datatype Segment = Segment(startTimeMs: int, text: string)

  /**
   * The three groups of a match of `\[(\d{1,2}):(\d{2})\](.*)`: the minute
   * digits, the second digits, and the rest of the line after `]` up to the
   * first character `.` does not match.
   */
  datatype Marker = Marker(minutes: string, seconds: string, rest: string)

  /** Characters Java's `.` does not match: `\n`, `\r`, U+0085, U+2028, U+2029. */
  predicate IsLineTerminator(c: char) {
    c == '\n' || c == '\r' || c == '\U{85}' || c == '\U{2028}' || c == '\U{2029}'
  }

  /** What the greedy `(.*)` captures: the longest prefix free of line terminators. */
  function UpToTerminator(s: string): (r: string)
    ensures |r| <= |s| && r == s[..|r|]
    ensures forall i :: 0 <= i < |r| ==> !IsLineTerminator(r[i])
    ensures |r| == |s| || IsLineTerminator(s[|r|])
  {
    if s == [] || IsLineTerminator(s[0]) then []
    else
      var r := [s[0]] + UpToTerminator(s[1..]);
      r
  }

  predicate IsDigits(s: string) {
    forall i :: 0 <= i < |s| ==> IsDigit(s[i])
  }

  predicate WellFormed(m: Marker) {
    1 <= |m.minutes| <= 2 && |m.seconds| == 2 && IsDigits(m.minutes) && IsDigits(m.seconds)
  }

  /** The regex matched at index `p` of `s`, if it does. */
  function MatchAt(s: string, p: nat): (r: Option<Marker>)
    ensures r.Some? ==> WellFormed(r.value)
  {
    if p + 6 <= |s| && s[p] == '[' && IsDigit(s[p + 1]) && s[p + 2] == ':'
       && IsDigit(s[p + 3]) && IsDigit(s[p + 4]) && s[p + 5] == ']' then
      Some(Marker(s[p + 1..p + 2], s[p + 3..p + 5], UpToTerminator(s[p + 6..])))
    else if p + 7 <= |s| && s[p] == '[' && IsDigit(s[p + 1]) && IsDigit(s[p + 2]) && s[p + 3] == ':'
       && IsDigit(s[p + 4]) && IsDigit(s[p + 5]) && s[p + 6] == ']' then
      Some(Marker(s[p + 1..p + 3], s[p + 4..p + 6], UpToTerminator(s[p + 7..])))
    else None
  }

  function FindFrom(s: string, p: nat): (r: Option<Marker>)
    requires p <= |s|
    ensures r.Some? ==> WellFormed(r.value)
    decreases |s| - p
  {
    if MatchAt(s, p).Some? then MatchAt(s, p)
    else if p == |s| then None
    else FindFrom(s, p + 1)
  }

  /** `Regex.find`: the match that starts leftmost in `s`, anywhere in the line. */
  function Find(s: string): (r: Option<Marker>)
    ensures r.Some? ==> WellFormed(r.value)
  {
    FindFrom(s, 0)
  }

  /** `(minutes * 60 + seconds) * 1000`; the seconds are not range-checked. */
  function MarkerTime(m: Marker): (t: nat)
    requires WellFormed(m)
  {
    (DigitsValue(m.minutes) * 60 + DigitsValue(m.seconds)) * 1000
  }

  // ---------------------------------------------------------------------------
  // The loop as a fold

  /** A line as the loop body sees it: a marker line, or a plain line already trimmed. */
  datatype Line = Timestamped(marker: Marker) | Plain(text: string)

  /** `regex.find(line.trim())` decides which branch of the loop body runs. */
  function Classify(line: string): (l: Line)
    ensures l.Timestamped? ==> WellFormed(l.marker)
  {
    var t := Trim(line);
    match Find(t)
    case Some(m) => Timestamped(m)
    case None => Plain(t)
  }

  function ClassifyAll(lines: seq<string>): (ls: seq<Line>)
    ensures |ls| == |lines| && AllWellFormed(ls)
  {
    seq(|lines|, k requires 0 <= k < |lines| => Classify(lines[k]))
  }

  /** The parser's loop variables: emitted segments, accumulator, current start time, marker seen. */
  datatype Accum = Accum(segments: seq<Segment>, acc: string, start: int, found: bool)

  const Init := Accum([], "", 0, false)

  /** The accumulator closed as a segment, when it is not empty. */
  function Flushed(st: Accum): seq<Segment> {
    if |st.acc| > 0 then st.segments + [Segment(st.start, Trim(st.acc))] else st.segments
  }

  /** One iteration of the loop body. */
  function Step(st: Accum, l: Line): Accum
    requires l.Timestamped? ==> WellFormed(l.marker)
  {
    match l
    case Timestamped(m) => Accum(Flushed(st), Trim(m.rest), MarkerTime(m), true)
    case Plain(t) => if |st.acc| > 0 then st.(acc := st.acc + " " + t) else st.(acc := t)
  }

  predicate AllWellFormed(ls: seq<Line>) {
    forall k :: 0 <= k < |ls| ==> ls[k].Timestamped? ==> WellFormed(ls[k].marker)
  }

  function FoldLines(ls: seq<Line>): Accum
    requires AllWellFormed(ls)
  {
    if ls == [] then Init else Step(FoldLines(ls[..|ls| - 1]), ls[|ls| - 1])
  }

  lemma FoldLinesPrefix(ls: seq<Line>, i: nat)
    requires AllWellFormed(ls) && i < |ls|
    ensures FoldLines(ls[..i + 1]) == Step(FoldLines(ls[..i]), ls[i])
  {
    assert ls[..i + 1][..i] == ls[..i];
  }

  /** The final flush and the fallback for unmarked text. */
  function Finish(st: Accum, rawText: string): seq<Segment> {
    var segs := Flushed(st);
    if !st.found && |segs| <= 1 then [Segment(0, rawText)] else segs
  }

  function ParseSpec(rawText: string): seq<Segment> {
    Finish(FoldLines(ClassifyAll(Lines(rawText))), rawText)
  }

  lemma AppendToEmpty(a: string, b: string)
    requires |a| == 0
    ensures a + b == b
  {
  }

  /** The body of the parser's loop: one line updates the four loop variables. */
  method ParseLine(segments: seq<Segment>, acc: string, currentStartTime: int, foundAnyTimestamp: bool, line: string)
    returns (segments': seq<Segment>, acc': string, currentStartTime': int, foundAnyTimestamp': bool)
    ensures Accum(segments', acc', currentStartTime', foundAnyTimestamp')
      == Step(Accum(segments, acc, currentStartTime, foundAnyTimestamp), Classify(line))
  {
    segments', acc', currentStartTime', foundAnyTimestamp' := segments, acc, currentStartTime, foundAnyTimestamp;
    var t := Trim(line);
    var m := Find(t);
    if m.Some? {
      foundAnyTimestamp' := true;
      if |acc'| > 0 {
        segments' := segments' + [Segment(currentStartTime', Trim(acc'))];
        acc' := "";
      }
      currentStartTime' := MarkerTime(m.value);
      var content := Trim(m.value.rest);
      AppendToEmpty(acc', content);
      acc' := acc' + content;
    } else if |acc'| > 0 {
      acc' := acc' + " " + t;
    } else {
      AppendToEmpty(acc', t);
      acc' := acc' + t;
    }
  }

  /** The parser's loop over the lines of the text. */
  method ParseLines(lines: seq<string>)
    returns (segments: seq<Segment>, acc: string, currentStartTime: int, foundAnyTimestamp: bool)
    ensures Accum(segments, acc, currentStartTime, foundAnyTimestamp) == FoldLines(ClassifyAll(lines))
  {
    ghost var ls := ClassifyAll(lines);
    segments, acc, currentStartTime, foundAnyTimestamp := [], "", 0, false;
    for i := 0 to |lines|
      invariant Accum(segments, acc, currentStartTime, foundAnyTimestamp) == FoldLines(ls[..i])
    {
      FoldLinesPrefix(ls, i);
      segments, acc, currentStartTime, foundAnyTimestamp :=
        ParseLine(segments, acc, currentStartTime, foundAnyTimestamp, lines[i]);
    }
    assert ls[..|lines|] == ls;
  }

  /** `SegmentParser.parse`: the loop, the final flush, and the fallback for unmarked text. */
  method Parse(rawText: string) returns (segments: seq<Segment>)
    ensures segments == ParseSpec(rawText)
  {
    var acc, currentStartTime, foundAnyTimestamp;
    segments, acc, currentStartTime, foundAnyTimestamp := ParseLines(Lines(rawText));
    ghost var st := Accum(segments, acc, currentStartTime, foundAnyTimestamp);
    if |acc| > 0 {
      segments := segments + [Segment(currentStartTime, Trim(acc))];
    }
    assert segments == Flushed(st);
    if !foundAnyTimestamp && |segments| <= 1 {
      segments := [Segment(0, rawText)];
    }
    assert segments == Finish(st, rawText);
  }

  // ---------------------------------------------------------------------------
  // Recognising a marker

  /** The literal text of a marker token, `[` minutes `:` seconds `]`. */
  function Token(m: Marker): string {
    "[" + m.minutes + ":" + m.seconds + "]"
  }

  /** A match at `p` is the token spelled out at `p`, and the content is what follows up to a terminator. */
  lemma MatchAtShape(s: string, p: nat)
    requires MatchAt(s, p).Some?
    ensures var m := MatchAt(s, p).value;
      p + |Token(m)| <= |s| && s[p..p + |Token(m)|] == Token(m)
      && m.rest == UpToTerminator(s[p + |Token(m)|..])
  {
    var m := MatchAt(s, p).value;
    if |m.minutes| == 1 {
      assert s[p..p + 6] == Token(m);
    } else {
      assert s[p..p + 7] == Token(m);
    }
  }

  lemma MatchAtShortToken(s: string, p: nat, m: Marker)
    requires WellFormed(m) && |m.minutes| == 1
    requires p + 6 <= |s| && s[p..p + 6] == Token(m)
    ensures MatchAt(s, p) == Some(Marker(m.minutes, m.seconds, UpToTerminator(s[p + 6..])))
  {
    var w := s[p..p + 6];
    var mi, se := m.minutes, m.seconds;
    assert w == ['[', mi[0], ':', se[0], se[1], ']'];
    assert s[p] == w[0] && s[p + 1] == w[1] && s[p + 2] == w[2];
    assert s[p + 3] == w[3] && s[p + 4] == w[4] && s[p + 5] == w[5];
    assert IsDigit(mi[0]) && IsDigit(se[0]) && IsDigit(se[1]);
    assert s[p + 1..p + 2] == mi;
    assert s[p + 3..p + 5] == se;
  }

  lemma MatchAtLongToken(s: string, p: nat, m: Marker)
    requires WellFormed(m) && |m.minutes| == 2
    requires p + 7 <= |s| && s[p..p + 7] == Token(m)
    ensures MatchAt(s, p) == Some(Marker(m.minutes, m.seconds, UpToTerminator(s[p + 7..])))
  {
    var w := s[p..p + 7];
    var mi, se := m.minutes, m.seconds;
    assert w == ['[', mi[0], mi[1], ':', se[0], se[1], ']'];
    assert s[p] == w[0] && s[p + 1] == w[1] && s[p + 2] == w[2] && s[p + 3] == w[3];
    assert s[p + 4] == w[4] && s[p + 5] == w[5] && s[p + 6] == w[6];
    assert IsDigit(mi[0]) && IsDigit(mi[1]) && IsDigit(se[0]) && IsDigit(se[1]);
    assert s[p + 1..p + 3] == mi;
    assert s[p + 4..p + 6] == se;
  }

  /** Conversely, a well-formed token spelled out at `p` is matched there. */
  lemma MatchAtToken(s: string, p: nat, m: Marker)
    requires WellFormed(m) && p + |Token(m)| <= |s| && s[p..p + |Token(m)|] == Token(m)
    ensures MatchAt(s, p) == Some(Marker(m.minutes, m.seconds, UpToTerminator(s[p + |Token(m)|..])))
  {
    if |m.minutes| == 1 {
      MatchAtShortToken(s, p, m);
    } else {
      MatchAtLongToken(s, p, m);
    }
  }

  lemma {:induction false} FindFromLeftmost(s: string, p: nat)
    requires p <= |s|
    ensures FindFrom(s, p).None? <==> forall q :: p <= q <= |s| ==> MatchAt(s, q).None?
    ensures FindFrom(s, p).Some? ==> exists q :: (p <= q <= |s| && MatchAt(s, q) == FindFrom(s, p)
      && forall q' :: p <= q' < q ==> MatchAt(s, q').None?)
    decreases |s| - p
  {
    if MatchAt(s, p).Some? {
      assert FindFrom(s, p) == MatchAt(s, p);
    } else if p == |s| {
      assert FindFrom(s, p).None?;
    } else {
      assert FindFrom(s, p) == FindFrom(s, p + 1);
      FindFromLeftmost(s, p + 1);
      if FindFrom(s, p).Some? {
        var q :| p + 1 <= q <= |s| && MatchAt(s, q) == FindFrom(s, p)
          && forall q' :: p + 1 <= q' < q ==> MatchAt(s, q').None?;
        assert forall q' :: p <= q' < q ==> MatchAt(s, q').None?;
      }
    }
  }

  /**
   * `find` looks for the marker anywhere in the line: it reports no match
   * exactly when the pattern matches at no index, and otherwise the match at
   * the leftmost index where it does, whatever text precedes it.
   */
  lemma FindLeftmost(s: string)
    ensures Find(s).None? <==> forall q :: 0 <= q <= |s| ==> MatchAt(s, q).None?
    ensures Find(s).Some? ==> exists q :: (0 <= q <= |s| && MatchAt(s, q) == Find(s)
      && forall q' :: 0 <= q' < q ==> MatchAt(s, q').None?)
  {
    FindFromLeftmost(s, 0);
  }

  /** A token at the start of a line is the match `find` reports. */
  lemma FindAtStart(s: string, m: Marker)
    requires WellFormed(m) && |Token(m)| <= |s| && s[..|Token(m)|] == Token(m)
    ensures Find(s) == Some(Marker(m.minutes, m.seconds, UpToTerminator(s[|Token(m)|..])))
  {
    MatchAtToken(s, 0, m);
  }

  /** Positions that hold no `[` cannot start a match, so the search passes over them. */
  lemma {:induction false} FindFromSkips(s: string, p: nat, k: nat)
    requires p <= k <= |s|
    requires forall q :: p <= q < k ==> s[q] != '['
    ensures FindFrom(s, p) == FindFrom(s, k)
    decreases k - p
  {
    if p < k {
      assert MatchAt(s, p).None?;
      FindFromSkips(s, p + 1, k);
    }
  }

  /**
   * The marker may sit anywhere in the line: text before the token that
   * holds no `[` is passed over and dropped, and the content is what
   * follows the token.
   */
  lemma MarkerAfterText(pre: string, m: Marker, post: string)
    requires WellFormed(m) && forall q :: 0 <= q < |pre| ==> pre[q] != '['
    ensures Find(pre + Token(m) + post) == Some(Marker(m.minutes, m.seconds, UpToTerminator(post)))
  {
    var s := pre + Token(m) + post;
    assert forall q :: 0 <= q < |pre| ==> s[q] == pre[q];
    FindFromSkips(s, 0, |pre|);
    assert s[|pre|..|pre| + |Token(m)|] == Token(m);
    assert s[|pre| + |Token(m)|..] == post;
    MatchAtToken(s, |pre|, m);
  }

  lemma UpToTerminatorAll(s: string)
    requires forall i :: 0 <= i < |s| ==> !IsLineTerminator(s[i])
    ensures UpToTerminator(s) == s
  {
  }

  /**
   * The seconds field is not range-checked: `[0:75]` starts at 75000 ms,
   * the same instant as `[1:15]`.
   */
  lemma SecondsNotRangeChecked()
    ensures Find("[0:75]") == Some(Marker("0", "75", ""))
    ensures MarkerTime(Marker("0", "75", "")) == 75000
    ensures MarkerTime(Marker("1", "15", "")) == 75000
  {
    FindAtStart("[0:75]", Marker("0", "75", ""));
    assert "75"[..1] == "7";
    assert "15"[..1] == "1";
  }

  // ---------------------------------------------------------------------------
  // Properties of the fold

  predicate IsPlainLine(l: Line) { l.Plain? }

  predicate PlainTrimmed(ls: seq<Line>) {
    forall k :: 0 <= k < |ls| ==> ls[k].Plain? ==> IsTrimmed(ls[k].text)
  }

  lemma ClassifiedPlainTrimmed(lines: seq<string>)
    ensures PlainTrimmed(ClassifyAll(lines))
  {
  }

  /** The `found` flag is set exactly when some line is a marker line. */
  lemma {:induction false} FoundIffMarker(ls: seq<Line>)
    requires AllWellFormed(ls)
    ensures FoldLines(ls).found <==> exists k :: 0 <= k < |ls| && ls[k].Timestamped?
  {
    if ls != [] {
      var pre := ls[..|ls| - 1];
      FoundIffMarker(pre);
      assert forall k :: 0 <= k < |pre| ==> pre[k] == ls[k];
    }
  }

  /** Without marker lines, nothing is ever emitted before the final flush. */
  lemma {:induction false} PlainOnlyEmitsNothing(ls: seq<Line>)
    requires AllWellFormed(ls)
    requires forall k :: 0 <= k < |ls| ==> ls[k].Plain?
    ensures FoldLines(ls).segments == []
  {
    if ls != [] {
      PlainOnlyEmitsNothing(ls[..|ls| - 1]);
    }
  }

  /** Some line of `rawText` holds a marker after trimming. */
  predicate HasMarkerLine(rawText: string) {
    var lines := Lines(rawText);
    exists k :: 0 <= k < |lines| && Find(Trim(lines[k])).Some?
  }

  /** Text in which no line holds a marker comes back verbatim, untrimmed, as one segment at 0. */
  lemma NoMarkerFallback(rawText: string)
    requires !HasMarkerLine(rawText)
    ensures ParseSpec(rawText) == [Segment(0, rawText)]
  {
    var ls := ClassifyAll(Lines(rawText));
    assert forall k :: 0 <= k < |ls| ==> ls[k].Plain?;
    PlainOnlyEmitsNothing(ls);
    FoundIffMarker(ls);
  }

  /** Once any marker is found, the fallback never applies: the output is what was flushed. */
  lemma MarkerNoFallback(rawText: string)
    requires HasMarkerLine(rawText)
    ensures ParseSpec(rawText) == Flushed(FoldLines(ClassifyAll(Lines(rawText))))
  {
    var lines := Lines(rawText);
    var ls := ClassifyAll(lines);
    var k :| 0 <= k < |lines| && Find(Trim(lines[k])).Some?;
    assert ls[k] == Classify(lines[k]) && ls[k].Timestamped?;
    FoundIffMarker(ls);
    FinishFound(FoldLines(ls), rawText);
  }

  predicate CleanText(t: string) { t != [] && IsTrimmed(t) }

  /** Emitted texts are non-empty and trimmed; a non-empty accumulator starts with text. */
  predicate Clean(st: Accum) {
    (forall i :: 0 <= i < |st.segments| ==> CleanText(st.segments[i].text))
    && (st.acc == [] || !IsWhitespace(st.acc[0]))
  }

  lemma FlushedClean(st: Accum)
    requires Clean(st)
    ensures forall i :: 0 <= i < |Flushed(st)| ==> CleanText(Flushed(st)[i].text)
  {
    if |st.acc| > 0 {
      TrimKeepsLeadingText(st.acc);
    }
  }

  lemma {:induction false} FoldClean(ls: seq<Line>)
    requires AllWellFormed(ls) && PlainTrimmed(ls)
    ensures Clean(FoldLines(ls))
  {
    if ls != [] {
      var pre := ls[..|ls| - 1];
      assert PlainTrimmed(pre) by {
        assert forall k :: 0 <= k < |pre| ==> pre[k] == ls[k];
      }
      FoldClean(pre);
      var st := FoldLines(pre);
      FlushedClean(st);
      match ls[|ls| - 1]
      case Timestamped(m) =>
      case Plain(t) =>
        if |st.acc| > 0 {
          assert (st.acc + " " + t)[0] == st.acc[0];
        }
    }
  }

  /** Outside the fallback, every segment's text is non-empty and equal to its own trim. */
  lemma MarkedSegmentsClean(rawText: string)
    requires HasMarkerLine(rawText)
    ensures var r := ParseSpec(rawText);
      forall i :: 0 <= i < |r| ==> r[i].text != [] && Trim(r[i].text) == r[i].text
  {
    var ls := ClassifyAll(Lines(rawText));
    var r := Flushed(FoldLines(ls));
    MarkerNoFallback(rawText);
    ClassifiedPlainTrimmed(Lines(rawText));
    FoldClean(ls);
    FlushedClean(FoldLines(ls));
    forall i | 0 <= i < |r| ensures r[i].text != [] && Trim(r[i].text) == r[i].text {
      TrimOfTrimmed(r[i].text);
    }
  }

  /**
   * A marker whose content is blank, followed directly by another marker,
   * emits nothing: its start time appears in no segment.
   */
  lemma BlankMarkerSwallowed(st: Accum, m1: Marker, m2: Marker)
    requires WellFormed(m1) && WellFormed(m2) && Trim(m1.rest) == []
    ensures Step(Step(st, Timestamped(m1)), Timestamped(m2))
      == Accum(Flushed(st), Trim(m2.rest), MarkerTime(m2), true)
  {
  }

  /** A line that adds no text: a marker with blank content, or a blank plain line. */
  predicate Silent(l: Line) {
    (l.Timestamped? && Trim(l.marker.rest) == []) || l == Plain([])
  }

  lemma {:induction false} SilentEmitsNothing(ls: seq<Line>)
    requires AllWellFormed(ls)
    requires forall k :: 0 <= k < |ls| ==> Silent(ls[k])
    ensures FoldLines(ls).segments == [] && FoldLines(ls).acc == []
  {
    if ls != [] {
      SilentEmitsNothing(ls[..|ls| - 1]);
    }
  }

  /**
   * Text made only of blank markers (and blank lines), with at least one
   * marker, parses to the empty list: the fallback does not apply.
   */
  lemma BlankMarkersOnly(rawText: string)
    requires HasMarkerLine(rawText)
    requires forall k :: 0 <= k < |Lines(rawText)| ==>
      IsBlank(Lines(rawText)[k]) || (Find(Trim(Lines(rawText)[k])).Some? && Trim(Find(Trim(Lines(rawText)[k])).value.rest) == [])
    ensures ParseSpec(rawText) == []
  {
    var lines := Lines(rawText);
    var ls := ClassifyAll(lines);
    forall k | 0 <= k < |ls| ensures Silent(ls[k]) {
      if IsBlank(lines[k]) {
        BlankIffTrimEmpty(lines[k]);
        FindLeftmost(Trim(lines[k]));
      }
    }
    SilentEmitsNothing(ls);
    MarkerNoFallback(rawText);
  }

  // ---------------------------------------------------------------------------
  // Start times

  /** The time of the last marker line, or 0 before any marker. */
  function LastTime(ls: seq<Line>): nat
    requires AllWellFormed(ls)
  {
    if ls == [] then 0
    else if ls[|ls| - 1].Timestamped? then MarkerTime(ls[|ls| - 1].marker)
    else LastTime(ls[..|ls| - 1])
  }

  /** The current start time is that of the most recent marker, 0 before the first. */
  lemma {:induction false} StartIsLastMarker(ls: seq<Line>)
    requires AllWellFormed(ls)
    ensures FoldLines(ls).start == LastTime(ls)
  {
    if ls != [] {
      StartIsLastMarker(ls[..|ls| - 1]);
    }
  }

  /** Every emitted segment starts at or before the current start time, in order. */
  predicate TimesOrdered(st: Accum) {
    (forall i, j :: 0 <= i < j < |st.segments| ==> st.segments[i].startTimeMs <= st.segments[j].startTimeMs)
    && (forall i :: 0 <= i < |st.segments| ==> st.segments[i].startTimeMs <= st.start)
  }

  predicate MarkersNonDecreasing(ls: seq<Line>)
    requires AllWellFormed(ls)
  {
    forall i, j :: 0 <= i < j < |ls| && ls[i].Timestamped? && ls[j].Timestamped? ==>
      MarkerTime(ls[i].marker) <= MarkerTime(ls[j].marker)
  }

  lemma {:induction false} LastTimeBelow(ls: seq<Line>, t: nat)
    requires AllWellFormed(ls)
    requires forall k :: 0 <= k < |ls| && ls[k].Timestamped? ==> MarkerTime(ls[k].marker) <= t
    ensures LastTime(ls) <= t
  {
    if ls != [] && ls[|ls| - 1].Plain? {
      var pre := ls[..|ls| - 1];
      assert forall k :: 0 <= k < |pre| ==> pre[k] == ls[k];
      LastTimeBelow(pre, t);
    }
  }

  /** Flushing keeps the start times ordered and at or before the current start time. */
  lemma FlushedTimesOrdered(st: Accum)
    requires TimesOrdered(st)
    ensures StartsSorted(Flushed(st))
    ensures forall i :: 0 <= i < |Flushed(st)| ==> Flushed(st)[i].startTimeMs <= st.start
  {
    var segs := Flushed(st);
    if |st.acc| > 0 {
      var last := Segment(st.start, Trim(st.acc));
      assert segs == st.segments + [last];
      forall i | 0 <= i < |segs| ensures segs[i].startTimeMs <= st.start {
        if i < |st.segments| {
          assert segs[i] == st.segments[i];
        }
      }
      forall i, j | 0 <= i < j < |segs| ensures segs[i].startTimeMs <= segs[j].startTimeMs {
        assert segs[i] == st.segments[i];
        if j < |st.segments| {
          assert segs[j] == st.segments[j];
        } else {
          assert segs[j] == last;
        }
      }
    }
  }

  lemma StepTimesOrdered(st: Accum, l: Line)
    requires l.Timestamped? ==> WellFormed(l.marker)
    requires TimesOrdered(st) && (l.Timestamped? ==> st.start <= MarkerTime(l.marker))
    ensures TimesOrdered(Step(st, l))
  {
    var next := Step(st, l);
    if l.Timestamped? {
      assert next.segments == Flushed(st) && next.start == MarkerTime(l.marker);
      FlushedTimesOrdered(st);
    } else {
      assert next.segments == st.segments && next.start == st.start;
    }
  }

  lemma {:induction false} FoldTimesOrdered(ls: seq<Line>)
    requires AllWellFormed(ls) && MarkersNonDecreasing(ls)
    ensures TimesOrdered(FoldLines(ls))
  {
    if ls != [] {
      var pre := ls[..|ls| - 1];
      assert forall k :: 0 <= k < |pre| ==> pre[k] == ls[k];
      assert MarkersNonDecreasing(pre);
      FoldTimesOrdered(pre);
      var l := ls[|ls| - 1];
      if l.Timestamped? {
        StartIsLastMarker(pre);
        LastTimeBelow(pre, MarkerTime(l.marker));
      }
      StepTimesOrdered(FoldLines(pre), l);
    }
  }

  predicate StartsSorted(segs: seq<Segment>) {
    forall i, j :: 0 <= i < j < |segs| ==> segs[i].startTimeMs <= segs[j].startTimeMs
  }

  lemma FinishSorted(st: Accum, rawText: string)
    requires TimesOrdered(st)
    ensures StartsSorted(Finish(st, rawText))
  {
    FlushedTimesOrdered(st);
  }

  /** When marker times never go backwards in the text, segment start times are sorted. */
  lemma SortedWhenMarkersSorted(rawText: string)
    requires MarkersNonDecreasing(ClassifyAll(Lines(rawText)))
    ensures forall i, j :: 0 <= i < j < |ParseSpec(rawText)| ==>
      ParseSpec(rawText)[i].startTimeMs <= ParseSpec(rawText)[j].startTimeMs
  {
    var ls := ClassifyAll(Lines(rawText));
    FoldTimesOrdered(ls);
    FinishSorted(FoldLines(ls), rawText);
    assert StartsSorted(ParseSpec(rawText));
  }

  /** Text before the first marker is emitted first, at time 0. */
  lemma {:induction false} LeadingTextAtZero(ls: seq<Line>)
    requires AllWellFormed(ls) && |ls| >= 1 && ls[0].Plain? && ls[0].text != [] 
    ensures var st := FoldLines(ls);
      (st.segments == [] ==> st.start == 0 && st.acc != [])
      && (st.segments != [] ==> st.segments[0].startTimeMs == 0)
  {
    if |ls| > 1 {
      var pre := ls[..|ls| - 1];
      assert pre[0] == ls[0];
      LeadingTextAtZero(pre);
    } else {
      assert ls[..0] == [];
    }
  }

  // ---------------------------------------------------------------------------
  // A worked example

  /** `find` on a line that starts with a token: the token's groups, the rest of the line as content. */
  lemma FindMarkerLine()
    ensures Find("[0:05]Hello") == Some(Marker("0", "05", "Hello"))
  {
    var m := Marker("0", "05", "Hello");
    assert "[0:05]Hello"[..6] == Token(m);
    assert "[0:05]Hello"[6..] == "Hello";
    UpToTerminatorAll("Hello");
    FindAtStart("[0:05]Hello", m);
  }

  /** A marker line: the token gives the time, the text after it is the content. */
  lemma ClassifyMarkerLine()
    ensures Classify("[0:05]Hello") == Timestamped(Marker("0", "05", "Hello"))
  {
    TrimOfTrimmed("[0:05]Hello");
    FindMarkerLine();
  }

  predicate NoLineBreaks(s: string) {
    forall i :: 0 <= i < |s| ==> !IsLineBreak(s[i])
  }

  lemma TwoLines(line1: string, line2: string)
    requires NoLineBreaks(line1) && NoLineBreaks(line2)
    ensures Lines(line1 + "\n" + line2) == [line1, line2]
  {
    LinesOfSingleLine(line2);
    LinesCons(line1, line2);
  }

  lemma FoldMarkerThenPlain(m: Marker, t: string)
    requires WellFormed(m) && Trim(m.rest) != []
    ensures FoldLines([Timestamped(m), Plain(t)]) == Accum([], Trim(m.rest) + " " + t, MarkerTime(m), true)
  {
    var ls := [Timestamped(m), Plain(t)];
    assert ls[..1] == [Timestamped(m)] && ls[..1][..0] == [];
    assert FoldLines(ls[..1]) == Accum([], Trim(m.rest), MarkerTime(m), true);
  }

  lemma JoinTrimmed(c: string, t: string)
    requires c != [] && IsTrimmed(c) && t != [] && IsTrimmed(t)
    ensures Trim(c + " " + t) == c + " " + t
  {
    var j := c + " " + t;
    assert j[0] == c[0] && j[|j| - 1] == t[|t| - 1];
    TrimOfTrimmed(j);
  }

  /** Nothing emitted and a non-empty trimmed accumulator: the flush emits exactly it. */
  lemma FlushedOne(st: Accum)
    requires st.segments == [] && |st.acc| > 0
    ensures Flushed(st) == [Segment(st.start, Trim(st.acc))]
  {
  }

  lemma FlushedTrimmed(st: Accum)
    requires st.segments == [] && |st.acc| > 0 && Trim(st.acc) == st.acc
    ensures Flushed(st) == [Segment(st.start, st.acc)]
  {
    FlushedOne(st);
  }

  /** Once a marker was seen, the fallback does not apply. */
  lemma FinishFound(st: Accum, raw: string)
    requires st.found
    ensures Finish(st, raw) == Flushed(st)
  {
  }

  lemma PairOf<T>(s: seq<T>)
    requires |s| == 2
    ensures s == [s[0], s[1]]
  {
  }

  /** The fold of a marker line followed by a plain line, finished: one joined segment. */
  lemma FinishJoined(m: Marker, t: string, raw: string)
    requires WellFormed(m) && Trim(m.rest) != [] && t != [] && IsTrimmed(t)
    ensures Finish(FoldLines([Timestamped(m), Plain(t)]), raw) == [Segment(MarkerTime(m), Trim(m.rest) + " " + t)]
  {
    FoldMarkerThenPlain(m, t);
    var st := Accum([], Trim(m.rest) + " " + t, MarkerTime(m), true);
    JoinTrimmed(Trim(m.rest), t);
    FlushedTrimmed(st);
    FinishFound(st, raw);
  }

  /**
   * A marker line with content, then a non-blank line without a marker: one
   * segment at the marker's time whose text is the trimmed content and the
   * trimmed continuation joined by exactly one space.
   */
  lemma ContinuationJoined(line1: string, line2: string)
    requires NoLineBreaks(line1) && NoLineBreaks(line2)
    requires Find(Trim(line1)).Some? && Trim(Find(Trim(line1)).value.rest) != []
    requires Find(Trim(line2)).None? && Trim(line2) != []
    ensures var m := Find(Trim(line1)).value;
      ParseSpec(line1 + "\n" + line2) == [Segment(MarkerTime(m), Trim(m.rest) + " " + Trim(line2))]
  {
    var m := Find(Trim(line1)).value;
    var raw := line1 + "\n" + line2;
    TwoLines(line1, line2);
    var ls := ClassifyAll([line1, line2]);
    PairOf(ls);
    assert ls[0] == Classify(line1) == Timestamped(m);
    assert ls[1] == Classify(line2) == Plain(Trim(line2));
    FinishJoined(m, Trim(line2), raw);
  }
  /** Folding two lines is two steps from the initial state. */
  lemma FoldTwo(l1: Line, l2: Line)
    requires l1.Timestamped? ==> WellFormed(l1.marker)
    requires l2.Timestamped? ==> WellFormed(l2.marker)
    ensures AllWellFormed([l1, l2])
    ensures FoldLines([l1, l2]) == Step(Step(Init, l1), l2)
  {
    var ls := [l1, l2];
    assert AllWellFormed(ls);
    FoldLinesPrefix(ls, 0);
    FoldLinesPrefix(ls, 1);
    assert ls[..0] == [] && ls[..2] == ls;
  }

  /** A marker line starts a fresh accumulator after flushing the current one. */
  lemma StepMarker(st: Accum, m: Marker)
    requires WellFormed(m)
    ensures Step(st, Timestamped(m)) == Accum(Flushed(st), Trim(m.rest), MarkerTime(m), true)
  {
  }

  lemma FlushedSingle(t: int, c: string)
    requires c != [] && IsTrimmed(c)
    ensures Flushed(Accum([], c, t, true)) == [Segment(t, c)]
  {
    TrimOfTrimmed(c);
  }

  lemma FinishPair(t1: int, c1: string, t2: int, c2: string, raw: string)
    requires c2 != [] && IsTrimmed(c2)
    ensures Finish(Accum([Segment(t1, c1)], c2, t2, true), raw) == [Segment(t1, c1), Segment(t2, c2)]
  {
    TrimOfTrimmed(c2);
  }

  /** Two marker lines in a row: the first closes as a segment, the second is flushed at the end. */
  lemma FinishTwoMarkers(m1: Marker, m2: Marker, raw: string)
    requires WellFormed(m1) && WellFormed(m2) && Trim(m1.rest) != [] && Trim(m2.rest) != []
    ensures Finish(Step(Step(Init, Timestamped(m1)), Timestamped(m2)), raw)
      == [Segment(MarkerTime(m1), Trim(m1.rest)), Segment(MarkerTime(m2), Trim(m2.rest))]
  {
    var c1, c2 := Trim(m1.rest), Trim(m2.rest);
    var t1, t2 := MarkerTime(m1), MarkerTime(m2);
    StepMarker(Init, m1);
    assert Flushed(Init) == [];
    var st1 := Accum([], c1, t1, true);
    FlushedSingle(t1, c1);
    StepMarker(st1, m2);
    FinishPair(t1, c1, t2, c2, raw);
  }

  /**
   * Two lines that each carry a marker with content: two segments, each at
   * its own marker's time with its own trimmed content.
   */
  lemma TwoMarkerLines(line1: string, line2: string)
    requires NoLineBreaks(line1) && NoLineBreaks(line2)
    requires Find(Trim(line1)).Some? && Trim(Find(Trim(line1)).value.rest) != []
    requires Find(Trim(line2)).Some? && Trim(Find(Trim(line2)).value.rest) != []
    ensures var m1 := Find(Trim(line1)).value;
      var m2 := Find(Trim(line2)).value;
      ParseSpec(line1 + "\n" + line2)
        == [Segment(MarkerTime(m1), Trim(m1.rest)), Segment(MarkerTime(m2), Trim(m2.rest))]
  {
    var m1 := Find(Trim(line1)).value;
    var m2 := Find(Trim(line2)).value;
    TwoLines(line1, line2);
    var ls := ClassifyAll([line1, line2]);
    PairOf(ls);
    assert ls[0] == Classify(line1) == Timestamped(m1);
    assert ls[1] == Classify(line2) == Timestamped(m2);
    FoldTwo(Timestamped(m1), Timestamped(m2));
    FinishTwoMarkers(m1, m2, line1 + "\n" + line2);
  }
}
