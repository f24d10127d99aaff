/**
 * Text primitives of the Kotlin standard library that the app relies on:
 * `Char.isWhitespace`, `trim`, `isBlank`, `lines`, `contains`, decimal
 * rendering of integers (`"$i"` and `String.format("%02d", i)`) and the
 * ordering of strings used by `sorted()`, character by character.
 */
module Text {

  /** Kotlin's `Char.isWhitespace` on the JVM: `Character.isWhitespace` or `Character.isSpaceChar`. */
  predicate IsWhitespace(c: char) {
    || c == ' ' || c == '\t' || c == '\n' || c == '\U{B}' || c == '\U{C}' || c == '\r'
    || ('\U{1C}' <= c <= '\U{1F}')
    || c == '\U{A0}' || c == '\U{1680}' || ('\U{2000}' <= c <= '\U{200A}')
    || c == '\U{2028}' || c == '\U{2029}' || c == '\U{202F}' || c == '\U{205F}' || c == '\U{3000}'
  }

  /** Kotlin's `isBlank()`: every character is whitespace (true of the empty string). */
  predicate IsBlank(s: string) {
    forall i :: 0 <= i < |s| ==> IsWhitespace(s[i])
  }

  /** A string that starts and ends with a non-whitespace character, or is empty. */
  predicate IsTrimmed(s: string) {
    s == [] || (!IsWhitespace(s[0]) && !IsWhitespace(s[|s| - 1]))
  }

  function TrimStart(s: string): (r: string)
    ensures |r| <= |s| && r == s[|s| - |r|..]
    ensures IsBlank(s[..|s| - |r|])
    ensures r == [] || !IsWhitespace(r[0])
  {
    if s == [] || !IsWhitespace(s[0]) then s
    else
      var r := TrimStart(s[1..]);
      var k := |s| - |r|;
      assert IsBlank(s[..k]) by {
        forall i | 0 <= i < k ensures IsWhitespace(s[i]) {
          if i > 0 { assert s[i] == s[1..][..|s[1..]| - |r|][i - 1]; }
        }
      }
      r
  }

  function TrimEnd(s: string): (r: string)
    ensures |r| <= |s| && r == s[..|r|]
    ensures IsBlank(s[|r|..])
    ensures r == [] || !IsWhitespace(r[|r| - 1])
  {
    if s == [] || !IsWhitespace(s[|s| - 1]) then s
    else
      var r := TrimEnd(s[..|s| - 1]);
      assert s[..|s| - 1][..|r|] == s[..|r|];
      assert IsBlank(s[|r|..]) by {
        forall i | |r| <= i < |s| ensures IsWhitespace(s[i]) {
          if i < |s| - 1 { assert s[i] == s[..|s| - 1][|r|..][i - |r|]; }
        }
      }
      r
  }

  /** Kotlin's `trim()`: drops leading and trailing whitespace. */
  function Trim(s: string): (r: string)
    ensures IsTrimmed(r)
  {
    var t := TrimStart(s);
    var r := TrimEnd(t);
    assert r != [] ==> r[0] == t[0];
    r
  }

  /** Trimming leaves an already trimmed string alone. */
  lemma TrimOfTrimmed(s: string)
    requires IsTrimmed(s)
    ensures Trim(s) == s
  {
  }

  /** `trim()` is idempotent. */
  lemma TrimIdempotent(s: string)
    ensures Trim(Trim(s)) == Trim(s)
  {
    TrimOfTrimmed(Trim(s));
  }

  lemma TrimStartEmptyIffBlank(s: string)
    ensures TrimStart(s) == [] <==> IsBlank(s)
  {
    var r := TrimStart(s);
    if r == [] {
      assert s[..|s|] == s;
    } else {
      assert s[|s| - |r|] == r[0];
    }
  }

  lemma TrimEndNonEmpty(t: string)
    requires t != [] && !IsWhitespace(t[0])
    ensures TrimEnd(t) != []
  {
    assert t[0..] == t;
    assert !IsBlank(t);
  }

  /** Trimming strips exactly the blank margins around a trimmed, non-empty core. */
  lemma TrimStrips(a: string, t: string, b: string)
    requires IsBlank(a) && IsBlank(b) && t != [] && IsTrimmed(t)
    ensures Trim(a + t + b) == t
  {
    assert a + t + b == a + (t + b);
    assert (t + b)[0] == t[0];
    TrimStartDrops(a, t + b);
    TrimEndDrops(t, b);
  }

  lemma {:induction false} TrimStartDrops(a: string, s: string)
    requires IsBlank(a) && s != [] && !IsWhitespace(s[0])
    ensures TrimStart(a + s) == s
    decreases |a|
  {
    if a == [] {
      assert a + s == s;
    } else {
      assert (a + s)[0] == a[0];
      assert (a + s)[1..] == a[1..] + s;
      assert IsBlank(a[1..]) by {
        forall i | 0 <= i < |a| - 1 ensures IsWhitespace(a[1..][i]) {
          assert a[1..][i] == a[i + 1];
        }
      }
      TrimStartDrops(a[1..], s);
    }
  }

  lemma {:induction false} TrimEndDrops(s: string, b: string)
    requires IsBlank(b) && s != [] && !IsWhitespace(s[|s| - 1])
    ensures TrimEnd(s + b) == s
    decreases |b|
  {
    if b == [] {
      assert s + b == s;
    } else {
      var x := s + b;
      var init := b[..|b| - 1];
      assert x[|x| - 1] == b[|b| - 1];
      assert x[..|x| - 1] == s + init;
      assert IsBlank(init) by {
        forall i | 0 <= i < |init| ensures IsWhitespace(init[i]) {
          assert init[i] == b[i];
        }
      }
      TrimEndDrops(s, init);
    }
  }

  /** A string is blank exactly when trimming empties it. */
  lemma BlankIffTrimEmpty(s: string)
    ensures IsBlank(s) <==> Trim(s) == []
  {
    TrimStartEmptyIffBlank(s);
    var t := TrimStart(s);
    if t != [] { TrimEndNonEmpty(t); }
  }

  /** A string whose first character is not whitespace does not trim to empty. */
  lemma TrimKeepsLeadingText(s: string)
    requires s != [] && !IsWhitespace(s[0])
    ensures Trim(s) != []
  {
    BlankIffTrimEmpty(s);
  }

  // ---------------------------------------------------------------------------
  // lines()

  predicate IsLineBreak(c: char) { c == '\n' || c == '\r' }

  /**
   * Kotlin's `lines()`: splits on CRLF, LF and CR (CRLF is one break); the
   * result always has at least one element, and a trailing break yields a
   * final empty line.
   */
  function Lines(s: string): (r: seq<string>)
    ensures |r| >= 1
    ensures forall i, j :: 0 <= i < |r| && 0 <= j < |r[i]| ==> !IsLineBreak(r[i][j])
    decreases |s|
  {
    if s == [] then [""]
    else if s[0] == '\n' then [""] + Lines(s[1..])
    else if s[0] == '\r' then
      if |s| >= 2 && s[1] == '\n' then [""] + Lines(s[2..]) else [""] + Lines(s[1..])
    else
      var rest := Lines(s[1..]);
      [[s[0]] + rest[0]] + rest[1..]
  }

  /** Joins lines back with a single LF between consecutive ones. */
  function JoinLines(ls: seq<string>): string
    requires |ls| >= 1
  {
    if |ls| == 1 then ls[0] else ls[0] + "\n" + JoinLines(ls[1..])
  }

  /** Prefixing the first line with a character prefixes the joined text with it. */
  lemma JoinLinesCons(c: char, ls: seq<string>)
    requires |ls| >= 1
    ensures JoinLines([[c] + ls[0]] + ls[1..]) == [c] + JoinLines(ls)
  {
    var ls' := [[c] + ls[0]] + ls[1..];
    if |ls| > 1 {
      assert ls'[1..] == ls[1..];
    }
  }

  /** For text without carriage returns, `lines()` loses nothing: joining with LF gives the text back. */
  lemma {:induction false} LinesJoinRoundTrip(s: string)
    requires forall i :: 0 <= i < |s| ==> s[i] != '\r'
    ensures JoinLines(Lines(s)) == s
    decreases |s|
  {
    if s == [] {
    } else if s[0] == '\n' {
      LinesJoinRoundTrip(s[1..]);
      assert s == "\n" + s[1..];
    } else {
      LinesJoinRoundTrip(s[1..]);
      JoinLinesCons(s[0], Lines(s[1..]));
      assert s == [s[0]] + s[1..];
    }
  }

  /** Text without any line break is a single line. */
  lemma {:induction false} LinesOfSingleLine(s: string)
    requires forall i :: 0 <= i < |s| ==> !IsLineBreak(s[i])
    ensures Lines(s) == [s]
    decreases |s|
  {
    if s != [] {
      LinesOfSingleLine(s[1..]);
      assert s == [s[0]] + s[1..];
    }
  }

  /** A line without breaks followed by LF is the first line of the result. */
  lemma {:induction false} LinesCons(a: string, b: string)
    requires forall i :: 0 <= i < |a| ==> !IsLineBreak(a[i])
    ensures Lines(a + "\n" + b) == [a] + Lines(b)
    decreases |a|
  {
    if a == [] {
      assert a + "\n" + b == "\n" + b;
      assert ("\n" + b)[1..] == b;
    } else {
      LinesCons(a[1..], b);
      assert (a + "\n" + b)[1..] == a[1..] + "\n" + b;
      assert [a[0]] + a[1..] == a;
    }
  }

  // ---------------------------------------------------------------------------
  // contains()

  predicate StartsWith(s: string, prefix: string) {
    |prefix| <= |s| && s[..|prefix|] == prefix
  }

  /** Kotlin's `String.contains(other)`: `other` occurs somewhere in `s`. */
  predicate Contains(s: string, sub: string)
    decreases |s|
  {
    StartsWith(s, sub) || (s != [] && Contains(s[1..], sub))
  }

  /** `sub` occurs in `s` at index `k`. */
  predicate OccursAt(s: string, sub: string, k: int) {
    0 <= k <= |s| - |sub| && s[k..k + |sub|] == sub
  }

  /** `Contains` holds exactly when `sub` occurs at some index of `s`. */
  lemma {:induction false} ContainsIff(s: string, sub: string)
    ensures Contains(s, sub) <==> exists k :: OccursAt(s, sub, k)
    decreases |s|
  {
    if StartsWith(s, sub) {
      assert OccursAt(s, sub, 0);
    }
    if s != [] {
      ContainsIff(s[1..], sub);
      if Contains(s[1..], sub) {
        var k :| OccursAt(s[1..], sub, k);
        assert s[1..][k..k + |sub|] == s[k + 1..k + 1 + |sub|];
        assert OccursAt(s, sub, k + 1);
      }
    }
    if exists k :: OccursAt(s, sub, k) {
      var k :| OccursAt(s, sub, k);
      if k > 0 {
        assert s[1..][k - 1..k - 1 + |sub|] == s[k..k + |sub|];
        assert OccursAt(s[1..], sub, k - 1);
      }
    }
  }

  /** Every string contains itself, so a title "Lesson 1" blocks itself. */
  lemma ContainsSelf(s: string)
    ensures Contains(s, s)
  {
  }

  // ---------------------------------------------------------------------------
  // decimal rendering

  predicate IsDigit(c: char) { '0' <= c <= '9' }

  function DigitChar(d: nat): (c: char)
    requires d < 10
    ensures IsDigit(c) && DigitOf(c) == d
  {
    (48 + d) as char
  }

  function DigitOf(c: char): nat
    requires IsDigit(c)
  {
    c as nat - 48
  }

  /** Decimal value of a string of ASCII digits (Kotlin's `toLong()` on a regex digit group). */
  function DigitsValue(s: string): nat
    requires forall i :: 0 <= i < |s| ==> IsDigit(s[i])
  {
    if s == [] then 0 else DigitsValue(s[..|s| - 1]) * 10 + DigitOf(s[|s| - 1])
  }

  /** The shortest decimal digits of `n` (no leading zero except for zero itself). */
  function NatDigits(n: nat): (r: string)
    ensures 1 <= |r|
    ensures forall i :: 0 <= i < |r| ==> IsDigit(r[i])
    ensures DigitsValue(r) == n
    ensures |r| == 1 <==> n < 10
    ensures n >= 100 ==> |r| >= 3
  {
    if n < 10 then [DigitChar(n)]
    else
      var r := NatDigits(n / 10) + [DigitChar(n % 10)];
      assert r[..|r| - 1] == NatDigits(n / 10);
      r
  }

  /** Kotlin's `"$i"` for an integer. */
  function Decimal(n: int): string {
    if n < 0 then "-" + NatDigits(-n) else NatDigits(n)
  }

  /**
   * `String.format("%02d", n)`: at least two characters, zero-padded after the
   * sign; a negative number already has two characters with one digit.
   */
  function ZeroPad2(n: int): string {
    if n < 0 then "-" + NatDigits(-n)
    else if n < 10 then "0" + NatDigits(n)
    else NatDigits(n)
  }

  /** Below 100, `%02d` gives exactly the two decimal digits of `n`. */
  lemma ZeroPad2TwoDigits(n: nat)
    requires n < 100
    ensures ZeroPad2(n) == [DigitChar(n / 10), DigitChar(n % 10)]
  {
    if n >= 10 {
      assert NatDigits(n / 10) == [DigitChar(n / 10)];
    }
  }

  /** From 100 on, `%02d` is not capped: three or more digits come out. */
  lemma ZeroPad2Wide(n: nat)
    requires n >= 100
    ensures |ZeroPad2(n)| >= 3 && DigitsValue(ZeroPad2(n)) == n
  {
  }

  // ---------------------------------------------------------------------------
  // String.compareTo

  /**
   * Lexicographic string order: the first differing character decides, a
   * proper prefix comes first. Characters are compared as code points; this
   * agrees with Kotlin's `compareTo`, which compares UTF-16 code units, on
   * text without characters above U+FFFF.
   */
  predicate Less(a: string, b: string)
    decreases |a|
  {
    if a == [] then b != []
    else if b == [] then false
    else if a[0] != b[0] then a[0] < b[0]
    else Less(a[1..], b[1..])
  }

  lemma {:induction false} LessIrreflexive(a: string)
    ensures !Less(a, a)
    decreases |a|
  {
    if a != [] { LessIrreflexive(a[1..]); }
  }

  lemma {:induction false} LessTransitive(a: string, b: string, c: string)
    requires Less(a, b) && Less(b, c)
    ensures Less(a, c)
    decreases |a|
  {
    if a != [] && b != [] && c != [] && a[0] == b[0] == c[0] {
      LessTransitive(a[1..], b[1..], c[1..]);
    }
  }

  lemma {:induction false} LessTotal(a: string, b: string)
    ensures a == b || Less(a, b) || Less(b, a)
    decreases |a|
  {
    if a != [] && b != [] && a[0] == b[0] {
      LessTotal(a[1..], b[1..]);
      if a[1..] == b[1..] {
        assert a == [a[0]] + a[1..] && b == [b[0]] + b[1..];
      }
    }
  }

  lemma LessAsymmetric(a: string, b: string)
    requires Less(a, b)
    ensures !Less(b, a)
  {
    if Less(b, a) {
      LessTransitive(a, b, a);
      LessIrreflexive(a);
    }
  }
}
