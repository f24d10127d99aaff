/**
 * Kotlin's `distinct()` (first occurrences, in order) and `sorted()` on
 * strings (ordered by `Text.Less`), which the language lists and the backup's
 * path set are built from.
 */
module Collections {
  import opened Text

  predicate NoDuplicates<T(==)>(s: seq<T>) {
    forall i, j :: 0 <= i < j < |s| ==> s[i] != s[j]
  }

  /** `distinct()`: the first occurrence of every element, in order of first occurrence. */
  function Distinct(s: seq<string>): (r: seq<string>)
    ensures NoDuplicates(r)
    ensures forall x :: x in r <==> x in s
    ensures |r| <= |s|
  {
    if s == [] then []
    else
      var init := s[..|s| - 1];
      var last := s[|s| - 1];
      assert s == init + [last];
      var d := Distinct(init);
      if last in d then d else d + [last]
  }

  /** Adding one element at the end of a list adds it to the distinct list unless already there. */
  lemma DistinctSnoc(s: seq<string>, x: string)
    ensures Distinct(s + [x]) == if x in Distinct(s) then Distinct(s) else Distinct(s) + [x]
  {
    assert (s + [x])[..|s|] == s;
  }

  predicate Sorted(s: seq<string>) {
    forall i, j :: 0 <= i < j < |s| ==> !Less(s[j], s[i])
  }

  /** Inserting into a sorted list at the first place that keeps it sorted. */
  function Insert(x: string, s: seq<string>): (r: seq<string>)
    requires Sorted(s)
    ensures Sorted(r)
    ensures multiset(r) == multiset(s) + multiset{x}
    ensures |r| == |s| + 1
  {
    if s == [] then [x]
    else if !Less(s[0], x) then
      var r := [x] + s;
      assert Sorted(r) by {
        forall i, j | 0 <= i < j < |r| ensures !Less(r[j], r[i]) {
          if i == 0 {
            if j > 1 {
              if Less(s[j - 1], x) {
                LessTotal(s[0], s[j - 1]);
                if Less(s[0], s[j - 1]) { LessTransitive(s[0], s[j - 1], x); }
              }
            }
          }
        }
      }
      r
    else
      var t := Insert(x, s[1..]);
      var r := [s[0]] + t;
      assert Sorted(r) by {
        forall j | 0 < j < |r| ensures !Less(r[j], s[0]) {
          assert r[j] in multiset(t);
          assert r[j] == x || r[j] in multiset(s[1..]);
          if r[j] == x {
            LessTotal(s[0], x);
            if Less(x, s[0]) { LessAsymmetric(x, s[0]); }
          } else {
            var k :| 0 <= k < |s[1..]| && s[1..][k] == r[j];
            assert s[k + 1] == r[j];
          }
        }
      }
      assert s == [s[0]] + s[1..];
      r
  }

  /** `sorted()` on strings: a permutation sorted by `Text.Less`. */
  function Sort(s: seq<string>): (r: seq<string>)
    ensures Sorted(r)
    ensures multiset(r) == multiset(s)
    ensures |r| == |s|
  {
    if s == [] then []
    else
      assert s == [s[0]] + s[1..];
      Insert(s[0], Sort(s[1..]))
  }

  /** A sorted permutation has the same elements; without duplicates in, none out. */
  lemma SortElements(s: seq<string>)
    ensures forall x :: x in Sort(s) <==> x in s
    ensures NoDuplicates(s) ==> NoDuplicates(Sort(s))
  {
    var r := Sort(s);
    assert forall x :: x in r <==> x in multiset(r);
    assert forall x :: x in s <==> x in multiset(s);
    if NoDuplicates(s) {
      forall i, j | 0 <= i < j < |r| ensures r[i] != r[j] {
        if r[i] == r[j] {
          MultisetOfDuplicate(r, i, j);
          DistinctMultiset(s, r[i]);
        }
      }
    }
  }

  lemma MultisetOfDuplicate(r: seq<string>, i: int, j: int)
    requires 0 <= i < j < |r| && r[i] == r[j]
    ensures multiset(r)[r[i]] >= 2
  {
    assert r == r[..i] + [r[i]] + r[i + 1..j] + [r[j]] + r[j + 1..];
  }

  lemma {:induction false} DistinctMultiset(s: seq<string>, x: string)
    requires NoDuplicates(s)
    ensures multiset(s)[x] <= 1
  {
    if s != [] {
      assert s == [s[0]] + s[1..];
      assert NoDuplicates(s[1..]);
      DistinctMultiset(s[1..], x);
      if s[0] == x {
        assert x !in s[1..];
      }
    }
  }

  /** Removing one value from a sorted list keeps it sorted and drops only that value. */
  function Without(s: seq<string>, x: string): (r: seq<string>)
    ensures forall y :: y in r <==> y in s && y != x
    ensures Sorted(s) ==> Sorted(r)
    ensures NoDuplicates(s) ==> NoDuplicates(r)
  {
    if s == [] then []
    else
      var t := Without(s[1..], x);
      assert forall y :: y in s <==> y == s[0] || y in s[1..];
      if s[0] == x then t
      else
        var r := [s[0]] + t;
        assert Sorted(s) ==> Sorted(r) by {
          if Sorted(s) {
            forall j | 0 < j < |r| ensures !Less(r[j], r[0]) {
              assert r[j] == t[j - 1] && t[j - 1] in s[1..];
              var k :| 0 <= k < |s[1..]| && s[1..][k] == r[j];
              assert s[k + 1] == r[j];
            }
          }
        }
        assert NoDuplicates(s) ==> NoDuplicates(r) by {
          if NoDuplicates(s) {
            assert NoDuplicates(s[1..]);
            assert s[0] !in s[1..];
            forall j | 0 < j < |r| ensures r[j] != r[0] {
              assert r[j] == t[j - 1] && t[j - 1] in s[1..];
            }
          }
        }
        r
  }

  /** Appending to a table that is `a + b` gives `a + b'` when `b'` is `b` with the same row appended. */
  lemma AppendSnoc<T>(a: seq<T>, before: seq<T>, after: seq<T>, b: seq<T>, b': seq<T>, x: T)
    requires before == a + b && after == before + [x] && b' == b + [x]
    ensures after == a + b'
  {
  }
}
