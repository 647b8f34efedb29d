/** The string operations the orchestrator relies on: suffix tests and `str.replace`. */
module Strings {

  /** `s.endswith(suffix)` */
  predicate EndsWith(s: string, suffix: string) {
    |suffix| <= |s| && s[|s| - |suffix|..] == suffix
  }

  /** `s.startswith(prefix)` */
  predicate StartsWith(s: string, prefix: string) {
    |prefix| <= |s| && s[..|prefix|] == prefix
  }

  /** `pat` occurs in `s` starting at index `i`. */
  predicate OccursAt(pat: string, s: string, i: int) {
    0 <= i && i + |pat| <= |s| && s[i..i + |pat|] == pat
  }

  /** `pat in s` */
  predicate Occurs(pat: string, s: string) {
    exists i | 0 <= i <= |s| :: OccursAt(pat, s, i)
  }

  /**
   * `s.replace(pat, rep)` for a non-empty pattern: occurrences are replaced
   * from left to right without overlapping, and inserted text is not scanned again.
   */
  function Replace(s: string, pat: string, rep: string): string
    requires |pat| > 0
    decreases |s|
  {
    if |s| < |pat| then s
    else if s[..|pat|] == pat then rep + Replace(s[|pat|..], pat, rep)
    else [s[0]] + Replace(s[1..], pat, rep)
  }

  /** Text without an occurrence of the pattern is returned unchanged. */
  lemma {:induction false} ReplaceAbsent(s: string, pat: string, rep: string)
    requires |pat| > 0 && !Occurs(pat, s)
    ensures Replace(s, pat, rep) == s
    decreases |s|
  {
    if |s| >= |pat| {
      assert !OccursAt(pat, s, 0);
      assert s[0..|pat|] == s[..|pat|];
      assert !Occurs(pat, s[1..]) by {
        forall i | OccursAt(pat, s[1..], i)
          ensures OccursAt(pat, s, i + 1)
        {
          assert s[1..][i..i + |pat|] == s[i + 1..i + 1 + |pat|];
        }
      }
      ReplaceAbsent(s[1..], pat, rep);
    }
  }

  /**
   * The leftmost occurrence is replaced and everything before it is kept:
   * if `pat` first occurs at `i`, the result is `s[..i] + rep` followed by the
   * replacement of the rest after that occurrence.
   */
  lemma {:induction false} ReplaceLeftmost(s: string, pat: string, rep: string, i: nat)
    requires |pat| > 0 && OccursAt(pat, s, i)
    requires forall j :: 0 <= j < i ==> !OccursAt(pat, s, j)
    ensures Replace(s, pat, rep) == s[..i] + rep + Replace(s[i + |pat|..], pat, rep)
    decreases i
  {
    var rest := Replace(s[i + |pat|..], pat, rep);
    if i == 0 {
      assert Replace(s, pat, rep) == rep + rest by {
        assert s[..|pat|] == s[0..|pat|];
      }
      assert s[..0] + rep == rep;
    } else {
      var t := s[1..];
      assert Replace(s, pat, rep) == [s[0]] + Replace(t, pat, rep) by {
        assert !OccursAt(pat, s, 0);
        assert s[..|pat|] == s[0..|pat|];
      }
      assert Replace(t, pat, rep) == t[..i - 1] + rep + rest by {
        ShiftOccurrences(s, pat, i);
        ReplaceLeftmost(t, pat, rep, i - 1);
        assert t[i - 1 + |pat|..] == s[i + |pat|..];
      }
      assert s[..i] == [s[0]] + t[..i - 1];
      ConsConcat(s[0], t[..i - 1], rep, rest);
    }
  }

  lemma ConsConcat(c: char, a: string, b: string, x: string)
    ensures [c] + (a + b + x) == [c] + a + b + x
  {
  }

  /** Occurrences in `s[1..]` are those in `s` shifted by one. */
  lemma ShiftOccurrences(s: string, pat: string, i: nat)
    requires 0 < i && |pat| > 0 && OccursAt(pat, s, i)
    requires forall j :: 0 <= j < i ==> !OccursAt(pat, s, j)
    ensures OccursAt(pat, s[1..], i - 1)
    ensures forall j :: 0 <= j < i - 1 ==> !OccursAt(pat, s[1..], j)
  {
    var t := s[1..];
    assert t[i - 1..i - 1 + |pat|] == s[i..i + |pat|];
    forall j | 0 <= j < i - 1
      ensures !OccursAt(pat, t, j)
    {
      assert !OccursAt(pat, s, j + 1);
      assert t[j..j + |pat|] == s[j + 1..j + 1 + |pat|];
    }
  }

  /** A prefix that does not contain the pattern's first character passes through unchanged. */
  lemma {:induction false} ReplaceSkipsPrefix(a: string, t: string, pat: string, rep: string)
    requires |pat| > 0 && pat[0] !in a
    ensures Replace(a + t, pat, rep) == a + Replace(t, pat, rep)
    decreases |a|
  {
    if |a| != 0 {
      var s := a + t;
      if |s| >= |pat| {
        assert s[..|pat|][0] == a[0];
      }
      assert s[1..] == a[1..] + t;
      ReplaceSkipsPrefix(a[1..], t, pat, rep);
    } else {
      assert a + t == t;
    }
  }
}
