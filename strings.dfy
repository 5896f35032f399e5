/** Character and string predicates of java.lang.String and java.lang.Character
    that the pipeline relies on: blankness, lower-casing, suffix tests and the
    lexicographic order of String.compareTo. */
module Strings {

  /** Character.isWhitespace: the Unicode space, line and paragraph separators
      except the non-breaking ones (U+00A0, U+2007, U+202F), plus the ASCII
      controls U+0009..U+000D and U+001C..U+001F. */
  predicate IsWhitespace(c: char)
  {
    var n := c as int;
    || (0x09 <= n <= 0x0D)
    || (0x1C <= n <= 0x20)
    || n == 0x1680
    || (0x2000 <= n <= 0x2006)
    || (0x2008 <= n <= 0x200A)
    || n == 0x2028 || n == 0x2029
    || n == 0x205F || n == 0x3000
  }

  /** String.isBlank: empty, or whitespace only. */
  predicate IsBlank(s: string)
  {
    forall i :: 0 <= i < |s| ==> IsWhitespace(s[i])
  }

  /** Lower-casing of one character, for the ASCII letters. */
  function LowerChar(c: char): char
  {
    if 'A' <= c <= 'Z' then (c as int + 32) as char else c
  }

  /** String.toLowerCase, restricted to the ASCII letters. */
  function Lower(s: string): (r: string)
    ensures |r| == |s|
    ensures forall i :: 0 <= i < |s| ==> r[i] == LowerChar(s[i])
  {
    seq(|s|, i requires 0 <= i < |s| => LowerChar(s[i]))
  }

  /** String.endsWith */
  predicate EndsWith(s: string, suffix: string)
  {
    |suffix| <= |s| && s[|s| - |suffix|..] == suffix
  }

  /** String.compareTo(a, b) < 0: lexicographic order, where a proper prefix
      comes first. (Dafny's own `<` on strings means "proper prefix".) */
  predicate StrLess(a: string, b: string)
    decreases |a|
  {
    if |a| == 0 then |b| > 0
    else |b| > 0 && (if a[0] == b[0] then StrLess(a[1..], b[1..]) else a[0] < b[0])
  }

  /** Lower-casing an upper-case ASCII letter changes it. */
  lemma LowerChangesUpper(s: string, i: nat)
    requires i < |s| && 'A' <= s[i] <= 'Z'
    ensures Lower(s) != s
  {
    assert Lower(s)[i] != s[i];
  }

  lemma {:induction false} StrLessIrreflexive(a: string)
    ensures !StrLess(a, a)
    decreases |a|
  {
    if |a| > 0 {
      StrLessIrreflexive(a[1..]);
    }
  }

  lemma {:induction false} StrLessTransitive(a: string, b: string, c: string)
    requires StrLess(a, b) && StrLess(b, c)
    ensures StrLess(a, c)
    decreases |a|
  {
    if |a| > 0 && a[0] == b[0] && b[0] == c[0] {
      StrLessTransitive(a[1..], b[1..], c[1..]);
    }
  }

  lemma {:induction false} StrLessTotal(a: string, b: string)
    requires a != b
    ensures StrLess(a, b) || StrLess(b, a)
    decreases |a|
  {
    if |a| > 0 && |b| > 0 && a[0] == b[0] {
      assert a == [a[0]] + a[1..] && b == [b[0]] + b[1..];
      StrLessTotal(a[1..], b[1..]);
    }
  }

  /** StrLess agrees with the textbook definition of lexicographic order:
      either a is a proper prefix of b, or at the first position where they
      differ, a has the smaller character. */
  lemma {:induction false} StrLessIsLexicographic(a: string, b: string)
    ensures StrLess(a, b) <==>
      (|a| < |b| && a == b[..|a|]) ||
      (exists i :: 0 <= i < |a| && i < |b| && a[..i] == b[..i] && a[i] < b[i])
    decreases |a|
  {
    if |a| > 0 && |b| > 0 && a[0] == b[0] {
      StrLessIsLexicographic(a[1..], b[1..]);
      if |a| < |b| && a == b[..|a|] {
        assert a[1..] == b[1..][..|a| - 1];
      }
      if |a[1..]| < |b[1..]| && a[1..] == b[1..][..|a[1..]|] {
        assert a == [a[0]] + a[1..] && b[..|a|] == [b[0]] + b[1..][..|a[1..]|];
      }
      if exists i :: 0 <= i < |a| && i < |b| && a[..i] == b[..i] && a[i] < b[i] {
        var i :| 0 <= i < |a| && i < |b| && a[..i] == b[..i] && a[i] < b[i];
        assert a[1..][..i - 1] == a[1..i] == b[1..i] == b[1..][..i - 1];
        assert a[1..][i - 1] < b[1..][i - 1];
      }
      if exists j :: 0 <= j < |a[1..]| && j < |b[1..]| && a[1..][..j] == b[1..][..j] && a[1..][j] < b[1..][j] {
        var j :| 0 <= j < |a[1..]| && j < |b[1..]| && a[1..][..j] == b[1..][..j] && a[1..][j] < b[1..][j];
        assert a[..j + 1] == [a[0]] + a[1..][..j];
        assert b[..j + 1] == [b[0]] + b[1..][..j];
        assert a[j + 1] < b[j + 1];
      }
    } else if |a| > 0 && |b| > 0 {
      assert a[..0] == b[..0];
      forall i | 0 < i <= |a| && i <= |b|
        ensures a[..i][0] == a[0] && b[..i][0] == b[0]
      {
      }
    }
  }
}
