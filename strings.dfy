/**
 * String operations with the semantics of the JavaScript and Python built-ins
 * the source relies on: `indexOf`, `split`, `join`, `trim`/`strip` and the
 * character classes `\s` and `\d`. Strings are sequences of code points; every
 * character the source searches for lies in the Basic Multilingual Plane, where
 * a JavaScript code unit and a code point coincide.
 */
module Strings {

  /** `pat` occurs in `s` starting at index `k`. */
  predicate OccursAt(s: string, pat: string, k: int)
  {
    0 <= k && k + |pat| <= |s| && s[k..k + |pat|] == pat
  }

  /** `pat` occurs somewhere in `s`. */
  predicate Contains(s: string, pat: string)
  {
    exists k :: 0 <= k <= |s| && OccursAt(s, pat, k)
  }

  /** The first index at or after `k` where `pat` occurs in `s`, or -1. */
  function FindFrom(s: string, pat: string, k: nat): (r: int)
    requires k <= |s|
    ensures r == -1 || (k <= r && OccursAt(s, pat, r))
    ensures forall j :: k <= j && (r == -1 || j < r) ==> !OccursAt(s, pat, j)
    decreases |s| - k
  {
    if k + |pat| > |s| then -1
    else if s[k..k + |pat|] == pat then k
    else
      assert |pat| > 0;
      FindFrom(s, pat, k + 1)
  }

  /** Where JavaScript's `indexOf(pat, from)` starts looking: `from` clamped to `[0, |s|]`. */
  function SearchStart(s: string, from: int): (k: nat)
    ensures k <= |s|
  {
    if from < 0 then 0 else if from > |s| then |s| else from
  }

  /** JavaScript's `s.indexOf(pat, from)`: the first occurrence at or after the clamped start, or -1. */
  function IndexOf(s: string, pat: string, from: int): (r: int)
    ensures r == -1 || (SearchStart(s, from) <= r && OccursAt(s, pat, r))
    ensures forall j :: SearchStart(s, from) <= j && (r == -1 || j < r) ==> !OccursAt(s, pat, j)
  {
    FindFrom(s, pat, SearchStart(s, from))
  }

  /** A pattern that starts the text is found at index 0. */
  lemma IndexOfPrefix(s: string, pat: string)
    requires |pat| <= |s| && s[..|pat|] == pat
    ensures IndexOf(s, pat, 0) == 0
  {
    assert OccursAt(s, pat, 0);
  }

  /** A slice of a slice is a slice. */
  lemma SliceOfSlice(s: string, a: nat, b: nat, i: nat, j: nat)
    requires a <= b <= |s| && i <= j <= b - a
    ensures s[a..b][i..j] == s[a + i..a + j]
  {
    forall k | 0 <= k < j - i ensures s[a..b][i..j][k] == s[a + i..a + j][k] {
      assert s[a..b][i..j][k] == s[a + i + k];
    }
  }

  /** An occurrence of `pat` inside a prefix of `s` is an occurrence in `s`. */
  lemma OccursInPrefix(s: string, n: nat, pat: string, j: int)
    requires n <= |s| && OccursAt(s[..n], pat, j)
    ensures OccursAt(s, pat, j) && j + |pat| <= n
  {
    assert s[..n][j..j + |pat|] == s[j..j + |pat|];
  }

  /** An occurrence of `pat` inside a suffix of `s` is an occurrence in `s`, shifted. */
  lemma OccursInSuffix(s: string, n: nat, pat: string, j: int)
    requires n <= |s| && OccursAt(s[n..], pat, j)
    ensures OccursAt(s, pat, n + j)
  {
    assert s[n..][j..j + |pat|] == s[n + j..n + j + |pat|];
  }

  /**
   * Where `pat` does not occur in `pre + pat` before the end of `pre`, the
   * first occurrence of `pat` in `pre + pat + rest` is at index `|pre|`.
   */
  lemma FirstOccurrence(pre: string, pat: string, rest: string)
    requires forall j :: 0 <= j < |pre| ==> !OccursAt(pre + pat, pat, j)
    ensures IndexOf(pre + pat + rest, pat, 0) == |pre|
  {
    var s := pre + pat + rest;
    assert s[|pre|..|pre| + |pat|] == pat;
    assert OccursAt(s, pat, |pre|);
    forall j | 0 <= j < |pre| ensures !OccursAt(s, pat, j) {
      assert !OccursAt(pre + pat, pat, j);
      assert s[j..j + |pat|] == (pre + pat)[j..j + |pat|];
    }
  }

  /**
   * JavaScript's `s.split(sep)` for a non-empty separator: the pieces between
   * the leftmost non-overlapping occurrences of `sep`.
   */
  function Split(s: string, sep: string): (parts: seq<string>)
    requires |sep| > 0
    ensures |parts| >= 1
    ensures forall k, j :: 0 <= k < |parts| ==> !OccursAt(parts[k], sep, j)
    decreases |s|
  {
    var i := FindFrom(s, sep, 0);
    if i == -1 then
      assert forall j :: !OccursAt(s, sep, j);
      [s]
    else
      var rest := Split(s[i + |sep|..], sep);
      assert forall j :: !OccursAt(s[..i], sep, j) by {
        forall j | OccursAt(s[..i], sep, j) ensures false {
          OccursInPrefix(s, i, sep, j);
        }
      }
      [s[..i]] + rest
  }

  /** Python's `sep.join(parts)` and JavaScript's `parts.join(sep)`. */
  function Join(parts: seq<string>, sep: string): string
    decreases |parts|
  {
    if |parts| == 0 then ""
    else if |parts| == 1 then parts[0]
    else parts[0] + sep + Join(parts[1..], sep)
  }

  /** Joining the pieces of a split with the same separator gives back the string. */
  lemma {:induction false} JoinSplit(s: string, sep: string)
    requires |sep| > 0
    ensures Join(Split(s, sep), sep) == s
    decreases |s|
  {
    var i := FindFrom(s, sep, 0);
    if i == -1 {
      assert Split(s, sep) == [s];
    } else {
      var rest := s[i + |sep|..];
      SplitAt(s, sep, i);
      JoinSplit(rest, sep);
      JoinCons(s[..i], Split(rest, sep), sep);
      assert s[i..i + |sep|] == sep;
      assert s == s[..i] + sep + rest;
    }
  }

  /** Where the first separator is, `Split` cuts off the piece before it. */
  lemma SplitAt(s: string, sep: string, i: int)
    requires |sep| > 0 && i == FindFrom(s, sep, 0) && i != -1
    ensures Split(s, sep) == [s[..i]] + Split(s[i + |sep|..], sep)
  {
  }

  /** Joining a first piece onto at least one more puts the separator between them. */
  lemma JoinCons(p: string, rest: seq<string>, sep: string)
    requires |rest| >= 1
    ensures Join([p] + rest, sep) == p + sep + Join(rest, sep)
  {
    assert ([p] + rest)[1..] == rest;
  }

  /** A string without the separator's only character contains no occurrence of it. */
  lemma NoOccurrenceWithoutChar(s: string, sep: string, k: nat)
    requires |sep| == 1 && sep[0] !in s && k <= |s|
    ensures FindFrom(s, sep, k) == -1
  {
  }

  /**
   * Splitting on a one-character separator undoes a join when no part contains
   * that character.
   */
  lemma {:induction false} SplitJoin(parts: seq<string>, sep: string)
    requires |sep| == 1 && |parts| >= 1
    requires forall k :: 0 <= k < |parts| ==> sep[0] !in parts[k]
    ensures Split(Join(parts, sep), sep) == parts
    decreases |parts|
  {
    if |parts| == 1 {
      NoOccurrenceWithoutChar(parts[0], sep, 0);
    } else {
      var p := parts[0];
      var rest := Join(parts[1..], sep);
      var s := p + sep + rest;
      assert Join(parts, sep) == s;
      forall j | 0 <= j < |p| ensures !OccursAt(s, sep, j) {
        assert s[j] == p[j];
      }
      assert OccursAt(s, sep, |p|) by {
        assert s[|p|..|p| + 1] == sep;
      }
      assert FindFrom(s, sep, 0) == |p|;
      assert s[..|p|] == p;
      assert s[|p| + 1..] == rest;
      SplitJoin(parts[1..], sep);
    }
  }

  /** JavaScript's WhiteSpace and LineTerminator characters: what `\s` matches and `trim` removes. */
  predicate IsJsSpace(c: char)
  {
    || c == '\t' || c == '\n' || c == '\U{000B}' || c == '\U{000C}' || c == '\r' || c == ' '
    || c == '\U{00A0}' || c == '\U{1680}' || ('\U{2000}' <= c <= '\U{200A}')
    || c == '\U{2028}' || c == '\U{2029}' || c == '\U{202F}' || c == '\U{205F}'
    || c == '\U{3000}' || c == '\U{FEFF}'
  }

  /** Python's `str.isspace`: what `str.strip()` with no argument removes. */
  predicate IsPySpace(c: char)
  {
    || c == '\t' || c == '\n' || c == '\U{000B}' || c == '\U{000C}' || c == '\r'
    || ('\U{001C}' <= c <= '\U{001F}') || c == ' ' || c == '\U{0085}' || c == '\U{00A0}'
    || c == '\U{1680}' || ('\U{2000}' <= c <= '\U{200A}') || c == '\U{2028}'
    || c == '\U{2029}' || c == '\U{202F}' || c == '\U{205F}' || c == '\U{3000}'
  }

  /**
   * What `\d` matches in a Python `str` pattern: a Unicode decimal digit
   * (general category Nd), here the Nd ranges of the Basic Multilingual Plane.
   */
  predicate IsDecimalDigit(c: char)
  {
    || ('0' <= c <= '9')
    || ('\U{0660}' <= c <= '\U{0669}') || ('\U{06F0}' <= c <= '\U{06F9}')
    || ('\U{07C0}' <= c <= '\U{07C9}') || ('\U{0966}' <= c <= '\U{096F}')
    || ('\U{09E6}' <= c <= '\U{09EF}') || ('\U{0A66}' <= c <= '\U{0A6F}')
    || ('\U{0AE6}' <= c <= '\U{0AEF}') || ('\U{0B66}' <= c <= '\U{0B6F}')
    || ('\U{0BE6}' <= c <= '\U{0BEF}') || ('\U{0C66}' <= c <= '\U{0C6F}')
    || ('\U{0CE6}' <= c <= '\U{0CEF}') || ('\U{0D66}' <= c <= '\U{0D6F}')
    || ('\U{0DE6}' <= c <= '\U{0DEF}') || ('\U{0E50}' <= c <= '\U{0E59}')
    || ('\U{0ED0}' <= c <= '\U{0ED9}') || ('\U{0F20}' <= c <= '\U{0F29}')
    || ('\U{1040}' <= c <= '\U{1049}') || ('\U{1090}' <= c <= '\U{1099}')
    || ('\U{17E0}' <= c <= '\U{17E9}') || ('\U{1810}' <= c <= '\U{1819}')
    || ('\U{1946}' <= c <= '\U{194F}') || ('\U{19D0}' <= c <= '\U{19D9}')
    || ('\U{1A80}' <= c <= '\U{1A89}') || ('\U{1A90}' <= c <= '\U{1A99}')
    || ('\U{1B50}' <= c <= '\U{1B59}') || ('\U{1BB0}' <= c <= '\U{1BB9}')
    || ('\U{1C40}' <= c <= '\U{1C49}') || ('\U{1C50}' <= c <= '\U{1C59}')
    || ('\U{A620}' <= c <= '\U{A629}') || ('\U{A8D0}' <= c <= '\U{A8D9}')
    || ('\U{A900}' <= c <= '\U{A909}') || ('\U{A9D0}' <= c <= '\U{A9D9}')
    || ('\U{A9F0}' <= c <= '\U{A9F9}') || ('\U{AA50}' <= c <= '\U{AA59}')
    || ('\U{ABF0}' <= c <= '\U{ABF9}') || ('\U{FF10}' <= c <= '\U{FF19}')
  }

  /** Every character of `s` from index `lo` up to `hi` is a space by `isSpace`. */
  predicate SpacesBetween(s: string, isSpace: char -> bool, lo: int, hi: int)
  {
    forall k :: lo <= k < hi && 0 <= k < |s| ==> isSpace(s[k])
  }

  /** `s` neither starts nor ends with a space by `isSpace`. */
  predicate IsTrimmed(s: string, isSpace: char -> bool)
  {
    s == [] || (!isSpace(s[0]) && !isSpace(s[|s| - 1]))
  }

  /** The index of the first non-space of `s` at or after `i`, or `|s|`. */
  function SkipSpaces(s: string, isSpace: char -> bool, i: nat): (j: nat)
    requires i <= |s|
    ensures i <= j <= |s| && SpacesBetween(s, isSpace, i, j)
    ensures j < |s| ==> !isSpace(s[j])
    decreases |s| - i
  {
    if i < |s| && isSpace(s[i]) then SkipSpaces(s, isSpace, i + 1) else i
  }

  /** The index just after the last non-space of `s` before `j` and at or after `lo`, or `lo`. */
  function SkipSpacesBack(s: string, isSpace: char -> bool, lo: nat, j: nat): (e: nat)
    requires lo <= j <= |s|
    ensures lo <= e <= j && SpacesBetween(s, isSpace, e, j)
    ensures e > lo ==> !isSpace(s[e - 1])
    decreases j
  {
    if j > lo && isSpace(s[j - 1]) then SkipSpacesBack(s, isSpace, lo, j - 1) else j
  }

  /** `s` without its leading spaces (what `\s*` consumes before the rest). */
  function TrimStart(s: string, isSpace: char -> bool): (r: string)
    ensures |r| <= |s| && r == s[|s| - |r|..]
    ensures SpacesBetween(s, isSpace, 0, |s| - |r|)
    ensures r == [] || !isSpace(r[0])
  {
    s[SkipSpaces(s, isSpace, 0)..]
  }

  /**
   * `s` without its leading and trailing spaces: JavaScript's `trim()` with
   * `IsJsSpace`, Python's `strip()` with `IsPySpace`. The result is the slice
   * of `s` between its leading and its trailing spaces.
   */
  function Trim(s: string, isSpace: char -> bool): (r: string)
    ensures IsTrimmed(r, isSpace)
    ensures var i := SkipSpaces(s, isSpace, 0);
      && i + |r| <= |s| && r == s[i..i + |r|]
      && SpacesBetween(s, isSpace, 0, i) && SpacesBetween(s, isSpace, i + |r|, |s|)
  {
    var i := SkipSpaces(s, isSpace, 0);
    s[i..SkipSpacesBack(s, isSpace, i, |s|)]
  }

  /** Trimming spaces, a trimmed text and spaces gives the text. */
  lemma TrimFramed(pad: string, content: string, trail: string, isSpace: char -> bool)
    requires SpacesBetween(pad, isSpace, 0, |pad|) && SpacesBetween(trail, isSpace, 0, |trail|)
    requires IsTrimmed(content, isSpace)
    ensures Trim(pad + content + trail, isSpace) == content
  {
    var s := pad + content + trail;
    var i := SkipSpaces(s, isSpace, 0);
    var r := Trim(s, isSpace);
    assert forall k :: 0 <= k < |pad| ==> s[k] == pad[k];
    assert forall k :: 0 <= k < |trail| ==> s[|pad| + |content| + k] == trail[k];
    if content == [] {
      assert i == |s|;
    } else {
      assert s[|pad|] == content[0];
      assert i == |pad|;
      assert s[|pad| + |content| - 1] == content[|content| - 1];
      assert |r| == |content|;
      assert s[|pad|..|pad| + |content|] == content;
    }
  }

  /** Trimming a string that has no leading or trailing space leaves it as it is. */
  lemma TrimTrimmed(s: string, isSpace: char -> bool)
    requires IsTrimmed(s, isSpace)
    ensures Trim(s, isSpace) == s
  {
    assert s[0..|s|] == s;
  }
}
