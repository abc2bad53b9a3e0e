/**
 * The action-item parser of the meeting viewer's Tasks tab: every action-item
 * text the backend returned is cut at the second occurrence of the keyword
 * "কর্মপরিকল্পনা"; the assignee and deadline labels are read once from that
 * tail, and every piece after a "\n*" bullet becomes one task sharing them.
 * Strings are sequences of code points.
 */
module Tasks {
  import Strings
  import Sequences

  /** The keyword ("action plan") whose second occurrence starts the task list. */
  const Keyword: string := "কর্মপরিকল্পনা"
  /** The assignee label ("responsible:"). */
  const AssigneeLabel: string := "দায়িত্বপ্রাপ্ত:"
  /** The deadline label ("deadline:"). */
  const DeadlineLabel: string := "সময়সীমা:"
  /** The separator the task text is split on: a newline followed by an asterisk. */
  const ItemSeparator: string := "\n*"
  /** The assignee when its label is missing. */
  const NoAssignee: string := "Unassigned"
  /** The deadline when its label is missing. */
  const NoDeadline: string := "No deadline"

  /** One parsed task. */
  datatype Task = Task(name: string, assignee: string, deadline: string)

  /** `pat` occurs at two different places of `s`. */
  predicate OccursTwice(s: string, pat: string)
  {
    exists i, j :: 0 <= i < j <= |s| && Strings.OccursAt(s, pat, i) && Strings.OccursAt(s, pat, j)
  }

  /**
   * `s.indexOf(pat, s.indexOf(pat) + 1)`: where the second occurrence of `pat`
   * starts, or -1 when it occurs fewer than twice. When it is not -1, exactly
   * one occurrence starts before it.
   */
  function SecondIndexOf(s: string, pat: string): (r: int)
    requires |pat| > 0
    ensures r == -1 <==> !OccursTwice(s, pat)
    ensures r != -1 ==> && Strings.OccursAt(s, pat, r)
                        && exists i :: && 0 <= i < r && Strings.OccursAt(s, pat, i)
                                       && forall j :: 0 <= j < r && j != i ==> !Strings.OccursAt(s, pat, j)
  {
    var first := Strings.IndexOf(s, pat, 0);
    var r := Strings.IndexOf(s, pat, first + 1);
    if first == -1 then
      NoFirstOccurrence(s, pat);
      r
    else
      AfterFirstOccurrence(s, pat, first, r);
      r
  }

  /** Without a first occurrence there is no second one. */
  lemma NoFirstOccurrence(s: string, pat: string)
    requires Strings.IndexOf(s, pat, 0) == -1
    ensures Strings.IndexOf(s, pat, -1 + 1) == -1 && !OccursTwice(s, pat)
  {
  }

  /** Searching again just after the first occurrence finds the second one, if any. */
  lemma AfterFirstOccurrence(s: string, pat: string, first: int, r: int)
    requires |pat| > 0 && first == Strings.IndexOf(s, pat, 0) && first != -1
    requires r == Strings.IndexOf(s, pat, first + 1)
    ensures r == -1 <==> !OccursTwice(s, pat)
    ensures r != -1 ==> && Strings.OccursAt(s, pat, r) && 0 <= first < r
                        && forall j :: 0 <= j < r && j != first ==> !Strings.OccursAt(s, pat, j)
  {
    assert Strings.SearchStart(s, first + 1) == first + 1;
    if r != -1 {
      assert 0 <= first < r <= |s|;
    }
  }

  /** Where the second keyword starts, or -1. */
  function SecondOccurrence(s: string): (r: int)
    ensures r == -1 <==> !OccursTwice(s, Keyword)
  {
    SecondIndexOf(s, Keyword)
  }

  /** The text of `s` up to its first line break, or all of `s` when it has none (`([\s\S]*?)(?:\n|$)`). */
  function FirstLine(s: string): (line: string)
    ensures |line| <= |s| && line == s[..|line|]
    ensures '\n' !in line
    ensures |line| < |s| ==> s[|line|] == '\n'
    decreases |s|
  {
    if |s| == 0 || s[0] == '\n' then [] else [s[0]] + FirstLine(s[1..])
  }

  /** Trimming never introduces a character. */
  lemma TrimKeepsAbsent(s: string, c: char, isSpace: char -> bool)
    requires c !in s
    ensures c !in Strings.Trim(s, isSpace)
  {
    var r := Strings.Trim(s, isSpace);
    var j := Strings.SkipSpaces(s, isSpace, 0);
    forall k | 0 <= k < |r| ensures r[k] != c {
      assert r[k] == s[j + k];
    }
  }

  /**
   * The text a `label:\s*([\s\S]*?)(?:\n|$)` match captures, trimmed: after the
   * first occurrence of the label `marker`, skip every whitespace character
   * (newlines included, as `\s*` is greedy), take the rest of that line and trim
   * it. When the label does not occur the result is `default`.
   */
  function LabelValue(s: string, marker: string, default: string): (r: string)
    ensures !Strings.Contains(s, marker) ==> r == default
    ensures Strings.Contains(s, marker) ==> '\n' !in r && Strings.IsTrimmed(r, Strings.IsJsSpace)
  {
    var i := Strings.IndexOf(s, marker, 0);
    if i == -1 then
      default
    else
      assert Strings.Contains(s, marker);
      var line := FirstLine(Strings.TrimStart(s[i + |marker|..], Strings.IsJsSpace));
      TrimKeepsAbsent(line, '\n', Strings.IsJsSpace);
      Strings.Trim(line, Strings.IsJsSpace)
  }

  /**
   * A label read back: where the first occurrence of `marker` ends `pre + marker`
   * and is followed by spaces, a trimmed one-line `value`, spaces on the same
   * line (a `\r` included) and either the end of the text or a line break, the
   * label's value is `value`.
   */
  lemma LabelValueOfLine(pre: string, marker: string, pad: string, value: string, trail: string, tail: string,
                         default: string)
    requires |marker| > 0 && forall j :: 0 <= j < |pre| ==> !Strings.OccursAt(pre + marker, marker, j)
    requires Strings.SpacesBetween(pad, Strings.IsJsSpace, 0, |pad|)
    requires |value| > 0 && Strings.IsTrimmed(value, Strings.IsJsSpace) && '\n' !in value
    requires Strings.SpacesBetween(trail, Strings.IsJsSpace, 0, |trail|) && '\n' !in trail
    requires tail == "" || tail[0] == '\n'
    ensures LabelValue(pre + marker + pad + value + trail + tail, marker, default) == value
  {
    var line := value + trail;
    var rest := line + tail;
    assert rest[0] == value[0];
    LabelValueAfter(pre, marker, pad, rest, default);
    FirstLineOf(line, tail);
    Strings.TrimFramed([], value, trail, Strings.IsJsSpace);
    assert [] + value + trail == line;
    Sequences.AppendRegroup(pre + marker, pad, value, trail, tail);
  }

  /** After the first label and spaces, the value is the trimmed first line of what follows them. */
  lemma LabelValueAfter(pre: string, marker: string, pad: string, rest: string, default: string)
    requires forall j :: 0 <= j < |pre| ==> !Strings.OccursAt(pre + marker, marker, j)
    requires Strings.SpacesBetween(pad, Strings.IsJsSpace, 0, |pad|)
    requires |rest| > 0 && !Strings.IsJsSpace(rest[0])
    ensures LabelValue(pre + marker + (pad + rest), marker, default)
              == Strings.Trim(FirstLine(rest), Strings.IsJsSpace)
  {
    var s := pre + marker + (pad + rest);
    Strings.FirstOccurrence(pre, marker, pad + rest);
    assert s[|pre| + |marker|..] == pad + rest;
    TrimStartPadded(pad, rest);
  }

  /** The first line of a line break-free `value` followed by the end or a line break. */
  lemma {:induction false} FirstLineOf(value: string, tail: string)
    requires '\n' !in value
    requires tail == "" || tail[0] == '\n'
    ensures FirstLine(value + tail) == value
    decreases |value|
  {
    if |value| == 0 {
      assert value + tail == tail;
    } else {
      assert (value + tail)[1..] == value[1..] + tail;
      FirstLineOf(value[1..], tail);
      assert [value[0]] + value[1..] == value;
    }
  }

  /** Stripping the leading spaces of spaces followed by a non-space. */
  lemma TrimStartPadded(pad: string, t: string)
    requires Strings.SpacesBetween(pad, Strings.IsJsSpace, 0, |pad|)
    requires |t| > 0 && !Strings.IsJsSpace(t[0])
    ensures Strings.TrimStart(pad + t, Strings.IsJsSpace) == t
  {
    SkipPadding(pad, t, 0);
    assert (pad + t)[|pad|..] == t;
  }

  /** Skipping spaces from inside the padding stops right after it. */
  lemma {:induction false} SkipPadding(pad: string, t: string, i: nat)
    requires Strings.SpacesBetween(pad, Strings.IsJsSpace, 0, |pad|) && i <= |pad|
    requires |t| > 0 && !Strings.IsJsSpace(t[0])
    ensures Strings.SkipSpaces(pad + t, Strings.IsJsSpace, i) == |pad|
    decreases |pad| - i
  {
    var s := pad + t;
    if i < |pad| {
      assert s[i] == pad[i];
      SkipPadding(pad, t, i + 1);
    } else {
      assert s[i] == t[0];
    }
  }

  /**
   * An empty label line does not give an empty value: `\s*` runs over the line
   * break, so the value is the next line.
   */
  lemma EmptyLabelTakesNextLine(pre: string, marker: string, next: string, tail: string, default: string)
    requires |marker| > 0 && forall j :: 0 <= j < |pre| ==> !Strings.OccursAt(pre + marker, marker, j)
    requires |next| > 0 && Strings.IsTrimmed(next, Strings.IsJsSpace) && '\n' !in next
    requires tail == "" || tail[0] == '\n'
    ensures LabelValue(pre + marker + "\n" + next + tail, marker, default) == next
  {
    assert Strings.SpacesBetween("\n", Strings.IsJsSpace, 0, 1);
    LabelValueOfLine(pre, marker, "\n", next, "", tail, default);
    assert pre + marker + "\n" + next + "" == pre + marker + "\n" + next;
  }

  /** `parts.slice(i).map(p => p.trim()).filter(p => p !== "")`. */
  function TrimmedFrom(parts: seq<string>, i: nat): (items: seq<string>)
    requires i <= |parts|
    ensures |items| <= |parts| - i
    ensures forall k :: 0 <= k < |items| ==> items[k] != "" && Strings.IsTrimmed(items[k], Strings.IsJsSpace)
    decreases |parts| - i
  {
    if i == |parts| then []
    else
      var t := Strings.Trim(parts[i], Strings.IsJsSpace);
      var rest := TrimmedFrom(parts, i + 1);
      if t == "" then rest else [t] + rest
  }

  /** A piece trimmed, kept when non-blank and dropped otherwise. */
  function NonBlank(p: string): seq<string>
  {
    var t := Strings.Trim(p, Strings.IsJsSpace);
    if t == "" then [] else [t]
  }

  /** `pieces.map(p => p.trim()).filter(p => p !== "")`, written as a flattened map. */
  function NonBlankItems(pieces: seq<string>): seq<string>
  {
    Sequences.Concat(Sequences.Map(NonBlank, pieces))
  }

  /** The items are exactly the non-blank trimmed pieces. */
  lemma NonBlankMembers(pieces: seq<string>, y: string)
    ensures y in NonBlankItems(pieces) <==>
              y != "" && exists j :: 0 <= j < |pieces| && Strings.Trim(pieces[j], Strings.IsJsSpace) == y
  {
    Sequences.ConcatMapMembers(NonBlank, pieces, y);
    forall j | 0 <= j < |pieces|
      ensures y in NonBlank(pieces[j]) <==> y != "" && Strings.Trim(pieces[j], Strings.IsJsSpace) == y
    {
    }
  }

  /** The filter from index `i` is the flattened map of the pieces from `i`: same items, same order, same repetitions. */
  lemma {:induction false} TrimmedFromIsFilter(parts: seq<string>, i: nat)
    requires i <= |parts|
    ensures TrimmedFrom(parts, i) == NonBlankItems(parts[i..])
    decreases |parts| - i
  {
    if i == |parts| {
      assert parts[i..] == [];
    } else {
      assert parts[i..] == [parts[i]] + parts[i + 1..];
      Sequences.ConcatMapCons(NonBlank, parts[i], parts[i + 1..]);
      TrimmedFromIsFilter(parts, i + 1);
    }
  }

  /** The tasks of one action-item text (one element of the `map` before `flat`). */
  function ParseTaskString(s: string): (tasks: seq<Task>)
    ensures !OccursTwice(s, Keyword) ==> tasks == []
  {
    var i := SecondOccurrence(s);
    if i == -1 then []
    else
      var relevant := s[i..];
      var assignee := LabelValue(relevant, AssigneeLabel, NoAssignee);
      var deadline := LabelValue(relevant, DeadlineLabel, NoDeadline);
      TasksNamed(TrimmedFrom(Strings.Split(relevant, ItemSeparator), 1), assignee, deadline)
  }

  /** One task per name, all with the same assignee and deadline. */
  function TasksNamed(names: seq<string>, assignee: string, deadline: string): (tasks: seq<Task>)
    ensures |tasks| == |names|
    ensures forall k :: 0 <= k < |names| ==> tasks[k] == Task(names[k], assignee, deadline)
  {
    seq(|names|, k requires 0 <= k < |names| => Task(names[k], assignee, deadline))
  }

  /**
   * The tasks named by the pieces after the first of `parts`: fewer tasks than
   * parts; the k-th task is named by the k-th non-blank trimmed piece, with the
   * shared assignee and deadline.
   */
  lemma TasksOfParts(parts: seq<string>, assignee: string, deadline: string)
    requires |parts| > 0
    ensures var names := NonBlankItems(parts[1..]);
      var tasks := TasksNamed(TrimmedFrom(parts, 1), assignee, deadline);
      && |tasks| == |names| < |parts|
      && forall k :: 0 <= k < |tasks| ==>
           && tasks[k] == Task(names[k], assignee, deadline)
           && names[k] != "" && Strings.IsTrimmed(names[k], Strings.IsJsSpace)
  {
    TrimmedFromIsFilter(parts, 1);
  }

  /**
   * What one action-item text yields: nothing without a second keyword;
   * otherwise, in the tail from the second keyword on, one task per non-blank
   * piece after a "\n*" separator, in order, named by that piece trimmed, all
   * sharing the assignee and deadline read from that tail. Which names occur is
   * stated by `NonBlankMembers`.
   */
  lemma TasksOfString(s: string)
    ensures !OccursTwice(s, Keyword) ==> ParseTaskString(s) == []
    ensures OccursTwice(s, Keyword) ==>
      var relevant := s[SecondOccurrence(s)..];
      var parts := Strings.Split(relevant, ItemSeparator);
      var names := NonBlankItems(parts[1..]);
      var tasks := ParseTaskString(s);
      && |tasks| == |names| < |parts|
      && forall k :: 0 <= k < |tasks| ==>
           && tasks[k] == Task(names[k], LabelValue(relevant, AssigneeLabel, NoAssignee),
                               LabelValue(relevant, DeadlineLabel, NoDeadline))
           && names[k] != "" && Strings.IsTrimmed(names[k], Strings.IsJsSpace)
  {
    if OccursTwice(s, Keyword) {
      var relevant := s[SecondOccurrence(s)..];
      TasksOfParts(Strings.Split(relevant, ItemSeparator), LabelValue(relevant, AssigneeLabel, NoAssignee),
                   LabelValue(relevant, DeadlineLabel, NoDeadline));
    }
  }

  /** `parsedTasks`: the tasks of every action-item text (`map`), flattened in order (`flat`). */
  function ParseTasks(texts: seq<string>): (tasks: seq<Task>)
    ensures |texts| == 0 ==> tasks == []
    ensures |texts| == 1 ==> tasks == ParseTaskString(texts[0])
  {
    if |texts| == 1 then
      Sequences.ConcatMapSingle(ParseTaskString, texts[0]);
      assert texts == [texts[0]];
      Sequences.Concat(Sequences.Map(ParseTaskString, texts))
    else
      Sequences.Concat(Sequences.Map(ParseTaskString, texts))
  }

  /** Flattening distributes over concatenation: the texts are parsed independently. */
  lemma ParseTasksAppend(a: seq<string>, b: seq<string>)
    ensures ParseTasks(a + b) == ParseTasks(a) + ParseTasks(b)
  {
    Sequences.MapAppend(ParseTaskString, a, b);
    Sequences.ConcatConcat(Sequences.Map(ParseTaskString, a), Sequences.Map(ParseTaskString, b));
  }

  /** A text without a second keyword adds no task wherever it stands. */
  lemma IgnoredText(a: seq<string>, s: string, b: seq<string>)
    requires !OccursTwice(s, Keyword)
    ensures ParseTasks(a + [s] + b) == ParseTasks(a + b)
  {
    Sequences.ConcatMapSkip(ParseTaskString, a, s, b);
  }
}
