/**
 * The text handling of the meeting summary service: the transcript's dialogue
 * lines joined for the language model, the regular-expression extraction of a
 * titled section from the model's answer, and the four-section summary built
 * from those extractions. The language models are parameters: each turns the
 * joined transcript into an answer text.
 */
module Summary {
  import opened Wrappers
  import Strings
  import Sequences

  /** What an extraction gives when the title is missing ("information not found"). */
  const Placeholder: string := "[তথ্য পাওয়া যায়নি]"
  /** The first line of every formatted summary. */
  const Header: string := "\n=== Meeting Summary ===\n"

  /** The four section titles looked up in the model's answer. */
  const MainTopics: string := "প্রধান আলোচ্য বিষয়"
  const Decisions: string := "গৃহীত সিদ্ধান্তসমূহ"
  const Sentiment: string := "সামগ্রিক অনুভূতি"
  const Engagement: string := "অংশগ্রহণকারীদের সম্পৃক্ততা বিশ্লেষণ"

  /** The four headings of the formatted summary, numbered with Bengali digits. */
  const MainTopicsHeading: string := "\n১. প্রধান আলোচ্য বিষয়:\n"
  const DecisionsHeading: string := "\n\n২. গৃহীত সিদ্ধান্তসমূহ:\n"
  const SentimentHeading: string := "\n\n৩. সামগ্রিক অনুভূতি (ইতিবাচক/নিরপেক্ষ/নেতিবাচক) সাথে আত্মবিশ্বাস স্কোর:\n"
  const EngagementHeading: string := "\n\n৪. অংশগ্রহণকারীদের সম্পৃক্ততা বিশ্লেষণ:\n"

  /** A transcript entry as the summary endpoint receives it. */
  datatype TranscriptEntry = TranscriptEntry(
    startTime: string, endTime: string, dialogue: string,
    name: Option<string>, sentiment: Option<string>)

  /** The result of `process_meeting_summary`: its keys `summary` and `action_items`. */
  datatype MeetingReport = MeetingReport(summary: string, actionItems: string)

  /** A character with a special meaning in a Python regular expression. */
  predicate IsRegexMetachar(c: char)
  {
    c in ".^$*+?{}[]\\|()"
  }

  /** A title that, spliced into a pattern, matches only itself. */
  predicate NoRegexMetachar(title: string)
  {
    forall k :: 0 <= k < |title| ==> !IsRegexMetachar(title[k])
  }

  /** A title of spaces and characters beyond ASCII has no metacharacter. */
  lemma PlainTitle(title: string)
    requires forall k :: 0 <= k < |title| ==> title[k] == ' ' || title[k] >= '\U{0980}'
    ensures NoRegexMetachar(title)
  {
  }

  /** The four section titles are plain text. */
  lemma TitlesArePlain()
    ensures NoRegexMetachar(MainTopics) && NoRegexMetachar(Decisions)
    ensures NoRegexMetachar(Sentiment) && NoRegexMetachar(Engagement)
  {
    PlainTitle(MainTopics);
    PlainTitle(Decisions);
    PlainTitle(Sentiment);
    PlainTitle(Engagement);
  }

  /** A line break followed by a decimal digit starts at `i`: where `\n\d` matches. */
  predicate SectionBreakAt(s: string, i: int)
  {
    0 <= i && i + 1 < |s| && s[i] == '\n' && Strings.IsDecimalDigit(s[i + 1])
  }

  /**
   * Where the lazy `(.*?)` started at `i` stops: the first section break at or
   * after `i`, or the end of the text (`\Z`).
   */
  function SectionEnd(s: string, i: nat): (e: nat)
    requires i <= |s|
    ensures i <= e <= |s|
    ensures e < |s| ==> SectionBreakAt(s, e)
    ensures forall j :: i <= j < e ==> !SectionBreakAt(s, j)
    decreases |s| - i
  {
    if i == |s| || SectionBreakAt(s, i) then i else SectionEnd(s, i + 1)
  }

  /**
   * `extract_section(summary, title)`: the text after the first `title:` up to
   * the next line break followed by a digit, or to the end, stripped; the
   * placeholder when `title:` does not occur. A found section is stripped,
   * holds no section break and is no longer than the answer.
   */
  function ExtractSection(summary: string, title: string): (r: string)
    ensures !Strings.Contains(summary, title + ":") ==> r == Placeholder
    ensures Strings.Contains(summary, title + ":") ==>
              && Strings.IsTrimmed(r, Strings.IsPySpace)
              && (forall j :: !SectionBreakAt(r, j))
              && |r| <= |summary|
  {
    var head := title + ":";
    var i := Strings.IndexOf(summary, head, 0);
    if i == -1 then
      Placeholder
    else
      assert Strings.Contains(summary, head);
      var start := i + |head|;
      var e := SectionEnd(summary, start);
      var r := Strings.Trim(summary[start..e], Strings.IsPySpace);
      SliceOfSection(summary, start, e, r);
      r
  }

  /** The trimmed text between a start and its section end holds no section break. */
  lemma SliceOfSection(summary: string, start: nat, e: nat, r: string)
    requires start <= e <= |summary| && forall j :: start <= j < e ==> !SectionBreakAt(summary, j)
    requires r == Strings.Trim(summary[start..e], Strings.IsPySpace)
    ensures |r| <= e - start && forall j :: !SectionBreakAt(r, j)
  {
    var lead := Strings.SkipSpaces(summary[start..e], Strings.IsPySpace, 0);
    Strings.SliceOfSlice(summary, start, e, lead, lead + |r|);
    NoBreakInSlice(summary, start, e, start + lead, r);
  }

  /** A slice of a stretch without section breaks has none either. */
  lemma NoBreakInSlice(s: string, a: nat, b: nat, o: nat, r: string)
    requires a <= o && o + |r| <= b <= |s|
    requires forall j :: a <= j < b ==> !SectionBreakAt(s, j)
    requires r == s[o..o + |r|]
    ensures forall j :: !SectionBreakAt(r, j)
  {
    forall j | 0 <= j < |r| - 1 ensures !SectionBreakAt(r, j) {
      assert r[j] == s[o + j] && r[j + 1] == s[o + j + 1];
      assert !SectionBreakAt(s, o + j);
    }
  }

  /** Where every position before `stop` is no section break and `stop` ends the text or is one, the section ends at `stop`. */
  lemma {:induction false} SectionEndAt(s: string, i: nat, stop: nat)
    requires i <= stop <= |s|
    requires forall j :: i <= j < stop ==> !SectionBreakAt(s, j)
    requires stop == |s| || SectionBreakAt(s, stop)
    ensures SectionEnd(s, i) == stop
    decreases stop - i
  {
    if i < stop {
      SectionEndAt(s, i + 1, stop);
    }
  }

  /**
   * Extraction undoes writing a section: after the first `title:` (none in
   * `pre`, nor one straddling its end), spaces, a stripped content and spaces
   * (line breaks and blank lines included) with no section break among them,
   * ended by the end of the text or by a line break and a digit, the extraction
   * is that content.
   */
  lemma ExtractWrittenSection(pre: string, title: string, pad: string, content: string, trail: string, tail: string)
    requires forall j :: 0 <= j < |pre| ==> !Strings.OccursAt(pre + (title + ":"), title + ":", j)
    requires Strings.SpacesBetween(pad, Strings.IsPySpace, 0, |pad|)
    requires Strings.SpacesBetween(trail, Strings.IsPySpace, 0, |trail|)
    requires Strings.IsTrimmed(content, Strings.IsPySpace)
    requires forall j :: !SectionBreakAt(pad + content + trail, j)
    requires tail == [] || SectionBreakAt(tail, 0)
    ensures ExtractSection(pre + title + ":" + pad + content + trail + tail, title) == content
  {
    var body := pad + content + trail;
    ExtractAfter(pre, title, body, tail);
    Strings.TrimFramed(pad, content, trail, Strings.IsPySpace);
    Sequences.SpliceRegroup(pre, title, ":", pad, content, trail, tail);
  }

  /** After the first `title:`, a body without section breaks followed by the end or a break is extracted stripped. */
  lemma ExtractAfter(pre: string, title: string, body: string, tail: string)
    requires forall j :: 0 <= j < |pre| ==> !Strings.OccursAt(pre + (title + ":"), title + ":", j)
    requires forall j :: !SectionBreakAt(body, j)
    requires tail == [] || SectionBreakAt(tail, 0)
    ensures ExtractSection(pre + (title + ":") + body + tail, title) == Strings.Trim(body, Strings.IsPySpace)
  {
    var head := title + ":";
    var lead := pre + head;
    var s := lead + body + tail;
    assert s == lead + (body + tail);
    Strings.FirstOccurrence(pre, head, body + tail);
    SectionEndOfBody(lead, body, tail);
    assert s[|lead|..|lead| + |body|] == body;
  }

  /**
   * `\d` is Unicode-aware, so a line starting with a Bengali numeral, as the
   * model numbers its own sections, ends the section before it.
   */
  lemma BengaliNumberEndsSection(pre: string, title: string, pad: string, content: string, trail: string,
                                 numeral: char, rest: string)
    requires '\U{09E6}' <= numeral <= '\U{09EF}'
    requires forall j :: 0 <= j < |pre| ==> !Strings.OccursAt(pre + (title + ":"), title + ":", j)
    requires Strings.SpacesBetween(pad, Strings.IsPySpace, 0, |pad|)
    requires Strings.SpacesBetween(trail, Strings.IsPySpace, 0, |trail|)
    requires Strings.IsTrimmed(content, Strings.IsPySpace)
    requires forall j :: !SectionBreakAt(pad + content + trail, j)
    ensures ExtractSection(pre + title + ":" + pad + content + trail + (['\n', numeral] + rest), title) == content
  {
    ExtractWrittenSection(pre, title, pad, content, trail, ['\n', numeral] + rest);
  }

  /**
   * A body without section breaks, followed by the end or by a section break,
   * ends its section where it ends.
   */
  lemma SectionEndOfBody(head: string, body: string, tail: string)
    requires forall j :: !SectionBreakAt(body, j)
    requires tail == [] || SectionBreakAt(tail, 0)
    ensures SectionEnd(head + body + tail, |head|) == |head| + |body|
  {
    var s := head + body + tail;
    var stop := |head| + |body|;
    forall j | |head| <= j < stop ensures !SectionBreakAt(s, j) {
      if j + 1 < stop {
        assert s[j] == body[j - |head|] && s[j + 1] == body[j + 1 - |head|];
        assert !SectionBreakAt(body, j - |head|);
      } else if tail != [] {
        assert s[j + 1] == tail[0];
      }
    }
    if tail != [] {
      assert s[stop] == tail[0] && s[stop + 1] == tail[1];
    }
    SectionEndAt(s, |head|, stop);
  }

  /** The four headings, each followed by the section extracted from the model's answer. */
  function Sections(answer: string): string
  {
    MainTopicsHeading + ExtractSection(answer, MainTopics)
      + DecisionsHeading + ExtractSection(answer, Decisions)
      + SentimentHeading + ExtractSection(answer, Sentiment)
      + EngagementHeading + ExtractSection(answer, Engagement)
  }

  /** The formatting of `generate_meeting_summary`: the header, then the four headed sections. */
  function FormattedSummary(answer: string): (r: string)
    ensures Header <= r
  {
    var sections := Sections(answer);
    PrefixAppend(Header, sections);
    Header + sections
  }

  /** A sequence is a prefix of itself extended. */
  lemma PrefixAppend(p: string, q: string)
    ensures p <= p + q
  {
  }

  /** An answer without any of the four titles gives the fixed text with four placeholders. */
  lemma FormattedSummaryAllMissing(answer: string)
    requires !Strings.Contains(answer, MainTopics + ":") && !Strings.Contains(answer, Decisions + ":")
    requires !Strings.Contains(answer, Sentiment + ":") && !Strings.Contains(answer, Engagement + ":")
    ensures FormattedSummary(answer) == Header
      + (MainTopicsHeading + Placeholder + DecisionsHeading + Placeholder
         + SentimentHeading + Placeholder + EngagementHeading + Placeholder)
  {
    FormattedOf(answer, Placeholder, Placeholder, Placeholder, Placeholder);
  }

  /** The formatted summary in terms of the four extracted sections. */
  lemma FormattedOf(answer: string, topics: string, decisions: string, sentiment: string, engagement: string)
    requires topics == ExtractSection(answer, MainTopics) && decisions == ExtractSection(answer, Decisions)
    requires sentiment == ExtractSection(answer, Sentiment) && engagement == ExtractSection(answer, Engagement)
    ensures FormattedSummary(answer) == Header
      + (MainTopicsHeading + topics + DecisionsHeading + decisions
         + SentimentHeading + sentiment + EngagementHeading + engagement)
  {
  }

  /** The dialogues of the transcript, in order. */
  function Dialogues(transcript: seq<TranscriptEntry>): (ds: seq<string>)
    ensures |ds| == |transcript| && forall i :: 0 <= i < |transcript| ==> ds[i] == transcript[i].dialogue
  {
    seq(|transcript|, i requires 0 <= i < |transcript| => transcript[i].dialogue)
  }

  /** `full_text`: the dialogues joined by line breaks. */
  function TranscriptText(transcript: seq<TranscriptEntry>): (text: string)
    ensures |transcript| == 0 ==> text == ""
    ensures |transcript| == 1 ==> text == transcript[0].dialogue
  {
    Strings.Join(Dialogues(transcript), "\n")
  }

  /** When no dialogue holds a line break, the lines of the joined text are the dialogues. */
  lemma TranscriptLines(transcript: seq<TranscriptEntry>)
    requires |transcript| >= 1
    requires forall i :: 0 <= i < |transcript| ==> '\n' !in transcript[i].dialogue
    ensures Strings.Split(TranscriptText(transcript), "\n") == Dialogues(transcript)
  {
    Strings.SplitJoin(Dialogues(transcript), "\n");
  }

  /**
   * `process_meeting_summary`: both models are given the same joined
   * transcript; the summary is the formatted summary of the first model's
   * answer, the action items the second model's answer as it is.
   */
  function ProcessMeetingSummary(transcript: seq<TranscriptEntry>,
                                 summarize: string -> string, generateActionItems: string -> string): (r: MeetingReport)
    ensures Header <= r.summary
    ensures r.summary == FormattedSummary(summarize(TranscriptText(transcript)))
    ensures r.actionItems == generateActionItems(TranscriptText(transcript))
  {
    var fullText := TranscriptText(transcript);
    MeetingReport(FormattedSummary(summarize(fullText)), generateActionItems(fullText))
  }
}
