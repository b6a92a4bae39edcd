/**
  `TextSplitter`: turns a pasted text into the sentences the reading screens
  show one at a time. `cleanText` collapses whitespace and trims;
  `splitIntoSentences` cuts the text at every run of `.`, `!` and `?` (and
  the whitespace after it) and gives each non-empty piece back the first
  character of the run that ended it, so every sentence ends in `.`, `!`
  or `?`.
*/
module TextSplitter {
  import opened KotlinText
  import opened Regex

  // =====================================================================
  // Sentence splitting

  /** `[.!?]+\s*` */
  const SentenceEnd: Pattern := Pattern([Run(OneOf(".!?"), true, false), Run(Space, false, false)], false)

  predicate IsTerminal(c: char) {
    c == '.' || c == '!' || c == '?'
  }

  /** `s.endsWith(".") || s.endsWith("!") || s.endsWith("?")` */
  predicate EndsWithTerminal(s: string) {
    s != [] && IsTerminal(s[|s| - 1])
  }

  /** A match of the sentence-end pattern starts with a terminal character and is not empty. */
  lemma SentenceEndAt(s: string, i: nat)
    requires i <= |s| && MatchAt(s, i, SentenceEnd).Some?
    ensures i < MatchAt(s, i, SentenceEnd).value.end && IsTerminal(s[i])
  {
    var e := SentenceEnd.elements;
    assert MatchRest(s, i, e, false).Some?;
    var first := Step(s, i, e[0], false);
    assert first.Some?;
    RunEndProps(s, i, c => InClass(OneOf(".!?"), c));
    assert e[1..] == [Run(Space, false, false)] && e[1..][1..] == [];
  }

  /** `text.split(sentenceRegex)`: the pieces between the runs. */
  function Parts(text: string): seq<string> {
    Split(text, SentenceEnd)
  }

  /** `sentenceRegex.findAll(text).map { it.value.trim() }`: each run without its trailing whitespace. */
  function Marks(text: string): (r: seq<string>)
    ensures |r| == |FindAll(text, 0, SentenceEnd)|
  {
    var runs := FindAll(text, 0, SentenceEnd);
    seq(|runs|, k requires 0 <= k < |runs| => Trim(text[runs[k].start..runs[k].end]))
  }

  /** The sentence the `i`-th piece makes once trimmed to the non-empty `part`. */
  function SentenceOf(part: string, i: nat, marks: seq<string>): (r: string)
    requires part != []
  {
    if i < |marks| then (if marks[i] != [] then part + [marks[i][0]] else part + ".")
    else if EndsWithTerminal(part) then part
    else part + "."
  }

  /** What the `i`-th piece, trimmed to `part`, adds to the sentences: nothing when it is empty. */
  function Contribution(part: string, i: nat, marks: seq<string>): seq<string> {
    if part == [] then [] else [SentenceOf(part, i, marks)]
  }

  /** Every piece trimmed. */
  function TrimAll(parts: seq<string>): (r: seq<string>)
    ensures |r| == |parts|
  {
    seq(|parts|, k requires 0 <= k < |parts| => Trim(parts[k]))
  }

  /** The sentences collected from the first `n` trimmed pieces, in order. */
  function Collected(pieces: seq<string>, marks: seq<string>, n: nat): seq<string>
    requires n <= |pieces|
  {
    if n == 0 then []
    else Collected(pieces, marks, n - 1) + Contribution(pieces[n - 1], n - 1, marks)
  }

  /** The whole text as one sentence, when no piece had any text. */
  function Fallback(text: string): string {
    if EndsWithTerminal(text) then text else text + "."
  }

  /** What `splitIntoSentences` returns. */
  function Sentences(text: string): seq<string> {
    if IsBlank(text) then []
    else
      var parts := Parts(text);
      var collected := Collected(TrimAll(parts), Marks(text), |parts|);
      if collected == [] then [Fallback(text)] else collected
  }

  /** `splitIntoSentences` */
  method SplitIntoSentences(text: string) returns (sentences: seq<string>)
    ensures sentences == Sentences(text)
  {
    if IsBlank(text) {
      return [];
    }
    var parts := Parts(text);
    var marks := Marks(text);
    ghost var pieces := TrimAll(parts);
    sentences := [];
    for i := 0 to |parts|
      invariant sentences == Collected(pieces, marks, i)
    {
      var part := Trim(parts[i]);
      assert pieces[i] == part;
      if part != [] {
        sentences := sentences + [SentenceOf(part, i, marks)];
      }
    }
    if sentences == [] && !IsBlank(text) {
      sentences := [Fallback(text)];
    }
  }

  /** Every non-empty mark starts with a terminal character. */
  predicate TerminalMarks(marks: seq<string>) {
    forall k :: 0 <= k < |marks| && marks[k] != [] ==> IsTerminal(marks[k][0])
  }

  /** Every sentence ends in a terminal character. */
  predicate AllTerminal(sentences: seq<string>) {
    forall k :: 0 <= k < |sentences| ==> EndsWithTerminal(sentences[k])
  }

  /** The trimmed value of a run is non-empty and starts with the run's first character, a terminal one. */
  lemma MarkOfRun(text: string, m: Match)
    requires MatchedAt(text, m, SentenceEnd)
    ensures m.start < m.end <= |text| && IsTerminal(text[m.start])
    ensures Trim(text[m.start..m.end]) != [] && Trim(text[m.start..m.end])[0] == text[m.start]
  {
    SentenceEndAt(text, m.start);
    var value := text[m.start..m.end];
    assert value[0] == text[m.start];
    TrimKeepsFirst(value);
  }

  /** Each trimmed run is non-empty and starts with the terminal character its match starts with. */
  lemma MarksArePunctuation(text: string)
    ensures forall k :: 0 <= k < |Marks(text)| ==>
      var m := FindAll(text, 0, SentenceEnd)[k];
      m.start < |text| && Marks(text)[k] != [] && Marks(text)[k][0] == text[m.start] && IsTerminal(text[m.start])
    ensures TerminalMarks(Marks(text))
  {
    var runs := FindAll(text, 0, SentenceEnd);
    var marks := Marks(text);
    FindAllMatchesAt(text, 0, SentenceEnd);
    forall k | 0 <= k < |runs|
      ensures runs[k].start < |text| && marks[k] != [] && marks[k][0] == text[runs[k].start] && IsTerminal(text[runs[k].start])
    {
      MarkOfRun(text, runs[k]);
      assert marks[k] == Trim(text[runs[k].start..runs[k].end]);
    }
  }

  /** A sentence ends in a terminal character when the mark it takes from does. */
  lemma ContributionWellFormed(part: string, i: nat, marks: seq<string>)
    requires TerminalMarks(marks)
    ensures AllTerminal(Contribution(part, i, marks))
  {
    if part != [] {
      assert i < |marks| && marks[i] != [] ==> IsTerminal(marks[i][0]);
    }
  }

  lemma AllTerminalAppend(a: seq<string>, b: seq<string>)
    requires AllTerminal(a) && AllTerminal(b)
    ensures AllTerminal(a + b)
  {
    forall k | 0 <= k < |a + b| ensures EndsWithTerminal((a + b)[k]) {
      if k < |a| {
        assert (a + b)[k] == a[k];
      } else {
        assert (a + b)[k] == b[k - |a|];
      }
    }
  }

  /** Every collected sentence is non-empty and ends in a terminal character. */
  lemma {:induction false} CollectedWellFormed(pieces: seq<string>, marks: seq<string>, n: nat)
    requires n <= |pieces|
    requires TerminalMarks(marks)
    ensures AllTerminal(Collected(pieces, marks, n))
  {
    if n > 0 {
      CollectedWellFormed(pieces, marks, n - 1);
      ContributionWellFormed(pieces[n - 1], n - 1, marks);
      AllTerminalAppend(Collected(pieces, marks, n - 1), Contribution(pieces[n - 1], n - 1, marks));
    }
  }

  /**
    The sentences are empty exactly for a blank text, and every sentence
    is non-empty and ends in `.`, `!` or `?`.
  */
  lemma SentencesWellFormed(text: string)
    ensures Sentences(text) == [] <==> IsBlank(text)
    ensures AllTerminal(Sentences(text))
  {
    if !IsBlank(text) {
      var parts, marks := Parts(text), Marks(text);
      MarksArePunctuation(text);
      CollectedWellFormed(TrimAll(parts), marks, |parts|);
    }
  }

  /**
    Every piece but the last is followed by a run: its sentence is the
    trimmed piece and the first character of that run. The last piece has
    `.` added unless it already ends in a terminal character.
  */
  lemma SentenceOfPiece(text: string, i: nat)
    requires i < |Parts(text)| && Trim(Parts(text)[i]) != []
    ensures |Parts(text)| == |FindAll(text, 0, SentenceEnd)| + 1
    ensures var part, runs := Trim(Parts(text)[i]), FindAll(text, 0, SentenceEnd);
      && (i < |runs| ==> runs[i].start < |text| && SentenceOf(part, i, Marks(text)) == part + [text[runs[i].start]])
      && (i == |runs| ==> SentenceOf(part, i, Marks(text)) == (if EndsWithTerminal(part) then part else part + "."))
  {
    SplitFromLength(text, 0, 0, SentenceEnd);
    MarksArePunctuation(text);
  }

  /** The sentence-end pattern matches nowhere in a text without terminal characters. */
  lemma NoSentenceEnd(text: string)
    requires forall i :: 0 <= i < |text| ==> !IsTerminal(text[i])
    ensures Find(text, 0, SentenceEnd).None?
  {
    forall j | 0 <= j <= |text| ensures MatchAt(text, j, SentenceEnd).None? {
      if MatchAt(text, j, SentenceEnd).Some? {
        SentenceEndAt(text, j);
      }
    }
    FindNone(text, 0, SentenceEnd);
  }

  /** A non-blank text without `.`, `!` or `?` becomes one sentence: itself trimmed, with `.` added. */
  lemma NoPunctuationOneSentence(text: string)
    requires !IsBlank(text)
    requires forall i :: 0 <= i < |text| ==> !IsTerminal(text[i])
    ensures Sentences(text) == [Trim(text) + "."]
  {
    NoSentenceEnd(text);
    assert Parts(text) == [text];
    assert Marks(text) == [];
    TrimBlank(text);
    TrimSubstring(text);
    var part := Trim(text);
    assert part[|part| - 1] == text[LeadingWhitespace(text) + |part| - 1];
    assert TrimAll([text]) == [part];
    assert Collected([part], [], 1) == [part + "."];
  }

  // =====================================================================
  // Cleaning

  /** `cleanText`: runs of `\s` become one space, then runs of newlines (none are left), then `trim()`. */
  function CleanText(text: string): string {
    Trim(ReplaceRuns(ReplaceRuns(text, IsRegexSpace), IsNewline))
  }

  /** After `\s+` → " " no newline is left, so the `\n+` replacement changes nothing. */
  lemma NewlinePassIsNoop(text: string)
    ensures ReplaceRuns(ReplaceRuns(text, IsRegexSpace), IsNewline) == ReplaceRuns(text, IsRegexSpace)
  {
    var once := ReplaceRuns(text, IsRegexSpace);
    ReplaceSpaceRunsCollapses(text);
    assert forall i :: 0 <= i < |once| ==> !IsNewline(once[i]);
    ReplaceRunsAbsent(once, IsNewline);
  }

  /**
    The cleaned text has no leading or trailing whitespace, its only `\s`
    character is the space and no two spaces are adjacent.
  */
  lemma CleanTextShape(text: string)
    ensures var r := CleanText(text);
      && (r != [] ==> !IsWhitespace(r[0]) && !IsWhitespace(r[|r| - 1]))
      && SpacesCollapsed(r)
  {
    NewlinePassIsNoop(text);
    ReplaceSpaceRunsCollapses(text);
    TrimKeepsCollapsed(ReplaceRuns(text, IsRegexSpace));
  }

  /** The cleaned text is empty exactly when the input is blank. */
  lemma CleanTextBlank(text: string)
    ensures CleanText(text) == [] <==> IsBlank(text)
  {
    var once := ReplaceRuns(text, IsRegexSpace);
    NewlinePassIsNoop(text);
    forall c | IsRegexSpace(c) ensures IsWhitespace(c) {
      RegexSpaceIsWhitespace(c);
    }
    ReplaceRunsBlank(text, IsRegexSpace);
    TrimBlank(once);
  }

  /** Cleaning a cleaned text changes nothing. */
  lemma CleanTextIdempotent(text: string)
    ensures CleanText(CleanText(text)) == CleanText(text)
  {
    var r := CleanText(text);
    CleanTextShape(text);
    NewlinePassIsNoop(r);
    ReplaceSpaceRunsOfCollapsed(r);
    TrimOfTrimmed(r);
  }

  /** `splitAndClean`: the sentences of the cleaned text. */
  method SplitAndClean(text: string) returns (sentences: seq<string>)
    ensures sentences == Sentences(CleanText(text))
    ensures sentences == [] <==> IsBlank(text)
    ensures AllTerminal(sentences)
  {
    var cleaned := CleanText(text);
    sentences := SplitIntoSentences(cleaned);
    SentencesWellFormed(cleaned);
    CleanTextShape(text);
    CleanTextBlank(text);
    if cleaned != [] {
      assert !IsWhitespace(cleaned[0]);
    }
  }
}
