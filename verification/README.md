# English Study: a verified model of its reading and transcript core

English Study is an Android app for learning English by reading and listening.
This project models its core in Dafny and proves properties of that model:

- **Text handling** (`TextSplitter`). The app cleans a pasted text and cuts it into sentences. Every sentence ends in `.`, `!` or `?`.
- **The text editor screen** (`TextReaderActivity`). It saves a text with a word count and a reading-time estimate. It generates one sentence row per sentence, each with the audio the speech engine produced.
- **The reading screen** (`ReadingActivity`). Its previous and next buttons move through the sentences, optionally wrapping around. Sentence taps and the play/pause button decide what the audio player is asked to do.
- **The transcript pipeline** (`TranscriptService`). It extracts the InnerTube API key from a watch page, picks the English caption track from the player response, and parses the srv3 timed-text XML into a transcript sorted by start time.
- **The YouTube learning screen** (`YouTubeLearningActivity`). It handles:
  - the loop ("repeat") window, whose start is never below 0 and whose end is never past the video;
  - the transcript highlight, which follows the player's clock;
  - video-id extraction, `m:ss` time labels and font-size cycling.

Two modules model library behaviour the app depends on:

- `KotlinText`:
  - `trim` and `isBlank`, and the two notions of whitespace they use;
  - `String.replace`, and replacing regex runs;
  - `toLongOrNull`, `%d` and `%02d`;
  - `indexOf` and `firstNotNullOf`;
  - `/` and `%` truncating toward zero, and `Float.toInt`.
- `Regex`: a left-to-right matcher for the handful of `java.util.regex` patterns the app compiles, with `find`, `findAll` and `split`.

`Entities` holds the two stored records, `TextEntry` and `Sentence`.

The screens are classes whose fields are the activities' fields. Their methods are the handlers; each states its new state and the request it makes of the player or the database.

The database, the speech engine, the player and the clock are outside the model. Their answers are parameters: the id an insert assigns, the audio paths, the current time, whether the player is busy. Writes and player commands come back as values.


## Model

| member | source | states |
|---|---|---|
| KotlinText.RegexSpaceIsWhitespace | app/src/main/java/com/englishstudy/app/utils/TextSplitter.kt:54-56 | every `\s` character is also a `Char.isWhitespace` character, so `trim` removes what `\s+` leaves at the ends |
| KotlinText.Trim | app/src/main/java/com/englishstudy/app/utils/TextSplitter.kt:25 | a non-empty trimmed string starts and ends with a non-whitespace character |
| KotlinText.TrimSubstring | app/src/main/java/com/englishstudy/app/utils/TextSplitter.kt:25 | `trim` returns the contiguous piece of its argument that starts after the leading whitespace |
| KotlinText.TrimBlank | app/src/main/java/com/englishstudy/app/utils/TextSplitter.kt:11 | `trim` leaves nothing exactly when the string is blank |
| KotlinText.TrimKeepsFirst | app/src/main/java/com/englishstudy/app/utils/TextSplitter.kt:22 | a string that starts with a non-whitespace character keeps that character first after `trim` |
| KotlinText.TrimOfTrimmed | app/src/main/java/com/englishstudy/app/utils/TextSplitter.kt:56 | `trim` is the identity on a string with no whitespace at either end |
| KotlinText.ReplaceRuns | app/src/main/java/com/englishstudy/app/utils/TextSplitter.kt:54-55 | replacing runs is never longer and is empty exactly when the input is; a leading run becomes a space and any other first character stays |
| KotlinText.ReplaceSpaceRunsCollapses | app/src/main/java/com/englishstudy/app/utils/TextSplitter.kt:54 | after `\s+` → " " the only `\s` character left is the space, and no two are adjacent |
| KotlinText.TrimKeepsCollapsed | app/src/main/java/com/englishstudy/app/utils/TextSplitter.kt:56 | trimming a collapsed string leaves it collapsed |
| KotlinText.ReplaceRunsKeepsText | app/src/main/java/com/englishstudy/app/utils/TextSplitter.kt:54-55 | replacing runs of `\s` characters keeps every other character, in order |
| KotlinText.ReplaceRunsAbsent | app/src/main/java/com/englishstudy/app/utils/TextSplitter.kt:55 | a string with no character of the class is unchanged |
| KotlinText.ReplaceRunsBlank | app/src/main/java/com/englishstudy/app/utils/TextSplitter.kt:54-55 | replacing whitespace runs by a space keeps a string blank or non-blank |
| KotlinText.ReplaceSpaceRunsOfCollapsed | app/src/main/java/com/englishstudy/app/utils/TextSplitter.kt:54 | `\s+` → " " leaves an already collapsed string unchanged |
| KotlinText.Replace | app/src/main/java/com/englishstudy/app/service/TranscriptService.kt:296-301 | `String.replace` of a literal: scanning left to right, each non-overlapping occurrence of the target is replaced, and the scan resumes after the replacement; its properties are the lemmas below |
| KotlinText.ReplaceAbsent | app/src/main/java/com/englishstudy/app/service/TranscriptService.kt:296-301 | `String.replace` leaves a string unchanged when the first character of the target does not occur |
| KotlinText.ReplaceAfterPlain | app/src/main/java/com/englishstudy/app/service/TranscriptService.kt:296-301 | when no character before the first occurrence of the target is the target's first character, that occurrence is the first one replaced and the text before it is kept |
| KotlinText.ReplaceAtStart | app/src/main/java/com/englishstudy/app/service/TranscriptService.kt:296-301 | an occurrence at the start of the text is replaced and the scan resumes right after it |
| KotlinText.ReplaceSkipsChar | app/src/main/java/com/englishstudy/app/service/TranscriptService.kt:296-301 | a first character that does not start the target is kept and the scan resumes at the next one |
| KotlinText.ReplaceNoOccurrence | app/src/main/java/com/englishstudy/app/service/TranscriptService.kt:296-301 | a string in which the target occurs at no index is unchanged |
| KotlinText.Decimal | app/src/main/java/com/englishstudy/app/YouTubeLearningActivity.kt:324 | `%d`: a minus sign for negative numbers followed by the decimal digits; read back by `NatDigitsValue` and `ParseLongDecimal` |
| KotlinText.Pad2 | app/src/main/java/com/englishstudy/app/YouTubeLearningActivity.kt:324 | `%02d`: a number below ten gets a leading zero; read back by `Pad2Digits` |
| KotlinText.NatDigitsValue | app/src/main/java/com/englishstudy/app/YouTubeLearningActivity.kt:324 | the decimal digits of a natural number read back as that number |
| KotlinText.Pad2Digits | app/src/main/java/com/englishstudy/app/YouTubeLearningActivity.kt:324 | `%02d` of 0..99 is two digits that read back as the number |
| KotlinText.ParseLong | app/src/main/java/com/englishstudy/app/service/TranscriptService.kt:274-275 | `toLongOrNull` yields only values within the range of Long |
| KotlinText.ParseLongDecimal | app/src/main/java/com/englishstudy/app/service/TranscriptService.kt:274-275 | every Long rendered with `%d` parses back to itself |
| KotlinText.IndexOf | app/src/main/java/com/englishstudy/app/YouTubeLearningActivity.kt:228 | `indexOf` is the first index holding the value; it is -1 exactly when the value is absent |
| KotlinText.FirstNotNull | app/src/main/java/com/englishstudy/app/YouTubeLearningActivity.kt:433-441 | the first present candidate from a position on, or none; characterised by `FirstNotNullIsFirst` |
| KotlinText.FirstNotNullIsFirst | app/src/main/java/com/englishstudy/app/YouTubeLearningActivity.kt:433-441 | the selected candidate is present and no present candidate precedes it; nothing is selected exactly when every candidate is absent |
| KotlinText.TruncMod | app/src/main/java/com/englishstudy/app/TextReaderActivity.kt:289-291 | `a == (a / b) * b + a % b`, with the remainder taking the sign of the dividend |
| KotlinText.TruncToInt | app/src/main/java/com/englishstudy/app/YouTubeLearningActivity.kt:321 | `Float.toInt` truncates toward zero |
| KotlinText.FloatToInt | app/src/main/java/com/englishstudy/app/YouTubeLearningActivity.kt:321 | `Float.toInt` stays within Int and truncates every value in range |
| Regex.FirstAlternative | app/src/main/java/com/englishstudy/app/YouTubeLearningActivity.kt:428 | an alternation group takes the first alternative that occurs, and fails only when none does |
| Regex.Step | app/src/main/java/com/englishstudy/app/service/TranscriptService.kt:267 | a matched element ends within the text, no earlier than its minimum length, with one string per group |
| Regex.MatchRest | app/src/main/java/com/englishstudy/app/service/TranscriptService.kt:267 | a match of an element list ends within the text, no earlier than its minimum length, with one string per group |
| Regex.MatchAt | app/src/main/java/com/englishstudy/app/service/TranscriptService.kt:267 | a match at `i` starts at `i`, ends within the text and has one group per capturing group |
| Regex.Find | app/src/main/java/com/englishstudy/app/service/TranscriptService.kt:272 | `find()` reports a match at or after the search position, ending within the text, with every group |
| Regex.FindMatchesAt | app/src/main/java/com/englishstudy/app/service/TranscriptService.kt:272 | what `find()` reports is the pattern's match at the index where it starts |
| Regex.FindNone | app/src/main/java/com/englishstudy/app/service/TranscriptService.kt:272 | `find()` fails when the pattern matches at no index from the search position on |
| Regex.FindLeftmost | app/src/main/java/com/englishstudy/app/service/TranscriptService.kt:272 | `find()` reports the leftmost match: none starts between the search position and it |
| Regex.NextSearch | app/src/main/java/com/englishstudy/app/utils/TextSplitter.kt:22 | after a match the search resumes at its end, or one index further after an empty match, always past its start |
| Regex.FindAll | app/src/main/java/com/englishstudy/app/utils/TextSplitter.kt:22 | every match `findAll` reports lies within the text, at or after the search position |
| Regex.FindAllMatchesAt | app/src/main/java/com/englishstudy/app/utils/TextSplitter.kt:22 | every match `findAll` reports is the pattern's match at the index where it starts |
| Regex.Split | app/src/main/java/com/englishstudy/app/utils/TextSplitter.kt:19 | `split`: the pieces between consecutive `findAll` matches, from the start to the end of the text; counted by `SplitFromLength` |
| Regex.SplitFromLength | app/src/main/java/com/englishstudy/app/utils/TextSplitter.kt:19 | `split` gives one piece more than `findAll` gives matches |
| Regex.DropLeadingChar | app/src/main/java/com/englishstudy/app/service/TranscriptService.kt:94-97 | a pattern whose leading literal loses its first character matches one index later wherever the longer one matches, ending at the same place |
| Regex.RunGroupsInClass | app/src/main/java/com/englishstudy/app/service/TranscriptService.kt:94 | every group captured by a run of a class is drawn from that class, and is non-empty for a `+` run |
| TextSplitter.SentenceEndAt | app/src/main/java/com/englishstudy/app/utils/TextSplitter.kt:18 | a match of `[.!?]+\s*` is non-empty and starts with `.`, `!` or `?` |
| TextSplitter.Marks | app/src/main/java/com/englishstudy/app/utils/TextSplitter.kt:22 | there is one trimmed mark per punctuation match |
| TextSplitter.SplitIntoSentences | app/src/main/java/com/englishstudy/app/utils/TextSplitter.kt:10-45 | the loop collects, in order, each non-empty trimmed piece with its punctuation; the whole text is the fallback when no piece has text |
| TextSplitter.MarkOfRun | app/src/main/java/com/englishstudy/app/utils/TextSplitter.kt:22 | a trimmed punctuation match is non-empty and starts with the terminal character its match starts with |
| TextSplitter.MarksArePunctuation | app/src/main/java/com/englishstudy/app/utils/TextSplitter.kt:22-30 | every mark is non-empty and begins with `.`, `!` or `?`, so `punct.first()` is always a terminal character |
| TextSplitter.ContributionWellFormed | app/src/main/java/com/englishstudy/app/utils/TextSplitter.kt:26-35 | the sentence a piece adds ends in a terminal character |
| TextSplitter.CollectedWellFormed | app/src/main/java/com/englishstudy/app/utils/TextSplitter.kt:24-37 | every sentence the loop collects ends in `.`, `!` or `?` |
| TextSplitter.Sentences | app/src/main/java/com/englishstudy/app/utils/TextSplitter.kt:10-45 | `splitIntoSentences`: nothing for blank text; otherwise the collected pieces, or, when none has text, the whole untrimmed text with `.` added unless it already ends in `.`, `!` or `?` (`Fallback`); stated by `SentencesWellFormed` |
| TextSplitter.SentencesWellFormed | app/src/main/java/com/englishstudy/app/utils/TextSplitter.kt:10-45 | there are no sentences exactly when the text is blank, and every sentence ends in `.`, `!` or `?` |
| TextSplitter.SentenceOfPiece | app/src/main/java/com/englishstudy/app/utils/TextSplitter.kt:19-34 | there is one more piece than there are matches. A piece followed by a match takes that match's first character. The last piece gets `.` unless it already ends in a terminal character |
| TextSplitter.NoSentenceEnd | app/src/main/java/com/englishstudy/app/utils/TextSplitter.kt:18-22 | the sentence-end pattern matches nowhere in a text without `.`, `!` or `?` |
| TextSplitter.NoPunctuationOneSentence | app/src/main/java/com/englishstudy/app/utils/TextSplitter.kt:24-42 | a non-blank text without `.`, `!` or `?` becomes the one sentence "trimmed text + `.`" |
| TextSplitter.NewlinePassIsNoop | app/src/main/java/com/englishstudy/app/utils/TextSplitter.kt:54-55 | the `\n+` replacement changes nothing after `\s+` → " " |
| TextSplitter.CleanText | app/src/main/java/com/englishstudy/app/utils/TextSplitter.kt:52-57 | `cleanText`: `\s+` → " ", then `\n+` → " ", then `trim`; its shape, blankness and idempotence are the lemmas below |
| TextSplitter.CleanTextShape | app/src/main/java/com/englishstudy/app/utils/TextSplitter.kt:52-57 | cleaned text has no whitespace at either end; its only `\s` characters are single, non-adjacent spaces |
| TextSplitter.CleanTextBlank | app/src/main/java/com/englishstudy/app/utils/TextSplitter.kt:52-57 | cleaned text is empty exactly when the input is blank |
| TextSplitter.CleanTextIdempotent | app/src/main/java/com/englishstudy/app/utils/TextSplitter.kt:52-57 | cleaning twice is cleaning once |
| TextSplitter.SplitAndClean | app/src/main/java/com/englishstudy/app/utils/TextSplitter.kt:64-67 | the sentences of the cleaned text: none exactly for blank input, each ending in `.`, `!` or `?` |
| TranscriptService.KeyPatternShape | app/src/main/java/com/englishstudy/app/service/TranscriptService.kt:94-97 | each key pattern has one group, a non-empty run of non-quote characters |
| TranscriptService.FirstKeyMatch | app/src/main/java/com/englishstudy/app/service/TranscriptService.kt:101-104 | the key found by a pattern's first match is non-empty and has no `"` |
| TranscriptService.UsableKey | app/src/main/java/com/englishstudy/app/service/TranscriptService.kt:103-105 | a pattern's outcome is used exactly when its first match carries a non-blank key |
| TranscriptService.ExtractInnerTubeApiKey | app/src/main/java/com/englishstudy/app/service/TranscriptService.kt:90-119 | the loop returns the key of the first pattern, in list order, whose first match is non-blank; such a key is non-blank and has no `"` |
| TranscriptService.UnquotedPatternMatchesToo | app/src/main/java/com/englishstudy/app/service/TranscriptService.kt:94-97 | wherever a quoted key pattern finds a key, its unquoted twin finds one too |
| TranscriptService.LaterPatternsDropTheQuote | app/src/main/java/com/englishstudy/app/service/TranscriptService.kt:93-98 | the third and fourth patterns are the first and second without their opening quote |
| TranscriptService.OptString | app/src/main/java/com/englishstudy/app/service/TranscriptService.kt:213-214 | `optString(name, fallback)`: the member's text when present, the fallback otherwise |
| TranscriptService.JsonText | app/src/main/java/com/englishstudy/app/service/TranscriptService.kt:213-214 | `optString` of a non-string, non-number value is never empty |
| TranscriptService.CaptionTracks | app/src/main/java/com/englishstudy/app/service/TranscriptService.kt:174-206 | `captions`, then `playerCaptionsTracklistRenderer`, then `captionTracks`: none as soon as a step is missing or of the wrong type |
| TranscriptService.SelectEnglishTrack | app/src/main/java/com/englishstudy/app/service/TranscriptService.kt:174-225 | missing captions objects yield nothing. A returned URL is non-empty and belongs to the first English track with a URL, after only object tracks that are not. Nothing is returned only when no track qualifies |
| TranscriptService.ParagraphPatternShape | app/src/main/java/com/englishstudy/app/service/TranscriptService.kt:266-269 | the paragraph pattern has three groups and never matches the empty string |
| TranscriptService.SpanPatternShape | app/src/main/java/com/englishstudy/app/service/TranscriptService.kt:284 | the span pattern has one group, a run of non-`<` characters, and never matches the empty string |
| TranscriptService.SpanTextNoMarkup | app/src/main/java/com/englishstudy/app/service/TranscriptService.kt:283-292 | text assembled from span bodies never contains `<` |
| TranscriptService.NoSpanNoText | app/src/main/java/com/englishstudy/app/service/TranscriptService.kt:283-292 | a paragraph body in which no span opens yields no text |
| TranscriptService.SpanContributes | app/src/main/java/com/englishstudy/app/service/TranscriptService.kt:287-290 | a span match contributes its body ahead of the later spans |
| TranscriptService.SpanBodiesStep | app/src/main/java/com/englishstudy/app/service/TranscriptService.kt:287-290 | one turn of the span loop appends the match's body to what has been assembled |
| TranscriptService.SpanText | app/src/main/java/com/englishstudy/app/service/TranscriptService.kt:283-292 | the `StringBuilder` loop concatenates all span bodies in order; the result has no `<` |
| TranscriptService.ParagraphSegment | app/src/main/java/com/englishstudy/app/service/TranscriptService.kt:274-308 | a paragraph yields a segment only when both times parse and its cleaned text is not blank; that text is clean |
| TranscriptService.SegmentOf | app/src/main/java/com/englishstudy/app/service/TranscriptService.kt:274-306 | a paragraph's segment: both millisecond times must parse as Long and the cleaned text must not be blank; stated by `ParagraphSegment` and `SegmentOfDecimalTimes` |
| TranscriptService.ParsedSegments | app/src/main/java/com/englishstudy/app/service/TranscriptService.kt:272-314 | the segments of every paragraph match, in document order; stated by `ParagraphContributes` and `ParsedSegmentsClean` |
| TranscriptService.ParagraphContributes | app/src/main/java/com/englishstudy/app/service/TranscriptService.kt:272-314 | a paragraph match contributes its segment, if any, ahead of the later paragraphs |
| TranscriptService.ParsedSegmentsStep | app/src/main/java/com/englishstudy/app/service/TranscriptService.kt:272-314 | one turn of the paragraph loop appends the match's segment to those collected |
| TranscriptService.CollectSegments | app/src/main/java/com/englishstudy/app/service/TranscriptService.kt:272-314 | the paragraph loop collects the segments of all paragraphs in document order |
| TranscriptService.ParseTranscriptXml | app/src/main/java/com/englishstudy/app/service/TranscriptService.kt:259-328 | no segments means no transcript. Otherwise the transcript is English (`en`), sorted by start time, a permutation of the parsed segments, and every segment has clean text |
| TranscriptService.CleanCaptionText | app/src/main/java/com/englishstudy/app/service/TranscriptService.kt:295-303 | unescape the six entities, collapse `\s+` to one space and trim; its shape is `CleanCaptionTextShape` |
| TranscriptService.CleanCaptionTextShape | app/src/main/java/com/englishstudy/app/service/TranscriptService.kt:295-303 | cleaned caption text is either empty or clean: non-blank, trimmed, spaces collapsed |
| TranscriptService.SegmentOfClean | app/src/main/java/com/englishstudy/app/service/TranscriptService.kt:295-306 | a paragraph contributes a segment only with clean text |
| TranscriptService.ParsedSegmentsClean | app/src/main/java/com/englishstudy/app/service/TranscriptService.kt:272-314 | every collected segment has clean text |
| TranscriptService.CleanTextsAppend | app/src/main/java/com/englishstudy/app/service/TranscriptService.kt:272-314 | segments collected from two clean lists are clean |
| TranscriptService.SortedTranscriptClean | app/src/main/java/com/englishstudy/app/service/TranscriptService.kt:318 | sorting keeps the segments and their clean text, in start order |
| TranscriptService.SegmentOfDecimalTimes | app/src/main/java/com/englishstudy/app/service/TranscriptService.kt:274-306 | millisecond attributes that are Long decimals become those values divided by 1000; the segment exists exactly when its cleaned text is not blank |
| TranscriptService.SegmentOfBadTime | app/src/main/java/com/englishstudy/app/service/TranscriptService.kt:274-275 | a time attribute that is not a decimal Long drops the paragraph |
| TranscriptService.Unescape | app/src/main/java/com/englishstudy/app/service/TranscriptService.kt:296-301 | the six entity replacements in the order of the code; what each entity becomes is `UnescapeEntity` |
| TranscriptService.ReplaceEachSplit | app/src/main/java/com/englishstudy/app/service/TranscriptService.kt:296-301 | the chain of replacements is the first `k` of them followed by the rest |
| TranscriptService.ReplaceEachNoOccurrence | app/src/main/java/com/englishstudy/app/service/TranscriptService.kt:296-301 | text in which no target occurs passes the whole chain unchanged |
| TranscriptService.EntityOccursOnlyWhole | app/src/main/java/com/englishstudy/app/service/TranscriptService.kt:296-301 | one entity occurs inside another only at index 0 and only when the two are the same entity |
| TranscriptService.ReplaceEachEntity | app/src/main/java/com/englishstudy/app/service/TranscriptService.kt:296-301 | in a chain of distinct entities each replaced by one character, each entity on its own comes out as its character |
| TranscriptService.UnescapeEntity | app/src/main/java/com/englishstudy/app/service/TranscriptService.kt:296-301 | `&amp;`, `&lt;`, `&gt;`, `&quot;`, `&#39;` and `&apos;` on their own unescape to `&`, `<`, `>`, `"`, `'` and `'` |
| TranscriptService.ReplaceEachAbsent | app/src/main/java/com/englishstudy/app/service/TranscriptService.kt:296-301 | text holding no first character of any entity is unchanged by the replacements |
| TranscriptService.UnescapeAmpersandFirst | app/src/main/java/com/englishstudy/app/service/TranscriptService.kt:296-297 | `&amp;` is replaced first, so `&amp;lt;` comes out as `<` |
| TranscriptService.UnescapePlainText | app/src/main/java/com/englishstudy/app/service/TranscriptService.kt:296-301 | text without `&` is unchanged by unescaping |
| TranscriptService.SortByStart | app/src/main/java/com/englishstudy/app/service/TranscriptService.kt:318 | `sortedBy { it.startTime }` as a stable insertion sort; ordered and a permutation by `SortByStartSortedPermutation`, stable by `SortByStartStable` |
| TranscriptService.InsertByStartPermutation | app/src/main/java/com/englishstudy/app/service/TranscriptService.kt:318 | an insertion step adds exactly the inserted segment |
| TranscriptService.InsertByStartFrom | app/src/main/java/com/englishstudy/app/service/TranscriptService.kt:318 | inserting a segment that starts no earlier than a bound keeps every start at or after it |
| TranscriptService.InsertByStartSorted | app/src/main/java/com/englishstudy/app/service/TranscriptService.kt:318 | inserting into a sorted sequence keeps it sorted |
| TranscriptService.SortByStartSortedPermutation | app/src/main/java/com/englishstudy/app/service/TranscriptService.kt:318 | `sortedBy { it.startTime }` is ordered by start time and a permutation of its input |
| TranscriptService.StartingAtInsert | app/src/main/java/com/englishstudy/app/service/TranscriptService.kt:318 | an inserted segment goes before the existing segments with its start time |
| TranscriptService.SortByStartStable | app/src/main/java/com/englishstudy/app/service/TranscriptService.kt:318 | the sort is stable: segments with equal start times keep their document order |
| YouTubeLearning.IdPatternShape | app/src/main/java/com/englishstudy/app/YouTubeLearningActivity.kt:427-432 | a pattern of three group-free elements followed by `([\w-]+)` has the id as its one group |
| YouTubeLearning.VideoIdPatternShape | app/src/main/java/com/englishstudy/app/YouTubeLearningActivity.kt:427-432 | each id pattern has one group, a non-empty run of word characters and `-` |
| YouTubeLearning.FirstIdMatch | app/src/main/java/com/englishstudy/app/YouTubeLearningActivity.kt:435-439 | the group of a pattern's first match is a non-empty run of `[\w-]` |
| YouTubeLearning.ExtractVideoId | app/src/main/java/com/englishstudy/app/YouTubeLearningActivity.kt:426-442 | the loop returns the group of the first pattern, in list order, that occurs in the URL; the id is a non-empty `[\w-]` run |
| YouTubeLearning.MobileMatchHasWatchPath | app/src/main/java/com/englishstudy/app/YouTubeLearningActivity.kt:429 | a match of the mobile pattern contains `youtube.com/watch?v=` followed by an id |
| YouTubeLearning.NoPrefixAtY | app/src/main/java/com/englishstudy/app/YouTubeLearningActivity.kt:428 | the optional scheme and `www.` of the first pattern match empty where a `y` stands |
| YouTubeLearning.WatchHostMatches | app/src/main/java/com/englishstudy/app/YouTubeLearningActivity.kt:428 | where `youtube.com/watch?v=` and an id begin, the first pattern's host group and id match |
| YouTubeLearning.WatchPathMatchesFirst | app/src/main/java/com/englishstudy/app/YouTubeLearningActivity.kt:428 | the first pattern matches wherever `youtube.com/watch?v=` and an id begin |
| YouTubeLearning.MobilePatternNeverDecides | app/src/main/java/com/englishstudy/app/YouTubeLearningActivity.kt:427-441 | whenever the mobile pattern matches, the first pattern matches too, so the second pattern never supplies the id |
| YouTubeLearning.FormatTime | app/src/main/java/com/englishstudy/app/YouTubeLearningActivity.kt:320-325 | `formatTime`: truncated whole seconds, minutes as `%d`, seconds as `%02d`; read back by `FormatTimeReadsBack` |
| YouTubeLearning.FormatTimeReadsBack | app/src/main/java/com/englishstudy/app/YouTubeLearningActivity.kt:320-325 | for a non-negative time the label is decimal minutes, `:` and two digits below 60, and reads back as the truncated seconds |
| YouTubeLearning.FormatTimeTruncates | app/src/main/java/com/englishstudy/app/YouTubeLearningActivity.kt:321 | a time within Int truncates to its whole seconds |
| YouTubeLearning.NextFontSize | app/src/main/java/com/englishstudy/app/YouTubeLearningActivity.kt:227-230 | the next font size is always one of the listed sizes |
| YouTubeLearning.FontSizeIndex | app/src/main/java/com/englishstudy/app/YouTubeLearningActivity.kt:43 | the size list has no repeats: each size is found at its own index |
| YouTubeLearning.NextFontSizeSteps | app/src/main/java/com/englishstudy/app/YouTubeLearningActivity.kt:227-230 | a listed size moves to the next one, and the last back to the first |
| YouTubeLearning.NextFontSizeUnknown | app/src/main/java/com/englishstudy/app/YouTubeLearningActivity.kt:228-230 | an unlisted size (index -1) restarts at the first size |
| YouTubeLearning.FontSizeCycle | app/src/main/java/com/englishstudy/app/YouTubeLearningActivity.kt:227-230 | five presses bring every listed size back to itself |
| YouTubeLearning.ClampWindow | app/src/main/java/com/englishstudy/app/YouTubeLearningActivity.kt:237-249 | the window starts at or after 0 and ends at or before the video's end (its start is not capped, so it can lie past the end); its start is the requested start floored at 0, it is non-empty when the start is inside the video, and a window already inside is kept |
| YouTubeLearning.ClampWindowOneSecond | app/src/main/java/com/englishstudy/app/YouTubeLearningActivity.kt:243-245 | a collapsed window becomes one second long when the video has room |
| YouTubeLearning.ClampWindowIdempotent | app/src/main/java/com/englishstudy/app/YouTubeLearningActivity.kt:237-249 | clamping a clamped window changes nothing |
| YouTubeLearning.ToggleWindow | app/src/main/java/com/englishstudy/app/YouTubeLearningActivity.kt:215-216 | the switched-on window never starts before 0 or ends after the video |
| YouTubeLearning.ToggleWindowAroundClock | app/src/main/java/com/englishstudy/app/YouTubeLearningActivity.kt:215-216 | a clock inside the video lies inside the window, which is at most ten seconds long |
| YouTubeLearning.ToggleWindowUncorrected | app/src/main/java/com/englishstudy/app/YouTubeLearningActivity.kt:215-216 | a clock past the end gives an inverted window, because `toggleLoopMode` does not clamp |
| YouTubeLearning.ShiftWindow | app/src/main/java/com/englishstudy/app/YouTubeLearningActivity.kt:263-281 | rewind and forward move the window by `delta`, keeping its length, then clamp it as `updateLoopRange` does |
| YouTubeLearning.ShiftWindowMoves | app/src/main/java/com/englishstudy/app/YouTubeLearningActivity.kt:263-281 | a shift that stays inside the video moves both ends by the same amount |
| YouTubeLearning.ShiftForwardThenBack | app/src/main/java/com/englishstudy/app/YouTubeLearningActivity.kt:263-281 | forward then rewind restores a window when neither shift is clamped |
| YouTubeLearning.ForwardPastTheEnd | app/src/main/java/com/englishstudy/app/YouTubeLearningActivity.kt:273-281 | forward from (115, 119) in a 120-second video gives the inverted window (125, 120) |
| YouTubeLearning.RecenterWindow | app/src/main/java/com/englishstudy/app/YouTubeLearningActivity.kt:251-261 | a seek outside the window puts a window of the same length around the seek time, then clamps it |
| YouTubeLearning.RecenterWindowCentres | app/src/main/java/com/englishstudy/app/YouTubeLearningActivity.kt:251-261 | an unclamped recentred window keeps its length and has the seek time at its middle |
| YouTubeLearning.ActiveIndexUnique | app/src/main/java/com/englishstudy/app/YouTubeLearningActivity.kt:331-337 | the highlighted index is unique: at most one index is the first segment covering the clock |
| YouTubeLearning.FindActiveSegment | app/src/main/java/com/englishstudy/app/YouTubeLearningActivity.kt:331-337 | the scan returns the first segment with `start <= time < start + duration`, or -1 when none covers the time |
| YouTubeLearning.YouTubeLearningActivity.constructor | app/src/main/java/com/englishstudy/app/YouTubeLearningActivity.kt:30-43 | the screen starts without player, video or transcript, with the clock and window at 0, no highlight and font size 16 |
| YouTubeLearning.YouTubeLearningActivity.OnReady | app/src/main/java/com/englishstudy/app/YouTubeLearningActivity.kt:60-62 | after `onReady` the player is available |
| YouTubeLearning.YouTubeLearningActivity.UpdateTranscriptHighlight | app/src/main/java/com/englishstudy/app/YouTubeLearningActivity.kt:327-342 | with a transcript, the highlight becomes the first segment covering the clock (or -1), even when the old index lay beyond a newly loaded transcript; the text is redrawn exactly when the highlight changes; without one nothing changes |
| YouTubeLearning.YouTubeLearningActivity.OnCurrentSecond | app/src/main/java/com/englishstudy/app/YouTubeLearningActivity.kt:64-73 | records the clock and moves the highlight; it seeks back to the loop start exactly when loop mode is on and the clock reached the loop end |
| YouTubeLearning.YouTubeLearningActivity.OnVideoDuration | app/src/main/java/com/englishstudy/app/YouTubeLearningActivity.kt:75-79 | records the duration |
| YouTubeLearning.YouTubeLearningActivity.OnStateChange | app/src/main/java/com/englishstudy/app/YouTubeLearningActivity.kt:81-95 | playing and paused states set the playing flag; other states leave it |
| YouTubeLearning.YouTubeLearningActivity.ShowVideo | app/src/main/java/com/englishstudy/app/YouTubeLearningActivity.kt:108 | the extracted id becomes the current video |
| YouTubeLearning.YouTubeLearningActivity.PlayClicked | app/src/main/java/com/englishstudy/app/YouTubeLearningActivity.kt:103-118 | an empty trimmed URL or one without an id is refused and nothing changes; otherwise the first pattern's id becomes current and its transcript is requested, and the outcome says whether a player was there to load it |
| YouTubeLearning.YouTubeLearningActivity.OnTranscriptLoaded | app/src/main/java/com/englishstudy/app/YouTubeLearningActivity.kt:283-318 | a loaded transcript becomes current and the highlight is recomputed at the clock from the old index; the highlight is drawn exactly when the index changes, so a reload that lands on the same index draws none; no transcript leaves everything as it was |
| YouTubeLearning.YouTubeLearningActivity.PlayPauseClicked | app/src/main/java/com/englishstudy/app/YouTubeLearningActivity.kt:136-144 | asks the player to pause while playing and to play otherwise; nothing without a player |
| YouTubeLearning.YouTubeLearningActivity.ToggleLoopMode | app/src/main/java/com/englishstudy/app/YouTubeLearningActivity.kt:211-225 | flips loop mode; switching on sets the window around the clock, switching off keeps it |
| YouTubeLearning.YouTubeLearningActivity.CycleFontSize | app/src/main/java/com/englishstudy/app/YouTubeLearningActivity.kt:227-235 | the font size becomes the next listed size |
| YouTubeLearning.YouTubeLearningActivity.UpdateLoopRange | app/src/main/java/com/englishstudy/app/YouTubeLearningActivity.kt:237-249 | the window becomes the requested one clamped to the video |
| YouTubeLearning.YouTubeLearningActivity.AdjustLoopWithSeek | app/src/main/java/com/englishstudy/app/YouTubeLearningActivity.kt:251-261 | in loop mode a seek outside the window recentres it on the seek; otherwise the window is kept |
| YouTubeLearning.YouTubeLearningActivity.AdjustLoopWithRewind | app/src/main/java/com/englishstudy/app/YouTubeLearningActivity.kt:263-271 | in loop mode the window moves ten seconds back, clamped; otherwise it is kept |
| YouTubeLearning.YouTubeLearningActivity.AdjustLoopWithForward | app/src/main/java/com/englishstudy/app/YouTubeLearningActivity.kt:273-281 | in loop mode the window moves ten seconds on, clamped; otherwise it is kept |
| YouTubeLearning.YouTubeLearningActivity.RewindClicked | app/src/main/java/com/englishstudy/app/YouTubeLearningActivity.kt:147-158 | in loop mode it shifts the window; otherwise it seeks ten seconds back, not before 0 |
| YouTubeLearning.YouTubeLearningActivity.ForwardClicked | app/src/main/java/com/englishstudy/app/YouTubeLearningActivity.kt:161-172 | in loop mode it shifts the window; otherwise it seeks ten seconds on, not past the end |
| YouTubeLearning.YouTubeLearningActivity.SeekBarTouched | app/src/main/java/com/englishstudy/app/YouTubeLearningActivity.kt:187-189 | the seek bar is marked as tracking |
| YouTubeLearning.YouTubeLearningActivity.SeekBarReleased | app/src/main/java/com/englishstudy/app/YouTubeLearningActivity.kt:191-200 | stops tracking, seeks to the bar position and adjusts the loop window to it as a seek does |
| YouTubeLearning.YouTubeLearningActivity.ClearTranscript | app/src/main/java/com/englishstudy/app/YouTubeLearningActivity.kt:399-409 | back to a fresh screen's state, keeping the font size and the player |
| Reading.PreviousIndex | app/src/main/java/com/englishstudy/app/ReadingActivity.kt:163-165 | one back from a positive index; the first sentence stays |
| Reading.NextIndex | app/src/main/java/com/englishstudy/app/ReadingActivity.kt:174-188 | stays among the sentences, one on before the last; from the last back to the first only when wrapping |
| Reading.PreviousUndoesNext | app/src/main/java/com/englishstudy/app/ReadingActivity.kt:163-188 | away from the ends, previous undoes next and next undoes previous |
| Reading.AdvanceStraight | app/src/main/java/com/englishstudy/app/ReadingActivity.kt:174-177 | away from the last sentence, `n` presses move `n` places on |
| Reading.AdvanceSplit | app/src/main/java/com/englishstudy/app/ReadingActivity.kt:174-188 | `a + b` presses are `a` presses and then `b` more |
| Reading.WrapAroundCycle | app/src/main/java/com/englishstudy/app/ReadingActivity.kt:182-186 | while wrapping, as many presses as there are sentences come back to the start |
| Reading.AdvanceStops | app/src/main/java/com/englishstudy/app/ReadingActivity.kt:174-177 | without wrapping, the presses stop at the last sentence |
| Reading.CounterReadsBack | app/src/main/java/com/englishstudy/app/ReadingActivity.kt:129 | the counter "a / b" reads back as the two numbers |
| Reading.ProgressOf | app/src/main/java/com/englishstudy/app/ReadingActivity.kt:127-140 | `updateProgress`: the counter, the button opacities and the highlight for the current index, or nothing without a sentence there; stated by `ProgressShown` |
| Reading.ProgressShown | app/src/main/java/com/englishstudy/app/ReadingActivity.kt:127-140 | the display updates exactly when a sentence is at the index. The counter reads "position / count". Each button is opaque exactly when a sentence lies in its direction. The highlight is the index while playing, -1 otherwise |
| Reading.AudioFor | app/src/main/java/com/englishstudy/app/ReadingActivity.kt:191-195 | `playCurrentSentence`: the audio of the sentence at the index when there is one with a path, nothing otherwise; stated by `PlayCurrentSentence` |
| Reading.ReadingActivity.constructor | app/src/main/java/com/englishstudy/app/ReadingActivity.kt:20-24 | the screen starts without entry or sentences, at index 0, in sequential mode, not playing |
| Reading.ReadingActivity.EntryLoaded | app/src/main/java/com/englishstudy/app/ReadingActivity.kt:84-109 | stores what the database returned; the screen closes exactly when the entry is missing or has no sentences |
| Reading.ReadingActivity.SetReadingMode | app/src/main/java/com/englishstudy/app/ReadingActivity.kt:142-143 | the mode becomes the chosen one |
| Reading.ReadingActivity.PlayCurrentSentence | app/src/main/java/com/englishstudy/app/ReadingActivity.kt:190-215 | plays the current sentence's audio when it has one and then counts as playing; otherwise nothing changes |
| Reading.ReadingActivity.PreviousSentence | app/src/main/java/com/englishstudy/app/ReadingActivity.kt:163-172 | moves one back and replays in sequential mode while playing; the index stays valid |
| Reading.ReadingActivity.NextSentence | app/src/main/java/com/englishstudy/app/ReadingActivity.kt:174-188 | moves one on, wrapping from the last to the first only in sequential mode while playing, and plays then; the index stays valid |
| Reading.ReadingActivity.TogglePlayPause | app/src/main/java/com/englishstudy/app/ReadingActivity.kt:217-235 | pauses while playing; otherwise resumes a busy player or plays the current sentence; the playing flag always flips |
| Reading.ReadingActivity.SentenceTapped | app/src/main/java/com/englishstudy/app/ReadingActivity.kt:115-121 | the tapped sentence becomes current and plays in point-reading mode or when nothing is playing |
| TextReader.WordCount | app/src/main/java/com/englishstudy/app/TextReaderActivity.kt:106 | `split("\\s+".toRegex()).size` of the text; counted by `WordCountRuns` |
| TextReader.WordCountRuns | app/src/main/java/com/englishstudy/app/TextReaderActivity.kt:106 | the word count is one more than the number of whitespace runs, so it is at least one |
| TextReader.SpaceRunAt | app/src/main/java/com/englishstudy/app/TextReaderActivity.kt:106 | a match of `\s+` starts with a whitespace character |
| TextReader.OneWord | app/src/main/java/com/englishstudy/app/TextReaderActivity.kt:106 | a text without whitespace counts as one word |
| TextReader.EstimateDuration | app/src/main/java/com/englishstudy/app/TextReaderActivity.kt:287-298 | `estimateDuration`: minutes and seconds at 150 words a minute with truncating division, the seconds-only form when there are no minutes; `MinutesAlwaysShown` and `DurationSplits` state the result |
| TextReader.MinutesAlwaysShown | app/src/main/java/com/englishstudy/app/TextReaderActivity.kt:287-298 | the minutes are never below one, so the estimate always has the "m分s秒" form |
| TextReader.DurationSplits | app/src/main/java/com/englishstudy/app/TextReaderActivity.kt:287-298 | under 150 words the estimate is one minute. From 150 on, the minutes are the whole minutes the words fill. The seconds lie in 0..59 and are the leftover words' share of a minute, rounded down |
| TextReader.EntitiesFrom | app/src/main/java/com/englishstudy/app/TextReaderActivity.kt:236-243 | `mapIndexed` from position `i` on; its shape is `EntitiesFromShape` |
| TextReader.SentenceEntities | app/src/main/java/com/englishstudy/app/TextReaderActivity.kt:236-243 | the rows of a generated text, or none when an `audioFiles[index]` would be out of bounds; stated by `SentenceEntitiesShape` |
| TextReader.EntitiesFromShape | app/src/main/java/com/englishstudy/app/TextReaderActivity.kt:236-243 | `mapIndexed` makes one row per sentence, in place, with that sentence's audio and the text's id |
| TextReader.SentenceEntitiesShape | app/src/main/java/com/englishstudy/app/TextReaderActivity.kt:236-243 | rows exist exactly when there is an audio path for every sentence. Then the `i`-th row has order `i`, the `i`-th sentence and the `i`-th path |
| TextReader.EntryFor | app/src/main/java/com/englishstudy/app/TextReaderActivity.kt:106-126 | the saved entry carries the title, text, word count and estimate. A loaded entry keeps its id, audio and creation time; a new entry has id 0, no audio and the current time |
| TextReader.SaveTypeAsWritten | app/src/main/java/com/englishstudy/app/TextReaderActivity.kt:153 | the label as the code computes it, from the state after the save; shown wrong by `SaveTypeAsWrittenMislabelsInsert` |
| TextReader.SaveTypeAsWrittenMislabelsInsert | app/src/main/java/com/englishstudy/app/TextReaderActivity.kt:150-153 | after a first save of a new entry, the label computed from the post-save state reads "UPDATED" though the write was an insert |
| TextReader.SaveType | app/src/main/java/com/englishstudy/app/TextReaderActivity.kt:153 | the toast says "NEW" exactly for an insert and "UPDATED" exactly for an update |
| TextReader.EntitiesForText | app/src/main/java/com/englishstudy/app/TextReaderActivity.kt:210-243 | the rows are those of the sentences of the cleaned text with the returned audio paths |
| TextReader.TextReaderActivity.constructor | app/src/main/java/com/englishstudy/app/TextReaderActivity.kt:37-52 | the screen starts without an entry, with the id from the intent |
| TextReader.TextReaderActivity.LoadEntry | app/src/main/java/com/englishstudy/app/TextReaderActivity.kt:88-95 | the held entry becomes what the database found |
| TextReader.TextReaderActivity.SaveAndFinish | app/src/main/java/com/englishstudy/app/TextReaderActivity.kt:97-162 | a blank title or text is rejected and nothing changes. Otherwise the entry is updated when one is held with an id, and inserted under the new id otherwise; the screen holds it afterwards. The outcome carries the corrected label (`SaveType`: "NEW" exactly for an insert); the label the code computes at line 153 from the new state is "UPDATED" after every save |
| TextReader.TextReaderActivity.GenerateAudio | app/src/main/java/com/englishstudy/app/TextReaderActivity.kt:164-265 | after the same validation the entry is stored and held under its id. Its sentence rows are computed from the cleaned text and the audio paths; too few paths fail the generation |
| TextReader.TextReaderActivity.StoreEntry | app/src/main/java/com/englishstudy/app/TextReaderActivity.kt:182-207 | a held entry is updated and a new one inserted; the id rows refer to is the entry's or the new one, and the screen holds the entry under it |

## Left out

- I/O around the core is not modelled:
  - the HTTP requests of `TranscriptService` (watch page, player API, timed-text fetch) and their threads and coroutines;
  - the Room database calls and their exceptions;
  - the speech engine and the audio player.
  
  Their answers are parameters: the assigned id (assumed positive), the audio paths, the player being busy, the clock `now`.
- UI-only effects are not modelled:
  - Toasts, text spans and colours, scrolling to the highlighted segment, the header animation and gestures;
  - the speed control and audio preview of the editor screen;
  - the progress bar and time labels, except `formatTime` itself.
- `ReadingActivity.adjustFontSize` is left out. It has no effect on state: the size it computes is always 20 and is only shown in a toast.
- Float arithmetic is modelled as exact `real` arithmetic, with no IEEE rounding. `Float.toInt` saturation is modelled.
- Locale and Unicode are not modelled: no case folding beyond ASCII, no normalisation. The regex classes `\s` and `\w` are modelled by their ASCII definitions (`[ \t\n\x0B\f\r]` and `[A-Za-z0-9_]`), not as Unicode classes. `String.format` assumes ASCII digits, and `toLongOrNull` accepts ASCII digits only (`KotlinText.ParseLong`), not the other Unicode decimal digits `Character.digit` admits.
- JSON is a datatype, not text. `optString` of an array or object keeps only the opening bracket of its JSON text.
- Regular expressions are deterministic left-to-right matchers, not a backtracking engine. This agrees with `java.util.regex` only for the patterns the app compiles.
- `TranscriptService.kt` catches exceptions (lines 115-118, 227-230, 310-313, 324-327). They are modelled only where an input causes them: a non-object caption track ends the track walk.
- The `Transcript` and `TranscriptSegment` classes are not part of this model's sources; they are modelled as datatypes with the fields the service fills.
- TextReader.EntitiesForText: every `Sentence` row gets the same creation time `now`; the source reads the clock once per row.
- YouTubeLearning.ToggleWindow: not corrected to stay non-inverted. The code is followed, and the inverted windows it produces are stated by `ToggleWindowUncorrected` and `ForwardPastTheEnd`.
- `loadTranscript` failures are modelled as "no transcript": error texts are UI, and `OnTranscriptLoaded` leaves the state unchanged.
- The nullable player is the flag `playerReady`.
- TextReader.TextReaderActivity.SaveAndFinish: reports the corrected label (`SaveType`, see Findings) in its outcome, not the "UPDATED" the code computes at line 153; the as-written label is stated by its last `ensures` clause and by `SaveTypeAsWrittenMislabelsInsert`.
- TextReader.TextReaderActivity.GenerateAudio: the background thread of `TextReaderActivity.kt:176-262` is one atomic step. While it runs, a save tapped before line 207 still sees no held entry and would insert the text a second time (only the generate button is disabled, line 173); the model does not capture that interleaving.

## Findings

| source | as written | input that shows it | evidently intended | confidence | as-written member | corrected member |
|---|---|---|---|---|---|---|
| app/src/main/java/com/englishstudy/app/TextReaderActivity.kt:153 | the save toast's label is computed after `currentEntry` and `entryId` are updated (lines 142, 150), so it reads "UPDATED" after every successful save | a new entry: no entry held, `entryId` -1, the insert returns id 7; the toast says "UPDATED" | "NEW" for an insert and "UPDATED" for an update | high (not executed) | TextReader.SaveTypeAsWrittenMislabelsInsert | TextReader.SaveType |
