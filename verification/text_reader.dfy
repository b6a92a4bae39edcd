/**
  The text editor screen: a title and a text are saved as a `TextEntry`
  (with a word count and an estimated reading time), and audio generation
  cuts the text into sentences and stores one `Sentence` per sentence with
  the audio the speech engine produced for it. The database and the speech
  engine are outside the model: their answers (the id an insert assigns,
  the audio paths, the clock) come in as parameters and the writes come
  back as values.
*/
module TextReader {
  import opened KotlinText
  import opened Regex
  import opened Entities
  import opened TextSplitter

  // =====================================================================
  // Word count and reading time

  /** `\s+` */
  const SpaceRuns: Pattern := Pattern([Run(Space, true, false)], false)

  /** `text.split("\\s+".toRegex()).size` */
  function WordCount(text: string): int {
    |Split(text, SpaceRuns)|
  }

  /** The count is one more than the number of whitespace runs, so it is at least one. */
  lemma WordCountRuns(text: string)
    ensures WordCount(text) == |FindAll(text, 0, SpaceRuns)| + 1
    ensures WordCount(text) >= 1
  {
    SplitFromLength(text, 0, 0, SpaceRuns);
  }

  /** A match of `\s+` starts with a whitespace character. */
  lemma SpaceRunAt(s: string, i: nat)
    requires i <= |s| && MatchAt(s, i, SpaceRuns).Some?
    ensures i < |s| && IsRegexSpace(s[i])
  {
    var e := SpaceRuns.elements;
    assert MatchRest(s, i, e, false).Some?;
    assert Step(s, i, e[0], false).Some?;
    RunEndProps(s, i, c => InClass(Space, c));
  }

  /** A text without whitespace is one word. */
  lemma OneWord(text: string)
    requires forall i :: 0 <= i < |text| ==> !IsRegexSpace(text[i])
    ensures WordCount(text) == 1
  {
    forall j | 0 <= j <= |text| ensures MatchAt(text, j, SpaceRuns).None? {
      if MatchAt(text, j, SpaceRuns).Some? {
        SpaceRunAt(text, j);
      }
    }
    FindNone(text, 0, SpaceRuns);
  }

  const WordsPerMinute: int := 150

  /** Whole minutes at 150 words a minute, never less than one. */
  function DurationMinutes(wordCount: int): int {
    var totalMinutes := TruncDiv(wordCount, WordsPerMinute);
    if totalMinutes < 1 then 1 else totalMinutes
  }

  /** The seconds the words past the whole minutes take. */
  function DurationSeconds(wordCount: int): int {
    TruncDiv(TruncMod(wordCount, WordsPerMinute) * 60, WordsPerMinute)
  }

  /** 分 (minutes) */
  const MinuteMark: string := "\U{5206}"
  /** 秒 (seconds) */
  const SecondMark: string := "\U{79D2}"

  /** `estimateDuration`: "<m>分<s>秒", or "<s>秒" when there are no minutes. */
  function EstimateDuration(wordCount: int): string {
    var minutes, seconds := DurationMinutes(wordCount), DurationSeconds(wordCount);
    if minutes > 0 then Decimal(minutes) + MinuteMark + Decimal(seconds) + SecondMark
    else Decimal(seconds) + SecondMark
  }

  /** The minutes are never below one, so the seconds-only form never occurs. */
  lemma MinutesAlwaysShown(wordCount: int)
    ensures DurationMinutes(wordCount) >= 1
    ensures EstimateDuration(wordCount)
         == Decimal(DurationMinutes(wordCount)) + MinuteMark + Decimal(DurationSeconds(wordCount)) + SecondMark
  {
  }

  /**
    For a word count: below 150 words the estimate is one minute; from 150
    on, the minutes are the whole minutes the words fill. The seconds lie
    in 0..59 and are the remaining words' share of a minute, rounded down.
  */
  lemma DurationSplits(wordCount: int)
    requires wordCount >= 0
    ensures var m, s := DurationMinutes(wordCount), DurationSeconds(wordCount);
      && (wordCount < WordsPerMinute ==> m == 1)
      && (wordCount >= WordsPerMinute ==> m * WordsPerMinute <= wordCount < (m + 1) * WordsPerMinute)
      && 0 <= s < 60
      && s * WordsPerMinute <= (wordCount % WordsPerMinute) * 60 < (s + 1) * WordsPerMinute
  {
    var rest := TruncMod(wordCount, WordsPerMinute);
    assert 0 <= rest < WordsPerMinute && rest == wordCount % WordsPerMinute;
    var s := DurationSeconds(wordCount);
    assert s == TruncDiv(rest * 60, WordsPerMinute);
    assert rest * 60 == s * WordsPerMinute + TruncMod(rest * 60, WordsPerMinute);
  }

  // =====================================================================
  // Sentence entities

  /** `mapIndexed` from position `i` on: one entity per sentence, in order, with its audio. */
  function EntitiesFrom(textEntryId: int, sentences: seq<string>, audioFiles: seq<Option<string>>, now: int, i: nat): seq<Sentence>
    requires i <= |sentences| <= |audioFiles|
    decreases |sentences| - i
  {
    if i == |sentences| then []
    else
      [Sentence(0, textEntryId, sentences[i], i, audioFiles[i], 0, now)]
      + EntitiesFrom(textEntryId, sentences, audioFiles, now, i + 1)
  }

  /**
    The sentence entities of a generated text; nothing when the speech
    engine returned fewer paths than there are sentences (an index out of
    bounds, caught by the generator).
  */
  function SentenceEntities(textEntryId: int, sentences: seq<string>, audioFiles: seq<Option<string>>, now: int): Option<seq<Sentence>> {
    if |audioFiles| < |sentences| then None
    else Some(EntitiesFrom(textEntryId, sentences, audioFiles, now, 0))
  }

  /** The `k`-th entity from position `i` on is the `(i + k)`-th sentence, in that place, with that audio. */
  lemma {:induction false} EntitiesFromShape(textEntryId: int, sentences: seq<string>, audioFiles: seq<Option<string>>, now: int, i: nat)
    requires i <= |sentences| <= |audioFiles|
    ensures var r := EntitiesFrom(textEntryId, sentences, audioFiles, now, i);
      && |r| == |sentences| - i
      && forall k :: 0 <= k < |r| ==>
        && r[k].orderIndex == i + k && r[k].content == sentences[i + k]
        && r[k].audioFilePath == audioFiles[i + k] && r[k].textEntryId == textEntryId
    decreases |sentences| - i
  {
    if i < |sentences| {
      EntitiesFromShape(textEntryId, sentences, audioFiles, now, i + 1);
      var r := EntitiesFrom(textEntryId, sentences, audioFiles, now, i);
      var rest := EntitiesFrom(textEntryId, sentences, audioFiles, now, i + 1);
      assert forall k :: 1 <= k < |r| ==> r[k] == rest[k - 1];
    }
  }

  /**
    When every sentence has an audio entry, there is one entity per
    sentence: the `i`-th has `orderIndex` `i`, the `i`-th sentence and the
    `i`-th audio path, and belongs to the text.
  */
  lemma SentenceEntitiesShape(textEntryId: int, sentences: seq<string>, audioFiles: seq<Option<string>>, now: int)
    ensures SentenceEntities(textEntryId, sentences, audioFiles, now).Some? <==> |audioFiles| >= |sentences|
    ensures SentenceEntities(textEntryId, sentences, audioFiles, now).Some? ==>
      var r := SentenceEntities(textEntryId, sentences, audioFiles, now).value;
      && |r| == |sentences|
      && forall i :: 0 <= i < |r| ==>
        && r[i].orderIndex == i && r[i].content == sentences[i]
        && r[i].audioFilePath == audioFiles[i] && r[i].textEntryId == textEntryId
  {
    if |audioFiles| >= |sentences| {
      EntitiesFromShape(textEntryId, sentences, audioFiles, now, 0);
    }
  }

  // =====================================================================
  // The screen

  /**
    The entry a save writes: the loaded entry with the new title, text,
    word count and estimate (keeping its id, audio and creation time), or a
    new entry without an id or audio.
  */
  function EntryFor(current: Option<TextEntry>, title: string, text: string, now: int): (e: TextEntry)
    ensures e.title == title && e.content == text
    ensures e.wordCount == WordCount(text) && e.estimatedDuration == Some(EstimateDuration(WordCount(text)))
    ensures current.Some? ==> e.id == current.value.id && e.audioFilePath == current.value.audioFilePath
                              && e.createdAt == current.value.createdAt
    ensures current.None? ==> e.id == 0 && e.audioFilePath.None? && e.createdAt == now
  {
    var wordCount := WordCount(text);
    var estimate := Some(EstimateDuration(wordCount));
    match current
    case Some(entry) => entry.(title := title, content := text, wordCount := wordCount, estimatedDuration := estimate)
    case None => TextEntry(0, title, text, None, wordCount, estimate, now)
  }

  /** A write to the `text_entries` table. */
  datatype EntryWrite = Update(entry: TextEntry) | Insert(entry: TextEntry)

  /** `saveType` is the word the save toast reports: "NEW" or "UPDATED". */
  datatype SaveOutcome = SaveRejected | Saved(write: EntryWrite, saveType: string)

  /**
    The save toast's word as `saveAndFinish` computes it: from the screen's
    state after the save, when the entry is already held and has an id.
  */
  function SaveTypeAsWritten(currentEntry: Option<TextEntry>, entryId: int): string {
    if currentEntry.Some? && entryId != -1 then "UPDATED" else "NEW"
  }

  /**
    A first save of a new entry: the screen holds no entry and the id is -1,
    the database assigns `newId`. Read from the state after the insert, the
    toast says "UPDATED", where the write made was an insert.
  */
  lemma SaveTypeAsWrittenMislabelsInsert(title: string, text: string, newId: int, now: int)
    requires newId > 0
    ensures var entry := EntryFor(None, title, text, now);
      && SaveTypeAsWritten(Some(entry), newId) == "UPDATED"
      && SaveType(Insert(entry)) == "NEW"
  {
  }

  /** The word the toast is meant to report: which write the save made. */
  function SaveType(write: EntryWrite): (r: string)
    ensures r == "NEW" <==> write.Insert?
    ensures r == "UPDATED" <==> write.Update?
  {
    match write
    case Insert(_) => "NEW"
    case Update(_) => "UPDATED"
  }

  datatype GenerateOutcome =
    | GenerateRejected
    | Generated(write: EntryWrite, textEntryId: int, entities: seq<Sentence>)
    | GenerateFailed(write: EntryWrite, textEntryId: int)

  /**
    The sentence rows `generateAudio` stores for the text: one per sentence
    of the cleaned text, none when the speech engine returned fewer paths.
  */
  method EntitiesForText(textEntryId: int, text: string, audioFiles: seq<Option<string>>, now: int)
    returns (entities: Option<seq<Sentence>>)
    ensures entities == SentenceEntities(textEntryId, Sentences(CleanText(text)), audioFiles, now)
  {
    var sentences := SplitAndClean(text);
    entities := SentenceEntities(textEntryId, sentences, audioFiles, now);
  }

  class TextReaderActivity {
    var currentEntry: Option<TextEntry>
    var entryId: int

    /** An entry is only ever held together with a stored id. */
    ghost predicate Valid()
      reads this
    {
      currentEntry.Some? ==> entryId != -1
    }

    /** A new screen, for the entry with id `intentId`, or for a new entry when it is -1. */
    constructor(intentId: int)
      ensures Valid()
      ensures currentEntry == None && entryId == intentId
    {
      currentEntry := None;
      entryId := intentId;
    }

    /** `loadEntry`, with the entry the database found for `entryId` (if any). */
    method LoadEntry(found: Option<TextEntry>)
      requires entryId != -1
      modifies this`currentEntry
      ensures Valid()
      ensures currentEntry == found
    {
      currentEntry := found;
    }

    /**
      `saveAndFinish`: nothing happens unless both the trimmed title and
      the trimmed text are non-empty. Otherwise the entry is updated when
      one is held and has an id, and inserted (taking the id `newId` the
      database assigns) otherwise; a held entry is therefore never inserted
      a second time.
    */
    method SaveAndFinish(titleInput: string, textInput: string, newId: int, now: int) returns (outcome: SaveOutcome)
      requires Valid() && newId > 0
      modifies this`currentEntry, this`entryId
      ensures Valid()
      ensures Trim(titleInput) == [] || Trim(textInput) == [] ==>
        outcome == SaveRejected && currentEntry == old(currentEntry) && entryId == old(entryId)
      ensures Trim(titleInput) != [] && Trim(textInput) != [] ==>
        var entry := EntryFor(old(currentEntry), Trim(titleInput), Trim(textInput), now);
        && var write := if old(currentEntry).Some? && old(entryId) != -1 then Update(entry) else Insert(entry);
        && outcome == Saved(write, SaveType(write))
        && currentEntry == Some(entry)
        && entryId == (if write.Update? then old(entryId) else newId)
      ensures outcome.Saved? ==> (outcome.write.Update? <==> old(currentEntry).Some?)
      ensures outcome.Saved? ==> (outcome.saveType == "NEW" <==> old(currentEntry).None?)
      ensures outcome.Saved? ==> SaveTypeAsWritten(currentEntry, entryId) == "UPDATED"
    {
      var title, text := Trim(titleInput), Trim(textInput);
      if title == [] || text == [] {
        return SaveRejected;
      }
      var entry := EntryFor(currentEntry, title, text, now);
      var write;
      if currentEntry.Some? && entryId != -1 {
        write := Update(entry);
      } else {
        write := Insert(entry);
        entryId := newId;
      }
      currentEntry := Some(entry);
      outcome := Saved(write, SaveType(write));
    }

    /**
      `generateAudio`: after the same validation, the entry is updated when
      one is held and inserted otherwise; the held entry takes the id it is
      stored under. The cleaned text is split into sentences and each
      sentence becomes an entity with the audio path the speech engine
      returned for it (`audioFiles`); fewer paths than sentences fails.
    */
    method GenerateAudio(titleInput: string, textInput: string, newId: int, now: int, audioFiles: seq<Option<string>>)
      returns (outcome: GenerateOutcome)
      requires Valid() && newId > 0
      modifies this`currentEntry, this`entryId
      ensures Valid()
      ensures Trim(titleInput) == [] || Trim(textInput) == [] ==>
        outcome == GenerateRejected && currentEntry == old(currentEntry) && entryId == old(entryId)
      ensures Trim(titleInput) != [] && Trim(textInput) != [] ==>
        var text := Trim(textInput);
        var entry := EntryFor(old(currentEntry), Trim(titleInput), text, now);
        var id := if old(currentEntry).Some? then entry.id else newId;
        var write := if old(currentEntry).Some? then Update(entry) else Insert(entry);
        && currentEntry == Some(entry.(id := id))
        && entryId == (if old(currentEntry).Some? then old(entryId) else newId)
        && var rows := SentenceEntities(id, Sentences(CleanText(text)), audioFiles, now);
        outcome == (if rows.Some? then Generated(write, id, rows.value) else GenerateFailed(write, id))
    {
      var title, text := Trim(titleInput), Trim(textInput);
      if title == [] || text == [] {
        return GenerateRejected;
      }
      var write, textEntryId := StoreEntry(title, text, newId, now);
      var entities := EntitiesForText(textEntryId, text, audioFiles, now);
      if entities.Some? {
        outcome := Generated(write, textEntryId, entities.value);
      } else {
        outcome := GenerateFailed(write, textEntryId);
      }
    }

    /**
      The database step of `generateAudio`: a held entry is updated, a new
      one inserted under `newId`, and the screen keeps the entry with the id
      it is stored under.
    */
    method StoreEntry(title: string, text: string, newId: int, now: int) returns (write: EntryWrite, textEntryId: int)
      requires Valid() && newId > 0
      modifies this`currentEntry, this`entryId
      ensures Valid()
      ensures var entry := EntryFor(old(currentEntry), title, text, now);
        && write == (if old(currentEntry).Some? then Update(entry) else Insert(entry))
        && textEntryId == (if old(currentEntry).Some? then entry.id else newId)
        && currentEntry == Some(entry.(id := textEntryId))
        && entryId == (if old(currentEntry).Some? then old(entryId) else newId)
    {
      var entry := EntryFor(currentEntry, title, text, now);
      if currentEntry.Some? {
        write := Update(entry);
        textEntryId := entry.id;
      } else {
        write := Insert(entry);
        entryId := newId;
        textEntryId := newId;
      }
      currentEntry := Some(entry.(id := textEntryId));
    }
  }
}
