/**
  The reading screen: the sentences of one text, a current sentence, a
  reading mode and whether audio is playing. The previous/next buttons,
  a tap on a sentence and the play/pause button move this state; what the
  screen asks of the audio player comes back as an `AudioRequest`.
*/
module Reading {
  import opened KotlinText
  import opened Entities

  datatype ReadingMode = Sequential | PointRead | Repeat

  /** What the screen asks of the audio player. */
  datatype AudioRequest = NoAudio | PlayAudio(path: string) | PauseAudio | ResumeAudio

  // =====================================================================
  // Navigation

  /** The index `previousSentence` moves to: one back, never below the first sentence. */
  function PreviousIndex(index: int): (r: int)
    ensures index > 0 ==> r == index - 1
    ensures index <= 0 ==> r == index
  {
    if index > 0 then index - 1 else index
  }

  /**
    The index `nextSentence` moves to among `size` sentences: one on, and
    from the last sentence back to the first only when `wraps` (sequential
    mode while playing).
  */
  function NextIndex(index: int, size: nat, wraps: bool): (r: int)
    ensures 0 <= index < size ==> 0 <= r < size
    ensures 0 <= index < size - 1 ==> r == index + 1
    ensures index == size - 1 ==> r == (if wraps then 0 else index)
  {
    if index < size - 1 then index + 1
    else if wraps then 0
    else index
  }

  /** The index after `n` presses of the next button. */
  function Advance(index: int, size: nat, wraps: bool, n: nat): int {
    if n == 0 then index else NextIndex(Advance(index, size, wraps, n - 1), size, wraps)
  }

  /** Going back undoes going forward, and going forward undoes going back, away from the ends. */
  lemma PreviousUndoesNext(index: int, size: nat, wraps: bool)
    ensures 0 <= index < size - 1 ==> PreviousIndex(NextIndex(index, size, wraps)) == index
    ensures 0 < index < size ==> NextIndex(PreviousIndex(index), size, wraps) == index
  {
  }

  /** Away from the last sentence, `n` presses move `n` places on. */
  lemma {:induction false} AdvanceStraight(index: int, size: nat, wraps: bool, n: nat)
    requires 0 <= index && index + n < size
    ensures Advance(index, size, wraps, n) == index + n
  {
    if n > 0 {
      AdvanceStraight(index, size, wraps, n - 1);
    }
  }

  /** `a + b` presses are `a` presses followed by `b` more. */
  lemma {:induction false} AdvanceSplit(index: int, size: nat, wraps: bool, a: nat, b: nat)
    ensures Advance(index, size, wraps, a + b) == Advance(Advance(index, size, wraps, a), size, wraps, b)
  {
    if b > 0 {
      AdvanceSplit(index, size, wraps, a, b - 1);
    }
  }

  /** While wrapping, as many presses as there are sentences come back to the start. */
  lemma WrapAroundCycle(index: int, size: nat)
    requires 0 <= index < size
    ensures Advance(index, size, true, size) == index
  {
    var toLast := size - 1 - index;
    AdvanceStraight(index, size, true, toLast);
    AdvanceSplit(index, size, true, toLast, 1 + index);
    AdvanceSplit(size - 1, size, true, 1, index);
    assert Advance(size - 1, size, true, 1) == 0;
    AdvanceStraight(0, size, true, index);
  }

  /** Without wrapping, the presses stop at the last sentence. */
  lemma {:induction false} AdvanceStops(index: int, size: nat, n: nat)
    requires 0 <= index < size
    ensures Advance(index, size, false, n) == (if index + n < size then index + n else size - 1)
  {
    if n > 0 {
      AdvanceStops(index, size, n - 1);
    }
  }

  // =====================================================================
  // Progress display

  /** What `updateProgress` shows: the counter, the two button opacities and the highlighted sentence. */
  datatype ProgressView = ProgressView(counter: string, previousAlpha: real, nextAlpha: real, playingIndex: int)

  /** `updateProgress`; nothing is updated without a sentence at the index. */
  function ProgressOf(index: int, size: nat, isPlaying: bool): Option<ProgressView> {
    if size > 0 && index < size then
      Some(ProgressView(
        Decimal(index + 1) + " / " + Decimal(size),
        if index > 0 then 1.0 else 0.5,
        if index < size - 1 then 1.0 else 0.5,
        if isPlaying then index else -1))
    else None
  }

  /** `counter` reads "a / b": the digits of `a` and of `b` around its first `/`, set off by spaces. */
  predicate ReadsAsCounter(counter: string, a: nat, b: nat) {
    var k := IndexOf(counter, '/');
    && 2 <= k < |counter| - 2 && counter[k - 1] == ' ' && counter[k + 1] == ' '
    && AllDigits(counter[..k - 1]) && DigitsValue(counter[..k - 1]) == a
    && AllDigits(counter[k + 2..]) && DigitsValue(counter[k + 2..]) == b
  }

  /** The counter of two naturals reads back as those two numbers. */
  lemma CounterReadsBack(a: nat, b: nat)
    ensures ReadsAsCounter(Decimal(a) + " / " + Decimal(b), a, b)
  {
    var first, second := Decimal(a), Decimal(b);
    NatDigitsValue(a);
    NatDigitsValue(b);
    var counter := first + " / " + second;
    assert counter[|first| + 1] == '/';
    assert forall j :: 0 <= j < |first| ==> counter[j] == first[j] && IsAsciiDigit(first[j]);
    var k := IndexOf(counter, '/');
    assert k == |first| + 1;
    assert counter[..k - 1] == first;
    assert counter[k + 2..] == second;
  }

  /**
    The display is updated exactly when there is a sentence at the index.
    Then the counter reads "position / count", the previous button is
    opaque exactly when there is an earlier sentence and the next one
    exactly when there is a later one, and the highlight is the index while
    playing and -1 otherwise.
  */
  lemma ProgressShown(index: int, size: nat, isPlaying: bool)
    requires 0 <= index
    ensures ProgressOf(index, size, isPlaying).Some? <==> index < size
    ensures index < size ==>
      var p := ProgressOf(index, size, isPlaying).value;
      && ReadsAsCounter(p.counter, index + 1, size)
      && (p.previousAlpha == 1.0 <==> index > 0)
      && (p.nextAlpha == 1.0 <==> index < size - 1)
      && p.playingIndex == (if isPlaying then index else -1)
  {
    CounterReadsBack(index + 1, size);
  }

  // =====================================================================
  // The screen

  /** The player request for the sentence at `index`: its audio, when it has one. */
  function AudioFor(sentences: seq<Sentence>, index: int): AudioRequest {
    if 0 <= index < |sentences| then
      match sentences[index].audioFilePath
      case Some(path) => PlayAudio(path)
      case None => NoAudio
    else NoAudio
  }

  class ReadingActivity {
    var currentEntry: Option<TextEntry>
    var sentences: seq<Sentence>
    var currentSentenceIndex: int
    var readingMode: ReadingMode
    var isPlaying: bool

    /** The current index names a sentence whenever there are sentences. */
    ghost predicate Valid()
      reads this
    {
      0 <= currentSentenceIndex && (sentences != [] ==> currentSentenceIndex < |sentences|)
    }

    constructor()
      ensures Valid()
      ensures currentEntry == None && sentences == [] && currentSentenceIndex == 0
      ensures readingMode == Sequential && !isPlaying
    {
      currentEntry := None;
      sentences := [];
      currentSentenceIndex := 0;
      readingMode := Sequential;
      isPlaying := false;
    }

    /** `loadEntry`, once the database has answered: the screen closes without an entry or without sentences. */
    method EntryLoaded(entry: Option<TextEntry>, found: seq<Sentence>) returns (finish: bool)
      requires currentSentenceIndex == 0
      modifies this`currentEntry, this`sentences
      ensures Valid()
      ensures currentEntry == entry && sentences == found
      ensures finish <==> entry.None? || found == []
    {
      currentEntry := entry;
      sentences := found;
      finish := entry.None? || found == [];
    }

    /** `setReadingMode` */
    method SetReadingMode(mode: ReadingMode)
      modifies this`readingMode
      ensures readingMode == mode
    {
      readingMode := mode;
    }

    /**
      `playCurrentSentence`: plays the current sentence's audio and marks the
      screen as playing; a sentence without audio changes nothing.
    */
    method PlayCurrentSentence() returns (request: AudioRequest)
      modifies this`isPlaying
      ensures request == AudioFor(sentences, currentSentenceIndex)
      ensures isPlaying == (old(isPlaying) || request.PlayAudio?)
    {
      request := NoAudio;
      if sentences != [] && 0 <= currentSentenceIndex < |sentences| {
        match sentences[currentSentenceIndex].audioFilePath {
          case Some(path) =>
            request := PlayAudio(path);
            isPlaying := true;
          case None =>
        }
      }
    }

    /** `previousSentence`: one back, replaying in sequential mode while playing. */
    method PreviousSentence() returns (request: AudioRequest)
      requires Valid()
      modifies this`currentSentenceIndex, this`isPlaying
      ensures Valid()
      ensures currentSentenceIndex == PreviousIndex(old(currentSentenceIndex))
      ensures isPlaying == old(isPlaying)
      ensures request == (
        if old(currentSentenceIndex) > 0 && readingMode == Sequential && old(isPlaying)
        then AudioFor(sentences, currentSentenceIndex)
        else NoAudio)
    {
      request := NoAudio;
      if currentSentenceIndex > 0 {
        currentSentenceIndex := currentSentenceIndex - 1;
        if readingMode == Sequential && isPlaying {
          request := PlayCurrentSentence();
        }
      }
    }

    /**
      `nextSentence`: one on; from the last sentence back to the first only
      in sequential mode while playing, which also plays the new sentence.
    */
    method NextSentence() returns (request: AudioRequest)
      requires Valid()
      modifies this`currentSentenceIndex, this`isPlaying
      ensures Valid()
      ensures currentSentenceIndex
           == NextIndex(old(currentSentenceIndex), |sentences|, readingMode == Sequential && old(isPlaying))
      ensures isPlaying == old(isPlaying)
      ensures request == (
        if readingMode == Sequential && old(isPlaying) then AudioFor(sentences, currentSentenceIndex)
        else NoAudio)
    {
      request := NoAudio;
      if currentSentenceIndex < |sentences| - 1 {
        currentSentenceIndex := currentSentenceIndex + 1;
        if readingMode == Sequential && isPlaying {
          request := PlayCurrentSentence();
        }
      } else if readingMode == Sequential && isPlaying {
        currentSentenceIndex := 0;
        request := PlayCurrentSentence();
      }
    }

    /**
      `togglePlayPause`: pauses while playing; otherwise resumes a player
      that is still busy (`playerBusy`) or plays the current sentence, and
      the screen counts as playing either way.
    */
    method TogglePlayPause(playerBusy: bool) returns (request: AudioRequest)
      modifies this`isPlaying
      ensures isPlaying == !old(isPlaying)
      ensures request == (
        if old(isPlaying) then PauseAudio
        else if playerBusy then ResumeAudio
        else AudioFor(sentences, currentSentenceIndex))
    {
      if isPlaying {
        request := PauseAudio;
        isPlaying := false;
      } else {
        if playerBusy {
          request := ResumeAudio;
        } else {
          request := PlayCurrentSentence();
        }
        isPlaying := true;
      }
    }

    /**
      A tap on the sentence at `position` makes it current and plays it in
      point-reading mode or when nothing is playing.
    */
    method SentenceTapped(position: int) returns (request: AudioRequest)
      requires Valid() && 0 <= position < |sentences|
      modifies this`currentSentenceIndex, this`isPlaying
      ensures Valid()
      ensures currentSentenceIndex == position
      ensures request == (
        if readingMode == PointRead || !old(isPlaying) then AudioFor(sentences, position)
        else NoAudio)
      ensures isPlaying == (old(isPlaying) || request.PlayAudio?)
    {
      currentSentenceIndex := position;
      request := NoAudio;
      if readingMode == PointRead || !isPlaying {
        request := PlayCurrentSentence();
      }
    }
  }
}
