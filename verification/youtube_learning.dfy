/**
  The playback synchroniser of the YouTube learning screen: the loop
  ("repeat") window kept inside the video, the transcript highlight that
  follows the player's clock, and the helpers around them (video id
  extraction, `m:ss` time labels, font-size cycling). Player callbacks and
  button clicks are methods of the activity; what the activity asks of the
  player comes back as a `Request`.
*/
module YouTubeLearning {
  import opened KotlinText
  import opened Regex
  import opened TranscriptService

  // =====================================================================
  // Video id extraction

  /** `(?:https?://)?` */
  const Scheme: Element := Choice(["https://", "http://"], true)

  /** `([\w-]+)` */
  const IdRun: Element := Run(Word, true, true)

  /** The four patterns, in the order they are tried. */
  const VideoIdPatterns: seq<Pattern> := [
    Pattern([Scheme, Choice(["www."], true), Choice(["youtube.com/watch?v=", "youtu.be/"], false), IdRun], false),
    Pattern([Scheme, Choice(["m."], true), Lit("youtube.com/watch?v="), IdRun], false),
    Pattern([Scheme, Choice(["www."], true), Lit("youtube.com/embed/"), IdRun], false),
    Pattern([Scheme, Choice(["www."], true), Lit("youtube.com/v/"), IdRun], false)
  ]

  /** A pattern of three elements without groups followed by the id run has the id as its one group. */
  lemma IdPatternShape(a: Element, b: Element, c: Element)
    requires a.Choice? || a.Lit?
    requires b.Choice? || b.Lit?
    requires c.Choice? || c.Lit?
    ensures GroupCount([a, b, c, IdRun]) == 1
    ensures RunGroupsOf([a, b, c, IdRun], Word, true)
  {
    assert [IdRun][1..] == [];
    assert GroupCount([IdRun]) == 1;
    assert [c, IdRun][1..] == [IdRun];
    assert GroupCount([c, IdRun]) == 1;
    assert [b, c, IdRun][1..] == [c, IdRun];
    assert GroupCount([b, c, IdRun]) == 1;
    assert [a, b, c, IdRun][1..] == [b, c, IdRun];
  }

  /** Each pattern has one group, a non-empty run of word characters and `-`. */
  lemma VideoIdPatternShape(k: nat)
    requires k < |VideoIdPatterns|
    ensures GroupCount(VideoIdPatterns[k].elements) == 1
    ensures RunGroupsOf(VideoIdPatterns[k].elements, Word, true)
  {
    var e := VideoIdPatterns[k].elements;
    IdPatternShape(e[0], e[1], e[2]);
    assert e == [e[0], e[1], e[2], IdRun];
  }

  /** A video id: a non-empty run of `[\w-]` characters. */
  predicate IsVideoId(s: string) {
    s != [] && forall i :: 0 <= i < |s| ==> InClass(Word, s[i])
  }

  /** `group(1)` after the first successful `find()` of the `k`-th pattern, if any. */
  function FirstIdMatch(url: string, k: nat): (r: Option<string>)
    requires k < |VideoIdPatterns|
    ensures r.Some? ==> IsVideoId(r.value)
  {
    match Find(url, 0, VideoIdPatterns[k])
    case None => None
    case Some(m) =>
      FindMatchesAt(url, 0, VideoIdPatterns[k]);
      VideoIdPatternShape(k);
      RunGroupsInClass(url, m.start, VideoIdPatterns[k].elements, false, Word, true);
      assert m.groups[0] in m.groups;
      Some(m.groups[0])
  }

  /** What each pattern yields, in the order the patterns are tried. */
  function IdCandidates(url: string): (r: seq<Option<string>>)
    ensures |r| == |VideoIdPatterns|
  {
    seq(|VideoIdPatterns|, k requires 0 <= k < |VideoIdPatterns| => FirstIdMatch(url, k))
  }

  /**
    `extractVideoId`: the group of the first pattern, in list order, that
    occurs anywhere in the URL; nothing when none occurs.
  */
  method ExtractVideoId(url: string) returns (videoId: Option<string>)
    ensures videoId == FirstNotNull(IdCandidates(url), 0)
    ensures videoId.Some? ==> IsVideoId(videoId.value)
  {
    ghost var candidates := IdCandidates(url);
    for k := 0 to |VideoIdPatterns|
      invariant FirstNotNull(candidates, k) == FirstNotNull(candidates, 0)
    {
      var found := FirstIdMatch(url, k);
      assert found == candidates[k];
      if found.Some? {
        return found;
      }
    }
    return None;
  }

  const WatchPath: string := "youtube.com/watch?v="

  /** A match of the mobile pattern holds `youtube.com/watch?v=` followed by an id. */
  lemma MobileMatchHasWatchPath(url: string, i: nat) returns (j: nat)
    requires i <= |url| && MatchAt(url, i, VideoIdPatterns[1]).Some?
    ensures j <= |url| && MatchRest(url, j, [Lit(WatchPath), IdRun], false).Some?
  {
    var e := VideoIdPatterns[1].elements;
    assert MatchRest(url, i, e, false).Some?;
    var t0 := Step(url, i, e[0], false);
    assert t0.Some? && MatchRest(url, t0.value.end, e[1..], false).Some?;
    var t1 := Step(url, t0.value.end, e[1..][0], false);
    assert t1.Some? && MatchRest(url, t1.value.end, e[1..][1..], false).Some?;
    assert e[1..][1..] == [Lit(WatchPath), IdRun];
    j := t1.value.end;
  }

  /** Neither optional prefix of the first pattern occurs where a `y` stands. */
  lemma NoPrefixAtY(s: string, pos: nat)
    requires pos < |s| && s[pos] == 'y'
    ensures Step(s, pos, Scheme, false) == Some(Tail(pos, []))
    ensures Step(s, pos, Choice(["www."], true), false) == Some(Tail(pos, []))
  {
    assert !LiteralAt(s, pos, "https://", false) && !LiteralAt(s, pos, "http://", false);
    assert !LiteralAt(s, pos, "www.", false);
  }

  /** The host-and-path group of the first pattern. */
  const WatchHost: Element := Choice([WatchPath, "youtu.be/"], false)

  /** Where `youtube.com/watch?v=` and an id begin, so do the first pattern's host group and the id. */
  lemma WatchHostMatches(url: string, j: nat)
    requires j <= |url| && MatchRest(url, j, [Lit(WatchPath), IdRun], false).Some?
    ensures j < |url| && url[j] == 'y'
    ensures MatchRest(url, j, [WatchHost, IdRun], false).Some?
  {
    assert [Lit(WatchPath), IdRun][0] == Lit(WatchPath) && [Lit(WatchPath), IdRun][1..] == [IdRun];
    assert [WatchHost, IdRun][0] == WatchHost && [WatchHost, IdRun][1..] == [IdRun];
    assert LiteralAt(url, j, WatchPath, false);
    assert Step(url, j, WatchHost, false) == Step(url, j, Lit(WatchPath), false);
  }

  /** The first pattern matches wherever `youtube.com/watch?v=` and an id begin. */
  lemma WatchPathMatchesFirst(url: string, j: nat)
    requires j <= |url| && MatchRest(url, j, [Lit(WatchPath), IdRun], false).Some?
    ensures MatchAt(url, j, VideoIdPatterns[0]).Some?
  {
    WatchHostMatches(url, j);
    NoPrefixAtY(url, j);
    MatchAtSkippingTwo(url, j, Scheme, Choice(["www."], true), [WatchHost, IdRun], false);
    assert VideoIdPatterns[0] == Pattern([Scheme, Choice(["www."], true)] + [WatchHost, IdRun], false);
  }

  /**
    The mobile pattern never decides: wherever it matches, the first pattern
    matches at the `youtube.com/watch?v=` inside that match, so the first
    pattern always yields an id before the second is tried.
  */
  lemma MobilePatternNeverDecides(url: string)
    ensures FirstIdMatch(url, 1).Some? ==> FirstIdMatch(url, 0).Some?
  {
    var found := Find(url, 0, VideoIdPatterns[1]);
    if found.Some? {
      FindMatchesAt(url, 0, VideoIdPatterns[1]);
      var j := MobileMatchHasWatchPath(url, found.value.start);
      WatchPathMatchesFirst(url, j);
      FindLeftmost(url, 0, VideoIdPatterns[0], j);
    }
  }

  // =====================================================================
  // Time labels and font sizes

  /** `formatTime`: whole seconds (truncated) as `minutes:ss`. */
  function FormatTime(seconds: real): string {
    var total := FloatToInt(seconds);
    Decimal(TruncDiv(total, 60)) + ":" + Pad2(TruncMod(total, 60))
  }

  /**
    For a non-negative time the label is decimal minutes, a colon and two
    digits below 60, and reading it back gives the truncated seconds.
  */
  lemma FormatTimeReadsBack(seconds: real)
    requires seconds >= 0.0
    ensures var s := FormatTime(seconds);
      && |s| >= 4 && s[|s| - 3] == ':'
      && AllDigits(s[..|s| - 3]) && AllDigits(s[|s| - 2..])
      && DigitsValue(s[|s| - 2..]) < 60
      && DigitsValue(s[..|s| - 3]) * 60 + DigitsValue(s[|s| - 2..]) == FloatToInt(seconds)
  {
    var total := FloatToInt(seconds);
    assert total >= 0;
    var minutes, rest := TruncDiv(total, 60), TruncMod(total, 60);
    var m, r := Decimal(minutes), Pad2(rest);
    NatDigitsValue(minutes);
    Pad2Digits(rest);
    var s := FormatTime(seconds);
    assert s == m + ":" + r;
    assert s[..|s| - 3] == m;
    assert s[|s| - 2..] == r;
  }

  /** A time below `MaxInt` seconds truncates to its whole seconds. */
  lemma FormatTimeTruncates(seconds: real)
    requires 0.0 <= seconds < MaxInt as real
    ensures FloatToInt(seconds) as real <= seconds < FloatToInt(seconds) as real + 1.0
  {
  }

  const FontSizes: seq<real> := [14.0, 16.0, 18.0, 20.0, 24.0]

  /** `cycleFontSize`: the next size in the list, wrapping around; an unknown size restarts the list. */
  function NextFontSize(size: real): (r: real)
    ensures r in FontSizes
  {
    FontSizes[(IndexOf(FontSizes, size) + 1) % |FontSizes|]
  }

  /** The index after `k` in the list, wrapping to the front after the last. */
  function NextIndex(k: nat): nat {
    if k + 1 == |FontSizes| then 0 else k + 1
  }

  /** Each listed size is found at its own position: the list has no repeats. */
  lemma FontSizeIndex(k: nat)
    requires k < |FontSizes|
    ensures IndexOf(FontSizes, FontSizes[k]) == k
  {
  }

  /** A listed size moves to the one after it, and the last back to the first. */
  lemma NextFontSizeSteps(k: nat)
    requires k < |FontSizes|
    ensures NextFontSize(FontSizes[k]) == FontSizes[NextIndex(k)]
  {
    FontSizeIndex(k);
    if k + 1 == |FontSizes| {
      assert (k + 1) % |FontSizes| == 0;
    } else {
      assert (k + 1) % |FontSizes| == k + 1;
    }
  }

  lemma NextFontSizeUnknown(size: real)
    requires size !in FontSizes
    ensures NextFontSize(size) == FontSizes[0]
  {
  }

  /** Five presses bring every listed size back to itself. */
  lemma FontSizeCycle(size: real)
    requires size in FontSizes
    ensures NextFontSize(NextFontSize(NextFontSize(NextFontSize(NextFontSize(size))))) == size
  {
    var k := IndexOf(FontSizes, size);
    NextFontSizeSteps(k);
    NextFontSizeSteps(NextIndex(k));
    NextFontSizeSteps(NextIndex(NextIndex(k)));
    NextFontSizeSteps(NextIndex(NextIndex(NextIndex(k))));
    NextFontSizeSteps(NextIndex(NextIndex(NextIndex(NextIndex(k)))));
  }

  // =====================================================================
  // The loop window

  /** The stretch of video the loop mode repeats. */
  datatype Window = Window(start: real, end: real)

  /**
    `updateLoopRange`: the requested window clamped to the video. The start
    is never negative and the end never past the video; when clamping
    leaves the start at or after the end, the end moves to one second after
    the start (but not past the video).
  */
  function ClampWindow(newStart: real, newEnd: real, duration: real): (w: Window)
    ensures 0.0 <= w.start && w.end <= duration
    ensures w.start == MaxReal(0.0, newStart)
    ensures w.start < duration ==> w.start < w.end
    ensures 0.0 <= newStart < newEnd <= duration ==> w == Window(newStart, newEnd)
  {
    var start := MaxReal(0.0, newStart);
    var end := MinReal(duration, newEnd);
    if start >= end then Window(start, MinReal(duration, start + 1.0)) else Window(start, end)
  }

  /** A collapsed window becomes one second long when the video has room for it. */
  lemma ClampWindowOneSecond(newStart: real, newEnd: real, duration: real)
    requires MaxReal(0.0, newStart) >= MinReal(duration, newEnd)
    requires MaxReal(0.0, newStart) + 1.0 <= duration
    ensures ClampWindow(newStart, newEnd, duration).end == ClampWindow(newStart, newEnd, duration).start + 1.0
  {
  }

  /** Clamping a clamped window changes nothing. */
  lemma ClampWindowIdempotent(newStart: real, newEnd: real, duration: real)
    ensures var w := ClampWindow(newStart, newEnd, duration);
      ClampWindow(w.start, w.end, duration) == w
  {
  }

  /** `toggleLoopMode` when switching on: five seconds either side of the clock, cut at the video's ends only. */
  function ToggleWindow(time: real, duration: real): (w: Window)
    ensures w.start >= 0.0 && w.end <= duration
  {
    Window(MaxReal(0.0, time - 5.0), MinReal(duration, time + 5.0))
  }

  /** A clock inside the video lies inside the window, which is at most ten seconds long. */
  lemma ToggleWindowAroundClock(time: real, duration: real)
    requires 0.0 <= time <= duration
    ensures var w := ToggleWindow(time, duration);
      w.start <= time <= w.end && w.end - w.start <= 10.0
  {
  }

  /** The toggle window is not corrected: a clock past the video's end gives an inverted window. */
  lemma ToggleWindowUncorrected()
    ensures ToggleWindow(130.0, 120.0) == Window(125.0, 120.0)
  {
  }

  /** Rewind (`delta` = -10) and forward (`delta` = 10): the window moves, its length kept before clamping. */
  function ShiftWindow(w: Window, delta: real, duration: real): Window {
    var start := w.start + delta;
    ClampWindow(start, start + (w.end - w.start), duration)
  }

  /** A shift that stays inside the video moves both ends by `delta`. */
  lemma ShiftWindowMoves(w: Window, delta: real, duration: real)
    requires 0.0 <= w.start + delta < w.end + delta <= duration
    ensures ShiftWindow(w, delta, duration) == Window(w.start + delta, w.end + delta)
  {
  }

  /** Forward then rewind restores a window when neither shift is clamped. */
  lemma ShiftForwardThenBack(w: Window, duration: real)
    requires 0.0 <= w.start < w.end && w.end + 10.0 <= duration
    ensures ShiftWindow(ShiftWindow(w, 10.0, duration), -10.0, duration) == w
  {
    ShiftWindowMoves(w, 10.0, duration);
    ShiftWindowMoves(Window(w.start + 10.0, w.end + 10.0), -10.0, duration);
  }

  /** Forward from a window that ends a few seconds before the video ends leaves it inverted. */
  lemma ForwardPastTheEnd()
    ensures ShiftWindow(Window(115.0, 119.0), 10.0, 120.0) == Window(125.0, 120.0)
  {
  }

  /** `adjustLoopWithSeek` outside the window: a window of the same length centred on the seek. */
  function RecenterWindow(w: Window, seekTime: real, duration: real): Window {
    var half := (w.end - w.start) / 2.0;
    ClampWindow(seekTime - half, seekTime + half, duration)
  }

  /** Unclamped, the new window keeps the length and has the seek time at its middle. */
  lemma RecenterWindowCentres(w: Window, seekTime: real, duration: real)
    requires w.start < w.end
    requires 0.0 <= seekTime - (w.end - w.start) / 2.0 && seekTime + (w.end - w.start) / 2.0 <= duration
    ensures var r := RecenterWindow(w, seekTime, duration);
      r.end - r.start == w.end - w.start && (r.start + r.end) / 2.0 == seekTime
  {
  }

  // =====================================================================
  // Highlight

  /** The segment is on screen at `time`: `start <= time < start + duration`. */
  predicate Covers(segment: TranscriptSegment, time: real) {
    segment.startTime <= time < segment.startTime + segment.duration
  }

  /** `index` is the first segment covering `time`, or -1 when none does. */
  predicate IsActiveIndex(segments: seq<TranscriptSegment>, time: real, index: int) {
    if index == -1 then
      forall k :: 0 <= k < |segments| ==> !Covers(segments[k], time)
    else
      && 0 <= index < |segments| && Covers(segments[index], time)
      && forall k :: 0 <= k < index ==> !Covers(segments[k], time)
  }

  /** At most one index is the active one. */
  lemma ActiveIndexUnique(segments: seq<TranscriptSegment>, time: real, i: int, j: int)
    requires IsActiveIndex(segments, time, i) && IsActiveIndex(segments, time, j)
    ensures i == j
  {
    if i != -1 && j != -1 {
      assert !(i < j) && !(j < i);
    }
  }

  /** The `for`-with-`break` scan of `updateTranscriptHighlight`. */
  method FindActiveSegment(segments: seq<TranscriptSegment>, time: real) returns (index: int)
    ensures IsActiveIndex(segments, time, index)
  {
    index := -1;
    var i := 0;
    while i < |segments|
      invariant 0 <= i <= |segments|
      invariant index == -1
      invariant forall k :: 0 <= k < i ==> !Covers(segments[k], time)
    {
      if Covers(segments[i], time) {
        index := i;
        break;
      }
      i := i + 1;
    }
  }

  // =====================================================================
  // The activity

  datatype PlayerState = Playing | Paused | OtherState

  /** What a handler asks of the player. */
  datatype Request = NoRequest | SeekTo(seconds: real) | Play | Pause

  /**
    The outcome of the play button. An accepted id is always the video whose
    transcript is requested; `playerAsked` says whether a player was there to load it.
  */
  datatype PlayOutcome = EmptyUrl | InvalidUrl | LoadVideo(videoId: string, playerAsked: bool)

  class YouTubeLearningActivity {
    var playerReady: bool
    var currentVideoId: Option<string>
    var currentTranscript: Option<Transcript>
    var currentPlayTime: real
    var highlightedSegmentIndex: int
    var videoDuration: real
    var isPlaying: bool
    var isSeekBarTracking: bool
    var isLoopMode: bool
    var loopStartTime: real
    var loopEndTime: real
    var currentFontSize: real

    /**
      The loop start is never negative, the font size is a listed one, and
      the highlight is never below -1. It may still point past a transcript
      that has just replaced the one it was computed for.
    */
    ghost predicate Settled()
      reads this
    {
      && 0.0 <= loopStartTime
      && currentFontSize in FontSizes
      && -1 <= highlightedSegmentIndex
    }

    /** Settled, and the highlight is -1 or, with a transcript, one of its segments. */
    ghost predicate Valid()
      reads this
    {
      && Settled()
      && (currentTranscript.Some? ==> highlightedSegmentIndex < |currentTranscript.value.segments|)
    }

    function Loop(): Window
      reads this
    {
      Window(loopStartTime, loopEndTime)
    }

    constructor()
      ensures Valid()
      ensures !playerReady && currentVideoId.None? && currentTranscript.None?
      ensures currentPlayTime == 0.0 && highlightedSegmentIndex == -1 && videoDuration == 0.0
      ensures !isPlaying && !isSeekBarTracking && !isLoopMode
      ensures loopStartTime == 0.0 && loopEndTime == 0.0 && currentFontSize == 16.0
    {
      playerReady := false;
      currentVideoId := None;
      currentTranscript := None;
      currentPlayTime := 0.0;
      highlightedSegmentIndex := -1;
      videoDuration := 0.0;
      isPlaying := false;
      isSeekBarTracking := false;
      isLoopMode := false;
      loopStartTime := 0.0;
      loopEndTime := 0.0;
      currentFontSize := 16.0;
    }

    /** `onReady`: the player is available from now on. */
    method OnReady()
      requires Valid()
      modifies this`playerReady
      ensures Valid() && playerReady
    {
      playerReady := true;
    }

    /**
      `updateTranscriptHighlight`: with a transcript, the highlight becomes
      the first segment covering the clock (or -1); the text is redrawn
      exactly when that changes the highlight.
    */
    method UpdateTranscriptHighlight() returns (redrawn: bool)
      requires Settled()
      requires currentTranscript.None? ==> Valid()
      modifies this`highlightedSegmentIndex
      ensures Valid()
      ensures currentTranscript.None? ==> highlightedSegmentIndex == old(highlightedSegmentIndex)
      ensures currentTranscript.Some? ==>
        IsActiveIndex(currentTranscript.value.segments, currentPlayTime, highlightedSegmentIndex)
      ensures redrawn <==> highlightedSegmentIndex != old(highlightedSegmentIndex)
    {
      if currentTranscript.None? {
        return false;
      }
      var index := FindActiveSegment(currentTranscript.value.segments, currentPlayTime);
      if index == highlightedSegmentIndex {
        return false;
      }
      highlightedSegmentIndex := index;
      redrawn := true;
    }

    /**
      `onCurrentSecond`: records the clock, moves the highlight, and in loop
      mode asks for a seek back to the loop start once the clock reaches the
      loop end.
    */
    method OnCurrentSecond(second: real) returns (request: Request)
      requires Valid()
      modifies this`currentPlayTime, this`highlightedSegmentIndex
      ensures Valid() && currentPlayTime == second
      ensures currentTranscript.None? ==> highlightedSegmentIndex == old(highlightedSegmentIndex)
      ensures currentTranscript.Some? ==>
        IsActiveIndex(currentTranscript.value.segments, second, highlightedSegmentIndex)
      ensures request.SeekTo? <==> isLoopMode && second >= loopEndTime
      ensures request.SeekTo? ==> request.seconds == loopStartTime
      ensures !request.SeekTo? ==> request == NoRequest
    {
      currentPlayTime := second;
      var _ := UpdateTranscriptHighlight();
      if isLoopMode && currentPlayTime >= loopEndTime {
        request := SeekTo(loopStartTime);
      } else {
        request := NoRequest;
      }
    }

    /** `onVideoDuration` */
    method OnVideoDuration(duration: real)
      requires Valid()
      modifies this`videoDuration
      ensures Valid() && videoDuration == duration
    {
      videoDuration := duration;
    }

    /** `onStateChange`: only the playing and paused states are recorded. */
    method OnStateChange(state: PlayerState)
      requires Valid()
      modifies this`isPlaying
      ensures Valid()
      ensures isPlaying == (if state == Playing then true else if state == Paused then false else old(isPlaying))
    {
      if state == Playing {
        isPlaying := true;
      } else if state == Paused {
        isPlaying := false;
      }
    }

    /** Makes `videoId` the current video. */
    method ShowVideo(videoId: Option<string>)
      requires Valid()
      modifies this`currentVideoId
      ensures Valid() && currentVideoId == videoId
    {
      currentVideoId := videoId;
    }

    /**
      The play button: a trimmed URL that is empty, or from which no id can
      be extracted, is refused; otherwise its id becomes the current video,
      its transcript is requested, and the player, when there is one, loads it.
    */
    method PlayClicked(text: string) returns (outcome: PlayOutcome)
      requires Valid()
      modifies this`currentVideoId
      ensures Valid()
      ensures Trim(text) == [] ==> outcome == EmptyUrl && currentVideoId == old(currentVideoId)
      ensures Trim(text) != [] ==>
        var id := FirstNotNull(IdCandidates(Trim(text)), 0);
        if id.None? then outcome == InvalidUrl && currentVideoId == old(currentVideoId)
        else outcome == LoadVideo(id.value, playerReady) && currentVideoId == id
    {
      var url := Trim(text);
      if url == [] {
        outcome := EmptyUrl;
      } else {
        var videoId := ExtractVideoId(url);
        if videoId.None? {
          outcome := InvalidUrl;
        } else {
          ShowVideo(videoId);
          outcome := LoadVideo(videoId.value, playerReady);
        }
      }
    }

    /**
      The end of `loadTranscript`: a transcript replaces the current one and
      the highlight is recomputed for it, keeping the old index; the
      highlight is drawn only when that index changes. A missing transcript
      (or a failure) changes nothing.
    */
    method OnTranscriptLoaded(result: Option<Transcript>) returns (highlightDrawn: bool)
      requires Valid()
      modifies this`currentTranscript, this`highlightedSegmentIndex
      ensures Valid()
      ensures result.None? ==>
        currentTranscript == old(currentTranscript) && highlightedSegmentIndex == old(highlightedSegmentIndex)
        && !highlightDrawn
      ensures result.Some? ==>
        currentTranscript == result
        && IsActiveIndex(result.value.segments, currentPlayTime, highlightedSegmentIndex)
        && (highlightDrawn <==> highlightedSegmentIndex != old(highlightedSegmentIndex))
    {
      highlightDrawn := false;
      if result.Some? {
        currentTranscript := result;
        highlightDrawn := UpdateTranscriptHighlight();
      }
    }

    /** The play/pause button asks the player for the opposite of what it is doing. */
    method PlayPauseClicked() returns (request: Request)
      requires Valid()
      ensures !playerReady ==> request == NoRequest
      ensures playerReady ==> request == (if isPlaying then Pause else Play)
    {
      if !playerReady {
        return NoRequest;
      }
      request := if isPlaying then Pause else Play;
    }

    /** `toggleLoopMode`: switching on opens a window around the clock; switching off keeps the window. */
    method ToggleLoopMode()
      requires Valid()
      modifies this`isLoopMode, this`loopStartTime, this`loopEndTime
      ensures Valid()
      ensures isLoopMode == !old(isLoopMode)
      ensures isLoopMode ==> Loop() == ToggleWindow(currentPlayTime, videoDuration)
      ensures !isLoopMode ==> Loop() == old(Loop())
    {
      isLoopMode := !isLoopMode;
      if isLoopMode {
        loopStartTime := MaxReal(0.0, currentPlayTime - 5.0);
        loopEndTime := MinReal(videoDuration, currentPlayTime + 5.0);
      }
    }

    /** `cycleFontSize` */
    method CycleFontSize()
      requires Valid()
      modifies this`currentFontSize
      ensures Valid() && currentFontSize == NextFontSize(old(currentFontSize))
    {
      var currentIndex := IndexOf(FontSizes, currentFontSize);
      var nextIndex := (currentIndex + 1) % |FontSizes|;
      currentFontSize := FontSizes[nextIndex];
    }

    /** `updateLoopRange` */
    method UpdateLoopRange(newStartTime: real, newEndTime: real)
      requires Valid()
      modifies this`loopStartTime, this`loopEndTime
      ensures Valid()
      ensures Loop() == ClampWindow(newStartTime, newEndTime, videoDuration)
    {
      loopStartTime := MaxReal(0.0, newStartTime);
      loopEndTime := MinReal(videoDuration, newEndTime);
      if loopStartTime >= loopEndTime {
        loopEndTime := MinReal(videoDuration, loopStartTime + 1.0);
      }
    }

    /** `adjustLoopWithSeek`: in loop mode, a seek outside the window recentres it on the seek. */
    method AdjustLoopWithSeek(seekTime: real)
      requires Valid()
      modifies this`loopStartTime, this`loopEndTime
      ensures Valid()
      ensures isLoopMode && (seekTime < old(loopStartTime) || seekTime > old(loopEndTime)) ==>
        Loop() == RecenterWindow(old(Loop()), seekTime, videoDuration)
      ensures !isLoopMode || old(loopStartTime) <= seekTime <= old(loopEndTime) ==> Loop() == old(Loop())
    {
      if !isLoopMode {
        return;
      }
      if seekTime < loopStartTime || seekTime > loopEndTime {
        var currentDuration := loopEndTime - loopStartTime;
        var halfDuration := currentDuration / 2.0;
        UpdateLoopRange(seekTime - halfDuration, seekTime + halfDuration);
      }
    }

    /** `adjustLoopWithRewind`: in loop mode the window moves ten seconds back. */
    method AdjustLoopWithRewind()
      requires Valid()
      modifies this`loopStartTime, this`loopEndTime
      ensures Valid()
      ensures Loop() == if isLoopMode then ShiftWindow(old(Loop()), -10.0, videoDuration) else old(Loop())
    {
      if !isLoopMode {
        return;
      }
      var currentDuration := loopEndTime - loopStartTime;
      var newStartTime := loopStartTime - 10.0;
      var newEndTime := newStartTime + currentDuration;
      UpdateLoopRange(newStartTime, newEndTime);
    }

    /** `adjustLoopWithForward`: in loop mode the window moves ten seconds on. */
    method AdjustLoopWithForward()
      requires Valid()
      modifies this`loopStartTime, this`loopEndTime
      ensures Valid()
      ensures Loop() == if isLoopMode then ShiftWindow(old(Loop()), 10.0, videoDuration) else old(Loop())
    {
      if !isLoopMode {
        return;
      }
      var currentDuration := loopEndTime - loopStartTime;
      var newStartTime := loopStartTime + 10.0;
      var newEndTime := newStartTime + currentDuration;
      UpdateLoopRange(newStartTime, newEndTime);
    }

    /** The rewind button: shifts the window in loop mode, otherwise seeks ten seconds back (not before 0). */
    method RewindClicked() returns (request: Request)
      requires Valid()
      modifies this`loopStartTime, this`loopEndTime
      ensures Valid()
      ensures isLoopMode ==> request == NoRequest && Loop() == ShiftWindow(old(Loop()), -10.0, videoDuration)
      ensures !isLoopMode ==>
        && Loop() == old(Loop())
        && request == (if playerReady then SeekTo(MaxReal(0.0, currentPlayTime - 10.0)) else NoRequest)
    {
      if isLoopMode {
        AdjustLoopWithRewind();
        return NoRequest;
      }
      request := if playerReady then SeekTo(MaxReal(0.0, currentPlayTime - 10.0)) else NoRequest;
    }

    /** The forward button: shifts the window in loop mode, otherwise seeks ten seconds on (not past the end). */
    method ForwardClicked() returns (request: Request)
      requires Valid()
      modifies this`loopStartTime, this`loopEndTime
      ensures Valid()
      ensures isLoopMode ==> request == NoRequest && Loop() == ShiftWindow(old(Loop()), 10.0, videoDuration)
      ensures !isLoopMode ==>
        && Loop() == old(Loop())
        && request == (if playerReady then SeekTo(MinReal(videoDuration, currentPlayTime + 10.0)) else NoRequest)
    {
      if isLoopMode {
        AdjustLoopWithForward();
        return NoRequest;
      }
      request := if playerReady then SeekTo(MinReal(videoDuration, currentPlayTime + 10.0)) else NoRequest;
    }

    /** `onStartTrackingTouch` */
    method SeekBarTouched()
      requires Valid()
      modifies this`isSeekBarTracking
      ensures Valid() && isSeekBarTracking
    {
      isSeekBarTracking := true;
    }

    /** `onStopTrackingTouch`: seeks to the bar's whole-second position and adjusts the loop window to it. */
    method SeekBarReleased(progress: int) returns (request: Request)
      requires Valid()
      modifies this`isSeekBarTracking, this`loopStartTime, this`loopEndTime
      ensures Valid() && !isSeekBarTracking
      ensures request == (if playerReady then SeekTo(progress as real) else NoRequest)
      ensures isLoopMode && (progress as real < old(loopStartTime) || progress as real > old(loopEndTime)) ==>
        Loop() == RecenterWindow(old(Loop()), progress as real, videoDuration)
      ensures !isLoopMode || old(loopStartTime) <= progress as real <= old(loopEndTime) ==> Loop() == old(Loop())
    {
      isSeekBarTracking := false;
      var seekTime := progress as real;
      request := if playerReady then SeekTo(seekTime) else NoRequest;
      AdjustLoopWithSeek(seekTime);
    }

    /** `clearTranscript`: back to the state of a fresh screen, keeping the font size and the player. */
    method ClearTranscript()
      requires Valid()
      modifies this`currentTranscript, this`currentVideoId, this`currentPlayTime, this`highlightedSegmentIndex,
        this`videoDuration, this`isPlaying, this`isSeekBarTracking, this`isLoopMode, this`loopStartTime,
        this`loopEndTime
      ensures Valid()
      ensures currentTranscript.None? && currentVideoId.None?
      ensures currentPlayTime == 0.0 && highlightedSegmentIndex == -1 && videoDuration == 0.0
      ensures !isPlaying && !isSeekBarTracking && !isLoopMode
      ensures loopStartTime == 0.0 && loopEndTime == 0.0
    {
      currentTranscript := None;
      currentVideoId := None;
      currentPlayTime := 0.0;
      highlightedSegmentIndex := -1;
      videoDuration := 0.0;
      isPlaying := false;
      isSeekBarTracking := false;
      isLoopMode := false;
      loopStartTime := 0.0;
      loopEndTime := 0.0;
    }
  }
}
