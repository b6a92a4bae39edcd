/**
  The offline part of the transcript acquisition pipeline: pulling the
  InnerTube API key out of a watch page, choosing the English caption
  track from the player response, and parsing an srv3 timed-text document
  into a transcript sorted by start time. The HTTP requests around these
  steps are not modelled; their results are the inputs here.
*/
module TranscriptService {
  import opened KotlinText
  import opened Regex

  datatype TranscriptSegment = TranscriptSegment(startTime: real, duration: real, text: string)

  datatype Transcript = Transcript(languageName: string, languageCode: string, segments: seq<TranscriptSegment>)

  // =====================================================================
  // API key extraction

  /** The key names of the four patterns, in the order they are tried. */
  const ApiKeyNames: seq<string> :=
    ["\"innertubeApiKey\"", "\"INNERTUBE_API_KEY\"", "innertubeApiKey\"", "INNERTUBE_API_KEY\""]

  /** What follows the key name in every pattern: `\s*:\s*"([^"]+)"`. */
  const KeyTail: seq<Element> :=
    [Run(Space, false, false), Lit(":"), Run(Space, false, false), Lit("\""), Run(NoneOf('"'), true, true), Lit("\"")]

  function KeyPattern(name: string): Pattern {
    Pattern([Lit(name)] + KeyTail, false)
  }

  /** A key pattern has one group, a run of non-quote characters. */
  lemma KeyPatternShape(name: string)
    ensures GroupCount(KeyPattern(name).elements) == 1
    ensures RunGroupsOf(KeyPattern(name).elements, NoneOf('"'), true)
  {
    var elements := KeyPattern(name).elements;
    assert elements[1..] == KeyTail;
    assert GroupCount(KeyTail) == 1;
  }

  /** What `matcher.group(1)` holds after the first successful `find()`, if any. */
  function FirstKeyMatch(html: string, name: string): (r: Option<string>)
    ensures r.Some? ==> r.value != [] && '"' !in r.value
  {
    match Find(html, 0, KeyPattern(name))
    case None => None
    case Some(m) =>
      FindMatchesAt(html, 0, KeyPattern(name));
      KeyPatternShape(name);
      RunGroupsInClass(html, m.start, KeyPattern(name).elements, false, NoneOf('"'), true);
      assert m.groups[0] in m.groups;
      Some(m.groups[0])
  }

  /** A pattern's outcome is used when its first match carries a non-blank key. */
  function UsableKey(key: Option<string>): (r: Option<string>)
    ensures r.Some? <==> key.Some? && !IsBlank(key.value)
    ensures r.Some? ==> r == key
  {
    if key.Some? && !IsBlank(key.value) then key else None
  }

  /** What each pattern contributes, in the order the patterns are tried. */
  function KeyCandidates(html: string): (r: seq<Option<string>>)
    ensures |r| == |ApiKeyNames|
  {
    seq(|ApiKeyNames|, i requires 0 <= i < |ApiKeyNames| => UsableKey(FirstKeyMatch(html, ApiKeyNames[i])))
  }

  /**
    Tries the patterns in order; the first whose first match carries a
    non-blank key gives the result. A blank key sends the search on to the
    next pattern, never to a later match of the same pattern.
  */
  method ExtractInnerTubeApiKey(html: string) returns (apiKey: Option<string>)
    ensures apiKey == FirstNotNull(KeyCandidates(html), 0)
    ensures apiKey.Some? ==> !IsBlank(apiKey.value) && '"' !in apiKey.value
  {
    ghost var candidates := KeyCandidates(html);
    for p := 0 to |ApiKeyNames|
      invariant FirstNotNull(candidates, p) == FirstNotNull(candidates, 0)
    {
      var key := FirstKeyMatch(html, ApiKeyNames[p]);
      assert UsableKey(key) == candidates[p];
      if key.Some? && !IsBlank(key.value) {
        return key;
      }
    }
    return None;
  }

  /**
    A key pattern without the opening quote matches wherever the quoted one
    does (one character later), so whenever the quoted pattern finds a key
    the unquoted one finds one too, possibly at an earlier position.
  */
  lemma UnquotedPatternMatchesToo(html: string, name: string)
    requires FirstKeyMatch(html, "\"" + name).Some?
    ensures FirstKeyMatch(html, name).Some?
  {
    FindMatchesAt(html, 0, KeyPattern("\"" + name));
    var i := Find(html, 0, KeyPattern("\"" + name)).value.start;
    assert KeyPattern("\"" + name) == Pattern([Lit(['"'] + name)] + KeyTail, false);
    DropLeadingChar(html, i, '"', name, KeyTail, false);
    FindLeftmost(html, 0, KeyPattern(name), i + 1);
  }

  /** The third and fourth patterns are the first and second without their opening quote. */
  lemma LaterPatternsDropTheQuote()
    ensures ApiKeyNames[0] == "\"" + ApiKeyNames[2] && ApiKeyNames[1] == "\"" + ApiKeyNames[3]
  {
  }

  // =====================================================================
  // Caption track selection

  /** A parsed JSON value; a number keeps the text the JSON library renders it as. */
  datatype Json =
    | JNull
    | JBool(b: bool)
    | JNumber(literal: string)
    | JString(str: string)
    | JArray(items: seq<Json>)
    | JObject(members: map<string, Json>)

  /** `JSONObject.optJSONObject(name)`: the member when it is an object. */
  function OptJSONObject(o: map<string, Json>, name: string): Option<map<string, Json>> {
    if name in o && o[name].JObject? then Some(o[name].members) else None
  }

  /** `JSONObject.optJSONArray(name)`: the member when it is an array. */
  function OptJSONArray(o: map<string, Json>, name: string): Option<seq<Json>> {
    if name in o && o[name].JArray? then Some(o[name].items) else None
  }

  /**
    The text `toString()` gives a member value. For an array or an object only
    the opening bracket of its JSON text is kept.
  */
  function JsonText(v: Json): (r: string)
    ensures v.JString? || v.JNumber? || r != []
  {
    match v
    case JNull => "null"
    case JBool(b) => if b then "true" else "false"
    case JNumber(literal) => literal
    case JString(s) => s
    case JArray(_) => "["
    case JObject(_) => "{"
  }

  /** `JSONObject.optString(name, fallback)`. */
  function OptString(o: map<string, Json>, name: string, fallback: string): string {
    if name in o then JsonText(o[name]) else fallback
  }

  /** `captions → playerCaptionsTracklistRenderer → captionTracks`, each step present with the right type. */
  function CaptionTracks(response: Json): Option<seq<Json>> {
    if !response.JObject? then None
    else match OptJSONObject(response.members, "captions")
      case None => None
      case Some(captions) =>
        match OptJSONObject(captions, "playerCaptionsTracklistRenderer")
        case None => None
        case Some(renderer) => OptJSONArray(renderer, "captionTracks")
  }

  predicate IsEnglishTrack(track: map<string, Json>) {
    StartsWith(OptString(track, "languageCode", ""), "en") && OptString(track, "baseUrl", "") != []
  }

  /**
    Track `i` is the one the loop returns: it is English with a URL, and every
    earlier element is an object that is not (an element that is not an object
    makes `getJSONObject` throw, and the whole parse yields null).
  */
  predicate ChosenAt(tracks: seq<Json>, i: nat) {
    && i < |tracks|
    && tracks[i].JObject? && IsEnglishTrack(tracks[i].members)
    && forall j :: 0 <= j < i ==> tracks[j].JObject? && !IsEnglishTrack(tracks[j].members)
  }

  /** The caption-track walk of `parseInnerTubeCaptionsData`, returning the URL it would fetch. */
  method SelectEnglishTrack(response: Json) returns (baseUrl: Option<string>)
    ensures CaptionTracks(response).None? ==> baseUrl.None?
    ensures baseUrl.Some? ==> (
      && baseUrl.value != []
      && exists i: nat :: ChosenAt(CaptionTracks(response).value, i)
           && baseUrl.value == OptString(CaptionTracks(response).value[i].members, "baseUrl", ""))
    ensures CaptionTracks(response).Some? && baseUrl.None? ==>
      forall i :: 0 <= i < |CaptionTracks(response).value| ==> !ChosenAt(CaptionTracks(response).value, i)
  {
    if !response.JObject? {
      return None;
    }
    var captions := OptJSONObject(response.members, "captions");
    if captions.None? {
      return None;
    }
    var renderer := OptJSONObject(captions.value, "playerCaptionsTracklistRenderer");
    if renderer.None? {
      return None;
    }
    var captionTracks := OptJSONArray(renderer.value, "captionTracks");
    if captionTracks.None? {
      return None;
    }
    var tracks := captionTracks.value;
    for i := 0 to |tracks|
      invariant forall j :: 0 <= j < i ==> tracks[j].JObject? && !IsEnglishTrack(tracks[j].members)
    {
      if !tracks[i].JObject? {
        return None;
      }
      var track := tracks[i].members;
      var languageCode := OptString(track, "languageCode", "");
      var url := OptString(track, "baseUrl", "");
      if StartsWith(languageCode, "en") && url != [] {
        assert ChosenAt(tracks, i);
        return Some(url);
      }
    }
    return None;
  }

  // =====================================================================
  // srv3 timed text

  /** `<p t="([^"]+)" d="([^"]+)"[^>]*>(.*?)</p>` with CASE_INSENSITIVE and DOTALL. */
  const ParagraphPattern: Pattern := Pattern(
    [ Lit("<p t=\""), Run(NoneOf('"'), true, true), Lit("\" d=\""), Run(NoneOf('"'), true, true), Lit("\""),
      Run(NoneOf('>'), false, false), Lit(">"), LazyUntil("</p>") ],
    true)

  /** `<s[^>]*>([^<]*)</s>` with CASE_INSENSITIVE. */
  const SpanPattern: Pattern := Pattern(
    [Lit("<s"), Run(NoneOf('>'), false, false), Lit(">"), Run(NoneOf('<'), false, true), Lit("</s>")],
    true)

  lemma ParagraphPatternShape()
    ensures GroupCount(ParagraphPattern.elements) == 3 && MinLength(ParagraphPattern.elements) > 0
  {
  }

  lemma SpanPatternShape()
    ensures GroupCount(SpanPattern.elements) == 1 && MinLength(SpanPattern.elements) > 0
    ensures RunGroupsOf(SpanPattern.elements, NoneOf('<'), false)
  {
  }

  /** The bodies of the span matches found from `from` on, in order. */
  function SpanBodies(content: string, from: nat): seq<string>
    requires from <= |content|
    decreases |content| - from
  {
    match Find(content, from, SpanPattern)
    case None => []
    case Some(m) =>
      SpanPatternShape();
      [m.groups[0]] + SpanBodies(content, m.end)
  }

  function Concat(parts: seq<string>): string {
    if parts == [] then [] else parts[0] + Concat(parts[1..])
  }

  /** Span bodies exclude `<`, so the raw text assembled from them never holds markup. */
  lemma {:induction false} SpanTextNoMarkup(content: string, from: nat)
    requires from <= |content|
    ensures '<' !in Concat(SpanBodies(content, from))
    decreases |content| - from
  {
    match Find(content, from, SpanPattern)
    case None =>
    case Some(m) =>
      SpanPatternShape();
      FindMatchesAt(content, from, SpanPattern);
      SpanTextNoMarkup(content, m.end);
      RunGroupsInClass(content, m.start, SpanPattern.elements, true, NoneOf('<'), false);
      var body := m.groups[0];
      assert body in m.groups;
      assert '<' !in body by {
        forall k | 0 <= k < |body| ensures body[k] != '<' {
          assert InClass(NoneOf('<'), body[k]);
        }
      }
      assert SpanBodies(content, from) == [body] + SpanBodies(content, m.end);
  }

  /** Text outside the spans is discarded: a body in which no span opens yields no text. */
  lemma NoSpanNoText(content: string)
    requires forall j :: 0 <= j <= |content| ==> !LiteralAt(content, j, "<s", true)
    ensures SpanBodies(content, 0) == []
  {
    forall j | 0 <= j <= |content| ensures MatchAt(content, j, SpanPattern).None? {
      assert SpanPattern.elements[0] == Lit("<s");
      assert Step(content, j, Lit("<s"), true).None?;
    }
    FindNone(content, 0, SpanPattern);
  }

  /** A span match `m` contributes its body ahead of the later spans. */
  lemma SpanContributes(content: string, from: nat, m: Match)
    requires from <= |content| && Find(content, from, SpanPattern) == Some(m)
    ensures |m.groups| == 1 && from < m.end <= |content|
    ensures Concat(SpanBodies(content, from)) == m.groups[0] + Concat(SpanBodies(content, m.end))
  {
    SpanPatternShape();
  }

  /** One turn of the span loop, after it has assembled `done`. */
  lemma SpanBodiesStep(content: string, from: nat, m: Match, done: string)
    requires from <= |content| && Find(content, from, SpanPattern) == Some(m)
    ensures |m.groups| == 1 && from < m.end <= |content|
    ensures done + Concat(SpanBodies(content, from)) == (done + m.groups[0]) + Concat(SpanBodies(content, m.end))
  {
    SpanContributes(content, from, m);
  }

  /** The `StringBuilder` loop: the bodies of all `<s …>…</s>` spans, concatenated in order. */
  method SpanText(content: string) returns (text: string)
    ensures text == Concat(SpanBodies(content, 0))
    ensures '<' !in text
  {
    text := [];
    var pos := 0;
    while true
      invariant pos <= |content|
      invariant text + Concat(SpanBodies(content, pos)) == Concat(SpanBodies(content, 0))
      decreases |content| - pos
    {
      var found := Find(content, pos, SpanPattern);
      if found.None? {
        break;
      }
      var m := found.value;
      SpanBodiesStep(content, pos, m, text);
      text := text + m.groups[0];
      pos := m.end;
    }
    SpanTextNoMarkup(content, 0);
  }

  /** The entity replacements, in the order the source applies them. */
  const Entities: seq<(string, string)> :=
    [("&amp;", "&"), ("&lt;", "<"), ("&gt;", ">"), ("&quot;", "\""), ("&#39;", "'"), ("&apos;", "'")]

  predicate NonEmptyTargets(replacements: seq<(string, string)>) {
    forall k :: 0 <= k < |replacements| ==> replacements[k].0 != []
  }

  /** Applies `String.replace` once per pair, in order. */
  function ReplaceEach(s: string, replacements: seq<(string, string)>): string
    requires NonEmptyTargets(replacements)
    decreases |replacements|
  {
    if replacements == [] then s
    else ReplaceEach(Replace(s, replacements[0].0, replacements[0].1), replacements[1..])
  }

  function Unescape(s: string): string {
    ReplaceEach(s, Entities)
  }

  /** Unescape, collapse `\s+` to one space, trim. */
  function CleanCaptionText(raw: string): string {
    Trim(ReplaceRuns(Unescape(raw), IsRegexSpace))
  }

  /** Non-blank, no whitespace at either end, no `\s` other than single spaces. */
  predicate IsCleanText(s: string) {
    s != [] && !IsWhitespace(s[0]) && !IsWhitespace(s[|s| - 1]) && SpacesCollapsed(s)
  }

  /** The raw text of a paragraph body: its span bodies, concatenated. */
  function RawText(content: string): string {
    Concat(SpanBodies(content, 0))
  }

  /** Milliseconds to seconds. */
  function Seconds(ms: int): real {
    ms as real / 1000.0
  }

  /** The segment a paragraph with attributes `t` and `d` and raw span text `raw` contributes, if any. */
  function SegmentOf(t: string, d: string, raw: string): Option<TranscriptSegment> {
    var startMs := ParseLong(t);
    var durationMs := ParseLong(d);
    var text := CleanCaptionText(raw);
    if startMs.None? || durationMs.None? || IsBlank(text) then None
    else Some(TranscriptSegment(Seconds(startMs.value), Seconds(durationMs.value), text))
  }

  /**
    The body of the paragraph loop for one match, given `group(1)`,
    `group(2)` and the text its span loop assembled from `group(3)`.
  */
  method ParagraphSegment(t: string, d: string, raw: string) returns (segment: Option<TranscriptSegment>)
    ensures segment == SegmentOf(t, d, raw)
    ensures segment.Some? ==> IsCleanText(segment.value.text)
  {
    var startTimeMs := ParseLong(t);
    if startTimeMs.None? {
      return None;
    }
    var durationMs := ParseLong(d);
    if durationMs.None? {
      return None;
    }
    var text := CleanCaptionText(raw);
    if IsBlank(text) {
      return None;
    }
    CleanCaptionTextShape(raw);
    return Some(TranscriptSegment(Seconds(startTimeMs.value), Seconds(durationMs.value), text));
  }

  function OptionList<T>(o: Option<T>): seq<T> {
    match o
    case None => []
    case Some(x) => [x]
  }

  /** The segments the paragraph loop collects from index `from` on, in document order. */
  function ParsedSegmentsFrom(xml: string, from: nat): seq<TranscriptSegment>
    requires from <= |xml|
    decreases |xml| - from
  {
    match Find(xml, from, ParagraphPattern)
    case None => []
    case Some(m) =>
      ParagraphPatternShape();
      OptionList(SegmentOf(m.groups[0], m.groups[1], RawText(m.groups[2]))) + ParsedSegmentsFrom(xml, m.end)
  }

  /** A paragraph match `m` contributes its segment, if any, ahead of the later paragraphs. */
  lemma ParagraphContributes(xml: string, from: nat, m: Match)
    requires from <= |xml| && Find(xml, from, ParagraphPattern) == Some(m)
    ensures |m.groups| == 3 && from < m.end <= |xml|
    ensures ParsedSegmentsFrom(xml, from)
      == OptionList(SegmentOf(m.groups[0], m.groups[1], RawText(m.groups[2]))) + ParsedSegmentsFrom(xml, m.end)
  {
    ParagraphPatternShape();
  }

  /** One turn of the paragraph loop, after it has collected `done`. */
  lemma ParsedSegmentsStep(xml: string, from: nat, m: Match, done: seq<TranscriptSegment>)
    requires from <= |xml| && Find(xml, from, ParagraphPattern) == Some(m)
    ensures |m.groups| == 3 && from < m.end <= |xml|
    ensures done + ParsedSegmentsFrom(xml, from)
      == (done + OptionList(SegmentOf(m.groups[0], m.groups[1], RawText(m.groups[2])))) + ParsedSegmentsFrom(xml, m.end)
  {
    ParagraphContributes(xml, from, m);
  }

  function ParsedSegments(xml: string): seq<TranscriptSegment> {
    ParsedSegmentsFrom(xml, 0)
  }

  /** The paragraph loop of `parseTranscriptXml`, in document order. */
  method CollectSegments(xml: string) returns (segments: seq<TranscriptSegment>)
    ensures segments == ParsedSegments(xml)
  {
    segments := [];
    var pos := 0;
    while true
      invariant pos <= |xml|
      invariant segments + ParsedSegmentsFrom(xml, pos) == ParsedSegments(xml)
      decreases |xml| - pos
    {
      var found := Find(xml, pos, ParagraphPattern);
      if found.None? {
        break;
      }
      var m := found.value;
      ParsedSegmentsStep(xml, pos, m, segments);
      var raw := SpanText(m.groups[2]);
      var segment := ParagraphSegment(m.groups[0], m.groups[1], raw);
      segments := segments + OptionList(segment);
      pos := m.end;
    }
  }

  /**
    `parseTranscriptXml`: collects a segment per paragraph whose times parse
    and whose text is not blank, then sorts them by start time; no segment
    means no transcript.
  */
  method ParseTranscriptXml(xml: string) returns (transcript: Option<Transcript>)
    ensures transcript.None? <==> ParsedSegments(xml) == []
    ensures transcript.Some? ==>
      && transcript.value.languageName == "English" && transcript.value.languageCode == "en"
      && transcript.value.segments == SortByStart(ParsedSegments(xml))
    ensures transcript.Some? ==>
      && SortedByStart(transcript.value.segments)
      && multiset(transcript.value.segments) == multiset(ParsedSegments(xml))
      && forall k :: 0 <= k < |transcript.value.segments| ==> IsCleanText(transcript.value.segments[k].text)
  {
    var segments := CollectSegments(xml);
    if segments == [] {
      transcript := None;
    } else {
      ParsedSegmentsClean(xml, 0);
      SortedTranscriptClean(segments);
      transcript := Some(Transcript("English", "en", SortByStart(segments)));
    }
  }

  // ---------------------------------------------------------------------
  // Properties of the parsed text

  /** The cleaned text of any paragraph is either empty or clean. */
  lemma CleanCaptionTextShape(raw: string)
    ensures CleanCaptionText(raw) == [] || IsCleanText(CleanCaptionText(raw))
  {
    var u := Unescape(raw);
    ReplaceSpaceRunsCollapses(u);
    TrimKeepsCollapsed(ReplaceRuns(u, IsRegexSpace));
  }

  /** A paragraph contributes a segment only with clean text. */
  lemma SegmentOfClean(t: string, d: string, raw: string)
    ensures SegmentOf(t, d, raw).Some? ==> IsCleanText(SegmentOf(t, d, raw).value.text)
  {
    CleanCaptionTextShape(raw);
  }

  /** Every segment the parser collects carries clean text. */
  lemma {:induction false} ParsedSegmentsClean(xml: string, from: nat)
    requires from <= |xml|
    ensures CleanTexts(ParsedSegmentsFrom(xml, from))
    decreases |xml| - from
  {
    match Find(xml, from, ParagraphPattern)
    case None =>
    case Some(m) =>
      ParagraphContributes(xml, from, m);
      var head := OptionList(SegmentOf(m.groups[0], m.groups[1], RawText(m.groups[2])));
      var rest := ParsedSegmentsFrom(xml, m.end);
      SegmentOfClean(m.groups[0], m.groups[1], RawText(m.groups[2]));
      ParsedSegmentsClean(xml, m.end);
      CleanTextsAppend(head, rest);
  }

  /** Every segment of `segments` carries clean text. */
  predicate CleanTexts(segments: seq<TranscriptSegment>) {
    forall k :: 0 <= k < |segments| ==> IsCleanText(segments[k].text)
  }

  /** Joining two lists of clean segments gives a list of clean segments. */
  lemma CleanTextsAppend(a: seq<TranscriptSegment>, b: seq<TranscriptSegment>)
    requires CleanTexts(a) && CleanTexts(b)
    ensures CleanTexts(a + b)
  {
    forall k | 0 <= k < |a + b| ensures IsCleanText((a + b)[k].text) {
      if k >= |a| { assert (a + b)[k] == b[k - |a|]; }
    }
  }

  /** Sorting keeps the parsed segments, in start order, each with clean text. */
  lemma SortedTranscriptClean(segments: seq<TranscriptSegment>)
    requires forall k :: 0 <= k < |segments| ==> IsCleanText(segments[k].text)
    ensures SortedByStart(SortByStart(segments)) && multiset(SortByStart(segments)) == multiset(segments)
    ensures forall k :: 0 <= k < |SortByStart(segments)| ==> IsCleanText(SortByStart(segments)[k].text)
  {
    SortByStartSortedPermutation(segments);
    var sorted := SortByStart(segments);
    forall k | 0 <= k < |sorted| ensures IsCleanText(sorted[k].text) {
      assert sorted[k] in multiset(segments);
      var j :| 0 <= j < |segments| && segments[j] == sorted[k];
    }
  }

  /**
    A paragraph whose attributes are the decimal renderings of two Long
    millisecond values yields those values divided by 1000, with its cleaned
    span text, unless that text is blank.
  */
  lemma SegmentOfDecimalTimes(startMs: int, durationMs: int, raw: string)
    requires MinLong <= startMs <= MaxLong && MinLong <= durationMs <= MaxLong
    ensures var seg := SegmentOf(Decimal(startMs), Decimal(durationMs), raw);
      var text := CleanCaptionText(raw);
      && (seg.Some? <==> !IsBlank(text))
      && (seg.Some? ==> (
           && seg.value.startTime * 1000.0 == startMs as real
           && seg.value.duration * 1000.0 == durationMs as real
           && seg.value.text == text))
  {
    ParseLongDecimal(startMs);
    ParseLongDecimal(durationMs);
  }

  /** A paragraph attribute that is not a decimal Long keeps the paragraph out of the transcript. */
  lemma SegmentOfBadTime(t: string, d: string, raw: string)
    requires ParseLong(t).None? || ParseLong(d).None?
    ensures SegmentOf(t, d, raw).None?
  {
  }

  /** Text holding no first character of any target is left unchanged. */
  lemma {:induction false} ReplaceEachAbsent(s: string, replacements: seq<(string, string)>)
    requires NonEmptyTargets(replacements)
    requires forall k :: 0 <= k < |replacements| ==> replacements[k].0[0] !in s
    ensures ReplaceEach(s, replacements) == s
    decreases |replacements|
  {
    if replacements != [] {
      ReplaceAbsent(s, replacements[0].0, replacements[0].1);
      ReplaceEachAbsent(s, replacements[1..]);
    }
  }

  /** `&amp;` is replaced first, so a doubly escaped `&amp;lt;` comes out as `<`. */
  lemma UnescapeAmpersandFirst()
    ensures Unescape("&amp;lt;") == "<"
  {
    var s := "&amp;lt;";
    assert s[..5] == "&amp;";
    assert Replace(s[5..], "&amp;", "&") == "lt;";
    assert Replace(s, "&amp;", "&") == "&lt;";
    var s1 := "&lt;";
    assert s1[..4] == "&lt;";
    assert Replace(s1, "&lt;", "<") == "<";
    ReplaceEachAbsent("<", Entities[2..]);
    calc {
      Unescape(s);
      ReplaceEach(s1, Entities[1..]);
      { assert Entities[1..][1..] == Entities[2..]; }
      ReplaceEach("<", Entities[2..]);
    }
  }

  /** Applying the first `k` replacements and then the rest is applying them all. */
  lemma {:induction false} ReplaceEachSplit(s: string, replacements: seq<(string, string)>, k: nat)
    requires NonEmptyTargets(replacements) && k <= |replacements|
    ensures NonEmptyTargets(replacements[..k]) && NonEmptyTargets(replacements[k..])
    ensures ReplaceEach(s, replacements) == ReplaceEach(ReplaceEach(s, replacements[..k]), replacements[k..])
    decreases k
  {
    if k > 0 {
      var first := Replace(s, replacements[0].0, replacements[0].1);
      ReplaceEachSplit(first, replacements[1..], k - 1);
      assert replacements[1..][..k - 1] == replacements[..k][1..];
      assert replacements[1..][k - 1..] == replacements[k..];
    }
  }

  /** Text in which no target occurs is left unchanged. */
  lemma {:induction false} ReplaceEachNoOccurrence(s: string, replacements: seq<(string, string)>)
    requires NonEmptyTargets(replacements)
    requires forall k: nat, i: nat :: k < |replacements| ==> !OccursAt(s, i, replacements[k].0)
    ensures ReplaceEach(s, replacements) == s
    decreases |replacements|
  {
    if replacements != [] {
      ReplaceNoOccurrence(s, replacements[0].0, replacements[0].1);
      ReplaceEachNoOccurrence(s, replacements[1..]);
    }
  }

  /** An entity: an ampersand, then characters that are neither `&` nor `;`, then a semicolon. */
  predicate EntityShaped(e: string) {
    && |e| >= 2 && e[0] == '&' && e[|e| - 1] == ';'
    && forall m :: 0 < m < |e| - 1 ==> e[m] != '&' && e[m] != ';'
  }

  /** One entity occurs inside another only as the whole of it. */
  lemma EntityOccursOnlyWhole(e: string, t: string, i: nat)
    requires EntityShaped(e) && EntityShaped(t) && OccursAt(e, i, t)
    ensures i == 0 && t == e
  {
    assert e[i] == t[0] by { assert e[i..i + |t|][0] == e[i]; }
    var last := i + |t| - 1;
    assert e[last] == t[|t| - 1] by { assert e[i..i + |t|][|t| - 1] == e[last]; }
  }

  /**
   * In a list of distinct entities, each replaced by a single character, an entity on its
   * own becomes its character: no earlier entity occurs in it, and no later one in the character.
   */
  lemma ReplaceEachEntity(replacements: seq<(string, string)>, k: nat)
    requires k < |replacements| && NonEmptyTargets(replacements)
    requires forall j :: 0 <= j < |replacements| ==> EntityShaped(replacements[j].0) && |replacements[j].1| == 1
    requires forall j, m :: 0 <= j < m < |replacements| ==> replacements[j].0 != replacements[m].0
    ensures ReplaceEach(replacements[k].0, replacements) == replacements[k].1
  {
    var (e, c) := replacements[k];
    ReplaceEachSplit(e, replacements, k);
    forall j: nat, i: nat | j < |replacements[..k]| ensures !OccursAt(e, i, replacements[..k][j].0) {
      assert replacements[..k][j] == replacements[j];
      if OccursAt(e, i, replacements[j].0) {
        EntityOccursOnlyWhole(e, replacements[j].0, i);
      }
    }
    ReplaceEachNoOccurrence(e, replacements[..k]);
    var rest := replacements[k..];
    ReplaceEachSplit(e, rest, 1);
    assert rest[..1] == [(e, c)];
    ReplaceAfterPlain([], e, c, []);
    assert [] + e + [] == e && Replace([], e, c) == [];
    assert ReplaceEach(e, [(e, c)]) == ReplaceEach(c, []) == c;
    forall j: nat, i: nat | j < |rest[1..]| ensures !OccursAt(c, i, rest[1..][j].0) {
      assert rest[1..][j] == replacements[k + 1 + j];
    }
    ReplaceEachNoOccurrence(c, rest[1..]);
  }

  /** Each entity on its own unescapes to its character. */
  lemma UnescapeEntity(k: nat)
    requires k < |Entities|
    ensures Unescape(Entities[k].0) == Entities[k].1
  {
    ReplaceEachEntity(Entities, k);
  }

  /** Text without an ampersand has no entity to replace. */
  lemma UnescapePlainText(s: string)
    requires '&' !in s
    ensures Unescape(s) == s
  {
    ReplaceEachAbsent(s, Entities);
  }

  // ---------------------------------------------------------------------
  // sortedBy { it.startTime }

  predicate SortedByStart(s: seq<TranscriptSegment>) {
    forall i, j :: 0 <= i < j < |s| ==> s[i].startTime <= s[j].startTime
  }

  /** Inserts `x` before the first element that does not start earlier than it. */
  function InsertByStart(x: TranscriptSegment, s: seq<TranscriptSegment>): seq<TranscriptSegment> {
    if s == [] || x.startTime <= s[0].startTime then [x] + s
    else [s[0]] + InsertByStart(x, s[1..])
  }

  /** A stable sort by start time (insertion sort from the back). */
  function SortByStart(s: seq<TranscriptSegment>): seq<TranscriptSegment> {
    if s == [] then [] else InsertByStart(s[0], SortByStart(s[1..]))
  }

  /** Inserting adds exactly `x`. */
  lemma {:induction false} InsertByStartPermutation(x: TranscriptSegment, s: seq<TranscriptSegment>)
    ensures multiset(InsertByStart(x, s)) == multiset(s) + multiset{x}
  {
    if s != [] && x.startTime > s[0].startTime {
      InsertByStartPermutation(x, s[1..]);
      assert s == [s[0]] + s[1..];
    }
  }

  /** No segment of `s` starts before `lo`. */
  predicate StartsFrom(s: seq<TranscriptSegment>, lo: real) {
    forall k :: 0 <= k < |s| ==> lo <= s[k].startTime
  }

  lemma SortedTail(s: seq<TranscriptSegment>)
    requires s != [] && SortedByStart(s)
    ensures SortedByStart(s[1..]) && StartsFrom(s, s[0].startTime)
  {
    var tail := s[1..];
    forall i, j | 0 <= i < j < |tail| ensures tail[i].startTime <= tail[j].startTime {
      assert tail[i] == s[i + 1] && tail[j] == s[j + 1];
    }
  }

  lemma SortedCons(y: TranscriptSegment, s: seq<TranscriptSegment>)
    requires SortedByStart(s) && StartsFrom(s, y.startTime)
    ensures SortedByStart([y] + s)
  {
    var r := [y] + s;
    forall i, j | 0 <= i < j < |r| ensures r[i].startTime <= r[j].startTime {
      assert r[j] == s[j - 1];
      if i > 0 {
        assert r[i] == s[i - 1];
      }
    }
  }

  /** Inserting an element that starts no earlier than `lo` keeps the bound. */
  lemma {:induction false} InsertByStartFrom(x: TranscriptSegment, s: seq<TranscriptSegment>, lo: real)
    requires lo <= x.startTime && StartsFrom(s, lo)
    ensures StartsFrom(InsertByStart(x, s), lo)
  {
    if s != [] && x.startTime > s[0].startTime {
      var tail := s[1..];
      assert StartsFrom(tail, lo) by {
        forall k | 0 <= k < |tail| ensures lo <= tail[k].startTime {
          assert tail[k] == s[k + 1];
        }
      }
      InsertByStartFrom(x, tail, lo);
      var r := InsertByStart(x, s);
      forall k | 0 <= k < |r| ensures lo <= r[k].startTime {
        if k > 0 {
          assert r[k] == InsertByStart(x, tail)[k - 1];
        }
      }
    }
  }

  /** Inserting into a sorted sequence keeps it sorted. */
  lemma {:induction false} InsertByStartSorted(x: TranscriptSegment, s: seq<TranscriptSegment>)
    requires SortedByStart(s)
    ensures SortedByStart(InsertByStart(x, s))
  {
    if s == [] {
      SortedCons(x, s);
    } else if x.startTime <= s[0].startTime {
      SortedTail(s);
      SortedCons(x, s);
    } else {
      SortedTail(s);
      InsertByStartSorted(x, s[1..]);
      InsertByStartFrom(x, s[1..], s[0].startTime);
      SortedCons(s[0], InsertByStart(x, s[1..]));
    }
  }

  /** The sorted transcript is ordered by start time and holds exactly the parsed segments. */
  lemma {:induction false} SortByStartSortedPermutation(s: seq<TranscriptSegment>)
    ensures SortedByStart(SortByStart(s))
    ensures multiset(SortByStart(s)) == multiset(s)
  {
    if s != [] {
      SortByStartSortedPermutation(s[1..]);
      InsertByStartSorted(s[0], SortByStart(s[1..]));
      InsertByStartPermutation(s[0], SortByStart(s[1..]));
      assert s == [s[0]] + s[1..];
    }
  }

  /** The segments that start at time `t`, in order. */
  function StartingAt(s: seq<TranscriptSegment>, t: real): seq<TranscriptSegment> {
    if s == [] then [] else (if s[0].startTime == t then [s[0]] else []) + StartingAt(s[1..], t)
  }

  lemma {:induction false} StartingAtInsert(x: TranscriptSegment, s: seq<TranscriptSegment>, t: real)
    ensures StartingAt(InsertByStart(x, s), t)
      == (if x.startTime == t then [x] + StartingAt(s, t) else StartingAt(s, t))
  {
    if s != [] && x.startTime > s[0].startTime {
      StartingAtInsert(x, s[1..], t);
      var r := InsertByStart(x, s);
      assert r[1..] == InsertByStart(x, s[1..]);
    } else {
      var r := [x] + s;
      assert r[1..] == s;
    }
  }

  /** Stability: segments with the same start time keep their document order. */
  lemma {:induction false} SortByStartStable(s: seq<TranscriptSegment>, t: real)
    ensures StartingAt(SortByStart(s), t) == StartingAt(s, t)
  {
    if s != [] {
      SortByStartStable(s[1..], t);
      StartingAtInsert(s[0], SortByStart(s[1..]), t);
    }
  }
}
