/**
  The part of `java.util.regex` the app relies on. A pattern is a sequence
  of elements matched left to right without backtracking. This agrees with
  the backtracking engine on every pattern the app compiles: each greedy
  run is followed by an element whose first character the run's class
  excludes, the alternatives of a group never both occur at one index, and
  a lazy group always ends its pattern.
*/
module Regex {
  import opened KotlinText

  /** The character classes the app's patterns use. */
  datatype CharClass =
    | Space           // \s
    | NoneOf(c: char) // [^c]
    | OneOf(cs: string) // [cs]
    | Word            // [\w-] without UNICODE_CHARACTER_CLASS

  predicate InClass(cls: CharClass, c: char) {
    match cls
    case Space => IsRegexSpace(c)
    case NoneOf(x) => c != x
    case OneOf(cs) => c in cs
    case Word => 'a' <= c <= 'z' || 'A' <= c <= 'Z' || '0' <= c <= '9' || c == '_' || c == '-'
  }

  datatype Element =
    | Lit(text: string)                                     // a literal
    | Choice(alternatives: seq<string>, optional: bool)     // (?:a|b|…), or (?:a|b|…)? when optional
    | Run(cls: CharClass, atLeastOne: bool, capture: bool)  // cls* or cls+, greedy, a group when capture
    | LazyUntil(close: string)                              // (.*?)close under DOTALL, a group

  /** CASE_INSENSITIVE without UNICODE_CASE folds ASCII letters only. */
  datatype Pattern = Pattern(elements: seq<Element>, ignoreCase: bool)

  function Lower(c: char): char {
    if 'A' <= c <= 'Z' then ((c as int) + 32) as char else c
  }

  predicate SameChar(c: char, d: char, ignoreCase: bool) {
    if ignoreCase then Lower(c) == Lower(d) else c == d
  }

  /** `lit` occurs at index `i`. */
  predicate LiteralAt(s: string, i: nat, lit: string, ignoreCase: bool)
    requires i <= |s|
    ensures LiteralAt(s, i, lit, ignoreCase) ==> i + |lit| <= |s|
    decreases |lit|
  {
    lit == [] || (i < |s| && SameChar(s[i], lit[0], ignoreCase) && LiteralAt(s, i + 1, lit[1..], ignoreCase))
  }

  /** The first alternative that occurs at index `i`. */
  function FirstAlternative(s: string, i: nat, alternatives: seq<string>, ignoreCase: bool): (r: Option<string>)
    requires i <= |s|
    ensures r.Some? ==> r.value in alternatives && LiteralAt(s, i, r.value, ignoreCase)
    ensures r.None? ==> forall a :: a in alternatives ==> !LiteralAt(s, i, a, ignoreCase)
    decreases |alternatives|
  {
    if alternatives == [] then None
    else if LiteralAt(s, i, alternatives[0], ignoreCase) then Some(alternatives[0])
    else FirstAlternative(s, i, alternatives[1..], ignoreCase)
  }

  /** The first index at or after `from` where `lit` occurs. */
  function FindLiteral(s: string, from: nat, lit: string, ignoreCase: bool): (r: Option<nat>)
    requires from <= |s|
    ensures r.Some? ==> from <= r.value && r.value + |lit| <= |s|
    decreases |s| - from
  {
    if LiteralAt(s, from, lit, ignoreCase) then Some(from)
    else if from == |s| then None
    else FindLiteral(s, from + 1, lit, ignoreCase)
  }

  /** The fewest characters a match of the element consumes. */
  function ElementMinLength(e: Element): nat {
    match e
    case Lit(text) => |text|
    case Choice(_, _) => 0
    case Run(_, atLeastOne, _) => if atLeastOne then 1 else 0
    case LazyUntil(close) => |close|
  }

  /** The number of groups the element captures. */
  function ElementGroups(e: Element): nat {
    match e
    case Run(_, _, capture) => if capture then 1 else 0
    case LazyUntil(_) => 1
    case _ => 0
  }

  function MinLength(elements: seq<Element>): nat {
    if elements == [] then 0 else ElementMinLength(elements[0]) + MinLength(elements[1..])
  }

  function GroupCount(elements: seq<Element>): nat {
    if elements == [] then 0 else ElementGroups(elements[0]) + GroupCount(elements[1..])
  }

  /** Where a match of one or more elements ends, and the groups it captured. */
  datatype Tail = Tail(end: nat, groups: seq<string>)

  /** Matches the single element `e` starting exactly at index `pos`. */
  function Step(s: string, pos: nat, e: Element, ignoreCase: bool): (r: Option<Tail>)
    requires pos <= |s|
    ensures r.Some? ==> pos + ElementMinLength(e) <= r.value.end <= |s|
    ensures r.Some? ==> |r.value.groups| == ElementGroups(e)
  {
    match e
    case Lit(text) =>
      if LiteralAt(s, pos, text, ignoreCase) then Some(Tail(pos + |text|, [])) else None
    case Choice(alternatives, optional) =>
      (match FirstAlternative(s, pos, alternatives, ignoreCase)
       case Some(a) => Some(Tail(pos + |a|, []))
       case None => if optional then Some(Tail(pos, [])) else None)
    case Run(cls, atLeastOne, capture) =>
      var end := RunEnd(s, pos, c => InClass(cls, c));
      if atLeastOne && end == pos then None
      else Some(Tail(end, if capture then [s[pos..end]] else []))
    case LazyUntil(close) =>
      match FindLiteral(s, pos, close, ignoreCase)
      case None => None
      case Some(k) => Some(Tail(k + |close|, [s[pos..k]]))
  }

  /** Matches `elements` starting exactly at index `pos`, one element after another. */
  function MatchRest(s: string, pos: nat, elements: seq<Element>, ignoreCase: bool): (r: Option<Tail>)
    requires pos <= |s|
    ensures r.Some? ==> pos + MinLength(elements) <= r.value.end <= |s|
    ensures r.Some? ==> |r.value.groups| == GroupCount(elements)
    decreases |elements|
  {
    if elements == [] then Some(Tail(pos, []))
    else
      match Step(s, pos, elements[0], ignoreCase)
      case None => None
      case Some(first) =>
        match MatchRest(s, first.end, elements[1..], ignoreCase)
        case None => None
        case Some(rest) => Some(Tail(rest.end, first.groups + rest.groups))
  }

  /** A match: where it starts and ends, and `group(1)`, `group(2)`, … in order. */
  datatype Match = Match(start: nat, end: nat, groups: seq<string>)

  /** The match of `p` that starts at index `i`, if there is one. */
  function MatchAt(s: string, i: nat, p: Pattern): (r: Option<Match>)
    requires i <= |s|
    ensures r.Some? ==> r.value.start == i && i + MinLength(p.elements) <= r.value.end <= |s|
    ensures r.Some? ==> |r.value.groups| == GroupCount(p.elements)
  {
    match MatchRest(s, i, p.elements, p.ignoreCase)
    case None => None
    case Some(t) => Some(Match(i, t.end, t.groups))
  }

  /** `Matcher.find()` continuing at index `from`. */
  function Find(s: string, from: nat, p: Pattern): (r: Option<Match>)
    requires from <= |s|
    ensures r.Some? ==> from <= r.value.start && r.value.start + MinLength(p.elements) <= r.value.end <= |s|
    ensures r.Some? ==> |r.value.groups| == GroupCount(p.elements)
    decreases |s| - from
  {
    if MatchAt(s, from, p).Some? then MatchAt(s, from, p)
    else if from == |s| then None
    else Find(s, from + 1, p)
  }

  /** What `find()` reports is the match of the pattern at the index where it starts. */
  lemma {:induction false} FindMatchesAt(s: string, from: nat, p: Pattern)
    requires from <= |s|
    ensures Find(s, from, p).Some? ==> Find(s, from, p).value.start <= |s|
    ensures Find(s, from, p).Some? ==> MatchAt(s, Find(s, from, p).value.start, p) == Find(s, from, p)
    decreases |s| - from
  {
    if MatchAt(s, from, p).None? && from < |s| {
      FindMatchesAt(s, from + 1, p);
    }
  }

  /** `find()` fails when the pattern matches at no index from `from` on. */
  lemma {:induction false} FindNone(s: string, from: nat, p: Pattern)
    requires from <= |s|
    requires forall j :: from <= j <= |s| ==> MatchAt(s, j, p).None?
    ensures Find(s, from, p).None?
    decreases |s| - from
  {
    if from < |s| {
      FindNone(s, from + 1, p);
    }
  }

  /** `find()` reports the leftmost match: none starts between `from` and it. */
  lemma {:induction false} FindLeftmost(s: string, from: nat, p: Pattern, j: nat)
    requires from <= j <= |s| && MatchAt(s, j, p).Some?
    ensures Find(s, from, p).Some? && Find(s, from, p).value.start <= j
    decreases |s| - from
  {
    if MatchAt(s, from, p).None? {
      FindLeftmost(s, from + 1, p, j);
    }
  }

  /**
    Where the search resumes after the match `m`: at its end, or one index
    further when the match is empty; nothing when that passes the end.
  */
  function NextSearch(s: string, m: Match): (r: Option<nat>)
    requires m.start <= m.end <= |s|
    ensures r.Some? ==> m.end <= r.value <= |s| && m.start < r.value
  {
    if m.end > m.start then Some(m.end)
    else if m.end + 1 <= |s| then Some(m.end + 1)
    else None
  }

  /** `Regex.findAll(s, from)`: the successive matches, each search resuming where the previous left off. */
  function FindAll(s: string, from: nat, p: Pattern): (r: seq<Match>)
    requires from <= |s|
    ensures forall k :: 0 <= k < |r| ==> from <= r[k].start <= r[k].end <= |s|
    decreases |s| - from
  {
    match Find(s, from, p)
    case None => []
    case Some(m) =>
      match NextSearch(s, m)
      case None => [m]
      case Some(next) => [m] + FindAll(s, next, p)
  }

  /**
    `Regex.split(s)` with the pieces before `last` already taken and the
    search resuming at `from`: the text between successive matches, then
    the text after the last one.
  */
  function SplitFrom(s: string, last: nat, from: nat, p: Pattern): (r: seq<string>)
    requires last <= from <= |s|
    decreases |s| - from
  {
    match Find(s, from, p)
    case None => [s[last..]]
    case Some(m) =>
      match NextSearch(s, m)
      case None => [s[last..m.start], s[m.end..]]
      case Some(next) => [s[last..m.start]] + SplitFrom(s, m.end, next, p)
  }

  /** `Regex.split(s)` without a limit; trailing empty pieces are kept. */
  function Split(s: string, p: Pattern): seq<string> {
    SplitFrom(s, 0, 0, p)
  }

  /** There is one piece more than there are matches. */
  lemma {:induction false} SplitFromLength(s: string, last: nat, from: nat, p: Pattern)
    requires last <= from <= |s|
    ensures |SplitFrom(s, last, from, p)| == |FindAll(s, from, p)| + 1
    decreases |s| - from
  {
    var found := Find(s, from, p);
    if found.Some? {
      var next := NextSearch(s, found.value);
      if next.Some? {
        SplitFromLength(s, found.value.end, next.value, p);
      }
    }
  }

  /** `m` is the match of `p` that starts where `m` does. */
  predicate MatchedAt(s: string, m: Match, p: Pattern) {
    m.start <= |s| && MatchAt(s, m.start, p) == Some(m)
  }

  /** Every match `findAll` reports is the match of the pattern at the index where it starts. */
  lemma {:induction false} FindAllMatchesAt(s: string, from: nat, p: Pattern)
    requires from <= |s|
    ensures forall k :: 0 <= k < |FindAll(s, from, p)| ==> MatchedAt(s, FindAll(s, from, p)[k], p)
    decreases |s| - from
  {
    var found := Find(s, from, p);
    if found.Some? {
      FindMatchesAt(s, from, p);
      var next := NextSearch(s, found.value);
      if next.Some? {
        FindAllMatchesAt(s, next.value, p);
        var rest := FindAll(s, next.value, p);
        assert FindAll(s, from, p) == [found.value] + rest;
      }
    }
  }

  /** Two elements that match the empty string at `i` can be put before elements matching there. */
  lemma MatchAtSkippingTwo(s: string, i: nat, a: Element, b: Element, rest: seq<Element>, ignoreCase: bool)
    requires i <= |s| && Step(s, i, a, ignoreCase) == Some(Tail(i, [])) && Step(s, i, b, ignoreCase) == Some(Tail(i, []))
    requires MatchRest(s, i, rest, ignoreCase).Some?
    ensures MatchAt(s, i, Pattern([a, b] + rest, ignoreCase)).Some?
  {
    MatchAtSkipping(s, i, b, rest, ignoreCase);
    MatchAtSkipping(s, i, a, [b] + rest, ignoreCase);
    assert [a] + ([b] + rest) == [a, b] + rest;
  }

  /** An element that matches the empty string at `i` can be put before a pattern matching there. */
  lemma MatchAtSkipping(s: string, i: nat, e: Element, rest: seq<Element>, ignoreCase: bool)
    requires i <= |s| && Step(s, i, e, ignoreCase) == Some(Tail(i, []))
    requires MatchRest(s, i, rest, ignoreCase).Some?
    ensures MatchRest(s, i, [e] + rest, ignoreCase).Some?
  {
    assert ([e] + rest)[0] == e && ([e] + rest)[1..] == rest;
  }

  /**
    Dropping the first character of a pattern's leading literal: wherever the
    longer pattern matches, the shorter one matches one index later, ending
    at the same place with the same groups.
  */
  lemma DropLeadingChar(s: string, i: nat, c: char, lit: string, rest: seq<Element>, ignoreCase: bool)
    requires i <= |s|
    requires MatchAt(s, i, Pattern([Lit([c] + lit)] + rest, ignoreCase)).Some?
    ensures i + 1 <= |s|
    ensures MatchAt(s, i + 1, Pattern([Lit(lit)] + rest, ignoreCase)).Some?
    ensures MatchAt(s, i + 1, Pattern([Lit(lit)] + rest, ignoreCase)).value.end
         == MatchAt(s, i, Pattern([Lit([c] + lit)] + rest, ignoreCase)).value.end
  {
    DropLeadingCharRest(s, i, c, lit, rest, ignoreCase);
  }

  /** The step behind `DropLeadingChar`, on the element lists. */
  lemma DropLeadingCharRest(s: string, i: nat, c: char, lit: string, rest: seq<Element>, ignoreCase: bool)
    requires i <= |s|
    requires MatchRest(s, i, [Lit([c] + lit)] + rest, ignoreCase).Some?
    ensures i + 1 <= |s|
    ensures MatchRest(s, i + 1, [Lit(lit)] + rest, ignoreCase) == MatchRest(s, i, [Lit([c] + lit)] + rest, ignoreCase)
  {
    var long, short := [Lit([c] + lit)] + rest, [Lit(lit)] + rest;
    assert long[0] == Lit([c] + lit) && long[1..] == rest;
    assert short[0] == Lit(lit) && short[1..] == rest;
    LiteralStepDrop(s, i, c, lit, ignoreCase);
  }

  /** A literal that occurs at `i` without its first character occurs at `i + 1`, ending at the same place. */
  lemma LiteralStepDrop(s: string, i: nat, c: char, lit: string, ignoreCase: bool)
    requires i <= |s| && Step(s, i, Lit([c] + lit), ignoreCase).Some?
    ensures i + 1 <= |s| && Step(s, i + 1, Lit(lit), ignoreCase) == Step(s, i, Lit([c] + lit), ignoreCase)
  {
    assert LiteralAt(s, i, [c] + lit, ignoreCase);
    assert ([c] + lit)[1..] == lit;
  }

  /**
    Every group of the elements is a captured run of the class `cls`, and a
    `cls+` run when `nonEmpty`.
  */
  predicate RunGroupsOf(elements: seq<Element>, cls: CharClass, nonEmpty: bool) {
    forall k :: 0 <= k < |elements| ==> RunGroupOf(elements[k], cls, nonEmpty)
  }

  predicate RunGroupOf(e: Element, cls: CharClass, nonEmpty: bool) {
    !e.LazyUntil? && (e.Run? && e.capture ==> e.cls == cls && (nonEmpty ==> e.atLeastOne))
  }

  /** Each group is drawn from the class, and non-empty when `nonEmpty`. */
  predicate GroupsIn(groups: seq<string>, cls: CharClass, nonEmpty: bool) {
    forall g :: g in groups ==> (nonEmpty ==> g != []) && forall k :: 0 <= k < |g| ==> InClass(cls, g[k])
  }

  lemma StepRunGroup(s: string, pos: nat, e: Element, ignoreCase: bool, cls: CharClass, nonEmpty: bool)
    requires pos <= |s| && RunGroupOf(e, cls, nonEmpty)
    ensures Step(s, pos, e, ignoreCase).Some? ==> GroupsIn(Step(s, pos, e, ignoreCase).value.groups, cls, nonEmpty)
  {
    if e.Run? && e.capture {
      var end := RunEnd(s, pos, c => InClass(cls, c));
      RunEndProps(s, pos, c => InClass(cls, c));
      var g := s[pos..end];
      forall k | 0 <= k < |g| ensures InClass(cls, g[k]) {
        assert g[k] == s[pos + k];
      }
    }
  }

  /** The groups a match of such elements captures are drawn from the class (and non-empty when `nonEmpty`). */
  lemma {:induction false} RunGroupsInClass(s: string, pos: nat, elements: seq<Element>, ignoreCase: bool, cls: CharClass, nonEmpty: bool)
    requires pos <= |s| && RunGroupsOf(elements, cls, nonEmpty)
    ensures var r := MatchRest(s, pos, elements, ignoreCase);
      r.Some? ==> GroupsIn(r.value.groups, cls, nonEmpty)
    decreases |elements|
  {
    if elements != [] {
      var rest := elements[1..];
      assert RunGroupsOf(rest, cls, nonEmpty) by {
        forall k | 0 <= k < |rest| ensures rest[k] == elements[k + 1] { }
      }
      StepRunGroup(s, pos, elements[0], ignoreCase, cls, nonEmpty);
      var first := Step(s, pos, elements[0], ignoreCase);
      if first.Some? {
        RunGroupsInClass(s, first.value.end, rest, ignoreCase, cls, nonEmpty);
      }
    }
  }
}
