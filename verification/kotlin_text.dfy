/**
  The pieces of the Kotlin and Java string libraries that the app's text
  handling relies on: nullable values, the two notions of whitespace
  (the regex class `\s` and `Char.isWhitespace`), `trim`, `isBlank`,
  `startsWith`, `String.replace`, the replacement of maximal runs matched
  by a one-character-class regex such as `\s+`, `toLongOrNull`, and the
  `%d` / `%02d` renderings used by `String.format`.
*/
module KotlinText {

  /** Kotlin's nullable `T?`. */
  datatype Option<T> = None | Some(value: T)

  const MinLong: int := -0x8000_0000_0000_0000
  const MaxLong: int := 0x7FFF_FFFF_FFFF_FFFF
  const MinInt: int := -0x8000_0000
  const MaxInt: int := 0x7FFF_FFFF

  // ---------------------------------------------------------------------
  // Character classes

  /** `\s` of java.util.regex without the UNICODE_CHARACTER_CLASS flag: [ \t\n\x0B\f\r]. */
  predicate IsRegexSpace(c: char) {
    c == ' ' || c == '\t' || c == '\n' || c == '\U{0B}' || c == '\U{0C}' || c == '\r'
  }

  /** Kotlin's `Char.isWhitespace` on the JVM: `Character.isWhitespace(c) || Character.isSpaceChar(c)`. */
  predicate IsWhitespace(c: char) {
    || IsRegexSpace(c)
    || ('\U{1C}' <= c <= '\U{1F}')
    || c == '\U{A0}' || c == '\U{1680}'
    || ('\U{2000}' <= c <= '\U{200A}')
    || c == '\U{2028}' || c == '\U{2029}' || c == '\U{202F}' || c == '\U{205F}' || c == '\U{3000}'
  }

  predicate IsNewline(c: char) { c == '\n' }

  predicate IsAsciiDigit(c: char) { '0' <= c <= '9' }

  lemma RegexSpaceIsWhitespace(c: char)
    ensures IsRegexSpace(c) ==> IsWhitespace(c)
  {
  }

  // ---------------------------------------------------------------------
  // Prefixes, blanks, trimming

  predicate StartsWith(s: string, prefix: string) {
    |prefix| <= |s| && s[..|prefix|] == prefix
  }

  predicate EndsWith(s: string, suffix: string) {
    |suffix| <= |s| && s[|s| - |suffix|..] == suffix
  }

  /** `CharSequence.isBlank()`: empty or made of whitespace only. */
  predicate IsBlank(s: string) {
    forall i :: 0 <= i < |s| ==> IsWhitespace(s[i])
  }

  /** The first index at or after `from` whose character is not in the class `p`. */
  function RunEnd(s: string, from: nat, p: char -> bool): (r: nat)
    requires from <= |s|
    ensures from <= r <= |s|
    decreases |s| - from
  {
    if from == |s| || !p(s[from]) then from else RunEnd(s, from + 1, p)
  }

  /** The run ends at the first character outside the class: everything before it is inside. */
  lemma {:induction false} RunEndProps(s: string, from: nat, p: char -> bool)
    requires from <= |s|
    ensures forall k :: from <= k < RunEnd(s, from, p) ==> p(s[k])
    ensures RunEnd(s, from, p) < |s| ==> !p(s[RunEnd(s, from, p)])
    decreases |s| - from
  {
    if from < |s| && p(s[from]) {
      RunEndProps(s, from + 1, p);
    }
  }

  function TrimStart(s: string): (r: string)
    ensures |r| <= |s| && r == s[|s| - |r|..]
    ensures forall i :: 0 <= i < |s| - |r| ==> IsWhitespace(s[i])
    ensures r != [] ==> !IsWhitespace(r[0])
  {
    if s != [] && IsWhitespace(s[0]) then TrimStart(s[1..]) else s
  }

  function TrimEnd(s: string): (r: string)
    ensures |r| <= |s| && r == s[..|r|]
    ensures forall i :: |r| <= i < |s| ==> IsWhitespace(s[i])
    ensures r != [] ==> !IsWhitespace(r[|r| - 1])
  {
    if s != [] && IsWhitespace(s[|s| - 1]) then TrimEnd(s[..|s| - 1]) else s
  }

  /** `CharSequence.trim()`: drops leading and trailing `Char.isWhitespace` characters. */
  function Trim(s: string): (r: string)
    ensures r != [] ==> !IsWhitespace(r[0]) && !IsWhitespace(r[|r| - 1])
  {
    var t := TrimStart(s);
    var r := TrimEnd(t);
    assert r != [] ==> r[0] == t[0];
    r
  }

  /** The number of whitespace characters `trim` drops from the front. */
  function LeadingWhitespace(s: string): (n: nat)
    ensures n <= |s|
  {
    |s| - |TrimStart(s)|
  }

  /** `trim` returns a contiguous piece of its argument. */
  lemma TrimSubstring(s: string)
    ensures LeadingWhitespace(s) + |Trim(s)| <= |s|
    ensures Trim(s) == s[LeadingWhitespace(s)..LeadingWhitespace(s) + |Trim(s)|]
  {
    var t := TrimStart(s);
    var r := TrimEnd(t);
    var a := |s| - |t|;
    assert Trim(s) == r && LeadingWhitespace(s) == a;
    assert r == t[..|r|] && t == s[a..];
    assert s[a..][..|r|] == s[a..a + |r|];
  }

  /** `trim` leaves nothing exactly when the string is blank. */
  lemma TrimBlank(s: string)
    ensures Trim(s) == [] <==> IsBlank(s)
  {
    var t := TrimStart(s);
    if t != [] {
      assert !IsWhitespace(t[0]);
      assert TrimEnd(t) != [];
      assert t[0] == s[|s| - |t|];
    }
  }

  /** A string that does not start with whitespace keeps its first character through `trim`. */
  lemma TrimKeepsFirst(s: string)
    requires s != [] && !IsWhitespace(s[0])
    ensures Trim(s) != [] && Trim(s)[0] == s[0]
  {
    assert TrimStart(s) == s;
    assert TrimEnd(s) != [];
  }

  lemma TrimOfTrimmed(s: string)
    requires s == [] || (!IsWhitespace(s[0]) && !IsWhitespace(s[|s| - 1]))
    ensures Trim(s) == s
  {
    assert TrimStart(s) == s;
    assert TrimEnd(s) == s;
  }

  // ---------------------------------------------------------------------
  // Regex replacement of maximal runs

  /**
    `s.replace(Regex("<class>+"), " ")` for a one-character class `inRun`:
    every maximal run of characters of the class becomes a single space.
  */
  function ReplaceRuns(s: string, inRun: char -> bool): (r: string)
    ensures |r| <= |s|
    ensures r == [] <==> s == []
    ensures s != [] && !inRun(s[0]) ==> r[0] == s[0]
    ensures s != [] && inRun(s[0]) ==> r[0] == ' '
    decreases |s|
  {
    if s == [] then []
    else if inRun(s[0]) then [' '] + ReplaceRuns(s[RunEnd(s, 0, inRun)..], inRun)
    else [s[0]] + ReplaceRuns(s[1..], inRun)
  }

  /** No two adjacent characters of `s` are both in the class `p`. */
  predicate NoAdjacent(s: string, p: char -> bool) {
    forall i :: 0 <= i < |s| - 1 ==> !(p(s[i]) && p(s[i + 1]))
  }

  /** What `\s+` → " " leaves behind: the only `\s` character is the space, never two in a row. */
  predicate SpacesCollapsed(s: string) {
    NoAdjacent(s, IsRegexSpace) && forall i :: 0 <= i < |s| && IsRegexSpace(s[i]) ==> s[i] == ' '
  }

  /** The characters of `s` outside the class `p`, in order. */
  function Without(s: string, p: char -> bool): string {
    if s == [] then [] else (if p(s[0]) then [] else [s[0]]) + Without(s[1..], p)
  }

  /** Collapsing the runs of `\s` leaves a string whose `\s` characters are isolated single spaces. */
  lemma {:induction false} ReplaceSpaceRunsCollapses(s: string)
    ensures SpacesCollapsed(ReplaceRuns(s, IsRegexSpace))
    decreases |s|
  {
    if s != [] {
      if IsRegexSpace(s[0]) {
        var e := RunEnd(s, 0, IsRegexSpace);
        RunEndProps(s, 0, IsRegexSpace);
        ReplaceSpaceRunsCollapses(s[e..]);
      } else {
        ReplaceSpaceRunsCollapses(s[1..]);
      }
    }
  }

  /** A piece of a string whose `\s` characters are isolated single spaces has the same property. */
  lemma SubstringCollapsed(s: string, a: nat, b: nat)
    requires a <= b <= |s| && SpacesCollapsed(s)
    ensures SpacesCollapsed(s[a..b])
  {
    var t := s[a..b];
    forall i | 0 <= i < |t| - 1 ensures !(IsRegexSpace(t[i]) && IsRegexSpace(t[i + 1])) {
      assert t[i] == s[a + i] && t[i + 1] == s[a + i + 1];
    }
    forall i | 0 <= i < |t| && IsRegexSpace(t[i]) ensures t[i] == ' ' {
      assert t[i] == s[a + i];
    }
  }

  /** Trimming a collapsed string leaves it collapsed. */
  lemma TrimKeepsCollapsed(s: string)
    requires SpacesCollapsed(s)
    ensures SpacesCollapsed(Trim(s))
  {
    TrimSubstring(s);
    SubstringCollapsed(s, LeadingWhitespace(s), LeadingWhitespace(s) + |Trim(s)|);
  }

  /** Replacing runs of `\s` characters changes nothing but `\s` characters: the others survive, in order. */
  lemma {:induction false} ReplaceRunsKeepsText(s: string, p: char -> bool)
    requires forall c :: p(c) ==> IsRegexSpace(c)
    ensures Without(ReplaceRuns(s, p), IsRegexSpace) == Without(s, IsRegexSpace)
    decreases |s|
  {
    if s != [] {
      if p(s[0]) {
        var e := RunEnd(s, 0, p);
        RunEndProps(s, 0, p);
        ReplaceRunsKeepsText(s[e..], p);
        assert ([' '] + ReplaceRuns(s[e..], p))[1..] == ReplaceRuns(s[e..], p);
        WithoutOfSpaces(s, e);
      } else {
        ReplaceRunsKeepsText(s[1..], p);
        assert ([s[0]] + ReplaceRuns(s[1..], p))[1..] == ReplaceRuns(s[1..], p);
      }
    }
  }

  lemma {:induction false} WithoutOfSpaces(s: string, e: nat)
    requires e <= |s|
    requires forall k :: 0 <= k < e ==> IsRegexSpace(s[k])
    ensures Without(s, IsRegexSpace) == Without(s[e..], IsRegexSpace)
  {
    if e > 0 {
      assert s[1..][e - 1..] == s[e..];
      WithoutOfSpaces(s[1..], e - 1);
    }
  }

  /** A string with no character of the class is left unchanged by replacing the class's runs. */
  lemma {:induction false} ReplaceRunsAbsent(s: string, p: char -> bool)
    requires forall i :: 0 <= i < |s| ==> !p(s[i])
    ensures ReplaceRuns(s, p) == s
    decreases |s|
  {
    if s != [] {
      ReplaceRunsAbsent(s[1..], p);
    }
  }

  /** Replacing runs of whitespace characters by a space neither creates nor removes a non-blank character. */
  lemma {:induction false} ReplaceRunsBlank(s: string, p: char -> bool)
    requires forall c :: p(c) ==> IsWhitespace(c)
    ensures IsBlank(ReplaceRuns(s, p)) <==> IsBlank(s)
    decreases |s|
  {
    if s != [] {
      var r := ReplaceRuns(s, p);
      if p(s[0]) {
        var e := RunEnd(s, 0, p);
        RunEndProps(s, 0, p);
        ReplaceRunsBlank(s[e..], p);
        assert r[1..] == ReplaceRuns(s[e..], p);
        assert IsBlank(s) <==> IsBlank(s[e..]) by {
          if IsBlank(s[e..]) {
            forall i | 0 <= i < |s| ensures IsWhitespace(s[i]) {
              if i >= e { assert s[i] == s[e..][i - e]; }
            }
          }
        }
      } else {
        ReplaceRunsBlank(s[1..], p);
        assert r[1..] == ReplaceRuns(s[1..], p);
        assert IsBlank(s) <==> IsWhitespace(s[0]) && IsBlank(s[1..]) by {
          if IsWhitespace(s[0]) && IsBlank(s[1..]) {
            forall i | 1 <= i < |s| ensures IsWhitespace(s[i]) { assert s[i] == s[1..][i - 1]; }
          }
        }
      }
    }
  }

  /** A string whose `\s` characters are already isolated single spaces is left unchanged by `\s+` → " ". */
  lemma {:induction false} ReplaceSpaceRunsOfCollapsed(s: string)
    requires SpacesCollapsed(s)
    ensures ReplaceRuns(s, IsRegexSpace) == s
    decreases |s|
  {
    if s != [] {
      SubstringCollapsed(s, 1, |s|);
      ReplaceSpaceRunsOfCollapsed(s[1..]);
      if IsRegexSpace(s[0]) {
        assert |s| > 1 ==> !IsRegexSpace(s[1]);
        assert RunEnd(s, 0, IsRegexSpace) == 1;
      }
    }
  }

  // ---------------------------------------------------------------------
  // Literal replacement

  /** `String.replace(from, to)`: every non-overlapping occurrence of `from`, scanned left to right. */
  function Replace(s: string, from: string, to: string): string
    requires from != []
    decreases |s|
  {
    if |s| < |from| then s
    else if s[..|from|] == from then to + Replace(s[|from|..], from, to)
    else [s[0]] + Replace(s[1..], from, to)
  }

  /** A string with no occurrence of the first character of `from` is left unchanged. */
  lemma {:induction false} ReplaceAbsent(s: string, from: string, to: string)
    requires from != [] && from[0] !in s
    ensures Replace(s, from, to) == s
    decreases |s|
  {
    if |s| >= |from| {
      assert s[..|from|][0] == s[0];
      ReplaceAbsent(s[1..], from, to);
    }
  }


  /**
    Text before the first occurrence is kept: when no character of `a` starts
    `from`, the occurrence right after `a` is the first one replaced.
  */
  lemma {:induction false} ReplaceAfterPlain(a: string, from: string, to: string, b: string)
    requires from != []
    requires forall k :: 0 <= k < |a| ==> a[k] != from[0]
    ensures Replace(a + from + b, from, to) == a + to + Replace(b, from, to)
    decreases |a|
  {
    if a == [] {
      ReplaceAtStart(from, to, b);
      assert a + from + b == from + b;
    } else {
      var tail := a[1..];
      assert a + from + b == [a[0]] + (tail + from + b);
      ReplaceSkipsChar(a[0], tail + from + b, from, to);
      assert forall k :: 0 <= k < |tail| ==> tail[k] != from[0] by {
        forall k | 0 <= k < |tail| ensures tail[k] != from[0] { assert tail[k] == a[k + 1]; }
      }
      ReplaceAfterPlain(tail, from, to, b);
      assert a + to + Replace(b, from, to) == [a[0]] + (tail + to + Replace(b, from, to));
    }
  }

  /** An occurrence at the start is replaced, and the scan goes on after it. */
  lemma ReplaceAtStart(from: string, to: string, b: string)
    requires from != []
    ensures Replace(from + b, from, to) == to + Replace(b, from, to)
  {
    var s := from + b;
    assert s[..|from|] == from && s[|from|..] == b;
  }

  /** A first character that does not start the target is kept. */
  lemma ReplaceSkipsChar(c: char, rest: string, from: string, to: string)
    requires from != [] && c != from[0]
    ensures Replace([c] + rest, from, to) == [c] + Replace(rest, from, to)
  {
    var s := [c] + rest;
    if |s| >= |from| {
      assert s[..|from|] != from by { assert s[..|from|][0] == c; }
      assert s[1..] == rest;
    } else {
      assert |rest| < |from|;
    }
  }

  /** `from` occurs in `s` at index `i`. */
  predicate OccursAt(s: string, i: nat, from: string) {
    i + |from| <= |s| && s[i..i + |from|] == from
  }

  /** A string in which `from` does not occur is left unchanged. */
  lemma {:induction false} ReplaceNoOccurrence(s: string, from: string, to: string)
    requires from != []
    requires forall i: nat :: !OccursAt(s, i, from)
    ensures Replace(s, from, to) == s
    decreases |s|
  {
    if |s| >= |from| {
      assert !OccursAt(s, 0, from);
      var tail := s[1..];
      forall i: nat ensures !OccursAt(tail, i, from) {
        assert !OccursAt(s, i + 1, from);
        if i + |from| <= |tail| {
          assert tail[i..i + |from|] == s[i + 1..i + 1 + |from|];
        }
      }
      ReplaceNoOccurrence(tail, from, to);
      assert s == [s[0]] + tail;
    }
  }

  // ---------------------------------------------------------------------
  // Decimal numbers

  function DigitChar(d: int): char
    requires 0 <= d < 10
  {
    (('0' as int) + d) as char
  }

  function DigitValue(c: char): int
    requires IsAsciiDigit(c)
  {
    (c as int) - ('0' as int)
  }

  predicate AllDigits(s: string) {
    forall i :: 0 <= i < |s| ==> IsAsciiDigit(s[i])
  }

  /** The value of a string of decimal digits. */
  function DigitsValue(s: string): (v: nat)
    requires AllDigits(s)
  {
    if s == [] then 0 else 10 * DigitsValue(s[..|s| - 1]) + DigitValue(s[|s| - 1])
  }

  /** The shortest decimal digits of a natural number. */
  function NatDigits(n: nat): (r: string)
    ensures r != [] && AllDigits(r)
  {
    if n < 10 then [DigitChar(n)] else NatDigits(n / 10) + [DigitChar(n % 10)]
  }

  lemma {:induction false} NatDigitsValue(n: nat)
    ensures DigitsValue(NatDigits(n)) == n
  {
    if n >= 10 {
      NatDigitsValue(n / 10);
      var r := NatDigits(n);
      assert r[..|r| - 1] == NatDigits(n / 10);
    }
  }

  /** `Int.toString()` and the `%d` conversion of `String.format`. */
  function Decimal(n: int): (r: string)
    ensures r != []
    ensures n >= 0 ==> AllDigits(r)
  {
    if n < 0 then "-" + NatDigits(-n) else NatDigits(n)
  }

  /** The `%02d` conversion: zero-padded to at least two characters. */
  function Pad2(n: int): (r: string)
  {
    if 0 <= n < 10 then "0" + Decimal(n) else Decimal(n)
  }

  lemma Pad2Digits(n: int)
    requires 0 <= n < 100
    ensures |Pad2(n)| == 2 && AllDigits(Pad2(n)) && DigitsValue(Pad2(n)) == n
  {
    if n < 10 {
      var r := Pad2(n);
      assert r == [DigitChar(0), DigitChar(n)];
      assert r[..1] == [DigitChar(0)];
      assert DigitsValue(r[..1]) == 0 by {
        assert r[..1][..0] == [];
      }
    } else {
      var r := Pad2(n);
      assert NatDigits(n / 10) == [DigitChar(n / 10)];
      assert r == NatDigits(n / 10) + [DigitChar(n % 10)];
      assert r == [DigitChar(n / 10), DigitChar(n % 10)];
      assert r[..1] == [DigitChar(n / 10)];
      assert DigitsValue(r[..1]) == n / 10 by {
        assert r[..1][..0] == [];
      }
    }
  }

  /** `String.toLongOrNull()`: an optional sign, decimal digits, and a value within the range of Long. */
  function ParseLong(s: string): (r: Option<int>)
    ensures r.Some? ==> MinLong <= r.value <= MaxLong
  {
    if s == [] then None
    else
      var negative := s[0] == '-';
      var digits := if s[0] == '-' || s[0] == '+' then s[1..] else s;
      if digits == [] || !AllDigits(digits) then None
      else
        var v: int := if negative then 0 - DigitsValue(digits) else DigitsValue(digits);
        if MinLong <= v <= MaxLong then Some(v) else None
  }

  /** Rendering a Long with `%d` and parsing it back gives the same number. */
  lemma ParseLongDecimal(n: int)
    requires MinLong <= n <= MaxLong
    ensures ParseLong(Decimal(n)) == Some(n)
  {
    var r := Decimal(n);
    if n < 0 {
      NatDigitsValue(-n);
      assert r[0] == '-' && r[1..] == NatDigits(-n);
      assert !IsAsciiDigit('-');
    } else {
      NatDigitsValue(n);
      assert r == NatDigits(n) && IsAsciiDigit(r[0]);
    }
  }

  // ---------------------------------------------------------------------
  // Selection

  /** `indexOf`: the first index holding `x`, or -1. */
  function IndexOf<T(==)>(s: seq<T>, x: T): (i: int)
    ensures -1 <= i < |s|
    ensures i == -1 <==> x !in s
    ensures i >= 0 ==> s[i] == x && forall k :: 0 <= k < i ==> s[k] != x
  {
    if s == [] then -1
    else if s[0] == x then 0
    else
      var r := IndexOf(s[1..], x);
      if r == -1 then -1 else r + 1
  }

  /** `firstNotNullOfOrNull` over the candidates from index `from` on. */
  function FirstNotNull<T>(candidates: seq<Option<T>>, from: nat): Option<T>
    requires from <= |candidates|
    decreases |candidates| - from
  {
    if from == |candidates| then None
    else if candidates[from].Some? then candidates[from]
    else FirstNotNull(candidates, from + 1)
  }

  /**
    The selection is the present candidate that no present candidate
    precedes, and nothing exactly when every candidate is absent.
  */
  lemma {:induction false} FirstNotNullIsFirst<T>(candidates: seq<Option<T>>, from: nat)
    requires from <= |candidates|
    ensures FirstNotNull(candidates, from).Some? ==>
      exists i :: from <= i < |candidates| && candidates[i] == FirstNotNull(candidates, from)
        && forall q :: from <= q < i ==> candidates[q].None?
    ensures FirstNotNull(candidates, from).None? <==> forall q :: from <= q < |candidates| ==> candidates[q].None?
    decreases |candidates| - from
  {
    if from < |candidates| && candidates[from].None? {
      FirstNotNullIsFirst(candidates, from + 1);
    }
  }

  // ---------------------------------------------------------------------
  // Integer arithmetic of the JVM

  /** `/` on Int and Long: the quotient truncated toward zero. */
  function TruncDiv(a: int, b: int): (q: int)
    requires b > 0
  {
    if a >= 0 then a / b else -((-a) / b)
  }

  /** `%` on Int and Long: the remainder takes the sign of the dividend. */
  function TruncMod(a: int, b: int): (r: int)
    requires b > 0
    ensures a == TruncDiv(a, b) * b + r
    ensures a >= 0 ==> 0 <= r < b
    ensures a < 0 ==> -b < r <= 0
  {
    if a >= 0 then a % b else -((-a) % b)
  }

  /** `Float.toInt()` for finite values in range: truncation toward zero. */
  function TruncToInt(x: real): (n: int)
    ensures x >= 0.0 ==> n as real <= x < n as real + 1.0
    ensures x < 0.0 ==> n as real - 1.0 < x <= n as real
  {
    if x >= 0.0 then x.Floor else -((-x).Floor)
  }

  /** `Float.toInt()`: truncation toward zero, saturating at the bounds of Int. */
  function FloatToInt(x: real): (n: int)
    ensures MinInt <= n <= MaxInt
    ensures MinInt as real <= x < MaxInt as real ==> n == TruncToInt(x)
  {
    var t := TruncToInt(x);
    if t < MinInt then MinInt else if t > MaxInt then MaxInt else t
  }

  function MaxReal(a: real, b: real): real { if a >= b then a else b }
  function MinReal(a: real, b: real): real { if a <= b then a else b }
}
