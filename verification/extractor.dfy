/**
 * Timer and alarm phrases (`checkAndCreateTimerOrAlarm`,
 * `createTimerFromTask`, `createAlarmFromTask`).
 *
 * Each regular expression of the source is written twice: `MatchAt` is the
 * matcher, deterministic like a backtracking engine, and `Accepts` states
 * what the expression means (the existence of the whitespace runs, digit
 * runs and optional endings it allows). `MatchAtCorrect` proves the two
 * agree, so the capture groups of a match are unique. `Search` is the
 * leftmost-match rule of `String.prototype.match` with a non-global
 * expression, and `FindHit` tries the seven timer expressions, then the
 * four alarm expressions, and stops at the first that matches.
 */
module Extractor {
  import opened Text

  // ---------------------------------------------------------------------------
  // The eleven expressions
  // ---------------------------------------------------------------------------

  datatype Unit = Minutes | Hours

  /** The literal a unit starts with: `min` or `hr`. */
  function Stem(u: Unit): string
  {
    if u == Minutes then "min" else "hr"
  }

  /** The endings the optional group after the stem allows: `(?:ute|utes?)` or `(?:our|ours?)`, in the order the engine tries them. */
  function Endings(u: Unit): (string, string)
  {
    if u == Minutes then ("ute", "utes") else ("our", "ours")
  }

  datatype Pattern =
    | NumberUnitWord(unit: Unit, word: string)  // (\d+)\s*UNIT\s*WORD
    | TimerNumberUnit(unit: Unit)               // timer\s*(\d+)\s*UNIT
    | ClockTimer                                // (\d+):(\d+)\s*timer
    | WordClock(word: string)                   // WORD\s*(\d{1,2}):(\d{2})

  /** The timer expressions in the order they are tried. */
  const TimerPatterns: seq<Pattern> := [
    NumberUnitWord(Minutes, "timer"),
    NumberUnitWord(Hours, "timer"),
    TimerNumberUnit(Minutes),
    TimerNumberUnit(Hours),
    ClockTimer,
    NumberUnitWord(Minutes, "for"),
    NumberUnitWord(Hours, "for")
  ]

  /** The alarm expressions in the order they are tried. */
  const AlarmPatterns: seq<Pattern> := [WordClock("alarm"), WordClock("remind"), WordClock("wake"), WordClock("at")]

  /** A literal that neither a `\s*` nor a `\d+` run can extend into. */
  predicate Solid(w: string)
  {
    |w| > 0 && !IsSpace(w[0]) && !IsDigit(w[0])
  }

  /** The literal words of an expression are solid. */
  predicate WellFormed(p: Pattern)
  {
    match p
    case NumberUnitWord(_, w) => Solid(w)
    case WordClock(w) => Solid(w)
    case TimerNumberUnit(_) => true
    case ClockTimer => true
  }

  lemma PatternsWellFormed()
    ensures forall k :: 0 <= k < |TimerPatterns| ==> WellFormed(TimerPatterns[k])
    ensures forall k :: 0 <= k < |AlarmPatterns| ==> WellFormed(AlarmPatterns[k])
  {
  }

  // ---------------------------------------------------------------------------
  // What an expression means
  // ---------------------------------------------------------------------------

  /** `\s*` spans `s[i..j]`. */
  ghost predicate Spaces(s: string, i: int, j: int)
  {
    0 <= i <= j <= |s| && forall k :: i <= k < j ==> IsSpace(s[k])
  }

  /** `\d+` spans `s[i..j]`. */
  ghost predicate Digits(s: string, i: int, j: int)
  {
    0 <= i < j <= |s| && forall k :: i <= k < j ==> IsDigit(s[k])
  }

  /** The optional ending after a stem that ends at `b` leaves the engine at `t`. */
  ghost predicate EndingSpan(s: string, endings: (string, string), b: int, t: int)
  {
    t == b
    || (OccursAt(s, endings.0, b) && t == b + |endings.0|)
    || (OccursAt(s, endings.1, b) && t == b + |endings.1|)
  }

  /** After the digits `s[i..e]`: whitespace, the stem at `a`, an optional ending up to `t`, whitespace, the word at `c`. */
  ghost predicate UnitWordTail(s: string, stem: string, endings: (string, string), w: string, e: int, a: int, t: int, c: int)
  {
    Spaces(s, e, a) && OccursAt(s, stem, a) && EndingSpan(s, endings, a + |stem|, t) && Spaces(s, t, c) && OccursAt(s, w, c)
  }

  /** `(\d+)\s*UNIT\s*WORD` matches at `i` with capture `s[i..e]`. */
  ghost predicate NumberUnitWordAt(s: string, stem: string, endings: (string, string), w: string, i: int, e: int)
  {
    Digits(s, i, e) && exists a, t, c :: UnitWordTail(s, stem, endings, w, e, a, t, c)
  }

  /** `timer\s*(\d+)\s*UNIT` matches at `i` with capture `s[a..e]`. */
  ghost predicate TimerNumberUnitAt(s: string, stem: string, i: int, a: int, e: int)
  {
    OccursAt(s, "timer", i) && Spaces(s, i + 5, a) && Digits(s, a, e) &&
    exists b :: Spaces(s, e, b) && OccursAt(s, stem, b)
  }

  /** `(\d+):(\d+)\s*timer` matches at `i` with captures `s[i..e1]` and `s[e1 + 1..e2]`. */
  ghost predicate ClockTimerAt(s: string, i: int, e1: int, e2: int)
  {
    Digits(s, i, e1) && OccursAt(s, ":", e1) && Digits(s, e1 + 1, e2) &&
    exists c :: Spaces(s, e2, c) && OccursAt(s, "timer", c)
  }

  /** `WORD\s*(\d{1,2}):(\d{2})` matches at `i` with captures `s[a..e]` and `s[e + 1..e + 3]`. */
  ghost predicate WordClockAt(s: string, w: string, i: int, a: int, e: int)
  {
    OccursAt(s, w, i) && Spaces(s, i + |w|, a) && Digits(s, a, e) && e - a <= 2 &&
    OccursAt(s, ":", e) && Digits(s, e + 1, e + 3)
  }

  /** The expression `p` matches `s` at index `i` with capture groups `groups`. */
  ghost predicate Accepts(s: string, p: Pattern, i: int, groups: seq<string>)
  {
    match p
    case NumberUnitWord(u, w) =>
      exists e :: NumberUnitWordAt(s, Stem(u), Endings(u), w, i, e) && groups == [s[i..e]]
    case TimerNumberUnit(u) =>
      exists a, e :: TimerNumberUnitAt(s, Stem(u), i, a, e) && groups == [s[a..e]]
    case ClockTimer =>
      exists e1, e2 :: ClockTimerAt(s, i, e1, e2) && groups == [s[i..e1], s[e1 + 1..e2]]
    case WordClock(w) =>
      exists a, e :: WordClockAt(s, w, i, a, e) && groups == [s[a..e], s[e + 1..e + 3]]
  }

  // ---------------------------------------------------------------------------
  // The matcher
  // ---------------------------------------------------------------------------

  /** A match: the capture groups and the index just past `match[0]`. */
  datatype Match = Match(groups: seq<string>, end: nat)

  /** The number of capture groups of an expression. */
  function GroupCount(p: Pattern): nat
  {
    if p.NumberUnitWord? || p.TimerNumberUnit? then 1 else 2
  }

  /** `WORD` follows the whitespace run that starts at `t`. */
  predicate WordAfter(s: string, t: nat, w: string)
    requires t <= |s|
  {
    OccursAt(s, w, SkipSpaces(s, t))
  }

  /** The characters an alarm's `match[0]` is made of: the word, then only whitespace, digits and `:`. */
  predicate AlarmShape(whole: string, w: string)
  {
    w <= whole && forall k :: |w| <= k < |whole| ==> IsSpace(whole[k]) || IsDigit(whole[k]) || whole[k] == ':'
  }


  /**
   * The optional group after a stem that ends at `b`: the engine tries the
   * first ending, then the second, then no ending, and keeps the first
   * choice after which `\s*WORD` follows.
   */
  function EndingChoice(s: string, b: nat, endings: (string, string), w: string): (t: Option<nat>)
    requires b <= |s|
    ensures t.Some? ==> b <= t.value <= |s| && EndingSpan(s, endings, b, t.value) && WordAfter(s, t.value, w)
    ensures t.None? ==> forall t' :: b <= t' <= |s| && EndingSpan(s, endings, b, t') ==> !WordAfter(s, t', w)
  {
    var t0 := b + |endings.0|;
    var t1 := b + |endings.1|;
    if OccursAt(s, endings.0, b) && WordAfter(s, t0, w) then Some(t0)
    else if OccursAt(s, endings.1, b) && WordAfter(s, t1, w) then Some(t1)
    else if WordAfter(s, b, w) then Some(b)
    else None
  }

  /** `(\d+)\s*UNIT\s*WORD` tried at `i`, for the unit with the given stem and endings. */
  function MatchNumberUnitWord(s: string, i: nat, stem: string, endings: (string, string), w: string): (r: Option<Match>)
    requires i <= |s|
    ensures r.Some? ==> |r.value.groups| == 1 && |r.value.groups[0]| > 0 && AllDigits(r.value.groups[0]) && i <= r.value.end <= |s|
  {
    if i < |s| && IsDigit(s[i]) then
      var e := DigitEnd(s, i);
      var a := SkipSpaces(s, e);
      if OccursAt(s, stem, a) then
        match EndingChoice(s, a + |stem|, endings, w)
        case Some(t) => Some(Match([s[i..e]], SkipSpaces(s, t) + |w|))
        case None => None
      else None
    else None
  }

  /** `timer\s*(\d+)\s*UNIT` tried at `i`; the trailing optional ending only lengthens `match[0]`. */
  function MatchTimerNumberUnit(s: string, i: nat, stem: string, ending: string): (r: Option<Match>)
    requires i <= |s|
    ensures r.Some? ==> |r.value.groups| == 1 && |r.value.groups[0]| > 0 && AllDigits(r.value.groups[0]) && i <= r.value.end <= |s|
  {
    if OccursAt(s, "timer", i) then
      var a := SkipSpaces(s, i + 5);
      if a < |s| && IsDigit(s[a]) then
        var e := DigitEnd(s, a);
        var b := SkipSpaces(s, e);
        var t := b + |stem|;
        if !OccursAt(s, stem, b) then None
        else if OccursAt(s, ending, t) then Some(Match([s[a..e]], t + |ending|))
        else Some(Match([s[a..e]], t))
      else None
    else None
  }

  /** `(\d+):(\d+)\s*timer` tried at `i`. */
  function MatchClockTimer(s: string, i: nat): (r: Option<Match>)
    requires i <= |s|
    ensures r.Some? ==> |r.value.groups| == 2 && i <= r.value.end <= |s|
    ensures r.Some? ==> |r.value.groups[0]| > 0 && AllDigits(r.value.groups[0]) && |r.value.groups[1]| > 0 && AllDigits(r.value.groups[1])
  {
    if i < |s| && IsDigit(s[i]) then
      var e1 := DigitEnd(s, i);
      if e1 + 1 < |s| && s[e1] == ':' && IsDigit(s[e1 + 1]) then
        var e2 := DigitEnd(s, e1 + 1);
        var c := SkipSpaces(s, e2);
        if OccursAt(s, "timer", c) then Some(Match([s[i..e1], s[e1 + 1..e2]], c + 5)) else None
      else None
    else None
  }

  /** `match[0]` of an alarm expression spans the word, whitespace, and then the clock digits. */
  lemma AlarmWholeShape(s: string, i: nat, w: string, a: nat, end: nat)
    requires OccursAt(s, w, i) && a == SkipSpaces(s, i + |w|) && a <= end <= |s|
    requires forall k :: a <= k < end ==> IsDigit(s[k]) || s[k] == ':'
    ensures AlarmShape(s[i..end], w)
  {
    var whole := s[i..end];
    assert whole[..|w|] == w;
    forall k | |w| <= k < |whole|
      ensures IsSpace(whole[k]) || IsDigit(whole[k]) || whole[k] == ':'
    {
      assert whole[k] == s[i + k];
    }
  }

  /** `WORD\s*(\d{1,2}):(\d{2})` tried at `i`: two hour digits are tried before one. */
  function MatchWordClock(s: string, i: nat, w: string): (r: Option<Match>)
    requires i <= |s|
    ensures r.Some? ==> |r.value.groups| == 2 && i <= r.value.end <= |s|
    ensures r.Some? ==> 1 <= |r.value.groups[0]| <= 2 && AllDigits(r.value.groups[0]) && |r.value.groups[1]| == 2 && AllDigits(r.value.groups[1])
    ensures r.Some? ==> AlarmShape(s[i..r.value.end], w)
  {
    if OccursAt(s, w, i) then
      var a := SkipSpaces(s, i + |w|);
      if a + 5 <= |s| && IsDigit(s[a]) && IsDigit(s[a + 1]) && s[a + 2] == ':' && IsDigit(s[a + 3]) && IsDigit(s[a + 4]) then
        AlarmWholeShape(s, i, w, a, a + 5);
        Some(Match([s[a..a + 2], s[a + 3..a + 5]], a + 5))
      else if a + 4 <= |s| && IsDigit(s[a]) && s[a + 1] == ':' && IsDigit(s[a + 2]) && IsDigit(s[a + 3]) then
        AlarmWholeShape(s, i, w, a, a + 4);
        Some(Match([s[a..a + 1], s[a + 2..a + 4]], a + 4))
      else None
    else None
  }

  /** Tries the expression `p` at index `i` only, as the engine does: greedy runs, alternatives in order. */
  function MatchAt(s: string, i: nat, p: Pattern): (r: Option<Match>)
    requires i <= |s|
    ensures r.Some? ==> |r.value.groups| == GroupCount(p) && i <= r.value.end <= |s|
    ensures r.Some? ==> forall g :: 0 <= g < |r.value.groups| ==> |r.value.groups[g]| > 0 && AllDigits(r.value.groups[g])
    ensures r.Some? && p.WordClock? ==>
      |r.value.groups[0]| <= 2 && |r.value.groups[1]| == 2 && AlarmShape(s[i..r.value.end], p.word)
  {
    match p
    case NumberUnitWord(u, w) => MatchNumberUnitWord(s, i, Stem(u), Endings(u), w)
    case TimerNumberUnit(u) => MatchTimerNumberUnit(s, i, Stem(u), Endings(u).0)
    case ClockTimer => MatchClockTimer(s, i)
    case WordClock(w) => MatchWordClock(s, i, w)
  }

  // ---------------------------------------------------------------------------
  // The matcher is the meaning
  // ---------------------------------------------------------------------------

  /** The matcher finds a match with given groups exactly when the expression accepts them. */
  lemma MatchAtCorrect(s: string, i: nat, p: Pattern, groups: seq<string>)
    requires i <= |s| && WellFormed(p)
    ensures (MatchAt(s, i, p).Some? && MatchAt(s, i, p).value.groups == groups) <==> Accepts(s, p, i, groups)
  {
    match p
    case NumberUnitWord(u, w) => NumberUnitWordCorrect(s, i, Stem(u), Endings(u), w, groups);
    case TimerNumberUnit(u) => TimerNumberUnitCorrect(s, i, Stem(u), Endings(u).0, groups);
    case ClockTimer => ClockTimerCorrect(s, i, groups);
    case WordClock(w) => WordClockCorrect(s, i, w, groups);
  }

  lemma NumberUnitWordCorrect(s: string, i: nat, stem: string, endings: (string, string), w: string, groups: seq<string>)
    requires i <= |s| && Solid(stem) && Solid(w)
    ensures (MatchNumberUnitWord(s, i, stem, endings, w).Some? && MatchNumberUnitWord(s, i, stem, endings, w).value.groups == groups)
      <==> exists e :: NumberUnitWordAt(s, stem, endings, w, i, e) && groups == [s[i..e]]
  {
    if MatchNumberUnitWord(s, i, stem, endings, w).Some? && MatchNumberUnitWord(s, i, stem, endings, w).value.groups == groups {
      NumberUnitWordSound(s, i, stem, endings, w);
    }
    if exists e :: NumberUnitWordAt(s, stem, endings, w, i, e) && groups == [s[i..e]] {
      var e :| NumberUnitWordAt(s, stem, endings, w, i, e) && groups == [s[i..e]];
      var a, t, c :| UnitWordTail(s, stem, endings, w, e, a, t, c);
      NumberUnitWordComplete(s, i, stem, endings, w, e, a, t, c);
    }
  }

  lemma NumberUnitWordSound(s: string, i: nat, stem: string, endings: (string, string), w: string)
    requires i <= |s| && MatchNumberUnitWord(s, i, stem, endings, w).Some?
    ensures NumberUnitWordAt(s, stem, endings, w, i, DigitEnd(s, i))
    ensures MatchNumberUnitWord(s, i, stem, endings, w).value.groups == [s[i..DigitEnd(s, i)]]
  {
    var e := DigitEnd(s, i);
    var a := SkipSpaces(s, e);
    var t := EndingChoice(s, a + |stem|, endings, w).value;
    assert UnitWordTail(s, stem, endings, w, e, a, t, SkipSpaces(s, t));
  }

  lemma NumberUnitWordComplete(s: string, i: nat, stem: string, endings: (string, string), w: string, e: int, a: int, t: int, c: int)
    requires i <= |s| && Solid(stem) && Solid(w) && Digits(s, i, e) && UnitWordTail(s, stem, endings, w, e, a, t, c)
    ensures MatchNumberUnitWord(s, i, stem, endings, w).Some?
    ensures MatchNumberUnitWord(s, i, stem, endings, w).value.groups == [s[i..e]]
  {
    StartOfOccurrence(s, stem, a);
    SpaceRunIsMaximal(s, e, a);
    DigitRunIsMaximal(s, i, e);
    StartOfOccurrence(s, w, c);
    SpaceRunIsMaximal(s, t, c);
    assert WordAfter(s, t, w);
  }

  /** An occurrence of a non-empty string starts with its first character. */
  lemma StartOfOccurrence(s: string, sub: string, i: int)
    requires OccursAt(s, sub, i) && |sub| > 0
    ensures s[i] == sub[0]
  {
    assert s[i] == s[i..i + |sub|][0];
  }

  lemma TimerNumberUnitCorrect(s: string, i: nat, stem: string, ending: string, groups: seq<string>)
    requires i <= |s| && Solid(stem)
    ensures (MatchTimerNumberUnit(s, i, stem, ending).Some? && MatchTimerNumberUnit(s, i, stem, ending).value.groups == groups)
      <==> exists a, e :: TimerNumberUnitAt(s, stem, i, a, e) && groups == [s[a..e]]
  {
    if MatchTimerNumberUnit(s, i, stem, ending).Some? && MatchTimerNumberUnit(s, i, stem, ending).value.groups == groups {
      TimerNumberUnitSound(s, i, stem, ending);
      var a := SkipSpaces(s, i + 5);
      var e := DigitEnd(s, a);
      assert TimerNumberUnitAt(s, stem, i, a, e) && groups == [s[a..e]];
    }
    if exists a, e :: TimerNumberUnitAt(s, stem, i, a, e) && groups == [s[a..e]] {
      var a, e :| TimerNumberUnitAt(s, stem, i, a, e) && groups == [s[a..e]];
      var b :| Spaces(s, e, b) && OccursAt(s, stem, b);
      TimerNumberUnitComplete(s, i, stem, ending, a, e, b);
    }
  }

  lemma TimerNumberUnitSound(s: string, i: nat, stem: string, ending: string)
    requires i <= |s| && MatchTimerNumberUnit(s, i, stem, ending).Some?
    ensures var a := SkipSpaces(s, i + 5);
      TimerNumberUnitAt(s, stem, i, a, DigitEnd(s, a)) && MatchTimerNumberUnit(s, i, stem, ending).value.groups == [s[a..DigitEnd(s, a)]]
  {
    var a := SkipSpaces(s, i + 5);
    var e := DigitEnd(s, a);
    var b := SkipSpaces(s, e);
    assert Spaces(s, e, b) && OccursAt(s, stem, b);
  }

  lemma TimerNumberUnitComplete(s: string, i: nat, stem: string, ending: string, a: int, e: int, b: int)
    requires i <= |s| && Solid(stem) && OccursAt(s, "timer", i) && Spaces(s, i + 5, a) && Digits(s, a, e)
    requires Spaces(s, e, b) && OccursAt(s, stem, b)
    ensures MatchTimerNumberUnit(s, i, stem, ending).Some?
    ensures MatchTimerNumberUnit(s, i, stem, ending).value.groups == [s[a..e]]
  {
    StartOfOccurrence(s, stem, b);
    SpaceRunIsMaximal(s, i + 5, a);
    DigitRunIsMaximal(s, a, e);
    SpaceRunIsMaximal(s, e, b);
  }

  lemma ClockTimerCorrect(s: string, i: nat, groups: seq<string>)
    requires i <= |s|
    ensures (MatchClockTimer(s, i).Some? && MatchClockTimer(s, i).value.groups == groups) <==> Accepts(s, ClockTimer, i, groups)
  {
    if MatchClockTimer(s, i).Some? && MatchClockTimer(s, i).value.groups == groups {
      ClockTimerSound(s, i);
      var e1 := DigitEnd(s, i);
      var e2 := DigitEnd(s, e1 + 1);
      assert ClockTimerAt(s, i, e1, e2) && groups == [s[i..e1], s[e1 + 1..e2]];
    }
    if Accepts(s, ClockTimer, i, groups) {
      var e1, e2 :| ClockTimerAt(s, i, e1, e2) && groups == [s[i..e1], s[e1 + 1..e2]];
      ClockTimerComplete(s, i, e1, e2);
    }
  }

  lemma ClockTimerSound(s: string, i: nat)
    requires i <= |s| && MatchClockTimer(s, i).Some?
    ensures ClockTimerAt(s, i, DigitEnd(s, i), DigitEnd(s, DigitEnd(s, i) + 1))
    ensures MatchClockTimer(s, i).value.groups == [s[i..DigitEnd(s, i)], s[DigitEnd(s, i) + 1..DigitEnd(s, DigitEnd(s, i) + 1)]]
  {
    var e1 := DigitEnd(s, i);
    var e2 := DigitEnd(s, e1 + 1);
    var c := SkipSpaces(s, e2);
    assert Spaces(s, e2, c) && OccursAt(s, "timer", c);
  }

  lemma ClockTimerComplete(s: string, i: nat, e1: int, e2: int)
    requires i <= |s| && ClockTimerAt(s, i, e1, e2)
    ensures MatchClockTimer(s, i).Some?
    ensures MatchClockTimer(s, i).value.groups == [s[i..e1], s[e1 + 1..e2]]
  {
    var c :| Spaces(s, e2, c) && OccursAt(s, "timer", c);
    assert s[e1] == ':';
    DigitRunIsMaximal(s, i, e1);
    assert s[c] == 't';
    DigitRunIsMaximal(s, e1 + 1, e2);
    SpaceRunIsMaximal(s, e2, c);
  }

  lemma WordClockCorrect(s: string, i: nat, w: string, groups: seq<string>)
    requires i <= |s| && WellFormed(WordClock(w))
    ensures (MatchWordClock(s, i, w).Some? && MatchWordClock(s, i, w).value.groups == groups) <==> Accepts(s, WordClock(w), i, groups)
  {
    if MatchWordClock(s, i, w).Some? && MatchWordClock(s, i, w).value.groups == groups {
      WordClockSound(s, i, w);
      var a := SkipSpaces(s, i + |w|);
      var e := a + |groups[0]|;
      assert WordClockAt(s, w, i, a, e) && groups == [s[a..e], s[e + 1..e + 3]];
    }
    if Accepts(s, WordClock(w), i, groups) {
      var a, e :| WordClockAt(s, w, i, a, e) && groups == [s[a..e], s[e + 1..e + 3]];
      WordClockComplete(s, i, w, a, e);
    }
  }

  lemma WordClockSound(s: string, i: nat, w: string)
    requires i <= |s| && MatchWordClock(s, i, w).Some?
    ensures var a := SkipSpaces(s, i + |w|); var g := MatchWordClock(s, i, w).value.groups;
      WordClockAt(s, w, i, a, a + |g[0]|) && g == [s[a..a + |g[0]|], s[a + |g[0]| + 1..a + |g[0]| + 3]]
  {
  }

  lemma WordClockComplete(s: string, i: nat, w: string, a: int, e: int)
    requires i <= |s| && WellFormed(WordClock(w)) && WordClockAt(s, w, i, a, e)
    ensures MatchWordClock(s, i, w).Some?
    ensures MatchWordClock(s, i, w).value.groups == [s[a..e], s[e + 1..e + 3]]
  {
    SpaceRunIsMaximal(s, i + |w|, a);
    assert s[e] == ':';
  }

  // ---------------------------------------------------------------------------
  // Leftmost match
  // ---------------------------------------------------------------------------

  /** `s.match(p)`: the leftmost index at or after `from` where `p` matches, with its match. */
  function Search(s: string, p: Pattern, from: nat): (r: Option<(nat, Match)>)
    requires from <= |s| + 1
    ensures r.Some? ==> from <= r.value.0 <= |s| && MatchAt(s, r.value.0, p) == Some(r.value.1)
    ensures r.Some? ==> forall j :: from <= j < r.value.0 ==> MatchAt(s, j, p).None?
    ensures r.None? ==> forall j :: from <= j <= |s| ==> MatchAt(s, j, p).None?
    decreases |s| + 1 - from
  {
    if from > |s| then None
    else
      match MatchAt(s, from, p)
      case Some(m) => Some((from, m))
      case None => Search(s, p, from + 1)
  }

  /** Starting one digit earlier in the same run does not change whether `(\d+)\s*UNIT\s*WORD` matches. */
  lemma NumberUnitWordExtends(s: string, i: nat, stem: string, endings: (string, string), w: string)
    requires 0 < i <= |s| && IsDigit(s[i - 1]) && MatchNumberUnitWord(s, i, stem, endings, w).Some?
    ensures MatchNumberUnitWord(s, i - 1, stem, endings, w).Some?
  {
    assert DigitEnd(s, i - 1) == DigitEnd(s, i);
  }

  /** Starting one digit earlier in the same run does not change whether `(\d+):(\d+)\s*timer` matches. */
  lemma ClockTimerExtends(s: string, i: nat)
    requires 0 < i <= |s| && IsDigit(s[i - 1]) && MatchClockTimer(s, i).Some?
    ensures MatchClockTimer(s, i - 1).Some?
  {
    assert DigitEnd(s, i - 1) == DigitEnd(s, i);
  }

  /**
   * The leftmost match of an expression that begins with a digit run
   * begins at the start of that run, so its first capture is the whole
   * run of digits.
   */
  lemma LeftmostStartsRun(s: string, p: Pattern)
    requires p.NumberUnitWord? || p.ClockTimer?
    requires Search(s, p, 0).Some?
    ensures var i := Search(s, p, 0).value.0; i == 0 || !IsDigit(s[i - 1])
  {
    var i := Search(s, p, 0).value.0;
    if i > 0 && IsDigit(s[i - 1]) {
      assert MatchAt(s, i - 1, p).None?;
      if p.NumberUnitWord? {
        NumberUnitWordExtends(s, i, Stem(p.unit), Endings(p.unit), p.word);
      } else {
        ClockTimerExtends(s, i);
      }
    }
  }

  /** The literals an expression cannot match without. */
  function RequiredText(p: Pattern): seq<string>
  {
    match p
    case NumberUnitWord(u, w) => [Stem(u), w]
    case TimerNumberUnit(u) => ["timer", Stem(u)]
    case ClockTimer => [":", "timer"]
    case WordClock(w) => [w, ":"]
  }

  /** Whatever the expression accepts contains every required literal. */
  lemma AcceptedNeedsText(s: string, i: nat, p: Pattern, groups: seq<string>, k: nat)
    requires Accepts(s, p, i, groups) && k < |RequiredText(p)|
    ensures Contains(s, RequiredText(p)[k])
  {
    match p
    case NumberUnitWord(u, w) =>
      var e :| NumberUnitWordAt(s, Stem(u), Endings(u), w, i, e) && groups == [s[i..e]];
      var a, t, c :| UnitWordTail(s, Stem(u), Endings(u), w, e, a, t, c);
      ContainsAt(s, Stem(u), a);
      ContainsAt(s, w, c);
    case TimerNumberUnit(u) =>
      var a, e :| TimerNumberUnitAt(s, Stem(u), i, a, e) && groups == [s[a..e]];
      var b :| Spaces(s, e, b) && OccursAt(s, Stem(u), b);
      ContainsAt(s, "timer", i);
      ContainsAt(s, Stem(u), b);
    case ClockTimer =>
      var e1, e2 :| ClockTimerAt(s, i, e1, e2) && groups == [s[i..e1], s[e1 + 1..e2]];
      var c :| Spaces(s, e2, c) && OccursAt(s, "timer", c);
      ContainsAt(s, ":", e1);
      ContainsAt(s, "timer", c);
    case WordClock(w) =>
      var a, e :| WordClockAt(s, w, i, a, e) && groups == [s[a..e], s[e + 1..e + 3]];
      ContainsAt(s, w, i);
      ContainsAt(s, ":", e);
  }

  /** A text that lacks a required literal never matches the expression. */
  lemma NoMatchWithoutText(s: string, p: Pattern, k: nat)
    requires WellFormed(p) && k < |RequiredText(p)| && !Contains(s, RequiredText(p)[k])
    ensures Search(s, p, 0).None?
  {
    if Search(s, p, 0).Some? {
      var (i, m) := Search(s, p, 0).value;
      MatchAtCorrect(s, i, p, m.groups);
      AcceptedNeedsText(s, i, p, m.groups, k);
    }
  }

  // ---------------------------------------------------------------------------
  // First expression that matches
  // ---------------------------------------------------------------------------

  /** The first expression of `ps` from index `k` on that matches `s`: its index in `ps`, and its leftmost match. */
  function FirstPattern(s: string, ps: seq<Pattern>, k: nat): (r: Option<(nat, Match)>)
    requires k <= |ps|
    ensures r.Some? ==> (k <= r.value.0 < |ps| && Search(s, ps[r.value.0], 0).Some?
      && Search(s, ps[r.value.0], 0).value.1 == r.value.1)
    ensures r.Some? ==> forall q :: k <= q < r.value.0 ==> Search(s, ps[q], 0).None?
    ensures r.None? ==> forall q :: k <= q < |ps| ==> Search(s, ps[q], 0).None?
    decreases |ps| - k
  {
    if k == |ps| then None
    else
      match Search(s, ps[k], 0)
      case Some(found) => Some((k, found.1))
      case None => FirstPattern(s, ps, k + 1)
  }

  /** `ps[k]` is the first expression of `ps` that matches `s`. */
  predicate FirstMatching(s: string, ps: seq<Pattern>, k: nat)
  {
    k < |ps| && Search(s, ps[k], 0).Some? && forall q :: 0 <= q < k ==> Search(s, ps[q], 0).None?
  }

  /** No expression of `ps` matches `s`. */
  predicate NoneMatching(s: string, ps: seq<Pattern>)
  {
    forall q :: 0 <= q < |ps| ==> Search(s, ps[q], 0).None?
  }

  /** What `checkAndCreateTimerOrAlarm` found in a text. */
  datatype Hit =
    | TimerHit(pattern: Pattern, groups: seq<string>)
    | AlarmHit(word: string, whole: string, hourDigits: string, minuteDigits: string)
    | NoHit

  /**
   * The timer expressions are tried first, then the alarm expressions; the
   * first one that matches the lowercased text is the only one acted on.
   */
  function FindHit(text: string): (h: Hit)
    ensures h.TimerHit? ==> h.pattern in TimerPatterns && |h.groups| == GroupCount(h.pattern)
    ensures h.TimerHit? ==> forall g :: 0 <= g < |h.groups| ==> |h.groups[g]| > 0 && AllDigits(h.groups[g])
    ensures h.AlarmHit? ==> WordClock(h.word) in AlarmPatterns && AlarmShape(h.whole, h.word)
    ensures h.AlarmHit? ==> (1 <= |h.hourDigits| <= 2 && AllDigits(h.hourDigits) && |h.minuteDigits| == 2 && AllDigits(h.minuteDigits))
  {
    var lower := Lower(text);
    match FirstPattern(lower, TimerPatterns, 0)
    case Some((k, m)) => TimerHit(TimerPatterns[k], m.groups)
    case None =>
      match FirstPattern(lower, AlarmPatterns, 0)
      case Some((k, m)) =>
        var i := Search(lower, AlarmPatterns[k], 0).value.0;
        AlarmHit(AlarmPatterns[k].word, lower[i..m.end], m.groups[0], m.groups[1])
      case None => NoHit
  }

  /** The first timer expression that matches decides the timer, with its leftmost match's groups. */
  lemma FindHitTimer(text: string, k: nat)
    requires FirstMatching(Lower(text), TimerPatterns, k)
    ensures FindHit(text) == TimerHit(TimerPatterns[k], Search(Lower(text), TimerPatterns[k], 0).value.1.groups)
  {
  }

  /** When no timer expression matches, the first alarm expression that matches decides the alarm. */
  lemma FindHitAlarm(text: string, k: nat)
    requires NoneMatching(Lower(text), TimerPatterns) && FirstMatching(Lower(text), AlarmPatterns, k)
    ensures var (i, m) := Search(Lower(text), AlarmPatterns[k], 0).value;
      FindHit(text) == AlarmHit(AlarmPatterns[k].word, Lower(text)[i..m.end], m.groups[0], m.groups[1])
  {
  }

  /** Nothing is created exactly when none of the eleven expressions matches. */
  lemma FindHitNone(text: string)
    ensures FindHit(text).NoHit? <==> NoneMatching(Lower(text), TimerPatterns) && NoneMatching(Lower(text), AlarmPatterns)
  {
  }

  /** What `FirstPattern` finds from index 0 is the first matching expression. */
  lemma FirstPatternIsFirst(s: string, ps: seq<Pattern>)
    ensures FirstPattern(s, ps, 0).Some? ==> FirstMatching(s, ps, FirstPattern(s, ps, 0).value.0)
    ensures FirstPattern(s, ps, 0).None? ==> NoneMatching(s, ps)
  {
  }

  /** A timer hit comes from the first matching timer expression, with that expression's leftmost match. */
  lemma TimerHitIsFirst(text: string)
    requires FindHit(text).TimerHit?
    ensures exists k: nat :: (FirstMatching(Lower(text), TimerPatterns, k) && FindHit(text).pattern == TimerPatterns[k]
      && FindHit(text).groups == Search(Lower(text), TimerPatterns[k], 0).value.1.groups)
  {
    var lower := Lower(text);
    FirstPatternIsFirst(lower, TimerPatterns);
    var k := FirstPattern(lower, TimerPatterns, 0).value.0;
    assert FirstMatching(lower, TimerPatterns, k);
  }

  /** An alarm hit comes from the first matching alarm expression, when no timer expression matches. */
  lemma AlarmHitIsFirst(text: string)
    requires FindHit(text).AlarmHit?
    ensures NoneMatching(Lower(text), TimerPatterns)
    ensures exists k: nat :: FirstMatching(Lower(text), AlarmPatterns, k) && FindHit(text).word == AlarmPatterns[k].word
  {
    var lower := Lower(text);
    FirstPatternIsFirst(lower, TimerPatterns);
    FirstPatternIsFirst(lower, AlarmPatterns);
    var k := FirstPattern(lower, AlarmPatterns, 0).value.0;
    assert FirstMatching(lower, AlarmPatterns, k);
  }

  /**
   * The hours expressions need the literal `hr`: a text without it (such as
   * "1 hour timer") never sets the hours through them.
   */
  lemma NoHoursWithoutHr(text: string)
    requires !Contains(Lower(text), "hr")
    ensures FindHit(text).TimerHit? ==> KindOf(FindHit(text).pattern) != HoursKind
  {
    PatternsWellFormed();
    NoMatchWithoutText(Lower(text), TimerPatterns[1], 0);
    NoMatchWithoutText(Lower(text), TimerPatterns[3], 1);
    NoMatchWithoutText(Lower(text), TimerPatterns[6], 0);
    if FindHit(text).TimerHit? {
      TimerHitIsFirst(text);
    }
  }

  /**
   * Every expression needs `min`, `hr` or a colon: a text with none of them
   * (such as "1 hour timer") creates neither a timer nor an alarm.
   */
  lemma NothingWithoutUnitOrColon(text: string)
    requires !Contains(Lower(text), "min") && !Contains(Lower(text), "hr") && !Contains(Lower(text), ":")
    ensures FindHit(text) == NoHit
  {
    var lower := Lower(text);
    PatternsWellFormed();
    NoMatchWithoutText(lower, TimerPatterns[0], 0);
    NoMatchWithoutText(lower, TimerPatterns[1], 0);
    NoMatchWithoutText(lower, TimerPatterns[2], 1);
    NoMatchWithoutText(lower, TimerPatterns[3], 1);
    NoMatchWithoutText(lower, TimerPatterns[4], 0);
    NoMatchWithoutText(lower, TimerPatterns[5], 0);
    NoMatchWithoutText(lower, TimerPatterns[6], 0);
    NoMatchWithoutText(lower, AlarmPatterns[0], 1);
    NoMatchWithoutText(lower, AlarmPatterns[1], 1);
    NoMatchWithoutText(lower, AlarmPatterns[2], 1);
    NoMatchWithoutText(lower, AlarmPatterns[3], 1);
    FindHitNone(text);
  }

  // ---------------------------------------------------------------------------
  // The timer a hit sets (`createTimerFromTask`)
  // ---------------------------------------------------------------------------

  /** The `type` tag a timer expression carries. */
  datatype TimerKind = MinutesKind | HoursKind | TimeKind

  function KindOf(p: Pattern): TimerKind
  {
    match p
    case NumberUnitWord(u, _) => if u == Minutes then MinutesKind else HoursKind
    case TimerNumberUnit(u) => if u == Minutes then MinutesKind else HoursKind
    case ClockTimer => TimeKind
    case WordClock(_) => TimeKind
  }

  /** Hours, minutes and seconds of a countdown. */
  datatype Duration = Duration(hours: nat, minutes: nat, seconds: nat)

  /** `hours * 3600 + minutes * 60 + seconds`. */
  function Seconds(d: Duration): nat
  {
    d.hours * 3600 + d.minutes * 60 + d.seconds
  }

  /**
   * `createTimerFromTask`: a minutes expression sets only the minutes and an
   * hours expression only the hours; a clock expression sets both when its
   * second capture is non-empty and only the minutes otherwise. Seconds are
   * always 0.
   */
  function TimerDuration(kind: TimerKind, groups: seq<string>): (d: Duration)
    requires |groups| >= 1 && forall g :: 0 <= g < |groups| ==> AllDigits(groups[g])
    requires kind == TimeKind ==> |groups| >= 2
    ensures d.seconds == 0 && Seconds(d) == d.hours * 3600 + d.minutes * 60
    ensures kind == MinutesKind ==> d.hours == 0
    ensures kind == HoursKind ==> d.minutes == 0
  {
    match kind
    case MinutesKind => Duration(0, Value(groups[0]), 0)
    case HoursKind => Duration(Value(groups[0]), 0, 0)
    case TimeKind =>
      if |groups[1]| > 0 then Duration(Value(groups[0]), Value(groups[1]), 0) else Duration(0, Value(groups[0]), 0)
  }

  /** The countdown the first matching timer expression sets, if any. */
  function TimerFromText(text: string): (d: Option<Duration>)
    ensures d.Some? <==> FindHit(text).TimerHit?
    ensures d.Some? ==> d.value.seconds == 0
  {
    var h := FindHit(text);
    if h.TimerHit? then Some(TimerDuration(KindOf(h.pattern), h.groups)) else None
  }

  /** A countdown is started automatically (one second later) when it is under four hours. */
  predicate AutoStarts(d: Duration)
  {
    d.hours < 4
  }

  /**
   * A minutes expression sets the minutes to the captured number and leaves
   * the hours at 0; an hours expression the other way round.
   */
  lemma TimerFromUnit(text: string)
    requires FindHit(text).TimerHit? && !FindHit(text).pattern.ClockTimer?
    ensures var h := FindHit(text); var n := Value(h.groups[0]);
      TimerFromText(text) == Some(if h.pattern.unit == Minutes then Duration(0, n, 0) else Duration(n, 0, 0))
  {
    var h := FindHit(text);
    assert h.pattern.NumberUnitWord? || h.pattern.TimerNumberUnit?;
  }

  /**
   * The second capture of `(\d+):(\d+)\s*timer` is never empty, so the
   * branch that would read a lone capture as minutes is never taken: a clock
   * expression always sets both hours and minutes.
   */
  lemma ClockTimerSetsBoth(text: string)
    requires FindHit(text).TimerHit? && FindHit(text).pattern.ClockTimer?
    ensures var g := FindHit(text).groups;
      TimerFromText(text) == Some(Duration(Value(g[0]), Value(g[1]), 0))
      && Seconds(TimerFromText(text).value) == Value(g[0]) * 3600 + Value(g[1]) * 60
  {
    assert |FindHit(text).groups[1]| > 0;
  }

  // ---------------------------------------------------------------------------
  // The alarm a hit sets (`createAlarmFromTask`)
  // ---------------------------------------------------------------------------

  /**
   * The hour after the am/pm adjustment: a `pm` in the lowercased
   * `match[0]` adds 12 unless the hour is 12, an `am` turns 12 into 0.
   */
  function AdjustedHour(whole: string, hours: nat): (h: nat)
    ensures h == hours || h == hours + 12 || (hours == 12 && h == 0)
  {
    var lw := Lower(whole);
    if Contains(lw, "pm") then (if hours != 12 then hours + 12 else hours)
    else if Contains(lw, "am") then (if hours == 12 then 0 else hours)
    else hours
  }

  /** The `"HH:MM"` text of an alarm hit: both numbers through `toString().padStart(2, '0')`. */
  function AlarmTime(h: Hit): (t: string)
    requires h.AlarmHit? && AllDigits(h.hourDigits) && AllDigits(h.minuteDigits)
  {
    PadTwo(AdjustedHour(h.whole, Value(h.hourDigits))) + ":" + PadTwo(Value(h.minuteDigits))
  }

  /** The alarm time set for a text, when no timer expression but an alarm expression matches. */
  function AlarmFromText(text: string): (t: Option<string>)
    ensures t.Some? <==> FindHit(text).AlarmHit?
  {
    var h := FindHit(text);
    if h.AlarmHit? then Some(AlarmTime(h)) else None
  }

  /** The words the alarm expressions start with. */
  const AlarmWords: seq<string> := ["alarm", "remind", "wake", "at"]

  /** No two neighbouring characters of `w` lowercase to `x` and `y`. */
  predicate NoPair(w: string, x: char, y: char)
  {
    forall j :: 0 <= j < |w| - 1 ==> !(LowerChar(w[j]) == x && LowerChar(w[j + 1]) == y)
  }

  /**
   * A two-letter marker can only occur inside the word of an alarm's
   * `match[0]`, since the rest is whitespace, digits and a colon.
   */
  lemma {:induction false} NoMarkerInAlarm(whole: string, w: string, x: char, y: char)
    requires AlarmShape(whole, w) && 'a' <= y <= 'z' && NoPair(w, x, y)
    ensures !Contains(Lower(whole), [x, y])
  {
    ContainsIff(Lower(whole), [x, y]);
    if Contains(Lower(whole), [x, y]) {
      var j :| OccursAt(Lower(whole), [x, y], j);
      MarkerInWord(whole, w, x, y, j);
      assert false;
    }
  }

  /** Where a two-letter marker occurs in an alarm's `match[0]`: inside the word. */
  lemma MarkerInWord(whole: string, w: string, x: char, y: char, j: int)
    requires AlarmShape(whole, w) && 'a' <= y <= 'z' && OccursAt(Lower(whole), [x, y], j)
    ensures j + 1 < |w| && LowerChar(w[j]) == x && LowerChar(w[j + 1]) == y
  {
    assert Lower(whole)[j..j + 2] == [x, y];
    assert LowerChar(whole[j]) == x && LowerChar(whole[j + 1]) == y;
    assert !(IsSpace(whole[j + 1]) || IsDigit(whole[j + 1]) || whole[j + 1] == ':');
    assert whole[..|w|] == w;
    assert whole[j] == w[j] && whole[j + 1] == w[j + 1];
  }

  /** None of the alarm words holds an `am` or a `pm`. */
  lemma AlarmWordsHaveNoMarker(w: string)
    requires w in AlarmWords
    ensures NoPair(w, 'a', 'm') && NoPair(w, 'p', 'm')
  {
  }

  /**
   * The am/pm adjustment never fires: an alarm's `match[0]` is one of the
   * alarm words followed by whitespace, digits and a colon, so it contains
   * neither `am` nor `pm`, and the captured hour is kept as it is.
   */
  lemma AmPmNeverFires(text: string)
    requires FindHit(text).AlarmHit?
    ensures var h := FindHit(text);
      !Contains(Lower(h.whole), "am") && !Contains(Lower(h.whole), "pm")
      && forall n :: AdjustedHour(h.whole, n) == n
  {
    var h := FindHit(text);
    assert h.word in AlarmWords;
    AlarmWordsHaveNoMarker(h.word);
    NoMarkerInAlarm(h.whole, h.word, 'a', 'm');
    NoMarkerInAlarm(h.whole, h.word, 'p', 'm');
    assert ['a', 'm'] == "am" && ['p', 'm'] == "pm";
  }

  /**
   * An extracted alarm keeps the captured digits verbatim, with a `0` put
   * before a one-digit hour, so it always passes the `HH:MM` check that
   * manual alarms go through.
   */
  lemma AlarmKeepsDigits(text: string)
    requires FindHit(text).AlarmHit?
    ensures var h := FindHit(text);
      AlarmFromText(text) == Some((if |h.hourDigits| == 1 then "0" + h.hourDigits else h.hourDigits) + ":" + h.minuteDigits)
    ensures IsHHMM(AlarmFromText(text).value)
  {
    var h := FindHit(text);
    AmPmNeverFires(text);
    PadTwoOfValue(h.hourDigits);
    PadTwoOfValue(h.minuteDigits);
  }
}
