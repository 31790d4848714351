/**
 * Character and string helpers shared by the classifier, the phrase
 * extractor, the recommender and the voice-command dispatcher: ASCII
 * lowercasing, substring search, JavaScript's `split(' ')` and `trim()`,
 * and decimal digits (`parseInt` on a digit run, `toString().padStart(2, '0')`).
 */
module Text {

  datatype Option<T> = None | Some(value: T)

  // ---------------------------------------------------------------------------
  // Characters
  // ---------------------------------------------------------------------------

  /** ASCII lowercasing of one character (the model's `toLowerCase`). */
  function LowerChar(c: char): char
  {
    if 'A' <= c <= 'Z' then (c as int + 32) as char else c
  }

  /** `\d` in a JavaScript regular expression. */
  predicate IsDigit(c: char)
  {
    '0' <= c <= '9'
  }

  /** `\s` in a JavaScript regular expression, restricted to ASCII whitespace. */
  predicate IsSpace(c: char)
  {
    c == ' ' || c == '\t' || c == '\n' || c == '\r' || c == '\U{000B}' || c == '\U{000C}'
  }

  predicate AllDigits(s: string)
  {
    forall k :: 0 <= k < |s| ==> IsDigit(s[k])
  }

  // ---------------------------------------------------------------------------
  // Lowercasing
  // ---------------------------------------------------------------------------

  /** `s.toLowerCase()` for ASCII text. */
  function Lower(s: string): (r: string)
    ensures |r| == |s|
    ensures forall k :: 0 <= k < |s| ==> r[k] == LowerChar(s[k])
  {
    seq(|s|, k requires 0 <= k < |s| => LowerChar(s[k]))
  }

  /** Lowercasing twice is lowercasing once. */
  lemma LowerIdempotent(s: string)
    ensures Lower(Lower(s)) == Lower(s)
  {
    assert forall k :: 0 <= k < |s| ==> LowerChar(LowerChar(s[k])) == LowerChar(s[k]);
  }

  /** Lowercasing commutes with taking a slice. */
  lemma LowerSlice(s: string, i: int, j: int)
    requires 0 <= i <= j <= |s|
    ensures Lower(s[i..j]) == Lower(s)[i..j]
  {
  }

  // ---------------------------------------------------------------------------
  // Substrings
  // ---------------------------------------------------------------------------

  /** `sub` occurs in `s` starting at index `i`. */
  predicate OccursAt(s: string, sub: string, i: int)
  {
    0 <= i && i + |sub| <= |s| && s[i..i + |sub|] == sub
  }

  /** `s.includes(sub)`: the search walks `s` from the left. */
  predicate Contains(s: string, sub: string)
    decreases |s|
  {
    sub <= s || (|s| > 0 && Contains(s[1..], sub))
  }

  /** The search agrees with the definition of an occurrence at some index. */
  lemma {:induction false} ContainsIff(s: string, sub: string)
    ensures Contains(s, sub) <==> exists i :: OccursAt(s, sub, i)
    decreases |s|
  {
    if sub <= s {
      assert OccursAt(s, sub, 0);
    } else if |s| == 0 {
      assert forall i :: !OccursAt(s, sub, i);
    } else {
      ContainsIff(s[1..], sub);
      if Contains(s[1..], sub) {
        var i :| OccursAt(s[1..], sub, i);
        assert s[1..][i..i + |sub|] == s[i + 1..i + 1 + |sub|];
        assert OccursAt(s, sub, i + 1);
      } else {
        assert !OccursAt(s, sub, 0);
        forall i | OccursAt(s, sub, i) && i > 0
          ensures OccursAt(s[1..], sub, i - 1)
        {
          assert s[1..][i - 1..i - 1 + |sub|] == s[i..i + |sub|];
        }
      }
    }
  }

  /** An occurrence at a known index is found by the search. */
  lemma ContainsAt(s: string, sub: string, i: int)
    requires OccursAt(s, sub, i)
    ensures Contains(s, sub)
  {
    ContainsIff(s, sub);
  }

  /** The empty string occurs in every string (`"abc".includes("")` is true). */
  lemma ContainsEmpty(s: string)
    ensures Contains(s, "")
  {
    assert [] <= s;
  }

  // ---------------------------------------------------------------------------
  // Scanning helpers used by the regular-expression matchers
  // ---------------------------------------------------------------------------

  /** The end of the run of whitespace that starts at `i` (greedy `\s*`). */
  function SkipSpaces(s: string, i: nat): (j: nat)
    requires i <= |s|
    ensures i <= j <= |s|
    ensures forall k :: i <= k < j ==> IsSpace(s[k])
    ensures j == |s| || !IsSpace(s[j])
    decreases |s| - i
  {
    if i < |s| && IsSpace(s[i]) then SkipSpaces(s, i + 1) else i
  }

  /** The end of the run of digits that starts at `i` (greedy `\d*`). */
  function DigitEnd(s: string, i: nat): (j: nat)
    requires i <= |s|
    ensures i <= j <= |s|
    ensures forall k :: i <= k < j ==> IsDigit(s[k])
    ensures j == |s| || !IsDigit(s[j])
    decreases |s| - i
  {
    if i < |s| && IsDigit(s[i]) then DigitEnd(s, i + 1) else i
  }

  /** A run of whitespace followed by a non-space character can only be the greedy one. */
  lemma SpaceRunIsMaximal(s: string, i: nat, j: nat)
    requires i <= j <= |s|
    requires forall k :: i <= k < j ==> IsSpace(s[k])
    requires j == |s| || !IsSpace(s[j])
    ensures j == SkipSpaces(s, i)
    decreases |s| - i
  {
    if i < j {
      SpaceRunIsMaximal(s, i + 1, j);
    }
  }

  /** A run of digits followed by a non-digit can only be the greedy one. */
  lemma DigitRunIsMaximal(s: string, i: nat, j: nat)
    requires i <= j <= |s|
    requires forall k :: i <= k < j ==> IsDigit(s[k])
    requires j == |s| || !IsDigit(s[j])
    ensures j == DigitEnd(s, i)
    decreases |s| - i
  {
    if i < j {
      DigitRunIsMaximal(s, i + 1, j);
    }
  }

  // ---------------------------------------------------------------------------
  // Decimal numbers
  // ---------------------------------------------------------------------------

  function DigitValue(c: char): nat
    requires IsDigit(c)
  {
    c as int - '0' as int
  }

  function DigitChar(d: nat): (c: char)
    requires d < 10
    ensures IsDigit(c) && DigitValue(c) == d
  {
    ('0' as int + d) as char
  }

  /** `parseInt` of a non-empty run of decimal digits. */
  function Value(ds: string): nat
    requires AllDigits(ds)
    decreases |ds|
  {
    if ds == [] then 0 else Value(ds[..|ds| - 1]) * 10 + DigitValue(ds[|ds| - 1])
  }

  /** `n.toString()` for a natural number: no sign, no leading zero. */
  function NatToString(n: nat): (r: string)
    ensures |r| >= 1 && AllDigits(r)
    ensures |r| > 1 ==> r[0] != '0'
    ensures n < 10 <==> |r| == 1
    decreases n
  {
    if n < 10 then [DigitChar(n)] else NatToString(n / 10) + [DigitChar(n % 10)]
  }

  /** Reading back the decimal text of a number gives the number. */
  lemma {:induction false} ValueOfNatToString(n: nat)
    ensures Value(NatToString(n)) == n
    decreases n
  {
    if n >= 10 {
      ValueOfNatToString(n / 10);
      var r := NatToString(n);
      assert r[..|r| - 1] == NatToString(n / 10);
    }
  }

  /** A digit string without a leading zero is the decimal text of its value. */
  lemma {:induction false} NatToStringOfValue(ds: string)
    requires |ds| >= 1 && AllDigits(ds)
    requires |ds| > 1 ==> ds[0] != '0'
    ensures NatToString(Value(ds)) == ds
    decreases |ds|
  {
    var last := ds[|ds| - 1];
    if |ds| == 1 {
      assert Value(ds) == DigitValue(last);
    } else {
      var init := ds[..|ds| - 1];
      assert init[0] == ds[0];
      NatToStringOfValue(init);
      ValueLowerBound(init);
      assert Value(ds) / 10 == Value(init) && Value(ds) % 10 == DigitValue(last);
    }
  }

  /** A digit string that does not start with 0 is worth at least 1, and 10 once it has two digits. */
  lemma {:induction false} ValueLowerBound(ds: string)
    requires |ds| >= 1 && AllDigits(ds) && ds[0] != '0'
    ensures Value(ds) >= 1
    ensures |ds| > 1 ==> Value(ds) >= 10
    decreases |ds|
  {
    if |ds| > 1 {
      var init := ds[..|ds| - 1];
      assert init[0] == ds[0];
      ValueLowerBound(init);
    }
  }

  /** `n.toString().padStart(2, '0')`. */
  function PadTwo(n: nat): (r: string)
    ensures |r| >= 2 && AllDigits(r)
    ensures n < 100 ==> |r| == 2
  {
    if n < 10 then "0" + NatToString(n) else NatToString(n)
  }

  /** Padding keeps the value: reading the padded text back gives the number. */
  lemma ValueOfPadTwo(n: nat)
    ensures Value(PadTwo(n)) == n
  {
    ValueOfNatToString(n);
    if n < 10 {
      assert PadTwo(n)[..1] == "0";
    }
  }

  /** Padding the value of a one- or two-digit capture gives back two digits: the capture itself, or "0" before it. */
  lemma PadTwoOfValue(ds: string)
    requires 1 <= |ds| <= 2 && AllDigits(ds)
    ensures PadTwo(Value(ds)) == if |ds| == 1 then "0" + ds else ds
  {
    if |ds| == 1 {
      assert ds[..0] == [];
      NatToStringOfValue(ds);
    } else if ds[0] != '0' {
      ValueLowerBound(ds);
      NatToStringOfValue(ds);
    } else {
      assert ds[..1] == "0";
      var tail := ds[1..];
      assert Value(ds) == DigitValue(ds[1]);
      assert NatToString(Value(ds)) == [DigitChar(DigitValue(ds[1]))];
    }
  }

  // ---------------------------------------------------------------------------
  // split(' ') and trim()
  // ---------------------------------------------------------------------------

  /** `s.split(' ')`: every space separates two (possibly empty) pieces. */
  function Split(s: string): (r: seq<string>)
    ensures |r| >= 1
    ensures forall k :: 0 <= k < |r| ==> ' ' !in r[k]
    decreases |s|
  {
    if s == [] then [""]
    else
      var rest := Split(s[1..]);
      if s[0] == ' ' then [""] + rest else [[s[0]] + rest[0]] + rest[1..]
  }

  /** `pieces.join(' ')`. */
  function Join(pieces: seq<string>): string
    requires |pieces| >= 1
  {
    if |pieces| == 1 then pieces[0] else pieces[0] + " " + Join(pieces[1..])
  }

  /** Splitting on spaces loses nothing: joining the pieces again gives the text back. */
  lemma {:induction false} JoinSplit(s: string)
    ensures Join(Split(s)) == s
    decreases |s|
  {
    if s != [] {
      JoinSplit(s[1..]);
      var rest := Split(s[1..]);
      if s[0] != ' ' {
        var r := Split(s);
        assert r[0] == [s[0]] + rest[0] && r[1..] == rest[1..];
        if |rest| > 1 {
          assert rest == [rest[0]] + rest[1..];
          assert Join(rest) == rest[0] + " " + Join(rest[1..]);
        }
      } else {
        assert Split(s)[1..] == rest;
      }
    }
  }

  /**
   * A space-free word that occurs in a text occurs inside one of its
   * space-separated pieces: an occurrence cannot straddle a separator.
   */
  lemma {:induction false} OccurrenceInsidePiece(s: string, w: string, i: int)
    requires ' ' !in w && OccursAt(s, w, i)
    ensures exists b :: 0 <= b < |Split(s)| && Contains(Split(s)[b], w)
    decreases |s|
  {
    var r := Split(s);
    if |w| == 0 {
      ContainsEmpty(r[0]);
    } else {
      var rest := Split(s[1..]);
      if i == 0 {
        assert s[0] == w[0] && s[0] != ' ';
        // the piece that starts at s[0] is s[0] followed by the first piece of s[1..]
        if |w| == 1 {
          assert OccursAt(r[0], w, 0);
          ContainsAt(r[0], w, 0);
        } else {
          assert OccursAt(s[1..], w[1..], 0);
          assert w[1..][0] == w[1] && ' ' !in w[1..];
          PrefixInFirstPiece(s[1..], w[1..]);
          assert r[0] == [s[0]] + rest[0];
          assert r[0][..|w|] == [s[0]] + rest[0][..|w| - 1];
          assert OccursAt(r[0], w, 0);
          ContainsAt(r[0], w, 0);
        }
      } else {
        assert s[1..][i - 1..i - 1 + |w|] == s[i..i + |w|];
        OccurrenceInsidePiece(s[1..], w, i - 1);
        var b :| 0 <= b < |rest| && Contains(rest[b], w);
        if s[0] == ' ' {
          assert r[b + 1] == rest[b];
        } else if b == 0 {
          ContainsIff(rest[0], w);
          var j :| OccursAt(rest[0], w, j);
          assert r[0] == [s[0]] + rest[0];
          assert r[0][j + 1..j + 1 + |w|] == rest[0][j..j + |w|];
          assert OccursAt(r[0], w, j + 1);
          ContainsAt(r[0], w, j + 1);
        } else {
          assert r[b] == rest[b];
        }
      }
    }
  }

  /** A space-free prefix of a text is a prefix of its first piece. */
  lemma {:induction false} PrefixInFirstPiece(s: string, w: string)
    requires ' ' !in w && w <= s
    ensures w <= Split(s)[0]
    decreases |s|
  {
    if w != [] {
      assert s[0] == w[0] && s[0] != ' ';
      PrefixInFirstPiece(s[1..], w[1..]);
    }
  }

  /** The first index at or after `i` that is not whitespace, scanning forward. */
  function TrimStartIndex(s: string): (i: nat)
    ensures i <= |s|
    ensures forall k :: 0 <= k < i ==> IsSpace(s[k])
    ensures i == |s| || !IsSpace(s[i])
  {
    SkipSpaces(s, 0)
  }

  /** One past the last index that is not whitespace. */
  function TrimEndIndex(s: string): (j: nat)
    ensures j <= |s|
    ensures forall k :: j <= k < |s| ==> IsSpace(s[k])
    ensures j == 0 || !IsSpace(s[j - 1])
    decreases |s|
  {
    if |s| > 0 && IsSpace(s[|s| - 1]) then TrimEndIndex(s[..|s| - 1]) else |s|
  }

  /** `s.trim()`: the text without leading and trailing whitespace. */
  function Trim(s: string): (r: string)
    ensures |r| <= |s|
    ensures r == [] || (!IsSpace(r[0]) && !IsSpace(r[|r| - 1]))
    ensures r == [] <==> forall k :: 0 <= k < |s| ==> IsSpace(s[k])
    ensures exists i :: (OccursAt(s, r, i)
                         && (forall k :: 0 <= k < i ==> IsSpace(s[k]))
                         && (forall k :: i + |r| <= k < |s| ==> IsSpace(s[k])))
  {
    var i := TrimStartIndex(s);
    var t := s[i..];
    var j := TrimEndIndex(t);
    assert s[i..i + j] == t[..j];
    assert j == 0 ==> i == |s|;
    assert j > 0 ==> t[..j][0] == s[i];
    assert OccursAt(s, t[..j], i);
    assert forall k :: i + j <= k < |s| ==> s[k] == t[k - i];
    t[..j]
  }

  // ---------------------------------------------------------------------------
  // Clock text
  // ---------------------------------------------------------------------------

  /** `/^\d{2}:\d{2}$/`: two digits, a colon, two digits, and nothing else. */
  predicate IsHHMM(t: string)
  {
    |t| == 5 && IsDigit(t[0]) && IsDigit(t[1]) && t[2] == ':' && IsDigit(t[3]) && IsDigit(t[4])
  }
}
