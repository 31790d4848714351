/**
 * Task-type detection (`detectTaskType`): five keyword lists are tried in a
 * fixed priority order against the lowercased text; the first list with a
 * keyword that occurs as a substring decides the category, and text that
 * matches no list is `Other`.
 */
module Classifier {
  import opened Text

  datatype Category = Work | Personal | Study | Health | Shopping | Other

  const WorkKeywords: seq<string> :=
    ["meeting", "project", "deadline", "work", "office", "client", "presentation", "report", "email", "call", "conference"]
  const PersonalKeywords: seq<string> :=
    ["home", "family", "personal", "house", "clean", "grocery", "shopping", "appointment", "visit"]
  const StudyKeywords: seq<string> :=
    ["study", "learn", "read", "course", "homework", "assignment", "exam", "research", "book", "tutorial"]
  const HealthKeywords: seq<string> :=
    ["exercise", "gym", "doctor", "health", "fitness", "workout", "medical", "appointment", "medicine"]
  const ShoppingKeywords: seq<string> :=
    ["buy", "purchase", "shop", "store", "mall", "order", "shopping", "grocery"]

  /** The categories that own a keyword list, highest priority first. */
  const Ranked: seq<Category> := [Work, Personal, Study, Health, Shopping]

  /** The keyword list of a category; `Other` has none. */
  function Keywords(c: Category): seq<string>
  {
    match c
    case Work => WorkKeywords
    case Personal => PersonalKeywords
    case Study => StudyKeywords
    case Health => HealthKeywords
    case Shopping => ShoppingKeywords
    case Other => []
  }

  /** `keywords.some(keyword => text.includes(keyword))`. */
  predicate AnyKeyword(text: string, keywords: seq<string>)
  {
    exists k | 0 <= k < |keywords| :: Contains(text, keywords[k])
  }

  /** The category `c` is listed and its list matches the (lowercased) text. */
  predicate ListMatches(lower: string, c: Category)
  {
    c in Ranked && AnyKeyword(lower, Keywords(c))
  }

  /** Where a category stands in the priority order; `Other` comes after all lists. */
  function Position(c: Category): (p: nat)
    ensures p <= |Ranked|
    ensures p < |Ranked| ==> Ranked[p] == c
    ensures c != Other <==> p < |Ranked|
  {
    match c
    case Work => 0
    case Personal => 1
    case Study => 2
    case Health => 3
    case Shopping => 4
    case Other => 5
  }

  /**
   * `detectTaskType`: the first category of `Ranked` whose keyword list
   * matches the lowercased text, or `Other` when none matches.
   */
  function DetectTaskType(text: string): (r: Category)
    ensures r != Other ==> ListMatches(Lower(text), r)
    ensures forall q :: 0 <= q < Position(r) ==> !ListMatches(Lower(text), Ranked[q])
  {
    var lower := Lower(text);
    if AnyKeyword(lower, WorkKeywords) then Work
    else if AnyKeyword(lower, PersonalKeywords) then Personal
    else if AnyKeyword(lower, StudyKeywords) then Study
    else if AnyKeyword(lower, HealthKeywords) then Health
    else if AnyKeyword(lower, ShoppingKeywords) then Shopping
    else Other
  }

  /** A keyword found in the lowercased text makes its list match. */
  lemma KeywordMatches(text: string, c: Category, k: nat, i: int)
    requires c in Ranked && k < |Keywords(c)| && OccursAt(Lower(text), Keywords(c)[k], i)
    ensures ListMatches(Lower(text), c)
  {
    ContainsAt(Lower(text), Keywords(c)[k], i);
  }

  /**
   * Priority: any text whose lowercased form contains "work" (also inside
   * "homework" or "workout") is a work task, whatever else it contains.
   */
  lemma ContainsWorkIsWork(text: string)
    requires Contains(Lower(text), "work")
    ensures DetectTaskType(text) == Work
  {
    assert WorkKeywords[3] == "work";
  }

  /**
   * "appointment", "grocery" and "shopping" are also health or shopping
   * keywords, but the personal list is tried first: such a text is never
   * classified health or shopping.
   */
  lemma SharedKeywordsArePersonal(text: string, kw: string)
    requires kw in ["appointment", "grocery", "shopping"]
    requires Contains(Lower(text), kw)
    ensures DetectTaskType(text) == Work || DetectTaskType(text) == Personal
  {
    assert PersonalKeywords[5] == "grocery" && PersonalKeywords[6] == "shopping" && PersonalKeywords[7] == "appointment";
    assert AnyKeyword(Lower(text), PersonalKeywords);
  }

  /** Classification ignores case: a text and its lowercased form get the same category. */
  lemma DetectIgnoresCase(text: string)
    ensures DetectTaskType(Lower(text)) == DetectTaskType(text)
  {
    LowerIdempotent(text);
  }

  /** A text that contains the work keyword "meeting" is a work task. */
  lemma MeetingIsWork(text: string)
    requires Contains(Lower(text), "meeting")
    ensures DetectTaskType(text) == Work
  {
    assert WorkKeywords[0] == "meeting";
  }

  /**
   * More text never lowers the priority: words put before or after a text
   * can only move its category to an earlier list. A work keyword, for
   * one, makes a work task whatever else surrounds it.
   */
  lemma SurroundingKeepsPriority(a: string, b: string, c: string)
    ensures Position(DetectTaskType(a + b + c)) <= Position(DetectTaskType(b))
  {
    var r := DetectTaskType(b);
    if r != Other {
      var s := a + b + c;
      var k :| 0 <= k < |Keywords(r)| && Contains(Lower(b), Keywords(r)[k]);
      var w := Keywords(r)[k];
      ContainsIff(Lower(b), w);
      var i :| OccursAt(Lower(b), w, i);
      assert s[|a|..|a| + |b|] == b;
      LowerSlice(s, |a|, |a| + |b|);
      assert Lower(s)[|a| + i..|a| + i + |w|] == Lower(b)[i..i + |w|];
      KeywordMatches(s, r, k, |a| + i);
      assert Ranked[Position(r)] == r;
    }
  }
}
