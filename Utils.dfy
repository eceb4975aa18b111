/** Helpers of the backend: focus-area choice, characteristic parsing, the
    confidence score, the majority vote and the price-factor explanations. */
module Utils {
  import opened Wrappers
  import opened Text
  import opened Dict
  import opened Config
  import opened Models

  // ---------------------------------------------------------------- focus area

  datatype FocusArea = General | Interior | Wheels | Exterior {
    /** The string the backend uses for the area (the key of its prompt table). */
    function Name(): string {
      match this
      case General => "general"
      case Interior => "interior"
      case Wheels => "wheels"
      case Exterior => "exterior"
    }
  }

  const InteriorWords: seq<string> := ["interior", "inside", "dashboard", "seat"]
  const WheelWords: seq<string> := ["wheel", "tire", "rim"]
  const ExteriorWords: seq<string> := ["exterior", "outside", "body"]

  /** `any(word in s for word in words)`. */
  predicate MentionsAny(s: string, words: seq<string>) {
    exists j :: 0 <= j < |words| && Contains(s, words[j])
  }

  /** The string searched for keywords: the lower-cased file name, or
      `image_{index}` when the name is missing or empty. */
  function FocusSubject(filename: Option<string>, index: nat): string {
    if filename.Some? && filename.value != "" then Lower(filename.value)
    else "image_" + NatToString(index)
  }

  function DetermineFocusArea(filename: Option<string>, index: nat): FocusArea {
    var s := FocusSubject(filename, index);
    if MentionsAny(s, InteriorWords) then Interior
    else if MentionsAny(s, WheelWords) then Wheels
    else if MentionsAny(s, ExteriorWords) then Exterior
    else General
  }

  /** Each word of `ws` paired with area `a`. */
  function Tag(ws: seq<string>, a: FocusArea): (t: seq<(string, FocusArea)>)
    ensures |t| == |ws|
    ensures forall i :: 0 <= i < |ws| ==> t[i] == (ws[i], a)
  {
    seq(|ws|, i requires 0 <= i < |ws| => (ws[i], a))
  }

  /** Every keyword with the area it selects, in order of precedence. */
  const FocusKeywords: seq<(string, FocusArea)> :=
    Tag(InteriorWords, Interior) + Tag(WheelWords, Wheels) + Tag(ExteriorWords, Exterior)

  /** Reference definition: the area of the first keyword of `table` found in `s`. */
  function FirstKeywordArea(s: string, table: seq<(string, FocusArea)>): FocusArea {
    if |table| == 0 then General
    else if Contains(s, table[0].0) then table[0].1
    else FirstKeywordArea(s, table[1..])
  }

  /** The cascade of `any` tests picks the area of the first keyword, in
      precedence order, that occurs in the subject; with none, `general`. */
  lemma FocusAreaIsFirstKeyword(filename: Option<string>, index: nat)
    ensures DetermineFocusArea(filename, index) == FirstKeywordArea(FocusSubject(filename, index), FocusKeywords)
  {
    var s := FocusSubject(filename, index);
    var ext := Tag(ExteriorWords, Exterior);
    var rest := Tag(WheelWords, Wheels) + ext;
    assert FocusKeywords == Tag(InteriorWords, Interior) + rest;
    FirstOfTagged(s, InteriorWords, Interior, rest);
    FirstOfTagged(s, WheelWords, Wheels, ext);
    FirstOfTagged(s, ExteriorWords, Exterior, []);
    assert ext + [] == ext;
  }

  /** A tagged block in front of a table answers first when one of its words occurs. */
  lemma {:induction false} FirstOfTagged(s: string, ws: seq<string>, a: FocusArea, rest: seq<(string, FocusArea)>)
    ensures FirstKeywordArea(s, Tag(ws, a) + rest) ==
            if MentionsAny(s, ws) then a else FirstKeywordArea(s, rest)
  {
    var t := Tag(ws, a) + rest;
    if |ws| == 0 {
      assert t == rest;
    } else {
      assert t[0] == (ws[0], a);
      assert t[1..] == Tag(ws[1..], a) + rest;
      FirstOfTagged(s, ws[1..], a, rest);
      if !Contains(s, ws[0]) {
        if MentionsAny(s, ws) {
          var j :| 0 <= j < |ws| && Contains(s, ws[j]);
          assert ws[1..][j - 1] == ws[j];
        }
        if MentionsAny(s, ws[1..]) {
          var j :| 0 <= j < |ws[1..]| && Contains(s, ws[1..][j]);
          assert ws[j + 1] == ws[1..][j];
        }
      }
    }
  }

  /** A missing or empty file name yields `image_{index}`, which holds none of the
      keywords, so its focus area is always `general`. */
  lemma DefaultNameIsGeneral(filename: Option<string>, index: nat)
    requires filename.None? || filename == Some("")
    ensures DetermineFocusArea(filename, index) == General
  {
    var s := FocusSubject(filename, index);
    assert s == "image_" + NatToString(index);
    forall c | c in "nsdwtrxob" ensures c !in s {
    }
    LacksAll(s, InteriorWords, "nnds");
    LacksAll(s, WheelWords, "wtr");
    LacksAll(s, ExteriorWords, "xob");
  }

  /** `missing[j]` is a character of `words[j]` absent from `s`, so no word occurs. */
  lemma LacksAll(s: string, words: seq<string>, missing: seq<char>)
    requires |missing| == |words|
    requires forall j :: 0 <= j < |words| ==> missing[j] in words[j] && missing[j] !in s
    ensures !MentionsAny(s, words)
  {
    forall j | 0 <= j < |words| ensures !Contains(s, words[j]) {
      MissingCharExcludes(s, words[j], missing[j]);
    }
  }

  // ------------------------------------------------------- parsing the reply

  /** The regular-expression search: `(pattern, text)` to the first group of the
      first case-insensitive match, if there is one. */
  type Matcher = (string, string) -> Option<string>

  /** The value stored for one pattern: the stripped capture, or `Not specified`. */
  function CaptureOrDefault(m: Option<string>): string {
    match m
    case Some(g) => Trim(g)
    case None => NotSpecified
  }

  /** `c` is what parsing `text` against `table` yields: one entry per pattern, in
      table order, holding the stripped capture or `Not specified`. */
  ghost predicate IsParseWith(c: Characteristics, table: seq<(string, string)>, text: string,
                              search: Matcher) {
    && Keys(c) == Keys(table)
    && forall i :: 0 <= i < |c| ==> c[i].1 == CaptureOrDefault(search(table[i].1, text))
  }

  /** `c` is what parsing `text` against the configured patterns yields. */
  ghost predicate IsParseOf(c: Characteristics, text: string, search: Matcher) {
    IsParseWith(c, CharacteristicPatterns, text, search)
  }

  lemma PatternKeysDistinct()
    ensures DistinctKeys(CharacteristicPatterns)
  {
  }

  /** The loop of `parse_characteristics` over an arbitrary table with distinct keys. */
  method ParseWith(table: seq<(string, string)>, text: string, search: Matcher)
    returns (c: Characteristics)
    requires DistinctKeys(table)
    ensures IsParseWith(c, table, text, search)
    ensures DistinctKeys(c)
  {
    c := [];
    var i := 0;
    while i < |table|
      invariant 0 <= i <= |table|
      invariant |c| == i
      invariant forall j :: 0 <= j < i ==>
                  c[j] == (table[j].0, CaptureOrDefault(search(table[j].1, text)))
    {
      var (key, pattern) := table[i];
      var value := CaptureOrDefault(search(pattern, text));
      assert key !in Keys(c) by {
        forall j | 0 <= j < i ensures Keys(c)[j] != key {
          assert table[j].0 != table[i].0;
        }
      }
      c := Put(c, key, value);
      i := i + 1;
    }
  }

  method ParseCharacteristics(text: string, search: Matcher) returns (c: Characteristics)
    ensures IsParseOf(c, text, search)
    ensures DistinctKeys(c)
  {
    PatternKeysDistinct();
    c := ParseWith(CharacteristicPatterns, text, search);
  }

  /** A parsed dictionary never holds a value with whitespace at either end. */
  lemma ParsedValuesAreStripped(c: Characteristics, text: string, search: Matcher, i: nat)
    requires IsParseOf(c, text, search) && i < |c| && |c[i].1| > 0
    ensures !IsSpace(c[i].1[0]) && !IsSpace(c[i].1[|c[i].1| - 1])
  {
  }

  // ------------------------------------------------------------ confidence

  /** Number of values that are not a sentinel. */
  function Identified(c: Characteristics): (n: nat)
    ensures n <= |c|
  {
    if |c| == 0 then 0
    else Identified(c[..|c| - 1]) + (if IsSentinel(c[|c| - 1].1) then 0 else 1)
  }

  /** `min(identified / total, 1.0)`; the source divides by zero on an empty dictionary. */
  function ConfidenceScore(c: Characteristics): (r: real)
    requires |c| > 0
    ensures 0.0 <= r <= 1.0
    ensures r == Identified(c) as real / |c| as real
  {
    var ratio := Identified(c) as real / |c| as real;
    if ratio <= 1.0 then ratio else 1.0
  }

  /** Identified counts exactly the non-sentinel values: all of them iff none is a
      sentinel, none of them iff all are. */
  lemma {:induction false} IdentifiedExtremes(c: Characteristics)
    ensures Identified(c) == |c| <==> forall i :: 0 <= i < |c| ==> !IsSentinel(c[i].1)
    ensures Identified(c) == 0 <==> forall i :: 0 <= i < |c| ==> IsSentinel(c[i].1)
  {
    if |c| > 0 {
      var init := c[..|c| - 1];
      IdentifiedExtremes(init);
      assert forall i :: 0 <= i < |init| ==> init[i] == c[i];
    }
  }

  /** The score is 1 exactly when every value was identified, 0 exactly when none was. */
  lemma ConfidenceExtremes(c: Characteristics)
    requires |c| > 0
    ensures ConfidenceScore(c) == 1.0 <==> forall i :: 0 <= i < |c| ==> !IsSentinel(c[i].1)
    ensures ConfidenceScore(c) == 0.0 <==> forall i :: 0 <= i < |c| ==> IsSentinel(c[i].1)
  {
    IdentifiedExtremes(c);
    RatioExtremes(Identified(c) as real, |c| as real);
  }

  /** A quotient by a positive divisor is 1 exactly when the operands agree, 0 exactly
      when the dividend is. */
  lemma RatioExtremes(n: real, t: real)
    requires t > 0.0
    ensures n / t == 1.0 <==> n == t
    ensures n / t == 0.0 <==> n == 0.0
  {
    var q := n / t;
    assert q * t == n;
  }

  // ---------------------------------------------------------- majority vote

  /** Number of occurrences of `v` in `vs`. */
  function Count(vs: seq<string>, v: string): nat {
    if |vs| == 0 then 0
    else Count(vs[..|vs| - 1], v) + (if vs[|vs| - 1] == v then 1 else 0)
  }

  /** Scan from position `i`, keeping the first position of maximal count. */
  function BestFrom(vs: seq<string>, i: nat, best: nat): (k: nat)
    requires best < i <= |vs|
    requires forall j :: 0 <= j < i ==> Count(vs, vs[j]) <= Count(vs, vs[best])
    requires forall j :: 0 <= j < best ==> Count(vs, vs[j]) < Count(vs, vs[best])
    ensures k < |vs|
    ensures forall j :: 0 <= j < |vs| ==> Count(vs, vs[j]) <= Count(vs, vs[k])
    ensures forall j :: 0 <= j < k ==> Count(vs, vs[j]) < Count(vs, vs[k])
    decreases |vs| - i
  {
    if i == |vs| then best
    else if Count(vs, vs[i]) > Count(vs, vs[best]) then BestFrom(vs, i + 1, i)
    else BestFrom(vs, i + 1, best)
  }

  /** `Counter(values).most_common(1)[0][0]`, or `Not determined` for no values.
      The counter lists values in order of first occurrence and keeps the first of
      equally frequent ones, so ties go to the value seen first. */
  function MostCommonValue(vs: seq<string>): (r: string)
    ensures |vs| == 0 ==> r == NotDetermined
    ensures |vs| > 0 ==> r in vs
    ensures forall j :: 0 <= j < |vs| ==> Count(vs, vs[j]) <= Count(vs, r)
    ensures forall j :: 0 <= j < |vs| && Count(vs, vs[j]) == Count(vs, r) ==> IndexOf(vs, r) <= j
  {
    if |vs| == 0 then NotDetermined
    else
      var k := BestFrom(vs, 1, 0);
      FirstPositionOfBest(vs, k);
      vs[k]
  }

  /** The first position of maximal count is the first occurrence of its value. */
  lemma FirstPositionOfBest(vs: seq<string>, k: nat)
    requires k < |vs|
    requires forall j :: 0 <= j < k ==> Count(vs, vs[j]) < Count(vs, vs[k])
    ensures IndexOf(vs, vs[k]) == k
  {
    var i := IndexOf(vs, vs[k]);
  }

  /** Every value of a list without repetitions occurs once. */
  lemma {:induction false} CountDistinct(vs: seq<string>, j: nat)
    requires forall a, b :: 0 <= a < b < |vs| ==> vs[a] != vs[b]
    requires j < |vs|
    ensures Count(vs, vs[j]) == 1
  {
    var init := vs[..|vs| - 1];
    if j < |vs| - 1 {
      assert init[j] == vs[j];
      CountDistinct(init, j);
    } else {
      CountAbsent(init, vs[j]);
    }
  }

  lemma {:induction false} CountAbsent(vs: seq<string>, v: string)
    requires v !in vs
    ensures Count(vs, v) == 0
  {
    if |vs| > 0 {
      CountAbsent(vs[..|vs| - 1], v);
    }
  }

  /** With all values distinct, the vote returns the first element. */
  lemma AllUniqueGivesFirst(vs: seq<string>)
    requires |vs| > 0
    requires forall a, b :: 0 <= a < b < |vs| ==> vs[a] != vs[b]
    ensures MostCommonValue(vs) == vs[0]
  {
    var r := MostCommonValue(vs);
    var k := IndexOf(vs, r);
    CountDistinct(vs, 0);
    CountDistinct(vs, k);
  }

  // ------------------------------------------------- price-factor explanations

  /** One explanation: added when `keyword` occurs in the lower-cased `field`
      (a missing field reads as the empty string). */
  datatype FactorRule = FactorRule(field: string, keyword: string, text: string)

  const PositiveRules: seq<FactorRule> := [
    FactorRule("market_segment", "luxury", "Luxury vehicle segment"),
    FactorRule("body_condition", "excellent", "Excellent body condition"),
    FactorRule("mileage_category", "low", "Low estimated mileage")
  ]

  const NegativeRules: seq<FactorRule> := [
    FactorRule("body_condition", "poor", "Poor body condition"),
    FactorRule("damage", "damaged", "Visible damage present"),
    FactorRule("mileage_category", "high", "High estimated mileage")
  ]

  predicate Fires(rule: FactorRule, c: Characteristics) {
    Contains(Lower(GetOr(c, rule.field, "")), rule.keyword)
  }

  /** Reference definition: the texts of the rules that fire, in rule order. */
  function Fired(rules: seq<FactorRule>, c: Characteristics): seq<string> {
    if |rules| == 0 then []
    else (if Fires(rules[0], c) then [rules[0].text] else []) + Fired(rules[1..], c)
  }

  /** A text is listed iff its rule fires, and the list never exceeds the table. */
  lemma {:induction false} FiredMembership(rules: seq<FactorRule>, c: Characteristics, t: string)
    ensures |Fired(rules, c)| <= |rules|
    ensures t in Fired(rules, c) <==> exists j :: 0 <= j < |rules| && rules[j].text == t && Fires(rules[j], c)
  {
    if |rules| > 0 {
      FiredMembership(rules[1..], c, t);
      if t in Fired(rules[1..], c) {
        var j :| 0 <= j < |rules[1..]| && rules[1..][j].text == t && Fires(rules[1..][j], c);
        assert rules[j + 1] == rules[1..][j];
      }
      if exists j :: 0 <= j < |rules| && rules[j].text == t && Fires(rules[j], c) {
        var j :| 0 <= j < |rules| && rules[j].text == t && Fires(rules[j], c);
        if j > 0 {
          assert rules[1..][j - 1] == rules[j];
        }
      }
    }
  }

  lemma FiredThree(rules: seq<FactorRule>, c: Characteristics)
    requires |rules| == 3
    ensures Fired(rules, c) == (if Fires(rules[0], c) then [rules[0].text] else [])
                             + (if Fires(rules[1], c) then [rules[1].text] else [])
                             + (if Fires(rules[2], c) then [rules[2].text] else [])
  {
    var r1, r2 := rules[1..], rules[2..];
    assert r1[0] == rules[1] && r1[1..] == r2;
    assert r2[0] == rules[2] && r2[1..] == [];
    assert Fired(r2, c) == (if Fires(rules[2], c) then [rules[2].text] else []) + Fired([], c);
    assert Fired(r1, c) == (if Fires(rules[1], c) then [rules[1].text] else []) + Fired(r2, c);
  }

  method GetPositiveFactors(c: Characteristics) returns (factors: seq<string>)
    ensures factors == Fired(PositiveRules, c)
  {
    factors := [];
    if Contains(Lower(GetOr(c, "market_segment", "")), "luxury") {
      factors := factors + ["Luxury vehicle segment"];
    }
    if Contains(Lower(GetOr(c, "body_condition", "")), "excellent") {
      factors := factors + ["Excellent body condition"];
    }
    if Contains(Lower(GetOr(c, "mileage_category", "")), "low") {
      factors := factors + ["Low estimated mileage"];
    }
    FiredThree(PositiveRules, c);
  }

  method GetNegativeFactors(c: Characteristics) returns (factors: seq<string>)
    ensures factors == Fired(NegativeRules, c)
  {
    factors := [];
    if Contains(Lower(GetOr(c, "body_condition", "")), "poor") {
      factors := factors + ["Poor body condition"];
    }
    if Contains(Lower(GetOr(c, "damage", "")), "damaged") {
      factors := factors + ["Visible damage present"];
    }
    if Contains(Lower(GetOr(c, "mileage_category", "")), "high") {
      factors := factors + ["High estimated mileage"];
    }
    FiredThree(NegativeRules, c);
  }

  const InspectionAdvice := "Consider professional inspection before purchase"
  const WarrantyAdvice := "Check if modifications affect warranty or insurance"

  /** `any(word in str(v).lower() for v in d.values())`. */
  predicate AnyValueMentions(c: Characteristics, word: string) {
    exists i :: 0 <= i < |c| && Contains(Lower(c[i].1), word)
  }

  /** Reference definition of the price recommendations: inspection advice iff
      some value mentions `poor` in any case, then warranty advice iff a
      `modifications` entry exists and is not `Not specified`; nothing else. */
  function PriceAdvice(c: Characteristics): (recs: seq<string>)
    ensures InspectionAdvice in recs <==> AnyValueMentions(c, "poor")
    ensures WarrantyAdvice in recs <==> Get(c, "modifications").Some? && Get(c, "modifications").value != NotSpecified
    ensures forall r :: r in recs ==> r == InspectionAdvice || r == WarrantyAdvice
    ensures |recs| <= 2
    ensures |recs| == 2 ==> recs == [InspectionAdvice, WarrantyAdvice]
  {
    var m := Get(c, "modifications");
    (if AnyValueMentions(c, "poor") then [InspectionAdvice] else [])
    + (if m.Some? && m.value != NotSpecified then [WarrantyAdvice] else [])
  }

  method GetPriceRecommendations(c: Characteristics) returns (recs: seq<string>)
    ensures recs == PriceAdvice(c)
  {
    recs := [];
    if AnyValueMentions(c, "poor") {
      recs := recs + [InspectionAdvice];
    }
    var m := Get(c, "modifications");
    if m.Some? && m.value != NotSpecified {
      recs := recs + [WarrantyAdvice];
    }
  }
}
