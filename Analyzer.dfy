/** The analysis pipeline of the backend: the model call, the consolidation of
    several per-image analyses, the summary and the price factors. */
module Analyzer {
  import opened Wrappers
  import opened Text
  import opened Dict
  import opened Config
  import opened Models
  import opened Utils

  // ------------------------------------------------------------- model call

  /** What the vision-language model answers: the message content, or the
      text of the exception the client library raised. */
  datatype LlmReply = Reply(content: string) | LlmError(message: string)

  /** The model service: image bytes and the focus (which selects the prompt)
      to a reply. */
  type Llm = (seq<bv8>, FocusArea) -> LlmReply

  /** The text of the exception re-raised when the model call fails. */
  function ImageFailureText(imageName: string, message: string): string {
    "Failed to analyze image " + imageName + ": " + message
  }

  /** One model call; a failure is re-raised naming the image. */
  function AnalyzeSingleCarImage(image: seq<bv8>, imageName: string, focus: FocusArea, llm: Llm): Result<string, string> {
    match llm(image, focus)
    case Reply(content) => Success(content)
    case LlmError(message) => Failure(ImageFailureText(imageName, message))
  }

  // ---------------------------------------------------------- consolidation

  /** Every (key, value) pair of the analyses, in iteration order. */
  function AllPairs(rs: seq<ImageAnalysisResult>): Characteristics {
    if |rs| == 0 then [] else AllPairs(rs[..|rs| - 1]) + rs[|rs| - 1].characteristics
  }

  /** The non-sentinel values filed under `k`, in order: its votes. */
  function Votes(ps: Characteristics, k: string): seq<string> {
    if |ps| == 0 then []
    else Votes(ps[..|ps| - 1], k)
         + (if ps[|ps| - 1].0 == k && !IsSentinel(ps[|ps| - 1].1) then [ps[|ps| - 1].1] else [])
  }

  /** The keys that received a vote, in order of their first vote. */
  function VotedKeys(ps: Characteristics): seq<string> {
    if |ps| == 0 then []
    else
      var ks := VotedKeys(ps[..|ps| - 1]);
      var (k, v) := ps[|ps| - 1];
      if !IsSentinel(v) && k !in ks then ks + [k] else ks
  }

  function KeySet(c: Characteristics): set<string> {
    set i | 0 <= i < |c| :: c[i].0
  }

  /** The union of the key sets of all analyses. */
  function UnionKeys(rs: seq<ImageAnalysisResult>): set<string> {
    if |rs| == 0 then {} else UnionKeys(rs[..|rs| - 1]) + KeySet(rs[|rs| - 1].characteristics)
  }

  function Scores(rs: seq<ImageAnalysisResult>): seq<real> {
    seq(|rs|, i requires 0 <= i < |rs| => rs[i].confidenceScore)
  }

  function Sum(xs: seq<real>): real {
    if |xs| == 0 then 0.0 else Sum(xs[..|xs| - 1]) + xs[|xs| - 1]
  }

  /** `statistics.mean` of the scores, or 0.0 when there are none. */
  function OverallConfidence(rs: seq<ImageAnalysisResult>): real {
    if |rs| == 0 then 0.0 else Sum(Scores(rs)) / |rs| as real
  }

  /** Removing the last pair of a list. */
  lemma PairsInit(ps: Characteristics, p: (string, string))
    ensures (ps + [p])[..|ps|] == ps
  {
  }

  /** Sentinel values never vote. */
  lemma {:induction false} VotesAreNotSentinels(ps: Characteristics, k: string)
    ensures forall v :: v in Votes(ps, k) ==> !IsSentinel(v)
  {
    if |ps| > 0 {
      VotesAreNotSentinels(ps[..|ps| - 1], k);
    }
  }

  /** A key has votes iff some pair files a non-sentinel value under it. */
  lemma {:induction false} VotesWitness(ps: Characteristics, k: string)
    ensures Votes(ps, k) != [] <==> exists i :: 0 <= i < |ps| && ps[i].0 == k && !IsSentinel(ps[i].1)
  {
    if |ps| > 0 {
      var init := ps[..|ps| - 1];
      VotesWitness(init, k);
      assert forall i :: 0 <= i < |init| ==> init[i] == ps[i];
    }
  }

  /** The voted keys are exactly the keys with votes, each listed once. */
  lemma {:induction false} VotedKeysSpec(ps: Characteristics)
    ensures forall k :: k in VotedKeys(ps) <==> Votes(ps, k) != []
    ensures forall a, b :: 0 <= a < b < |VotedKeys(ps)| ==> VotedKeys(ps)[a] != VotedKeys(ps)[b]
  {
    if |ps| > 0 {
      VotedKeysSpec(ps[..|ps| - 1]);
    }
  }

  lemma {:induction false} UnionKeysSpec(rs: seq<ImageAnalysisResult>)
    ensures forall k :: k in UnionKeys(rs) <==> k in Keys(AllPairs(rs))
  {
    if |rs| > 0 {
      var init := rs[..|rs| - 1];
      var last := rs[|rs| - 1].characteristics;
      UnionKeysSpec(init);
      assert Keys(AllPairs(rs)) == Keys(AllPairs(init)) + Keys(last);
    }
  }

  /** `table` is the `defaultdict(list)` of votes after reading the pairs `ps`. */
  ghost predicate IsTally(table: seq<(string, seq<string>)>, ps: Characteristics) {
    && Keys(table) == VotedKeys(ps)
    && forall j :: 0 <= j < |table| ==> table[j].1 == Votes(ps, table[j].0)
  }

  /** `all_characteristics[key].append(value)` unless the value is a sentinel. */
  method AddVote(table: seq<(string, seq<string>)>, ghost ps: Characteristics, k: string, v: string)
    returns (t: seq<(string, seq<string>)>)
    requires IsTally(table, ps)
    ensures IsTally(t, ps + [(k, v)])
  {
    var ps' := ps + [(k, v)];
    PairsInit(ps, (k, v));
    assert forall x :: Votes(ps', x) == Votes(ps, x) + (if x == k && !IsSentinel(v) then [v] else []);
    VotedKeysSpec(ps);
    if IsSentinel(v) {
      t := table;
    } else {
      var i := IndexOf(Keys(table), k);
      if i < |table| {
        t := table[i := (k, table[i].1 + [v])];
        assert Keys(t) == Keys(table);
        forall j | 0 <= j < |t| ensures t[j].1 == Votes(ps', t[j].0) {
          if j != i {
            assert Keys(table)[j] != Keys(table)[i];
          }
        }
      } else {
        t := table + [(k, [v])];
        assert Keys(t) == Keys(table) + [k];
      }
    }
  }

  /** What a consolidation of `rs` is: one entry per key of any analysis; the
      keys that received votes come first, in order of their first vote; a key
      with votes holds the most common of them, the others `Not determined`. */
  ghost predicate IsConsolidation(rs: seq<ImageAnalysisResult>, c: Characteristics) {
    var ps := AllPairs(rs);
    && DistinctKeys(c)
    && (forall k :: k in Keys(c) <==> k in UnionKeys(rs))
    && |VotedKeys(ps)| <= |c|
    && Keys(c)[..|VotedKeys(ps)|] == VotedKeys(ps)
    && forall j :: 0 <= j < |c| ==>
         c[j].1 == (if Votes(ps, c[j].0) != [] then MostCommonValue(Votes(ps, c[j].0)) else NotDetermined)
  }

  /** First loop: gather the confidence scores and tally the votes. */
  method TallyVotes(rs: seq<ImageAnalysisResult>) returns (table: seq<(string, seq<string>)>, scores: seq<real>)
    ensures IsTally(table, AllPairs(rs))
    ensures scores == Scores(rs)
  {
    table, scores := [], [];
    var i := 0;
    while i < |rs|
      invariant 0 <= i <= |rs|
      invariant scores == Scores(rs[..i])
      invariant IsTally(table, AllPairs(rs[..i]))
    {
      scores := scores + [rs[i].confidenceScore];
      table := TallyAnalysis(table, AllPairs(rs[..i]), rs[i].characteristics);
      assert rs[..i + 1][..i] == rs[..i];
      i := i + 1;
    }
    assert rs[..i] == rs;
  }

  /** The inner loop: every entry of one analysis is added as a vote. */
  method TallyAnalysis(table: seq<(string, seq<string>)>, ghost before: Characteristics, cs: Characteristics)
    returns (t: seq<(string, seq<string>)>)
    requires IsTally(table, before)
    ensures IsTally(t, before + cs)
  {
    t := table;
    var j := 0;
    assert before + cs[..0] == before;
    while j < |cs|
      invariant 0 <= j <= |cs|
      invariant IsTally(t, before + cs[..j])
    {
      t := AddVote(t, before + cs[..j], cs[j].0, cs[j].1);
      assert before + cs[..j] + [(cs[j].0, cs[j].1)] == before + cs[..j + 1];
      j := j + 1;
    }
    assert cs[..j] == cs;
  }

  /** Keys in the union of the analyses' key sets: the second `all_keys` loop. */
  method CollectKeys(rs: seq<ImageAnalysisResult>) returns (allKeys: set<string>)
    ensures allKeys == UnionKeys(rs)
  {
    allKeys := {};
    var i := 0;
    while i < |rs|
      invariant 0 <= i <= |rs|
      invariant allKeys == UnionKeys(rs[..i])
    {
      assert rs[..i + 1][..i] == rs[..i];
      allKeys := allKeys + KeySet(rs[i].characteristics);
      i := i + 1;
    }
    assert rs[..i] == rs;
  }

  /** The first `k` entries of `c` are the decided first `k` tally entries. */
  ghost predicate DecidedUpTo(c: Characteristics, table: seq<(string, seq<string>)>, k: nat) {
    && k <= |table| && |c| == k
    && forall j :: 0 <= j < k ==> c[j] == (table[j].0, MostCommonValue(table[j].1))
  }

  /** Filing the next tally entry extends the decided prefix by one. */
  lemma DecideStep(c: Characteristics, table: seq<(string, seq<string>)>, k: nat)
    requires forall a, b :: 0 <= a < b < |table| ==> table[a].0 != table[b].0
    requires DecidedUpTo(c, table, k) && k < |table|
    ensures DecidedUpTo(Put(c, table[k].0, MostCommonValue(table[k].1)), table, k + 1)
  {
    var (key, votes) := table[k];
    assert key !in Keys(c) by {
      forall j | 0 <= j < k ensures Keys(c)[j] != key {
        assert c[j].0 == table[j].0;
      }
    }
    var v := MostCommonValue(votes);
    assert Put(c, key, v) == c + [(key, v)];
  }

  /** Third loop, first half: each tallied key gets the most common of its votes. */
  method DecideVotes(table: seq<(string, seq<string>)>) returns (c: Characteristics)
    requires forall a, b :: 0 <= a < b < |table| ==> table[a].0 != table[b].0
    ensures |c| == |table|
    ensures forall j :: 0 <= j < |c| ==> c[j] == (table[j].0, MostCommonValue(table[j].1))
  {
    c := [];
    var k := 0;
    while k < |table|
      invariant DecidedUpTo(c, table, k)
    {
      DecideStep(c, table, k);
      var (key, votes) := table[k];
      c := Put(c, key, MostCommonValue(votes));
      k := k + 1;
    }
  }

  /** Third loop, second half: every other key of `allKeys`, in the set's
      (unspecified) iteration order, is filed as `Not determined`. */
  method FillUndetermined(c: Characteristics, allKeys: set<string>) returns (r: Characteristics)
    requires DistinctKeys(c)
    ensures |c| <= |r| && r[..|c|] == c
    ensures DistinctKeys(r)
    ensures forall j :: |c| <= j < |r| ==> r[j].1 == NotDetermined && r[j].0 !in Keys(c)
    ensures forall x :: x in Keys(r) <==> x in Keys(c) || x in allKeys
  {
    r := c;
    var remaining := allKeys;
    while remaining != {}
      invariant remaining <= allKeys
      invariant |c| <= |r| && r[..|c|] == c
      invariant DistinctKeys(r)
      invariant forall j :: |c| <= j < |r| ==> r[j].1 == NotDetermined && r[j].0 !in Keys(c)
      invariant forall x :: x in Keys(r) <==> x in Keys(c) || x in allKeys - remaining
      decreases remaining
    {
      var key :| key in remaining;
      if key !in Keys(r) {
        assert key !in Keys(c);
        r := r + [(key, NotDetermined)];
        assert Keys(r) == Keys(r[..|r| - 1]) + [key];
      }
      remaining := remaining - {key};
    }
  }

  /** Every voted key occurs among the keys of the analyses. */
  lemma VotedKeysInUnion(rs: seq<ImageAnalysisResult>)
    ensures forall x :: x in VotedKeys(AllPairs(rs)) ==> x in UnionKeys(rs)
  {
    var ps := AllPairs(rs);
    UnionKeysSpec(rs);
    VotedKeysSpec(ps);
    forall x | x in VotedKeys(ps) ensures x in UnionKeys(rs) {
      VotesWitness(ps, x);
      var i :| 0 <= i < |ps| && ps[i].0 == x && !IsSentinel(ps[i].1);
      assert Keys(ps)[i] == x;
    }
  }

  method ConsolidateMultipleAnalyses(rs: seq<ImageAnalysisResult>) returns (consolidated: Characteristics, overall: real)
    ensures IsConsolidation(rs, consolidated)
    ensures overall == OverallConfidence(rs)
  {
    var table, scores := TallyVotes(rs);
    ghost var ps := AllPairs(rs);
    VotedKeysSpec(ps);
    assert forall a, b :: 0 <= a < b < |table| ==> table[a].0 != table[b].0 by {
      forall a, b | 0 <= a < b < |table| ensures table[a].0 != table[b].0 {
        assert Keys(table)[a] != Keys(table)[b];
      }
    }
    var decided := DecideVotes(table);
    assert Keys(decided) == Keys(table);
    var allKeys := CollectKeys(rs);
    consolidated := FillUndetermined(decided, allKeys);
    VotedKeysInUnion(rs);
    assert Keys(consolidated)[..|decided|] == Keys(decided);
    forall j | 0 <= j < |consolidated|
      ensures consolidated[j].1 == (if Votes(ps, consolidated[j].0) != [] then MostCommonValue(Votes(ps, consolidated[j].0)) else NotDetermined)
    {
      if j < |decided| {
        assert consolidated[j] == decided[j];
      }
    }
    overall := if |scores| > 0 then Sum(scores) / |scores| as real else 0.0;
  }

  /** A consolidated dictionary holds no sentinel value: voted keys hold a vote
      and the rest hold `Not determined`. */
  lemma ConsolidationHasNoSentinels(rs: seq<ImageAnalysisResult>, c: Characteristics)
    requires IsConsolidation(rs, c)
    ensures forall j :: 0 <= j < |c| ==> !IsSentinel(c[j].1)
  {
    var ps := AllPairs(rs);
    forall j | 0 <= j < |c| ensures !IsSentinel(c[j].1) {
      var votes := Votes(ps, c[j].0);
      if votes != [] {
        VotesAreNotSentinels(ps, c[j].0);
      }
    }
  }

  lemma {:induction false} SumBounds(xs: seq<real>)
    requires forall i :: 0 <= i < |xs| ==> 0.0 <= xs[i] <= 1.0
    ensures 0.0 <= Sum(xs) <= |xs| as real
  {
    if |xs| > 0 {
      SumBounds(xs[..|xs| - 1]);
    }
  }

  /** The mean of scores in [0, 1] lies in [0, 1]. */
  lemma OverallConfidenceBounds(rs: seq<ImageAnalysisResult>)
    requires forall i :: 0 <= i < |rs| ==> 0.0 <= rs[i].confidenceScore <= 1.0
    ensures 0.0 <= OverallConfidence(rs) <= 1.0
  {
    if |rs| > 0 {
      SumBounds(Scores(rs));
      RatioBounds(Sum(Scores(rs)), |rs| as real);
    }
  }

  /** A part of a positive whole divided by the whole lies in [0, 1]. */
  lemma RatioBounds(s: real, n: real)
    requires 0.0 < n && 0.0 <= s <= n
    ensures 0.0 <= s / n <= 1.0
  {
    var q := s / n;
    assert q * n == s;
  }

  // ---------------------------------------------------------------- summary

  /** `High` above 0.7, `Medium` above 0.4, `Low` otherwise. */
  function QualityLabel(confidence: real): (q: string)
    ensures q == "High" <==> confidence > 0.7
    ensures q == "Medium" <==> 0.4 < confidence <= 0.7
    ensures q == "Low" <==> confidence <= 0.4
  {
    if confidence > 0.7 then "High" else if confidence > 0.4 then "Medium" else "Low"
  }

  /** The four condition keys, in the order the summary reads them, with the
      title-cased labels the summary files their values under. */
  const ConditionKeys: seq<(string, string)> := [
    ("body_condition", "Body Condition"),
    ("paint_condition", "Paint Condition"),
    ("wheel_condition", "Wheel Condition"),
    ("interior_condition", "Interior Condition")
  ]

  const ClearerImagesAdvice := "Consider uploading clearer images for better analysis"
  const WearAdvice := "Vehicle shows signs of wear - consider professional inspection"

  /** Reference definition of the condition assessment: the label of each key
      whose value (missing reads as `Not determined`) is not `Not determined`. */
  function Assessed(c: Characteristics, keys: seq<(string, string)>): Characteristics {
    if |keys| == 0 then []
    else
      var v := GetOr(c, keys[|keys| - 1].0, NotDetermined);
      Assessed(c, keys[..|keys| - 1]) + (if v != NotDetermined then [(keys[|keys| - 1].1, v)] else [])
  }

  /** The key finding, present iff the brand (missing reads as `Unknown`) is not `Unknown`. */
  function KeyFindings(c: Characteristics): seq<string> {
    var brand := GetOr(c, "brand", Unknown);
    if brand != Unknown then
      ["Vehicle identified as " + brand + " " + GetOr(c, "model", Unknown) + " (" + GetOr(c, "year", Unknown) + ")"]
    else []
  }

  /** What `generate_analysis_summary` returns for `n` analyses, the
      consolidated dictionary `c` and the overall confidence. */
  ghost predicate IsSummaryOf(s: AnalysisSummary, n: nat, c: Characteristics, overall: real) {
    && s.totalImages == n
    && s.overallConfidence == overall
    && s.analysisQuality == QualityLabel(overall)
    && s.keyFindings == KeyFindings(c)
    && s.conditionAssessment == Assessed(c, ConditionKeys)
    && s.recommendations ==
         (if overall < 0.5 then [ClearerImagesAdvice] else [])
         + (if AnyValueMentions(s.conditionAssessment, "poor") then [WearAdvice] else [])
  }

  method GenerateAnalysisSummary(individual: seq<ImageAnalysisResult>, c: Characteristics, overall: real)
    returns (s: AnalysisSummary)
    ensures IsSummaryOf(s, |individual|, c, overall)
  {
    var findings := [];
    var brand := GetOr(c, "brand", Unknown);
    var model := GetOr(c, "model", Unknown);
    var year := GetOr(c, "year", Unknown);
    if brand != Unknown {
      findings := findings + ["Vehicle identified as " + brand + " " + model + " (" + year + ")"];
    }
    var conditions := AssessConditions(c);
    var recs := [];
    if overall < 0.5 {
      recs := recs + [ClearerImagesAdvice];
    }
    if AnyValueMentions(conditions, "poor") {
      recs := recs + [WearAdvice];
    }
    s := AnalysisSummary(|individual|, overall, QualityLabel(overall), findings, conditions, recs);
  }

  /** The condition-assessment loop of the summary. */
  method AssessConditions(c: Characteristics) returns (conditions: Characteristics)
    ensures conditions == Assessed(c, ConditionKeys)
  {
    conditions := AssessWith(c, ConditionKeys);
  }

  /** The assessment loop over any table whose labels are distinct. */
  method AssessWith(c: Characteristics, keys: seq<(string, string)>) returns (conditions: Characteristics)
    requires forall a, b :: 0 <= a < b < |keys| ==> keys[a].1 != keys[b].1
    ensures conditions == Assessed(c, keys)
  {
    conditions := [];
    var i := 0;
    while i < |keys|
      invariant 0 <= i <= |keys|
      invariant conditions == Assessed(c, keys[..i])
    {
      var (key, heading) := keys[i];
      var value := GetOr(c, key, NotDetermined);
      assert keys[..i + 1][..i] == keys[..i];
      if value != NotDetermined {
        forall e | e in conditions ensures e.0 != heading {
          AssessedEntry(c, keys[..i], e);
        }
        conditions := Put(conditions, heading, value);
      }
      i := i + 1;
    }
    assert keys[..i] == keys;
  }

  /** Every assessed entry is a table label with its key's value, which is not
      `Not determined`. */
  lemma {:induction false} AssessedEntry(c: Characteristics, keys: seq<(string, string)>, e: (string, string))
    requires e in Assessed(c, keys)
    ensures e.1 != NotDetermined
    ensures exists a :: 0 <= a < |keys| && keys[a].1 == e.0 && e.1 == GetOr(c, keys[a].0, NotDetermined)
  {
    var init := keys[..|keys| - 1];
    if e in Assessed(c, init) {
      AssessedEntry(c, init, e);
      var a :| 0 <= a < |init| && init[a].1 == e.0 && e.1 == GetOr(c, init[a].0, NotDetermined);
      assert keys[a] == init[a];
    } else {
      assert keys[|keys| - 1].1 == e.0;
    }
  }

  /** Every table key whose value is not `Not determined` is assessed under its label. */
  lemma {:induction false} AssessedIncludes(c: Characteristics, keys: seq<(string, string)>, a: nat)
    requires a < |keys| && GetOr(c, keys[a].0, NotDetermined) != NotDetermined
    ensures (keys[a].1, GetOr(c, keys[a].0, NotDetermined)) in Assessed(c, keys)
  {
    var init := keys[..|keys| - 1];
    if a < |init| {
      assert init[a] == keys[a];
      AssessedIncludes(c, init, a);
    }
  }

  /** On a consolidation, a key finding exists iff some analysis had a `brand`
      entry, since consolidated values are never `Unknown`. */
  lemma KeyFindingIffBrandKey(rs: seq<ImageAnalysisResult>, c: Characteristics)
    requires IsConsolidation(rs, c)
    ensures KeyFindings(c) != [] <==> "brand" in UnionKeys(rs)
  {
    ConsolidationHasNoSentinels(rs, c);
    var g := Get(c, "brand");
    if g.Some? {
      var i :| 0 <= i < |c| && c[i] == ("brand", g.value);
      assert !IsSentinel(c[i].1);
    }
  }

  /** The wear advice is due iff one of the four condition values mentions
      `poor` in any case (`Not determined` does not). */
  predicate ConditionMentionsPoor(c: Characteristics) {
    exists j :: 0 <= j < |ConditionKeys| && Contains(Lower(GetOr(c, ConditionKeys[j].0, "")), "poor")
  }

  lemma AssessedMentionsPoor(c: Characteristics)
    ensures AnyValueMentions(Assessed(c, ConditionKeys), "poor") <==> ConditionMentionsPoor(c)
  {
    MissingCharExcludes(Lower(NotDetermined), "poor", 'p');
    AssessedMentions(c, ConditionKeys, "poor");
  }

  /** For a word that `Not determined` does not contain, some assessed value
      mentions it iff some looked-up value (empty when absent) does. */
  lemma AssessedMentions(c: Characteristics, keys: seq<(string, string)>, w: string)
    requires |w| > 0 && !Contains(Lower(NotDetermined), w)
    ensures AnyValueMentions(Assessed(c, keys), w) <==>
            exists j :: 0 <= j < |keys| && Contains(Lower(GetOr(c, keys[j].0, "")), w)
  {
    var a := Assessed(c, keys);
    if AnyValueMentions(a, w) {
      var i :| 0 <= i < |a| && Contains(Lower(a[i].1), w);
      AssessedEntry(c, keys, a[i]);
      var j :| 0 <= j < |keys| && keys[j].1 == a[i].0 && a[i].1 == GetOr(c, keys[j].0, NotDetermined);
      GetOrDefaults(c, keys[j].0, "", NotDetermined);
    }
    if exists j :: 0 <= j < |keys| && Contains(Lower(GetOr(c, keys[j].0, "")), w) {
      var j :| 0 <= j < |keys| && Contains(Lower(GetOr(c, keys[j].0, "")), w);
      GetOrDefaults(c, keys[j].0, "", NotDetermined);
      AssessedIncludes(c, keys, j);
      var i :| 0 <= i < |a| && a[i] == (keys[j].1, GetOr(c, keys[j].0, NotDetermined));
    }
  }

  /** Two lookups of the same key with different defaults differ only when the key is absent. */
  lemma GetOrDefaults(c: Characteristics, k: string, d1: string, d2: string)
    ensures GetOr(c, k, d1) == GetOr(c, k, d2) || (GetOr(c, k, d1) == d1 && GetOr(c, k, d2) == d2)
  {
  }

  /** The summary recommendations: clearer images iff the confidence is below
      0.5, wear iff one of the four condition values mentions `poor` in any
      case, in this order and nothing else. */
  lemma SummaryRecommendations(s: AnalysisSummary, n: nat, c: Characteristics, overall: real)
    requires IsSummaryOf(s, n, c, overall)
    ensures ClearerImagesAdvice in s.recommendations <==> overall < 0.5
    ensures WearAdvice in s.recommendations <==> ConditionMentionsPoor(c)
    ensures forall r :: r in s.recommendations ==> r == ClearerImagesAdvice || r == WearAdvice
    ensures |s.recommendations| == 2 ==> s.recommendations == [ClearerImagesAdvice, WearAdvice]
  {
    AssessedMentionsPoor(c);
    assert ClearerImagesAdvice != WearAdvice;
  }

  // ---------------------------------------------------------- price factors

  /** The four condition fields, in the order the price estimate reads them. */
  const ConditionFields: seq<string> := ["body_condition", "paint_condition", "interior_condition", "wheel_condition"]

  /** The lower-cased condition texts (a missing field reads as the empty string). */
  function ConditionTexts(c: Characteristics): (ts: seq<string>)
    ensures |ts| == |ConditionFields|
  {
    seq(|ConditionFields|, i requires 0 <= i < |ConditionFields| => Lower(GetOr(c, ConditionFields[i], "")))
  }

  /** The multipliers of those texts that are exactly a condition-table key, in order. */
  function KnownMultipliers(texts: seq<string>): seq<real> {
    Collected(ConditionMultipliers, texts)
  }

  /** The values `table` files under the texts that are its keys, in text order. */
  function Collected(table: seq<(string, real)>, texts: seq<string>): seq<real> {
    if |texts| == 0 then []
    else
      Collected(table, texts[..|texts| - 1])
      + (match Get(table, texts[|texts| - 1]) case Some(m) => [m] case None => [])
  }

  /** A multiplier is collected iff some text looks it up. */
  lemma KnownMultipliersSpec(texts: seq<string>, x: real)
    ensures x in KnownMultipliers(texts) <==> exists i :: 0 <= i < |texts| && Get(ConditionMultipliers, texts[i]) == Some(x)
  {
    CollectedSpec(ConditionMultipliers, texts, x);
  }

  lemma {:induction false} CollectedSpec(table: seq<(string, real)>, texts: seq<string>, x: real)
    ensures x in Collected(table, texts) <==> exists i :: 0 <= i < |texts| && Get(table, texts[i]) == Some(x)
  {
    if |texts| > 0 {
      var init := texts[..|texts| - 1];
      CollectedSpec(table, init, x);
      assert forall i :: 0 <= i < |init| ==> init[i] == texts[i];
    }
  }

  /** Python's `min` of a non-empty list. */
  function MinOf(xs: seq<real>): (m: real)
    requires |xs| > 0
    ensures m in xs
    ensures forall i :: 0 <= i < |xs| ==> m <= xs[i]
  {
    if |xs| == 1 then xs[0]
    else
      var rest := MinOf(xs[1..]);
      assert forall i :: 1 <= i < |xs| ==> xs[i] == xs[1..][i - 1];
      if xs[0] <= rest then xs[0] else rest
  }

  /** The worst recognised condition multiplier, or 0.8 when no condition text
      is a table key. */
  function ConditionFactor(c: Characteristics): real {
    var scores := KnownMultipliers(ConditionTexts(c));
    if |scores| > 0 then MinOf(scores) else 0.8
  }

  /** Every collected multiplier is a condition-table value, so it lies in
      [0.5, 1.0] and differs from 0.8. */
  lemma KnownMultiplierBounds(texts: seq<string>)
    ensures forall i :: 0 <= i < |KnownMultipliers(texts)| ==>
              0.5 <= KnownMultipliers(texts)[i] <= 1.0 && KnownMultipliers(texts)[i] != 0.8
  {
    var ks := KnownMultipliers(texts);
    forall j | 0 <= j < |ks| ensures 0.5 <= ks[j] <= 1.0 && ks[j] != 0.8 {
      KnownMultipliersSpec(texts, ks[j]);
      var i :| 0 <= i < |texts| && Get(ConditionMultipliers, texts[i]) == Some(ks[j]);
      assert (texts[i], ks[j]) in ConditionMultipliers;
    }
  }

  /** The condition factor lies in [0.5, 1.0], and it is 0.8 exactly when no
      condition text is a table key (0.8 is no table value). */
  lemma ConditionFactorSpec(c: Characteristics)
    ensures 0.5 <= ConditionFactor(c) <= 1.0
    ensures ConditionFactor(c) == 0.8 <==> forall i :: 0 <= i < |ConditionFields| ==> ConditionTexts(c)[i] !in Keys(ConditionMultipliers)
  {
    var ts := ConditionTexts(c);
    var scores := KnownMultipliers(ts);
    KnownMultiplierBounds(ts);
    if |scores| > 0 {
      var m := MinOf(scores);
      KnownMultipliersSpec(ts, m);
      var i :| 0 <= i < |ts| && Get(ConditionMultipliers, ts[i]) == Some(m);
    } else {
      forall i | 0 <= i < |ts| ensures ts[i] !in Keys(ConditionMultipliers) {
        var g := Get(ConditionMultipliers, ts[i]);
        if g.Some? {
          KnownMultipliersSpec(ts, g.value);
        }
      }
    }
  }

  /** One recognised `poor` condition forces the minimum factor 0.5. */
  lemma PoorConditionGivesMinimum(c: Characteristics, i: nat)
    requires i < |ConditionFields| && ConditionTexts(c)[i] == "poor"
    ensures ConditionFactor(c) == 0.5
  {
    var ts := ConditionTexts(c);
    KnownMultiplierBounds(ts);
    assert Get(ConditionMultipliers, "poor") == Some(0.5);
    KnownMultipliersSpec(ts, 0.5);
    var scores := KnownMultipliers(ts);
    var k :| 0 <= k < |scores| && scores[k] == 0.5;
    assert MinOf(scores) <= scores[k];
  }

  /** `next((v for k, v in table if k in s), None)`: the value of the first
      entry, in table order, whose key occurs in `s`. */
  function FirstContained(table: seq<(string, real)>, s: string): Option<real> {
    if |table| == 0 then None
    else if Contains(s, table[0].0) then Some(table[0].1)
    else FirstContained(table[1..], s)
  }

  /** The lookup finds a value iff some key occurs in `s`, and then it is the
      value of the first such key. */
  lemma {:induction false} FirstContainedSpec(table: seq<(string, real)>, s: string)
    ensures FirstContained(table, s).Some? <==> exists i :: 0 <= i < |table| && Contains(s, table[i].0)
    ensures FirstContained(table, s).Some? ==>
              exists i :: 0 <= i < |table| && Contains(s, table[i].0) && FirstContained(table, s).value == table[i].1
                          && forall j :: 0 <= j < i ==> !Contains(s, table[j].0)
  {
    if |table| > 0 && !Contains(s, table[0].0) {
      var tail := table[1..];
      FirstContainedSpec(tail, s);
      var r := FirstContained(tail, s);
      if r.Some? {
        var i :| 0 <= i < |tail| && Contains(s, tail[i].0) && r.value == tail[i].1
                 && forall j :: 0 <= j < i ==> !Contains(s, tail[j].0);
        assert table[i + 1] == tail[i];
        forall j | 1 <= j < i + 1 ensures !Contains(s, table[j].0) {
          assert table[j] == tail[j - 1];
        }
      } else {
        forall i | 1 <= i < |table| ensures !Contains(s, table[i].0) {
          assert table[i] == tail[i - 1];
        }
      }
    }
  }

  /** The brand factor: the first brand keyword contained in the lower-cased
      brand (a missing brand reads as the empty string), else 1.0. */
  function BrandFactor(c: Characteristics): real {
    FirstContained(BrandMultipliers, Lower(GetOr(c, "brand", ""))).GetOr(1.0)
  }

  /** Every brand factor lies between that of the cheapest brand and that of the dearest. */
  lemma BrandFactorBounds(c: Characteristics)
    ensures 0.8 <= BrandFactor(c) <= 3.5
  {
    FirstContainedBounds(BrandMultipliers, Lower(GetOr(c, "brand", "")), 0.8, 3.5);
  }

  /** A value found in a table lies within any bounds of all its values. */
  lemma FirstContainedBounds(table: seq<(string, real)>, s: string, lo: real, hi: real)
    requires lo <= 1.0 <= hi
    requires forall i :: 0 <= i < |table| ==> lo <= table[i].1 <= hi
    ensures lo <= FirstContained(table, s).GetOr(1.0) <= hi
  {
    FirstContainedSpec(table, s);
  }

  /** The base price of the lower-cased market segment, else 20000. */
  function BasePrice(c: Characteristics): int {
    GetOr(SegmentBasePrices, Lower(GetOr(c, "market_segment", "")), 20000)
  }

  lemma BasePriceBounds(c: Characteristics)
    ensures 15000 <= BasePrice(c) <= 50000
    ensures BasePrice(c) == 20000 <==> Lower(GetOr(c, "market_segment", "")) !in Keys(SegmentBasePrices)
  {
    var g := Get(SegmentBasePrices, Lower(GetOr(c, "market_segment", "")));
    if g.Some? {
      assert (Lower(GetOr(c, "market_segment", "")), g.value) in SegmentBasePrices;
    }
  }

  /** The price-range text: stands for the estimated price (base price times
      both factors, depreciated by age from the year text and the current
      year) formatted as `$low - $high`; floating point and the clock are not
      modelled. */
  type PriceRangeText = (int, real, real, string) -> string

  /** What `estimate_price_factors` returns for `c`. */
  ghost predicate IsPriceEstimateFor(p: PriceEstimate, c: Characteristics, rangeText: PriceRangeText) {
    && p.basePrice == BasePrice(c)
    && p.brandFactor == BrandFactor(c)
    && p.conditionFactor == ConditionFactor(c)
    && p.estimatedPriceRange == rangeText(p.basePrice, p.brandFactor, p.conditionFactor, GetOr(c, "year", ""))
    && p.positiveFactors == Fired(PositiveRules, c)
    && p.negativeFactors == Fired(NegativeRules, c)
    && p.recommendations == PriceAdvice(c)
  }

  /** The loop over the four condition texts collecting the known multipliers. */
  method CollectMultipliers(conditions: seq<string>) returns (scores: seq<real>)
    ensures scores == KnownMultipliers(conditions)
  {
    scores := [];
    var i := 0;
    while i < |conditions|
      invariant 0 <= i <= |conditions|
      invariant scores == KnownMultipliers(conditions[..i])
    {
      assert conditions[..i + 1][..i] == conditions[..i];
      var m := Get(ConditionMultipliers, conditions[i]);
      if m.Some? {
        scores := scores + [m.value];
      }
      i := i + 1;
    }
    assert conditions[..i] == conditions;
  }

  method EstimatePriceFactors(c: Characteristics, rangeText: PriceRangeText) returns (p: PriceEstimate)
    ensures IsPriceEstimateFor(p, c, rangeText)
  {
    var scores := CollectMultipliers(ConditionTexts(c));
    var conditionFactor := if |scores| > 0 then MinOf(scores) else 0.8;
    var segment := Lower(GetOr(c, "market_segment", ""));
    var basePrice := GetOr(SegmentBasePrices, segment, 20000);
    var brandFactor := FirstContained(BrandMultipliers, Lower(GetOr(c, "brand", ""))).GetOr(1.0);
    var positive := GetPositiveFactors(c);
    var negative := GetNegativeFactors(c);
    var recs := GetPriceRecommendations(c);
    p := PriceEstimate(rangeText(basePrice, brandFactor, conditionFactor, GetOr(c, "year", "")),
                       basePrice, brandFactor, conditionFactor, positive, negative, recs);
  }
}
