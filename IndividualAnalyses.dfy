/** The list of per-image analyses under a batch result: image name,
    rounded confidence and a short "key findings" line per analysis. */
module IndividualAnalyses {
  import opened Wrappers
  import opened Text
  import opened Models
  import opened Payload

  const LimitedInformation := "Limited information extracted"
  const MaxFindings := 3

  /** The findings filter keeps everything but `Not specified` and `Unknown`
      (so `Not visible` and the empty string are kept). */
  predicate Survives(v: string) {
    v != NotSpecified && v != Unknown
  }

  /** The entries that survive the filter, in entry order. */
  function Survivors(c: Characteristics): (s: Characteristics)
    ensures |s| <= |c|
  {
    if |c| == 0 then []
    else (if Survives(c[0].1) then [c[0]] else []) + Survivors(c[1..])
  }

  /** `key-with-spaces: value`. */
  function Finding(e: (string, string)): string {
    SpacedKey(e.0) + ": " + e.1
  }

  function Findings(es: Characteristics): (fs: seq<string>)
    ensures |fs| == |es|
    ensures forall i :: 0 <= i < |es| ==> fs[i] == Finding(es[i])
  {
    seq(|es|, i requires 0 <= i < |es| => Finding(es[i]))
  }

  /** The line shown: the first three surviving entries as findings joined by
      `, `, or the fallback text when there is none. */
  function KeyFindingsLine(c: Characteristics): string {
    var s := Survivors(c);
    var shown := s[..if |s| < MaxFindings then |s| else MaxFindings];
    var line := Join(Findings(shown), ", ");
    if line == "" then LimitedInformation else line
  }

  /** An entry survives iff its value is neither of the two excluded texts. */
  lemma {:induction false} SurvivorsSpec(c: Characteristics)
    ensures forall e :: e in Survivors(c) <==> e in c && Survives(e.1)
  {
    if |c| > 0 {
      SurvivorsSpec(c[1..]);
      assert c == [c[0]] + c[1..];
    }
  }

  /** The filter distributes over concatenation, so survivors keep their
      relative order. */
  lemma {:induction false} SurvivorsAppend(a: Characteristics, b: Characteristics)
    ensures Survivors(a + b) == Survivors(a) + Survivors(b)
  {
    if |a| > 0 {
      assert (a + b)[1..] == a[1..] + b;
      SurvivorsAppend(a[1..], b);
    } else {
      assert a + b == b;
    }
  }

  /** The fallback text is shown iff no entry survives; otherwise the line
      holds a `:` from each finding. */
  lemma FallbackIffNoSurvivor(c: Characteristics)
    ensures KeyFindingsLine(c) == LimitedInformation <==> Survivors(c) == []
  {
    var s := Survivors(c);
    var shown := s[..if |s| < MaxFindings then |s| else MaxFindings];
    var parts := Findings(shown);
    if |s| > 0 {
      assert ':' in parts[0];
      JoinKeepsChar(parts, ", ", 0, ':');
      assert ':' !in LimitedInformation;
    }
  }

  /** With three or more survivors, exactly the first three are shown. */
  lemma FirstThreeShown(c: Characteristics)
    requires |Survivors(c)| >= 3
    ensures var s := Survivors(c);
            KeyFindingsLine(c) == Finding(s[0]) + ", " + Finding(s[1]) + ", " + Finding(s[2])
  {
    var s := Survivors(c);
    var parts := Findings(s[..3]);
    JoinThree(parts, ", ");
    assert ':' in parts[0];
    JoinKeepsChar(parts, ", ", 0, ':');
    assert ':' !in LimitedInformation;
  }

  lemma JoinThree(parts: seq<string>, sep: string)
    requires |parts| == 3
    ensures Join(parts, sep) == parts[0] + sep + parts[1] + sep + parts[2]
  {
    assert parts[1..][1..] == [parts[2]];
    assert Join(parts[1..], sep) == parts[1] + sep + parts[2];
  }

  /** One item of the list. */
  datatype AnalysisItem = AnalysisItem(title: string, confidence: string, findings: string)

  function Item(a: ImageAnalysisResult): AnalysisItem {
    AnalysisItem(a.imageName, IntToString(RoundPercent(a.confidenceScore)) + "% confidence", KeyFindingsLine(a.characteristics))
  }

  /** Nothing for a missing or empty list, else one item per analysis in order. */
  function Render(analyses: seq<ImageAnalysisResult>): (r: Option<seq<AnalysisItem>>)
    ensures r.None? <==> |analyses| == 0
    ensures r.Some? ==> |r.value| == |analyses|
    ensures r.Some? ==> forall i :: 0 <= i < |analyses| ==>
              r.value[i].title == analyses[i].imageName && r.value[i].findings == KeyFindingsLine(analyses[i].characteristics)
  {
    if |analyses| == 0 then None
    else Some(seq(|analyses|, i requires 0 <= i < |analyses| => Item(analyses[i])))
  }
}
