/** The results view: which characteristics are listed, under which labels,
    the price panel with its fallbacks, and the batch-only panels. */
module ResultsSection {
  import opened Wrappers
  import opened Models
  import opened Dict
  import opened Payload
  import opened IndividualAnalyses
  import Analyzer

  /** What the view shows for one result. */
  datatype ResultsView = ResultsView(
    summaryShown: bool,
    rows: seq<(string, string)>,
    priceRange: string,
    basePrice: string,
    brandFactor: string,
    conditionFactor: string,
    individual: Option<seq<AnalysisItem>>)

  /** One row per entry, in entry order: the key with underscores as spaces
      (no capitalisation) and the value unchanged. */
  function CharacteristicRows(c: Characteristics): (rows: seq<(string, string)>)
    ensures |rows| == |c| && Values(rows) == Values(c)
    ensures forall i :: 0 <= i < |c| ==>
              '_' !in rows[i].0 && |rows[i].0| == |c[i].0|
              && forall j :: 0 <= j < |c[i].0| && c[i].0[j] != '_' ==> rows[i].0[j] == c[i].0[j]
  {
    seq(|c|, i requires 0 <= i < |c| => (SpacedKey(c[i].0), c[i].1))
  }

  /** `range || '-'`. */
  function RangeText(range: string): string {
    if range == "" then "-" else range
  }

  /** `{factor || '-'}x`: a zero factor is falsy. */
  function FactorText(factor: real, fmt: NumberFormat): string {
    (if factor == 0.0 then "-" else fmt.plain(factor)) + "x"
  }

  function RenderResults(r: AnalysisResult, fmt: NumberFormat): ResultsView {
    var p := r.Price();
    ResultsView(
      r.IsBatch(),
      CharacteristicRows(ShownCharacteristics(r)),
      RangeText(p.estimatedPriceRange),
      fmt.grouped(p.basePrice),
      FactorText(p.brandFactor, fmt),
      FactorText(p.conditionFactor, fmt),
      if r.IsBatch() then Render(r.batch.individualAnalyses) else None)
  }

  /** The summary panel and the list of analyses appear only for a batch
      result; the list appears iff the batch holds an analysis; the rows list
      the shown characteristics in order under their spaced keys. */
  lemma RenderShape(r: AnalysisResult, fmt: NumberFormat)
    ensures RenderResults(r, fmt).summaryShown <==> r.IsBatch()
    ensures RenderResults(r, fmt).individual.Some? <==> r.IsBatch() && |r.batch.individualAnalyses| > 0
    ensures RenderResults(r, fmt).individual.Some? ==>
              |RenderResults(r, fmt).individual.value| == |r.batch.individualAnalyses|
    ensures forall i :: 0 <= i < |ShownCharacteristics(r)| ==>
              RenderResults(r, fmt).rows[i].0 == SpacedKey(ShownCharacteristics(r)[i].0)
              && RenderResults(r, fmt).rows[i].1 == ShownCharacteristics(r)[i].1
  {
    if r.IsBatch() {
      var _ := Render(r.batch.individualAnalyses);
    }
  }

  /** The price panel falls back to `-` exactly for an empty range text and
      for zero factors. */
  lemma Fallbacks(range: string, factor: real, fmt: NumberFormat)
    ensures RangeText(range) == "-" <==> range == "" || range == "-"
    ensures factor == 0.0 ==> FactorText(factor, fmt) == "-x"
    ensures factor != 0.0 ==> FactorText(factor, fmt) == fmt.plain(factor) + "x"
  {
  }

  /** The backend's factors are never zero, so its results never show the
      `-x` fallback. */
  lemma BackendFactorsShown(p: PriceEstimate, c: Characteristics, rangeText: Analyzer.PriceRangeText, fmt: NumberFormat)
    requires Analyzer.IsPriceEstimateFor(p, c, rangeText)
    ensures FactorText(p.brandFactor, fmt) == fmt.plain(p.brandFactor) + "x"
    ensures FactorText(p.conditionFactor, fmt) == fmt.plain(p.conditionFactor) + "x"
  {
    Analyzer.BrandFactorBounds(c);
    Analyzer.ConditionFactorSpec(c);
  }
}
