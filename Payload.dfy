/** The analysis result as the frontend receives it, and the display helpers
    the results view and the report share. */
module Payload {
  import opened Text
  import opened Dict
  import opened Models

  /** The decoded JSON body of a successful request: the single-image response
      or the multi-image one, which is the only one carrying
      `individual_analyses`. */
  datatype AnalysisResult =
    | SingleResult(single: AnalysisResponse)
    | BatchResult(batch: MultiImageAnalysisResponse)
  {
    /** `result.individual_analyses` is truthy: the field is present (a JSON
        array is truthy even when empty). */
    predicate IsBatch() {
      BatchResult?
    }

    function Price(): PriceEstimate {
      match this
      case SingleResult(s) => s.priceEstimation
      case BatchResult(b) => b.priceEstimation
    }
  }

  /** The characteristics shown: the consolidated ones for a batch, else the
      direct ones. */
  function ShownCharacteristics(r: AnalysisResult): (c: Characteristics)
    ensures r.IsBatch() ==> c == r.batch.consolidatedCharacteristics
    ensures !r.IsBatch() ==> c == r.single.characteristics
  {
    match r
    case SingleResult(s) => s.characteristics
    case BatchResult(b) => b.consolidatedCharacteristics
  }

  /** `key.replace(/_/g, ' ')`. */
  function SpacedKey(k: string): (r: string)
    ensures |r| == |k|
    ensures forall i :: 0 <= i < |k| ==> r[i] == (if k[i] == '_' then ' ' else k[i])
    ensures '_' !in r
  {
    ReplaceChar(k, '_', ' ')
  }

  /** `Math.round(x * 100)`: JavaScript rounds halves up, so this is the floor
      of `100x + 1/2`. */
  function RoundPercent(x: real): int {
    (x * 100.0 + 0.5).Floor
  }

  /** A rounded percentage is the nearest integer to `100x`, halves going up. */
  lemma RoundPercentSpec(x: real)
    ensures x * 100.0 - 0.5 < RoundPercent(x) as real <= x * 100.0 + 0.5
  {
  }

  /** A confidence in [0, 1] shows as a percentage in [0, 100]. */
  lemma RoundPercentBounds(x: real)
    requires 0.0 <= x <= 1.0
    ensures 0 <= RoundPercent(x) <= 100
  {
  }

  /** The number renderings of the browser: `toLocaleString()` of an integer
      (digit grouping) and `String()` of a number; neither is modelled. */
  datatype NumberFormat = NumberFormat(grouped: int -> string, plain: real -> string)
}
