/** The records the backend exchanges: the per-image result, the two response
    bodies and the dictionaries nested in them. */
module Models {

  /** A characteristics dictionary: snake-case key to displayable value. */
  type Characteristics = seq<(string, string)>

  const NotSpecified := "Not specified"
  const Unknown := "Unknown"
  const NotVisible := "Not visible"
  const NotDetermined := "Not determined"

  /** The placeholder values that mean "could not be determined"; they neither
      raise the confidence score nor vote in a consolidation. */
  predicate IsSentinel(v: string) {
    v == NotSpecified || v == Unknown || v == NotVisible || v == ""
  }

  datatype ImageAnalysisResult = ImageAnalysisResult(
    imageName: string,
    characteristics: Characteristics,
    confidenceScore: real,
    analysisNotes: string)

  /** The `price_estimation` dictionary (its integer `estimated_price` is not modelled). */
  datatype PriceEstimate = PriceEstimate(
    estimatedPriceRange: string,
    basePrice: int,
    brandFactor: real,
    conditionFactor: real,
    positiveFactors: seq<string>,
    negativeFactors: seq<string>,
    recommendations: seq<string>)

  /** The `analysis_summary` dictionary. */
  datatype AnalysisSummary = AnalysisSummary(
    totalImages: nat,
    overallConfidence: real,
    analysisQuality: string,
    keyFindings: seq<string>,
    conditionAssessment: Characteristics,
    recommendations: seq<string>)

  datatype AnalysisResponse = AnalysisResponse(
    characteristics: Characteristics,
    priceEstimation: PriceEstimate,
    rawAnalysis: string,
    analysisDate: string,
    success: bool,
    message: string)

  datatype MultiImageAnalysisResponse = MultiImageAnalysisResponse(
    consolidatedCharacteristics: Characteristics,
    priceEstimation: PriceEstimate,
    individualAnalyses: seq<ImageAnalysisResult>,
    analysisSummary: AnalysisSummary,
    analysisDate: string,
    success: bool,
    message: string,
    imagesProcessed: nat)
}
