/** The two analysis endpoints of the backend: request validation, the
    per-image analysis loop and the assembly of the response. */
module Api {
  import opened Wrappers
  import opened Text
  import opened Dict
  import opened Config
  import opened Models
  import opened Utils
  import opened Analyzer

  /** An uploaded part: its optional file name, its declared content type and
      its bytes (the base64 encoding sent to the model is not modelled). */
  datatype UploadFile = UploadFile(filename: Option<string>, contentType: string, data: seq<bv8>)

  /** An `HTTPException`: status code and detail text. */
  datatype HttpError = HttpError(status: int, detail: string)

  /** What the endpoints call out to: the model, the regular-expression
      search, the price-range text and the formatted current time. */
  datatype Services = Services(llm: Llm, search: Matcher, rangeText: PriceRangeText, now: string)

  const SingleSuccessMessage := "Analysis completed successfully"

  predicate IsImage(f: UploadFile) {
    StartsWith(f.contentType, "image/")
  }

  /** Python's `str()` of an optional file name: a missing one renders as `None`. */
  function PyStr(name: Option<string>): string {
    match name
    case Some(s) => s
    case None => "None"
  }

  /** `file.filename or f"image_{i+1}"`: the name under which an image is
      analysed and reported (numbered from 1). */
  function ImageName(f: UploadFile, i: nat): string {
    if f.filename.Some? && f.filename.value != "" then f.filename.value else "image_" + NatToString(i + 1)
  }

  /** The focus of the image at position `i` (numbered from 0). */
  function FocusOf(files: seq<UploadFile>, i: nat): FocusArea
    requires i < |files|
  {
    DetermineFocusArea(files[i].filename, i)
  }

  /** The model's reply for the image at position `i`. */
  function ReplyOf(files: seq<UploadFile>, i: nat, llm: Llm): LlmReply
    requires i < |files|
  {
    llm(files[i].data, FocusOf(files, i))
  }

  // ------------------------------------------------------------ /analyze

  /** What the single-image endpoint answers on success. */
  ghost predicate IsSingleResponseFor(resp: AnalysisResponse, f: UploadFile, svc: Services) {
    && svc.llm(f.data, General) == Reply(resp.rawAnalysis)
    && IsParseOf(resp.characteristics, resp.rawAnalysis, svc.search)
    && IsPriceEstimateFor(resp.priceEstimation, resp.characteristics, svc.rangeText)
    && resp.analysisDate == svc.now
    && resp.success
    && resp.message == SingleSuccessMessage
  }

  method AnalyzeCar(f: UploadFile, svc: Services) returns (r: Result<AnalysisResponse, HttpError>)
    ensures !IsImage(f) ==> r == Failure(HttpError(400, "File must be an image"))
    ensures IsImage(f) && svc.llm(f.data, General).LlmError? ==>
              r == Failure(HttpError(500, "Analysis failed: " + ImageFailureText(PyStr(f.filename), svc.llm(f.data, General).message)))
    ensures r.Success? <==> IsImage(f) && svc.llm(f.data, General).Reply?
    ensures r.Success? ==> IsSingleResponseFor(r.value, f, svc)
  {
    if !IsImage(f) {
      r := Failure(HttpError(400, "File must be an image"));
      return;
    }
    var raw := AnalyzeSingleCarImage(f.data, PyStr(f.filename), General, svc.llm);
    if raw.Failure? {
      r := Failure(HttpError(500, "Analysis failed: " + raw.error));
      return;
    }
    var characteristics := ParseCharacteristics(raw.value, svc.search);
    var price := EstimatePriceFactors(characteristics, svc.rangeText);
    r := Success(AnalysisResponse(characteristics, price, raw.value, svc.now, true, SingleSuccessMessage));
  }

  // --------------------------------------------------- /analyze-multiple

  /** Position of the first part that is not an image, or `|files|`. */
  function FirstNonImage(files: seq<UploadFile>): (k: nat)
    ensures k <= |files|
    ensures k < |files| ==> !IsImage(files[k])
    ensures forall j :: 0 <= j < k ==> IsImage(files[j])
  {
    if |files| == 0 then 0
    else if !IsImage(files[0]) then 0
    else
      var k := 1 + FirstNonImage(files[1..]);
      assert forall j :: 1 <= j < k ==> files[j] == files[1..][j - 1];
      k
  }

  /** The validation checks, in order: too many parts, no part, then the
      first part that is not an image. */
  function ValidationError(files: seq<UploadFile>): Option<HttpError> {
    if |files| > MaxImagesPerRequest then
      Some(HttpError(400, "Maximum " + NatToString(MaxImagesPerRequest) + " images allowed"))
    else if |files| == 0 then Some(HttpError(400, "At least one image is required"))
    else if FirstNonImage(files) < |files| then
      Some(HttpError(400, "File " + PyStr(files[FirstNonImage(files)].filename) + " must be an image"))
    else None
  }

  /** Validation passes exactly for one to ten images. */
  lemma ValidationSpec(files: seq<UploadFile>)
    ensures ValidationError(files).None? <==>
              0 < |files| <= 10 && forall j :: 0 <= j < |files| ==> IsImage(files[j])
    ensures ValidationError(files).Some? ==> ValidationError(files).value.status == 400
  {
    if 0 < |files| <= 10 && FirstNonImage(files) < |files| {
      assert !IsImage(files[FirstNonImage(files)]);
    }
  }

  /** The first part, from position `i` on, whose analysis fails, or `|files|`. */
  function FirstFailureFrom(files: seq<UploadFile>, llm: Llm, i: nat): (k: nat)
    requires i <= |files|
    ensures i <= k <= |files|
    ensures k < |files| ==> ReplyOf(files, k, llm).LlmError?
    ensures forall j :: i <= j < k ==> ReplyOf(files, j, llm).Reply?
    decreases |files| - i
  {
    if i == |files| then i
    else if ReplyOf(files, i, llm).LlmError? then i
    else FirstFailureFrom(files, llm, i + 1)
  }

  /** The entry of `individual_analyses` for the part at position `i`. */
  ghost predicate IsAnalysisOf(a: ImageAnalysisResult, files: seq<UploadFile>, i: nat, svc: Services)
    requires i < |files|
  {
    && ReplyOf(files, i, svc.llm) == Reply(a.analysisNotes)
    && a.imageName == ImageName(files[i], i)
    && IsParseOf(a.characteristics, a.analysisNotes, svc.search)
    && |a.characteristics| > 0
    && a.confidenceScore == ConfidenceScore(a.characteristics)
  }

  /** What the multi-image endpoint answers on success. */
  ghost predicate IsMultiResponseFor(resp: MultiImageAnalysisResponse, files: seq<UploadFile>, svc: Services) {
    var rs := resp.individualAnalyses;
    && |rs| == |files|
    && (forall i :: 0 <= i < |files| ==> IsAnalysisOf(rs[i], files, i, svc))
    && IsConsolidation(rs, resp.consolidatedCharacteristics)
    && IsPriceEstimateFor(resp.priceEstimation, resp.consolidatedCharacteristics, svc.rangeText)
    && IsSummaryOf(resp.analysisSummary, |rs|, resp.consolidatedCharacteristics, OverallConfidence(rs))
    && resp.analysisDate == svc.now
    && resp.success
    && resp.message == "Successfully analyzed " + NatToString(|files|) + " images"
    && resp.imagesProcessed == |files|
  }

  /** The validation loop: the first part that is not an image is reported. */
  method ValidateFiles(files: seq<UploadFile>) returns (e: Option<HttpError>)
    ensures e == ValidationError(files)
  {
    if |files| > MaxImagesPerRequest {
      return Some(HttpError(400, "Maximum " + NatToString(MaxImagesPerRequest) + " images allowed"));
    }
    if |files| == 0 {
      return Some(HttpError(400, "At least one image is required"));
    }
    var i := 0;
    while i < |files|
      invariant 0 <= i <= |files|
      invariant forall j :: 0 <= j < i ==> IsImage(files[j])
    {
      if !IsImage(files[i]) {
        return Some(HttpError(400, "File " + PyStr(files[i].filename) + " must be an image"));
      }
      i := i + 1;
    }
    return None;
  }

  /** One iteration of the analysis loop: the part at position `i`. */
  method AnalyzeOne(files: seq<UploadFile>, i: nat, svc: Services) returns (r: Result<ImageAnalysisResult, string>)
    requires i < |files|
    ensures r.Success? <==> ReplyOf(files, i, svc.llm).Reply?
    ensures r.Failure? ==> r.error == ImageFailureText(ImageName(files[i], i), ReplyOf(files, i, svc.llm).message)
    ensures r.Success? ==> IsAnalysisOf(r.value, files, i, svc)
  {
    var focus := DetermineFocusArea(files[i].filename, i);
    var name := ImageName(files[i], i);
    var raw := AnalyzeSingleCarImage(files[i].data, name, focus, svc.llm);
    if raw.Failure? {
      return Failure(raw.error);
    }
    var characteristics := ParseCharacteristics(raw.value, svc.search);
    ParseSize(characteristics, raw.value, svc.search);
    var score := ConfidenceScore(characteristics);
    return Success(ImageAnalysisResult(name, characteristics, score, raw.value));
  }

  /** The analysis loop: every part in order, stopping at the first failure. */
  method AnalyzeEach(files: seq<UploadFile>, svc: Services) returns (r: Result<seq<ImageAnalysisResult>, string>)
    ensures FirstFailureFrom(files, svc.llm, 0) < |files| ==>
              var k := FirstFailureFrom(files, svc.llm, 0);
              r == Failure(ImageFailureText(ImageName(files[k], k), ReplyOf(files, k, svc.llm).message))
    ensures r.Success? <==> FirstFailureFrom(files, svc.llm, 0) == |files|
    ensures r.Success? ==> |r.value| == |files| && forall i :: 0 <= i < |files| ==> IsAnalysisOf(r.value[i], files, i, svc)
  {
    var individual: seq<ImageAnalysisResult> := [];
    var i := 0;
    while i < |files|
      invariant 0 <= i <= |files|
      invariant |individual| == i
      invariant AllAnalysed(individual, files, svc)
    {
      var one := AnalyzeOne(files, i, svc);
      if one.Failure? {
        AnalysedReplies(individual, files, svc);
        FirstFailureIs(files, svc.llm, 0, i);
        return Failure(one.error);
      }
      AnalysedStep(individual, one.value, files, svc);
      individual := individual + [one.value];
      i := i + 1;
    }
    AnalysedReplies(individual, files, svc);
    FirstFailureIs(files, svc.llm, 0, i);
    return Success(individual);
  }

  /** The analyses of the first `|rs|` parts, in order. */
  ghost predicate AllAnalysed(rs: seq<ImageAnalysisResult>, files: seq<UploadFile>, svc: Services) {
    |rs| <= |files| && forall j :: 0 <= j < |rs| ==> IsAnalysisOf(rs[j], files, j, svc)
  }

  lemma AnalysedStep(rs: seq<ImageAnalysisResult>, a: ImageAnalysisResult, files: seq<UploadFile>, svc: Services)
    requires AllAnalysed(rs, files, svc) && |rs| < |files| && IsAnalysisOf(a, files, |rs|, svc)
    ensures AllAnalysed(rs + [a], files, svc)
  {
    assert forall j :: 0 <= j < |rs| ==> (rs + [a])[j] == rs[j];
  }

  /** Every analysed part had a successful model call. */
  lemma AnalysedReplies(rs: seq<ImageAnalysisResult>, files: seq<UploadFile>, svc: Services)
    requires AllAnalysed(rs, files, svc)
    ensures forall j :: 0 <= j < |rs| ==> ReplyOf(files, j, svc.llm).Reply?
  {
    forall j | 0 <= j < |rs| ensures ReplyOf(files, j, svc.llm).Reply? {
      assert IsAnalysisOf(rs[j], files, j, svc);
    }
  }

  /** The search finds `k` when every part before it succeeds and it fails (or is the end). */
  lemma FirstFailureIs(files: seq<UploadFile>, llm: Llm, i: nat, k: nat)
    requires i <= k <= |files|
    requires forall j :: i <= j < k ==> ReplyOf(files, j, llm).Reply?
    requires k < |files| ==> ReplyOf(files, k, llm).LlmError?
    ensures FirstFailureFrom(files, llm, i) == k
    decreases k - i
  {
    if i < k {
      FirstFailureIs(files, llm, i + 1, k);
    }
  }

  method AnalyzeMultipleCarImages(files: seq<UploadFile>, svc: Services) returns (r: Result<MultiImageAnalysisResponse, HttpError>)
    ensures ValidationError(files).Some? ==> r == Failure(ValidationError(files).value)
    ensures ValidationError(files).None? && FirstFailureFrom(files, svc.llm, 0) < |files| ==>
              var k := FirstFailureFrom(files, svc.llm, 0);
              r == Failure(HttpError(500, "Multi-image analysis failed: "
                                          + ImageFailureText(ImageName(files[k], k), ReplyOf(files, k, svc.llm).message)))
    ensures r.Success? <==> ValidationError(files).None? && FirstFailureFrom(files, svc.llm, 0) == |files|
    ensures r.Success? ==> IsMultiResponseFor(r.value, files, svc)
  {
    var invalid := ValidateFiles(files);
    if invalid.Some? {
      return Failure(invalid.value);
    }
    var analysed := AnalyzeEach(files, svc);
    if analysed.Failure? {
      return Failure(HttpError(500, "Multi-image analysis failed: " + analysed.error));
    }
    var individual := analysed.value;
    var consolidated, overall := ConsolidateMultipleAnalyses(individual);
    var price := EstimatePriceFactors(consolidated, svc.rangeText);
    var summary := GenerateAnalysisSummary(individual, consolidated, overall);
    r := Success(MultiImageAnalysisResponse(consolidated, price, individual, summary, svc.now, true,
                                            "Successfully analyzed " + NatToString(|files|) + " images", |files|));
  }

  // --------------------------------------------------------------- lemmas

  /** For a part without a name, the reported name counts from 1 while the
      focus choice reads `image_{i}` counting from 0: the two strings differ. */
  lemma UnnamedPartIndices(f: UploadFile, i: nat)
    requires f.filename.None? || f.filename == Some("")
    ensures ImageName(f, i) == "image_" + NatToString(i + 1)
    ensures FocusSubject(f.filename, i) == "image_" + NatToString(i)
    ensures ImageName(f, i) != FocusSubject(f.filename, i)
    ensures DetermineFocusArea(f.filename, i) == General
  {
    SuccessorRendersDifferently(i);
    DefaultNameIsGeneral(f.filename, i);
    var named, focused := "image_" + NatToString(i + 1), "image_" + NatToString(i);
    assert named[6..] == NatToString(i + 1);
    assert focused[6..] == NatToString(i);
  }

  /** A parse always yields one entry per configured pattern. */
  lemma ParseSize(c: Characteristics, text: string, search: Matcher)
    requires IsParseOf(c, text, search)
    ensures |c| == |CharacteristicPatterns|
  {
    assert |Keys(c)| == |Keys(CharacteristicPatterns)|;
  }

  /** Every analysis of a response has the configured key set, so the union of
      key sets is the configured key set. */
  lemma UnionOfParses(rs: seq<ImageAnalysisResult>, files: seq<UploadFile>, svc: Services)
    requires |rs| <= |files|
    requires forall i :: 0 <= i < |rs| ==> IsAnalysisOf(rs[i], files, i, svc)
    ensures forall k :: k in UnionKeys(rs) <==> |rs| > 0 && k in Keys(CharacteristicPatterns)
  {
    var ks := Keys(CharacteristicPatterns);
    forall i | 0 <= i < |rs| ensures Keys(rs[i].characteristics) == ks {
      assert IsAnalysisOf(rs[i], files, i, svc);
    }
    UnionOfSameKeys(rs, ks);
  }

  /** When every analysis has the key list `ks`, the union of key sets is the set of `ks`. */
  lemma {:induction false} UnionOfSameKeys(rs: seq<ImageAnalysisResult>, ks: seq<string>)
    requires forall i :: 0 <= i < |rs| ==> Keys(rs[i].characteristics) == ks
    ensures forall k :: k in UnionKeys(rs) <==> |rs| > 0 && k in ks
  {
    if |rs| > 0 {
      var init := rs[..|rs| - 1];
      assert forall i :: 0 <= i < |init| ==> init[i] == rs[i];
      UnionOfSameKeys(init, ks);
      var last := rs[|rs| - 1].characteristics;
      assert Keys(last) == ks;
      forall k ensures k in KeySet(last) <==> k in ks {
        if k in KeySet(last) {
          var i :| 0 <= i < |last| && last[i].0 == k;
          assert Keys(last)[i] == k;
        }
        if k in ks {
          var i :| 0 <= i < |Keys(last)| && Keys(last)[i] == k;
          assert last[i].0 == k;
        }
      }
    }
  }

  /** A successful multi-image response: the consolidated dictionary has
      exactly the configured keys and no sentinel value, the overall
      confidence lies in [0, 1], and one analysis is reported per part. */
  lemma MultiResponseShape(resp: MultiImageAnalysisResponse, files: seq<UploadFile>, svc: Services)
    requires |files| > 0
    requires IsMultiResponseFor(resp, files, svc)
    ensures forall k :: k in Keys(resp.consolidatedCharacteristics) <==> k in Keys(CharacteristicPatterns)
    ensures forall j :: 0 <= j < |resp.consolidatedCharacteristics| ==> !IsSentinel(resp.consolidatedCharacteristics[j].1)
    ensures 0.0 <= resp.analysisSummary.overallConfidence <= 1.0
    ensures resp.analysisSummary.totalImages == resp.imagesProcessed == |resp.individualAnalyses| == |files|
  {
    var rs := resp.individualAnalyses;
    UnionOfParses(rs, files, svc);
    ConsolidationHasNoSentinels(rs, resp.consolidatedCharacteristics);
    assert forall i :: 0 <= i < |rs| ==> IsAnalysisOf(rs[i], files, i, svc);
    OverallConfidenceBounds(rs);
  }
}
