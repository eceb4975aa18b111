# Car analyzer — a verified model

The system is a car-photo analyzer. The browser page lets the user pick up to ten images.
It sends them to a FastAPI backend. The backend asks a vision model for a text description
of each image, parses the text into a dictionary of characteristics, merges several images
by majority vote, and derives price factors from configuration tables. Back in the page,
the result is shown as panels and can be downloaded as a PDF report.

This project models, in Dafny:

- **Backend helpers** (`Utils`):
  - the focus area picked from a file name;
  - parsing the model's text into the fixed key set;
  - the confidence ratio;
  - the majority vote with first-occurrence tie-break;
  - the positive/negative price factors and the price recommendations.
- **Backend analysis** (`Analyzer`):
  - consolidation of several per-image results: the union of keys, sentinel values ignored, the mean confidence;
  - the multi-image summary: quality thresholds, key finding, condition assessment, recommendations;
  - the selection of base price, brand factor and condition factor from the tables in `Config`.
- **Backend endpoints** (`Api`):
  - `/analyze` and `/analyze-multiple`, with their validation order and error texts;
  - the default image names;
  - the assembly of the responses.
- **Frontend session** (`App`): a class `AnalyzerSession` holding the five state fields of the page.
  - Its methods are the file-drop handler, file removal, reset, and the two halves of the analysis request: start, and completion with the server's reply.
  - Pure functions classify failures into the message shown.
  - A view function chooses which block of the main card is shown.
- **Result display** (`Payload`, `ResultsSection`, `IndividualAnalyses`):
  - the batch/single choice;
  - the characteristic rows;
  - the price-panel fallbacks;
  - the per-image "key findings" line.
- **PDF report** (`PdfGenerator`): a class `PdfDocument` that records drawn blocks and page stamps.
  - The report generator draws the header once, then the content, then loops over the pages stamping footers.
  - Also modelled: the title-casing of keys and the download file name.

Shared modules:

- `Wrappers`: Option and Result.
- `Text`: string helpers with ASCII case mapping.
- `Dict`: an insertion-ordered dictionary stored as a sequence of pairs.
  - Python and JavaScript iteration order matters here: it decides row order, brand precedence and the first-occurrence tie-breaks.
- `Config`: the constant tables.
- `Models`: the response records.

External services are parameters of the model:

- the vision model: a function from image bytes and focus area to a reply or an error;
- the regular-expression search: a function from pattern and text to an optional capture;
- the price-range formatter, the number formatting of the browser, and the clock strings.

Four behaviours of the code worth knowing:

- **PDF header:** only page 1 gets the header bar. Only the footer is repeated on every page.
- **Rejected files:** when every file of a drop is refused, the page keeps the message of the *last* refused file.
- **Successful analysis:** this does not clear an earlier error text.
- **Report file name:** it reads a `make` entry. The backend never produces one; it calls the field `brand`. So a backend result is always saved under the generic name. `PdfGenerator.BackendResultsGetGenericName` proves this.

## Model

| member | source | states |
|---|---|---|
| Utils.FocusAreaIsFirstKeyword | backend/utils.py:5-17 | the elif cascade picks the area of the first keyword found, with precedence interior > wheels > exterior, else general |
| Utils.FirstOfTagged | backend/utils.py:10-15 | a block of keywords ahead of the rest decides when one of its words occurs, otherwise the rest decides |
| Utils.DefaultNameIsGeneral | backend/utils.py:8 | a missing or empty file name becomes `image_{index}`, which holds no keyword, so the area is general |
| Utils.ParseCharacteristics | backend/utils.py:19-30 | exactly one entry per configured pattern, in table order: the stripped capture, or `Not specified` without a match; keys are distinct |
| Utils.ParseWith | backend/utils.py:24-28 | the parse loop over any table with distinct keys yields one entry per pattern, in table order, stripped capture or `Not specified`, with distinct keys |
| Utils.PatternKeysDistinct | backend/config.py:97-116 | the pattern table has no repeated key |
| Utils.ParsedValuesAreStripped | backend/utils.py:26 | no parsed value starts or ends with whitespace |
| Utils.Identified | backend/utils.py:34 | the number of identified values never exceeds the number of entries |
| Utils.ConfidenceScore | backend/utils.py:32-36 | the score is identified/total and lies in [0, 1]; it is defined only for a non-empty dictionary |
| Utils.IdentifiedExtremes | backend/utils.py:34 | all values are counted iff none is a sentinel; none is counted iff all are sentinels |
| Utils.ConfidenceExtremes | backend/utils.py:32-36 | the score is 1 iff no value is a sentinel and 0 iff every value is |
| Utils.BestFrom | backend/utils.py:43 | the scan returns a position of maximal count, and no earlier position has that count |
| Utils.MostCommonValue | backend/utils.py:38-45 | `Not determined` for no values; otherwise a value from the list with maximal count, and its first occurrence is no later than that of any other value with the same count |
| Utils.FirstPositionOfBest | backend/utils.py:43 | the first position of maximal count is the first occurrence of its value |
| Utils.CountDistinct | backend/utils.py:39 | in a list without repetitions every value occurs once |
| Utils.CountAbsent | backend/utils.py:43 | a value not in the list has count zero |
| Utils.AllUniqueGivesFirst | backend/utils.py:39-45 | with all values distinct the vote returns the first element |
| Utils.FiredMembership | backend/utils.py:47-67 | a factor text is listed iff its rule fires (keyword in the lower-cased field, missing field read as empty); at most one text per rule |
| Utils.FiredThree | backend/utils.py:47-67 | for a three-rule table the list is the fired texts in rule order |
| Utils.GetPositiveFactors | backend/utils.py:47-56 | the luxury / excellent-body / low-mileage texts of the rules that fire, in that order |
| Utils.GetNegativeFactors | backend/utils.py:58-67 | the poor-body / damaged / high-mileage texts of the rules that fire, in that order |
| Utils.PriceAdvice | backend/utils.py:69-76 | inspection advice iff some value mentions `poor` in any case; warranty advice iff `modifications` is present and not `Not specified`; no other text; inspection first when both |
| Utils.GetPriceRecommendations | backend/utils.py:69-76 | the loop builds exactly the reference advice list |
| Dict.Get | backend/analyzer.py:76 | a lookup succeeds iff the key is present, and then returns a value filed under it |
| Dict.Put | backend/analyzer.py:48 | assignment leaves the key looking up the new value; a new key is appended at the end; an existing key is overwritten in its own position, every other entry unchanged |
| Dict.GetEntry | backend/analyzer.py:86 | in a dictionary without repeated keys each entry is what its key looks up |
| Text.Trim | backend/utils.py:26 | `strip()` returns the middle of the text with only whitespace cut away, and the result neither starts nor ends with whitespace |
| Analyzer.VotesAreNotSentinels | backend/analyzer.py:41-43 | no sentinel value is ever recorded as a vote |
| Analyzer.VotesWitness | backend/analyzer.py:39-43 | a key has votes iff some result files a non-sentinel value under it |
| Analyzer.VotedKeysSpec | backend/analyzer.py:46-48 | the voted keys are exactly the keys with a vote, each listed once |
| Analyzer.UnionKeysSpec | backend/analyzer.py:51-53 | the union of key sets holds exactly the keys of some result |
| Analyzer.AddVote | backend/analyzer.py:43 | appending to the per-key list keeps the table an exact tally of the pairs seen |
| Analyzer.TallyVotes | backend/analyzer.py:39-43 | the nested loop yields the tally of all (key, value) pairs and the list of scores in result order |
| Analyzer.TallyAnalysis | backend/analyzer.py:41-43 | adding every entry of one analysis extends the tally to the pairs read so far plus that analysis |
| Analyzer.CollectKeys | backend/analyzer.py:51-53 | the collected key set is the union of all result key sets |
| Analyzer.DecideVotes | backend/analyzer.py:46-48 | each tallied key maps to the most common of its values, in tally order |
| Analyzer.FillUndetermined | backend/analyzer.py:55-57 | the keys that are still missing are appended with `Not determined`; existing entries are untouched |
| Analyzer.VotedKeysInUnion | backend/analyzer.py:47-57 | every voted key is a key of some result |
| Analyzer.ConsolidateMultipleAnalyses | backend/analyzer.py:33-62 | the keys are exactly the union of the input keys, without repeats; a key with votes maps to their most common value, any other key to `Not determined`; the overall confidence is the mean score, or 0 with no results |
| Analyzer.ConsolidationHasNoSentinels | backend/analyzer.py:42-57 | no consolidated value is a sentinel |
| Analyzer.SumBounds | backend/analyzer.py:60 | a sum of n scores in [0, 1] lies in [0, n] |
| Analyzer.OverallConfidenceBounds | backend/analyzer.py:60 | the mean of scores in [0, 1] lies in [0, 1] |
| Analyzer.QualityLabel | backend/analyzer.py:69 | `High` iff confidence > 0.7, `Medium` iff 0.4 < confidence ≤ 0.7, `Low` iff confidence ≤ 0.4 |
| Analyzer.GenerateAnalysisSummary | backend/analyzer.py:64-99 | the summary has the image count, the confidence and its label, the key finding, the condition assessment and the recommendations in order |
| Analyzer.AssessConditions | backend/analyzer.py:84-90 | the loop over the four condition keys builds the reference assessment |
| Analyzer.AssessWith | backend/analyzer.py:85-88 | the assessment loop over any table with distinct labels builds the reference assessment of that table |
| Analyzer.AssessedEntry | backend/analyzer.py:84-88 | every assessed entry is a condition label with that key's value, which is not `Not determined` |
| Analyzer.AssessedIncludes | backend/analyzer.py:84-88 | every condition key whose value is not `Not determined` appears under its label |
| Analyzer.KeyFindingIffBrandKey | backend/analyzer.py:76-81 | after consolidation there is a key finding iff some image reported a `brand` key |
| Analyzer.AssessedMentionsPoor | backend/analyzer.py:96 | the assessment mentions `poor` iff one of the four condition values does |
| Analyzer.AssessedMentions | backend/analyzer.py:85-96 | for a word absent from `not determined`, some assessment value mentions it iff some looked-up condition value does |
| Analyzer.SummaryRecommendations | backend/analyzer.py:93-97 | clearer-images advice iff confidence < 0.5; wear advice iff an assessed condition mentions `poor`; nothing else; that order |
| Analyzer.ConditionTexts | backend/analyzer.py:106-111 | one lower-cased text per condition field, in body/paint/interior/wheel order |
| Analyzer.KnownMultipliersSpec | backend/analyzer.py:113-116 | a multiplier is collected iff some condition text is exactly its table key |
| Analyzer.CollectMultipliers | backend/analyzer.py:113-116 | the loop over the condition texts collects exactly the reference list of known multipliers |
| Analyzer.MinOf | backend/analyzer.py:119 | the minimum is one of the values and no value is smaller |
| Analyzer.KnownMultiplierBounds | backend/config.py:16-18 | every collected condition multiplier lies in [0.5, 1] |
| Analyzer.ConditionFactorSpec | backend/analyzer.py:105-119 | the condition factor lies in [0.5, 1]; it is the 0.8 default iff no condition text is a table key |
| Analyzer.PoorConditionGivesMinimum | backend/analyzer.py:119 | one `poor` condition makes the factor 0.5, the worst case |
| Analyzer.FirstContainedSpec | backend/analyzer.py:124 | a brand multiplier is found iff some table key occurs in the brand; it is the one of the first such key in table order |
| Analyzer.BrandFactorBounds | backend/analyzer.py:124 | the brand factor lies in [0.8, 3.5] |
| Analyzer.BasePriceBounds | backend/analyzer.py:121-123 | the base price lies in [15000, 50000]; it is the 20000 default iff the lower-cased segment is not a table key |
| Analyzer.EstimatePriceFactors | backend/analyzer.py:101-152 | base price, brand factor, condition factor, factor lists and recommendations are the reference values for the characteristics |
| Api.AnalyzeCar | backend/main.py:34-58 | a non-image gets 400 `File must be an image`; a model failure gets 500 `Analysis failed: Failed to analyze image …`; success iff the file is an image and the model answers; the response holds the parse of the answer and its price estimate |
| Api.FirstNonImage | backend/main.py:74-76 | the position of the first non-image file, every earlier one being an image |
| Api.ValidationSpec | backend/main.py:67-76 | validation passes iff there are 1 to 10 files and all are images; every refusal is a 400 |
| Api.FirstFailureFrom | backend/main.py:81-93 | the first file from a position on whose analysis fails, every earlier one succeeding |
| Api.ValidateFiles | backend/main.py:67-76 | the checks run in the order count > 10, then empty, then the first non-image file, naming it |
| Api.AnalyzeOne | backend/main.py:81-103 | one file's analysis succeeds iff the model answers; a failure names the file (or `image_{i+1}`); a success is that file's parsed and scored result |
| Api.AnalyzeEach | backend/main.py:79-103 | the loop stops at the first failing file with its message; otherwise it gives one result per file, in file order |
| Api.AnalyzeMultipleCarImages | backend/main.py:60-130 | validation errors are returned as is, before anything is analysed; the first model failure becomes 500 `Multi-image analysis failed: …`; success iff neither happens, and then the response is consolidated, priced and summarised from the per-file results |
| Api.UnnamedPartIndices | backend/main.py:86-99 | an unnamed file is called `image_{i+1}`, while its focus area is computed from `image_{i}`, and is general |
| Api.UnionOfParses | backend/main.py:95-106 | the union of keys over parsed results is the pattern key set, or empty for no results |
| Api.MultiResponseShape | backend/main.py:106-127 | a multi-image response has exactly the pattern keys, no sentinel values, confidence in [0, 1], and image counts equal to the number of files |
| Payload.SpacedKey | frontend/src/components/ResultsSection.jsx:30 | every underscore becomes a space and nothing else changes |
| Payload.RoundPercentSpec | frontend/src/components/IndividualAnalyses.jsx:19 | the rounded percentage is the integer nearest to 100x, halves going up |
| Payload.RoundPercentBounds | frontend/src/utils/PDFGenerator.jsx:118 | a confidence in [0, 1] renders as a percentage in [0, 100] |
| IndividualAnalyses.Survivors | frontend/src/components/IndividualAnalyses.jsx:26 | the filter never grows the entry list |
| IndividualAnalyses.SurvivorsSpec | frontend/src/components/IndividualAnalyses.jsx:26 | an entry survives iff its value is neither `Not specified` nor `Unknown` (other sentinels stay) |
| IndividualAnalyses.SurvivorsAppend | frontend/src/components/IndividualAnalyses.jsx:26 | the filter keeps entry order |
| IndividualAnalyses.FallbackIffNoSurvivor | frontend/src/components/IndividualAnalyses.jsx:29 | the line is `Limited information extracted` iff no entry survives |
| IndividualAnalyses.FirstThreeShown | frontend/src/components/IndividualAnalyses.jsx:27-29 | with three or more survivors the line is exactly the first three findings joined by `, ` |
| IndividualAnalyses.Render | frontend/src/components/IndividualAnalyses.jsx:4-16 | nothing for an empty list, else one item per analysis in order, titled with its image name |
| ResultsSection.CharacteristicRows | frontend/src/components/ResultsSection.jsx:28-31 | one row per entry in order with the values unchanged; each label has no `_`, the key's length, and the key's characters at every non-underscore position |
| ResultsSection.RenderShape | frontend/src/components/ResultsSection.jsx:7-71 | the summary panel appears iff the result is a batch; the analyses list appears iff it is a batch with analyses, one item per analysis; the rows are the shown characteristics |
| ResultsSection.Fallbacks | frontend/src/components/ResultsSection.jsx:43-63 | the range shows `-` iff it is empty (or itself `-`); a zero factor shows `-x`, any other factor its rendering followed by `x` |
| ResultsSection.BackendFactorsShown | frontend/src/components/ResultsSection.jsx:57-63 | factors computed by the backend are never zero, so they are always shown with their value |
| App.ValidFilesSpec | frontend/src/App.jsx:17-27 | a file is kept iff it has an image type and at most 10 MiB |
| App.ValidFilesWhole | frontend/src/App.jsx:17-27 | a drop is kept whole iff every file in it is admissible |
| App.LastRejectionSpec | frontend/src/App.jsx:18-24 | after the checks the error text is the message of the last refused file |
| App.NoRejectionKeepsMessage | frontend/src/App.jsx:17-27 | with no refused file the checks leave the error text as it was |
| App.SizeLimitInclusive | frontend/src/App.jsx:22 | exactly 10 MiB is accepted; a larger image is refused with the size message |
| App.DropIndexSpec | frontend/src/App.jsx:44 | removing an index in range closes the gap and keeps the order; any other index removes nothing |
| App.RequestSpec | frontend/src/App.jsx:66-101 | one file is posted as `file` to `/analyze`; several as one `files` part each, in selection order, to `/analyze-multiple`; the URL posted to is the one the error texts report |
| App.SelectionPassesServerChecks | frontend/src/App.jsx:17-36 | a selection the page accepts (1 to 10 admissible files) passes every validation check of the backend |
| App.BuildRequest | frontend/src/App.jsx:75-101 | the request built part by part is the reference request for the selection |
| App.ServerFailureHidesDetail | frontend/src/App.jsx:112-113 | status 0 or ≥ 500 always shows `Analysis failed: Cannot connect to server…`, whatever the body said |
| App.NotFoundStatusSkipsGuidance | frontend/src/App.jsx:110-111 | for the page's URLs a 404 never shows the endpoint guidance, because its text says `not found` in lower case |
| App.UrlsHaveNoCapitalN | frontend/src/App.jsx:66-68 | the URLs the page requests contain no capital `N` |
| App.ClientErrorShowsDetail | frontend/src/App.jsx:107-108 | another 4xx with a non-empty detail shows that detail after `Analysis failed: `, unless the detail triggers a substitution |
| App.NonImageRefusalShown | frontend/src/App.jsx:108 | the backend's 400 `File must be an image` reaches the user unchanged |
| App.NetworkErrorGuidance | frontend/src/App.jsx:131-135 | any caught message containing `fetch` becomes the connectivity guidance, which differs from the endpoint guidance |
| App.ViewOf | frontend/src/App.jsx:160-176 | the main card shows at most the three conditional blocks |
| App.ExactlyOneView | frontend/src/App.jsx:160-176 | in every reachable state exactly one block is shown: loading, results, or the upload form |
| App.AnalyzerSession.constructor | frontend/src/App.jsx:9-13 | the session starts with no files, no loading, no result and no error |
| App.AnalyzerSession.HandleFiles | frontend/src/App.jsx:15-41 | no admissible file: the selection is kept and the error is the last rejection; too many: the selection is kept and the limit message shown; otherwise the admissible files are appended in order and the error is cleared; the invariant (at most ten admissible files) is preserved |
| App.AnalyzerSession.RemoveFile | frontend/src/App.jsx:43-45 | the file at the index is removed; the error text and the flags are untouched |
| App.AnalyzerSession.ResetAnalyzer | frontend/src/App.jsx:47-52 | selection, result, error and results flag are cleared together |
| App.AnalyzerSession.StartAnalysis | frontend/src/App.jsx:54-58 | an empty selection changes nothing; otherwise loading starts, results are hidden and the request for the selection is built |
| App.AnalyzerSession.FinishAnalysis | frontend/src/App.jsx:103-146 | loading always ends; a delivered result is stored and shown without clearing the error; a failure stores the classified message and keeps selection and result |
| App.AnalyzerSession.AnalyzeImages | frontend/src/App.jsx:54-147 | the whole handler: nothing for an empty selection, else the reply to the reference request decides the new state as above |
| PdfGenerator.TitleKeyExample | frontend/src/utils/PDFGenerator.jsx:40 | `body_style` becomes `Body Style` |
| PdfGenerator.TitleKeyOnlyChangesCase | frontend/src/utils/PDFGenerator.jsx:46 | the report's labels differ from the results panel's only in letter case |
| PdfGenerator.TitleKeyHasNoUnderscore | frontend/src/utils/PDFGenerator.jsx:40 | a report label never contains `_` |
| PdfGenerator.CharacteristicRows | frontend/src/utils/PDFGenerator.jsx:36-49 | one row per shown entry in order with the values unchanged; each label has no `_` and equals the results panel's label up to letter case |
| PdfGenerator.PdfDocument.constructor | frontend/src/utils/PDFGenerator.jsx:6 | a new document has one page and nothing drawn |
| PdfGenerator.PdfDocument.Draw | frontend/src/utils/PDFGenerator.jsx:22-34 | a drawn block goes after all earlier ones |
| PdfGenerator.PdfDocument.Decorate | frontend/src/utils/PDFGenerator.jsx:144-171 | a stamp is recorded on the current page |
| PdfGenerator.PdfDocument.ContinueOnNewPages | frontend/src/utils/PDFGenerator.jsx:135 | the layout's page count grows to N and drawing ends on the last page |
| PdfGenerator.PdfDocument.SetPage | frontend/src/utils/PDFGenerator.jsx:137 | moves to an existing page and changes nothing else |
| PdfGenerator.DrawContent | frontend/src/utils/PDFGenerator.jsx:20-133 | the content blocks, in order, with the confidence section only for a batch |
| PdfGenerator.StampFooters | frontend/src/utils/PDFGenerator.jsx:135-139 | each page from 1 to the page count gets one footer, in page order |
| PdfGenerator.GenerateReport | frontend/src/utils/PDFGenerator.jsx:5-142 | the report holds the reference blocks; its stamps are the header on page 1 followed by one footer per page |
| PdfGenerator.HeaderOnlyOnFirstPage | frontend/src/utils/PDFGenerator.jsx:10 | the header is stamped once, on page 1; every other stamp is a footer |
| PdfGenerator.FooterOnEveryPage | frontend/src/utils/PDFGenerator.jsx:135-139 | every page i of N carries the footer `Page i of N` |
| PdfGenerator.OneFooterPerPage | frontend/src/utils/PDFGenerator.jsx:136-139 | footers are stamped in increasing page order, so no page gets two |
| PdfGenerator.PriceRowLabels | frontend/src/utils/PDFGenerator.jsx:75-80 | four price rows in order, both factors ending in `x` |
| PdfGenerator.ConfidenceSectionIffBatch | frontend/src/utils/PDFGenerator.jsx:109-133 | the confidence section is drawn iff the result is a batch |
| PdfGenerator.TimestampPart | frontend/src/utils/PDFGenerator.jsx:189 | at most 19 characters, with no `:` and no `.` |
| PdfGenerator.ReportFilename | frontend/src/utils/PDFGenerator.jsx:176-190 | the successive appends give the stem, a dash, the time stamp and `.pdf` |
| PdfGenerator.FilenameExample | frontend/src/utils/PDFGenerator.jsx:176-187 | make Toyota and model Corolla give the stem `toyota-corolla-analysis-report` |
| PdfGenerator.TimestampExample | frontend/src/utils/PDFGenerator.jsx:189 | the ISO time `2024-01-15T10:30:45.123Z` becomes `2024-01-15T10-30-45` |
| PdfGenerator.NoMakeGivesGenericName | frontend/src/utils/PDFGenerator.jsx:181 | without a `make` entry the stem is `car-analysis-report` |
| PdfGenerator.PatternsHaveNoMake | backend/config.py:97-116 | the backend's key set has no `make` |
| PdfGenerator.BackendResultsGetGenericName | frontend/src/utils/PDFGenerator.jsx:177-187 | every result the backend serves, single or batch, gets the generic stem |
| PdfGenerator.DownloadPdf | frontend/src/utils/PDFGenerator.jsx:173-193 | the downloaded report holds the reference blocks, the header on page 1 and one footer per page of the given count, and is saved under the stem, time stamp and `.pdf` |

## Left out

- The vision model: `ollama.chat` is a function parameter of the model. The prompts and the model name are a foreign service.
  - Also left out: base64 encoding (the model receives the raw bytes) and the unused `analysis_focus` form field.
- FastAPI routing, CORS, the HTML root, `/health`, `/api-info` and uvicorn: framework glue.
- Regular-expression semantics of the characteristic patterns: the search is a parameter returning an optional capture. Case-insensitive matching and backtracking are not modelled.
- Floating point and locale formatting are parameters, not modelled:
  - the estimated price with age depreciation and the `{:,.0f}` range text;
  - `toLocaleString` of numbers and dates, and the number-to-text rendering of factors;
  - the current year and time.
- `Analyzer.GenerateAnalysisSummary`: the stored overall confidence is the unrounded mean; `round(…, 2)` is a floating-point detail and is not modelled. Quality and recommendations use the unrounded value, as in the source.
- `Utils.ConfidenceScore`: requires a non-empty dictionary. The source divides by zero on an empty one, and every caller passes a full parse.
- Text case mapping (`lower()`, `toLowerCase()`, `toUpperCase()`) is ASCII only.
- `ParseCharacteristics`: the capture is modelled through `Text.Trim` over Python's ASCII whitespace set plus NEL and no-break space. Other Unicode spaces are not modelled.
- The order of `set` iteration when filling `Not determined` keys is hash-dependent. The model picks an arbitrary order, and every property holds for every order.
- JavaScript places integer-like object keys first in `Object.entries`. Keys are assumed not to be integer-like, so entry order is insertion order.
- The frontend result is a tagged variant (single or batch) with every field present. The `?.`/`|| {}` fallbacks for absent JSON fields are not modelled. Falsy present values are modelled: the empty range and the zero factor.
- `ResultsSection.RenderShape`: the base price is always rendered through the number formatter. The `-` for an absent base price is not modelled.
- The page's base URL test on `window.location` is a boolean parameter. `console.log`, `fetch` and `FormData` transport are not modelled; the reply is a parameter (`Delivered`, `Rejected` with status, status text and string detail, or `Thrown` message).
- A non-string `detail` (such as a validation error list) is not modelled, and neither is a body that fails to parse as JSON.
- React state batching and re-rendering are not modelled: each handler applies its updates in program order.
- UploadSection, Header, Footer, LoadingIndicator, ErrorMessage, AnalysisSummary and the download button are presentation only.
- jsPDF layout: coordinates, colours, fonts, text wrapping and automatic page overflow are not modelled. The final page count N is an input, and `doc.save` is not modelled.
- `PdfGenerator.GenerateReport`: the footer is stamped with a year parameter instead of reading the clock.
- The content type of an upload is a plain string; a missing content type is not modelled.
