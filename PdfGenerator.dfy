/** The downloadable report: its content blocks in order, the header and
    footer stamps per page, the title-casing of keys and the file name. */
module PdfGenerator {
  import opened Wrappers
  import opened Text
  import opened Dict
  import opened Config
  import opened Models
  import opened Payload
  import Utils
  import Api

  // ------------------------------------------------------------ title case

  /** `\b\w` matches a word character not preceded by a word character. */
  predicate StartsWord(s: string, i: nat)
    requires i < |s|
  {
    IsWordChar(s[i]) && (i == 0 || !IsWordChar(s[i - 1]))
  }

  /** The row label of a key: underscores become spaces, then the first
      character of each word is upper-cased and every other character is kept. */
  function TitleKey(k: string): (r: string)
    ensures |r| == |k|
    ensures forall i :: 0 <= i < |k| ==>
              r[i] == (if StartsWord(SpacedKey(k), i) then UpperChar(SpacedKey(k)[i]) else SpacedKey(k)[i])
  {
    var s := SpacedKey(k);
    seq(|s|, i requires 0 <= i < |s| => if StartsWord(s, i) then UpperChar(s[i]) else s[i])
  }

  lemma TitleKeyExample()
    ensures TitleKey("body_style") == "Body Style"
  {
    var r := TitleKey("body_style");
    assert StartsWord(SpacedKey("body_style"), 0);
    assert StartsWord(SpacedKey("body_style"), 5);
    assert r == "Body Style";
  }

  /** The report's labels differ from the results view's only in letter case. */
  lemma TitleKeyOnlyChangesCase(k: string)
    ensures Lower(TitleKey(k)) == Lower(SpacedKey(k))
  {
    var s := SpacedKey(k);
    forall i | 0 <= i < |k| ensures Lower(TitleKey(k))[i] == Lower(s)[i] {
      if StartsWord(s, i) && IsLower(s[i]) {
        assert LowerChar(UpperChar(s[i])) == s[i];
      }
    }
  }

  /** A title-cased label keeps no underscore: the spaces stay spaces and
      upper-casing never produces `_`. */
  lemma TitleKeyHasNoUnderscore(k: string)
    ensures '_' !in TitleKey(k)
  {
    var s := SpacedKey(k);
    forall i | 0 <= i < |k| ensures TitleKey(k)[i] != '_' {
      assert s[i] != '_';
    }
  }

  // ------------------------------------------------------------ content

  /** A piece of content, in drawing order: a line of text or a table with an
      optional head row. */
  datatype Block = Line(text: string) | Table(head: Option<(string, string)>, body: seq<(string, string)>)

  /** What is stamped on a page: the header bar, or the footer with the
      copyright line and the page counter. */
  datatype Stamp = Header(title: string) | Footer(copyright: string, pageLabel: string)

  const ReportTitle := "AI-Powered Car Analysis Report"
  const ReportSubtitle := "This report was generated using advanced AI image recognition technology"
  const DisclaimerText := "This estimation is based on AI analysis of the provided images and should be considered as a reference only. "
    + "The actual value may vary depending on market conditions, specific details not visible in the images, "
    + "and other factors. We recommend consulting with a professional appraiser for an official valuation."
  const ConfidenceHeading := "Analysis Confidence Metrics"

  /** One row per characteristic, in entry order, under its title-cased key. */
  function CharacteristicRows(c: Characteristics): (rows: seq<(string, string)>)
    ensures |rows| == |c| && Values(rows) == Values(c)
    ensures forall i :: 0 <= i < |c| ==>
              '_' !in rows[i].0 && Lower(rows[i].0) == Lower(SpacedKey(c[i].0))
  {
    var rows := seq(|c|, i requires 0 <= i < |c| => (TitleKey(c[i].0), c[i].1));
    forall i | 0 <= i < |c| ensures '_' !in rows[i].0 && Lower(rows[i].0) == Lower(SpacedKey(c[i].0)) {
      TitleKeyOnlyChangesCase(c[i].0);
      TitleKeyHasNoUnderscore(c[i].0);
    }
    rows
  }

  function PriceRows(p: PriceEstimate, fmt: NumberFormat): seq<(string, string)> {
    [("Estimated Price Range", p.estimatedPriceRange),
     ("Base Price", fmt.grouped(p.basePrice)),
     ("Brand Factor", fmt.plain(p.brandFactor) + "x"),
     ("Condition Factor", fmt.plain(p.conditionFactor) + "x")]
  }

  function ConfidenceRows(b: MultiImageAnalysisResponse): seq<(string, string)> {
    [("Images Processed", NatToString(b.imagesProcessed)),
     ("Analysis Quality", b.analysisSummary.analysisQuality),
     ("Overall Confidence", IntToString(RoundPercent(b.analysisSummary.overallConfidence)) + "%")]
  }

  /** The nine blocks every report has: date, title, subtitle, the
      characteristics table, the price table and the disclaimer. */
  function ContentBlocks(r: AnalysisResult, formattedDate: string, fmt: NumberFormat): seq<Block> {
    [Line("Generated on: " + formattedDate), Line(ReportTitle), Line(ReportSubtitle),
     Line("Car Characteristics"),
     Table(Some(("Characteristic", "Value")), CharacteristicRows(ShownCharacteristics(r))),
     Line("Price Estimation"),
     Table(None, PriceRows(r.Price(), fmt)),
     Line("Disclaimer:"), Line(DisclaimerText)]
  }

  /** The content of the report, in order; the confidence section only for a batch. */
  function ReportBlocks(r: AnalysisResult, formattedDate: string, fmt: NumberFormat): seq<Block> {
    ContentBlocks(r, formattedDate, fmt)
    + (if r.IsBatch() then [Line(ConfidenceHeading), Table(None, ConfidenceRows(r.batch))] else [])
  }

  function PageLabel(i: nat, n: nat): string {
    "Page " + NatToString(i) + " of " + NatToString(n)
  }

  function Copyright(year: int): string {
    "© " + IntToString(year) + " AI Car Analyzer. All Rights Reserved."
  }

  /** The footer stamps of pages 1 to `n`, in page order. */
  function Footers(year: int, n: nat): (fs: seq<(nat, Stamp)>)
    ensures |fs| == n
    ensures forall i :: 0 <= i < n ==> fs[i] == (i + 1, Footer(Copyright(year), PageLabel(i + 1, n)))
  {
    seq(n, i requires 0 <= i < n => (i + 1, Footer(Copyright(year), PageLabel(i + 1, n))))
  }

  /** The document being built: drawn content, stamps with the page they were
      stamped on, the page count and the current page. */
  class PdfDocument {
    var blocks: seq<Block>
    var stamps: seq<(nat, Stamp)>
    var pageCount: nat
    var currentPage: nat

    ghost predicate Valid()
      reads this
    {
      1 <= currentPage <= pageCount
    }

    constructor()
      ensures Valid()
      ensures blocks == [] && stamps == [] && pageCount == 1 && currentPage == 1
    {
      blocks, stamps, pageCount, currentPage := [], [], 1, 1;
    }

    method Draw(b: Block)
      requires Valid()
      modifies this
      ensures Valid()
      ensures blocks == old(blocks) + [b]
      ensures stamps == old(stamps) && pageCount == old(pageCount) && currentPage == old(currentPage)
    {
      blocks := blocks + [b];
    }

    /** Stamps `s` on the current page. */
    method Decorate(s: Stamp)
      requires Valid()
      modifies this
      ensures Valid()
      ensures stamps == old(stamps) + [(currentPage, s)]
      ensures blocks == old(blocks) && pageCount == old(pageCount) && currentPage == old(currentPage)
    {
      stamps := stamps + [(currentPage, s)];
    }

    /** The layout flowed onto new pages until there are `n`; the current
        page is the last one. */
    method ContinueOnNewPages(n: nat)
      requires Valid() && pageCount <= n
      modifies this
      ensures Valid()
      ensures pageCount == n && currentPage == n
      ensures blocks == old(blocks) && stamps == old(stamps)
    {
      pageCount, currentPage := n, n;
    }

    method SetPage(i: nat)
      requires Valid() && 1 <= i <= pageCount
      modifies this
      ensures Valid()
      ensures currentPage == i
      ensures blocks == old(blocks) && stamps == old(stamps) && pageCount == old(pageCount)
    {
      currentPage := i;
    }
  }

  /** Draws the content blocks in order, the confidence section only when
      the result carries per-image analyses. */
  method DrawContent(doc: PdfDocument, r: AnalysisResult, formattedDate: string, fmt: NumberFormat)
    requires doc.Valid()
    modifies doc
    ensures doc.Valid()
    ensures doc.blocks == old(doc.blocks) + ReportBlocks(r, formattedDate, fmt)
    ensures doc.stamps == old(doc.stamps) && doc.pageCount == old(doc.pageCount) && doc.currentPage == old(doc.currentPage)
  {
    var content := ContentBlocks(r, formattedDate, fmt);
    var k := 0;
    while k < |content|
      invariant 0 <= k <= |content|
      invariant doc.Valid()
      invariant doc.blocks == old(doc.blocks) + content[..k]
      invariant doc.stamps == old(doc.stamps) && doc.pageCount == old(doc.pageCount) && doc.currentPage == old(doc.currentPage)
    {
      doc.Draw(content[k]);
      assert content[..k + 1] == content[..k] + [content[k]];
      k := k + 1;
    }
    assert content[..k] == content;
    if r.IsBatch() {
      doc.Draw(Line(ConfidenceHeading));
      doc.Draw(Table(None, ConfidenceRows(r.batch)));
    }
  }

  /** The footer loop: every page from 1 to the page count gets a footer
      naming its own number and the total. */
  method StampFooters(doc: PdfDocument, year: int)
    requires doc.Valid()
    modifies doc
    ensures doc.Valid()
    ensures doc.stamps == old(doc.stamps) + Footers(year, doc.pageCount)
    ensures doc.blocks == old(doc.blocks) && doc.pageCount == old(doc.pageCount)
  {
    var n := doc.pageCount;
    var i := 1;
    while i <= n
      invariant 1 <= i <= n + 1
      invariant doc.Valid() && doc.pageCount == n
      invariant doc.blocks == old(doc.blocks)
      invariant doc.stamps == old(doc.stamps) + Footers(year, n)[..i - 1]
    {
      doc.SetPage(i);
      doc.Decorate(Footer(Copyright(year), PageLabel(doc.currentPage, doc.pageCount)));
      assert Footers(year, n)[..i] == Footers(year, n)[..i - 1] + [Footers(year, n)[i - 1]];
      i := i + 1;
    }
    assert Footers(year, n)[..n] == Footers(year, n);
  }

  /** `generateReport`: the header on the first page, the content, and once
      the layout has `totalPages` pages, a footer on every page. */
  method GenerateReport(r: AnalysisResult, formattedDate: string, year: int, totalPages: nat, fmt: NumberFormat)
    returns (doc: PdfDocument)
    requires totalPages >= 1
    ensures fresh(doc) && doc.Valid()
    ensures doc.blocks == ReportBlocks(r, formattedDate, fmt)
    ensures doc.stamps == ReportStamps(year, totalPages)
    ensures doc.pageCount == totalPages
  {
    doc := new PdfDocument();
    doc.Decorate(Header("AI Car Analyzer"));
    DrawContent(doc, r, formattedDate, fmt);
    doc.ContinueOnNewPages(totalPages);
    StampFooters(doc, year);
  }

  // ------------------------------------------------------------ properties

  /** The stamps `generateReport` leaves: the header first, then the footers. */
  function ReportStamps(year: int, n: nat): seq<(nat, Stamp)> {
    [(1, Header("AI Car Analyzer"))] + Footers(year, n)
  }

  /** The header is stamped exactly once, on page 1. */
  lemma HeaderOnlyOnFirstPage(year: int, n: nat)
    ensures ReportStamps(year, n)[0] == (1, Header("AI Car Analyzer"))
    ensures forall j :: 1 <= j < |ReportStamps(year, n)| ==> ReportStamps(year, n)[j].1.Footer?
  {
    var st := ReportStamps(year, n);
    forall j | 1 <= j < |st| ensures st[j].1.Footer? {
      assert st[j] == Footers(year, n)[j - 1];
    }
  }

  /** Page `i` of `n` carries the footer `Page i of n`, stamped while on page `i`. */
  lemma FooterOnEveryPage(year: int, n: nat, i: nat)
    requires 1 <= i <= n
    ensures ReportStamps(year, n)[i] == (i, Footer(Copyright(year), PageLabel(i, n)))
  {
    assert ReportStamps(year, n)[i] == Footers(year, n)[i - 1];
  }

  /** No page gets two footers: footers are stamped in increasing page order. */
  lemma OneFooterPerPage(year: int, n: nat, j: nat, k: nat)
    requires 1 <= j < k < |ReportStamps(year, n)|
    ensures ReportStamps(year, n)[j].0 < ReportStamps(year, n)[k].0
  {
    assert ReportStamps(year, n)[j] == Footers(year, n)[j - 1];
    assert ReportStamps(year, n)[k] == Footers(year, n)[k - 1];
  }

  /** The price table has four rows, in this order, both factors suffixed by `x`. */
  lemma PriceRowLabels(p: PriceEstimate, fmt: NumberFormat)
    ensures |PriceRows(p, fmt)| == 4
    ensures Keys(PriceRows(p, fmt)) == ["Estimated Price Range", "Base Price", "Brand Factor", "Condition Factor"]
    ensures PriceRows(p, fmt)[2].1[|PriceRows(p, fmt)[2].1| - 1] == 'x'
    ensures PriceRows(p, fmt)[3].1[|PriceRows(p, fmt)[3].1| - 1] == 'x'
  {
  }

  /** The confidence section is drawn iff the result is a batch. */
  lemma ConfidenceSectionIffBatch(r: AnalysisResult, formattedDate: string, fmt: NumberFormat)
    ensures Line(ConfidenceHeading) in ReportBlocks(r, formattedDate, fmt) <==> r.IsBatch()
    ensures |ReportBlocks(r, formattedDate, fmt)| == if r.IsBatch() then 11 else 9
  {
    var b := ReportBlocks(r, formattedDate, fmt);
    var content := ContentBlocks(r, formattedDate, fmt);
    assert |content| == 9;
    if !r.IsBatch() {
      assert b == content;
      assert ConfidenceHeading != "Generated on: " + formattedDate by {
        assert ConfidenceHeading[0] != ("Generated on: " + formattedDate)[0];
      }
      assert ConfidenceHeading != ReportTitle by { assert ConfidenceHeading[1] != ReportTitle[1]; }
      assert ConfidenceHeading != ReportSubtitle by { assert |ConfidenceHeading| != |ReportSubtitle|; }
      assert ConfidenceHeading != DisclaimerText by { assert |ConfidenceHeading| < |DisclaimerText|; }
    } else {
      assert b[9] == Line(ConfidenceHeading);
    }
  }

  // ------------------------------------------------------------ file name

  /** The file-name stem: generic unless `make` is present, non-empty and not
      `Unknown`; then the lower-cased make, the lower-cased model under the
      same test, and `-analysis-report`. */
  function FilenamePrefix(c: Characteristics): string {
    var make := GetOr(c, "make", "");
    var model := GetOr(c, "model", "");
    if make != "" && make != Unknown then
      Lower(make) + (if model != "" && model != Unknown then "-" + Lower(model) else "") + "-analysis-report"
    else "car-analysis-report"
  }

  /** The time stamp: `:` and `.` become `-`, then the first 19 characters. */
  function TimestampPart(iso: string): (t: string)
    ensures |t| == if |iso| < 19 then |iso| else 19
    ensures ':' !in t && '.' !in t
  {
    var dashed := seq(|iso|, i requires 0 <= i < |iso| => if iso[i] == ':' || iso[i] == '.' then '-' else iso[i]);
    dashed[..if |dashed| < 19 then |dashed| else 19]
  }

  /** `downloadPDF`'s file name, built by successive appends. */
  method ReportFilename(r: AnalysisResult, iso: string) returns (filename: string)
    ensures filename == FilenamePrefix(ShownCharacteristics(r)) + "-" + TimestampPart(iso) + ".pdf"
  {
    filename := "car-analysis-report";
    var c := ShownCharacteristics(r);
    var make := GetOr(c, "make", "");
    if make != "" && make != Unknown {
      filename := Lower(make);
      var model := GetOr(c, "model", "");
      if model != "" && model != Unknown {
        filename := filename + "-" + Lower(model);
      }
      filename := filename + "-analysis-report";
    }
    filename := filename + "-" + TimestampPart(iso) + ".pdf";
  }

  /** A Toyota Corolla is saved as `toyota-corolla-analysis-report-…`. */
  lemma FilenameExample()
    ensures FilenamePrefix([("make", "Toyota"), ("model", "Corolla")]) == "toyota-corolla" + "-analysis-report"
  {
    var c: Characteristics := [("make", "Toyota"), ("model", "Corolla")];
    ExampleLookups(c);
    assert "Corolla" != Unknown by { assert "Corolla"[0] != Unknown[0]; }
    assert Lower("Toyota") == "toyota";
    assert Lower("Corolla") == "corolla";
  }

  lemma ExampleLookups(c: Characteristics)
    requires c == [("make", "Toyota"), ("model", "Corolla")]
    ensures GetOr(c, "make", "") == "Toyota" && GetOr(c, "model", "") == "Corolla"
  {
    assert Keys(c) == ["make", "model"];
    assert Get(c, "make") == Some("Toyota");
    assert Get(c, "model") == Some("Corolla");
  }

  /** An ISO time stamp keeps its date and whole seconds, with dashes for `:`. */
  lemma TimestampExample()
    ensures TimestampPart("2024-01-15T10:30:45.123Z") == "2024-01-15T10-30-45"
  {
    var iso := "2024-01-15T10:30:45.123Z";
    var t := TimestampPart(iso);
    forall i | 0 <= i < 19 ensures t[i] == "2024-01-15T10-30-45"[i] {
      assert t[i] == if iso[i] == ':' || iso[i] == '.' then '-' else iso[i];
    }
  }

  /** The backend never emits a `make` entry (it names the field `brand`),
      so for its dictionaries the stem is always the generic one. */
  lemma NoMakeGivesGenericName(c: Characteristics)
    requires "make" !in Keys(c)
    ensures FilenamePrefix(c) == "car-analysis-report"
  {
  }

  lemma PatternsHaveNoMake()
    ensures "make" !in Keys(CharacteristicPatterns)
  {
    forall i | 0 <= i < |CharacteristicPatterns| ensures CharacteristicPatterns[i].0 != "make" {
    }
  }

  /** Whatever the backend returns for a served request, single or batch,
      is saved under the generic stem. */
  lemma BackendResultsGetGenericName(r: AnalysisResult, files: seq<Api.UploadFile>, svc: Api.Services)
    requires || (r.SingleResult? && |files| == 1 && Api.IsSingleResponseFor(r.single, files[0], svc))
             || (r.BatchResult? && |files| > 0 && Api.IsMultiResponseFor(r.batch, files, svc))
    ensures FilenamePrefix(ShownCharacteristics(r)) == "car-analysis-report"
  {
    PatternsHaveNoMake();
    if r.BatchResult? {
      Api.MultiResponseShape(r.batch, files, svc);
    }
    NoMakeGivesGenericName(ShownCharacteristics(r));
  }

  /** `downloadPDF`: the report and the name it is saved under. */
  method DownloadPdf(r: AnalysisResult, formattedDate: string, year: int, totalPages: nat, iso: string, fmt: NumberFormat)
    returns (doc: PdfDocument, filename: string)
    requires totalPages >= 1
    ensures fresh(doc) && doc.Valid()
    ensures doc.blocks == ReportBlocks(r, formattedDate, fmt)
    ensures doc.stamps == ReportStamps(year, totalPages) && doc.pageCount == totalPages
    ensures filename == FilenamePrefix(ShownCharacteristics(r)) + "-" + TimestampPart(iso) + ".pdf"
  {
    doc := GenerateReport(r, formattedDate, year, totalPages, fmt);
    filename := ReportFilename(r, iso);
  }
}
