/**
 * The "eyes" step: the DeepSeek-OCR-2 adapter. It holds the loaded model and tokenizer,
 * turns a PDF (page by page) or an image into markdown by running the model's inference
 * and filtering the diagnostics it prints, and gives a quick analysis of a PDF's text layer.
 *
 * Everything foreign is an input: the outcome of the Hugging Face loaders, the PDF's page
 * count as PyMuPDF reports it, and the model's inference, which maps a page index and a
 * base size to the text the model printed (or to the message of the exception it raised).
 */
module OcrAdapter {
  import opened Wrappers
  import opened PyStrings
  import Config

  /** Handles standing for the loaded model and tokenizer objects. */
  datatype ModelHandle = ModelHandle(id: nat)
  datatype TokenizerHandle = TokenizerHandle(id: nat)

  /** How far `load_model` got, as the foreign loaders decide. */
  datatype LoadOutcome =
    | ModelPathMissing                                          // the local model directory does not exist
    | TokenizerFailed                                           // the import or the tokenizer load raised
    | ModelFailed(tokenizer: TokenizerHandle)                   // both attention variants raised
    | DeviceMoveFailed(tokenizer: TokenizerHandle, raw: ModelHandle)  // `.eval()...to(bfloat16)` raised
    | Loaded(tokenizer: TokenizerHandle, model: ModelHandle)    // the model, in eval mode on the device

  /** The model's inference for one page: page index and base size to captured stdout, or the exception's message. */
  type Inference = (nat, nat) -> Result<string>

  const NotLoadedMessage: string := "DeepSeek-OCR-2 model is not loaded"
  const OcrFailedPrefix: string := "OCR processing failed: "
  const OcrMethod: string := "deepseek-ocr-2"
  const ImageExtensions: seq<string> := [".png", ".jpg", ".jpeg", ".webp"]

  // ---------------------------------------------------------------------------
  // Filtering the model's printed output
  // ---------------------------------------------------------------------------

  /** Substrings marking a diagnostic line the model prints around its answer. */
  const SkipMarkers: seq<string> := ["BASE:", "PATCHES:", "===", "image size:", "tokens", "compression"]
  /** Grounding tags marking a layout-annotation line. */
  const GroundingTags: seq<string> := ["<|ref|>", "<|det|>", "<|grounding|>"]

  predicate HasSkipMarker(line: string) {
    exists m :: m in SkipMarkers && Contains(line, m)
  }

  predicate HasGroundingTag(line: string) {
    Contains(line, "<|ref|>") || Contains(line, "<|det|>") || Contains(line, "<|grounding|>")
  }

  /** A line the cleaning step drops. */
  predicate IsNoise(line: string) {
    HasSkipMarker(line) || HasGroundingTag(line)
  }

  /** The lines that survive, in their original order. */
  function FilterLines(lines: seq<string>): (kept: seq<string>)
    ensures |kept| <= |lines|
  {
    if |lines| == 0 then []
    else
      var last := lines[|lines| - 1];
      FilterLines(lines[..|lines| - 1]) + (if IsNoise(last) then [] else [last])
  }

  /** A line survives exactly when it was there and is not noise. */
  lemma {:induction false} FilterLinesMembers(lines: seq<string>)
    ensures forall l :: l in FilterLines(lines) <==> l in lines && !IsNoise(l)
  {
    if |lines| > 0 {
      var init := lines[..|lines| - 1];
      FilterLinesMembers(init);
      assert lines == init + [lines[|lines| - 1]];
    }
  }

  /** Without noise the filter keeps every line. */
  lemma {:induction false} FilterLinesClean(lines: seq<string>)
    requires forall i :: 0 <= i < |lines| ==> !IsNoise(lines[i])
    ensures FilterLines(lines) == lines
  {
    if |lines| > 0 {
      FilterLinesClean(lines[..|lines| - 1]);
    }
  }

  /** The page text: the surviving lines joined back together and stripped. */
  function CleanOutput(rawOutput: string): string {
    Strip(Join(FilterLines(Split(rawOutput, "\n")), "\n"))
  }

  /** The line-by-line cleaning at the end of `_run_inference_sync`. */
  method CleanInferenceOutput(rawOutput: string) returns (result: string)
    ensures result == CleanOutput(rawOutput)
  {
    var lines := Split(rawOutput, "\n");
    var cleanLines: seq<string> := [];
    for i := 0 to |lines|
      invariant cleanLines == FilterLines(lines[..i])
    {
      var line := lines[i];
      assert lines[..i + 1] == lines[..i] + [line];
      if HasSkipMarker(line) {
        continue;
      }
      if HasGroundingTag(line) {
        continue;
      }
      cleanLines := cleanLines + [line];
    }
    assert lines[..|lines|] == lines;
    result := Strip(Join(cleanLines, "\n"));
  }

  /** Every marker is a non-empty single-line string. */
  lemma MarkerShape(m: string)
    requires m in SkipMarkers || m in GroundingTags
    ensures |m| > 0 && '\n' !in m
  {
  }

  /** No line that survives the filter contains a marker. */
  lemma KeptLinesLackMarker(lines: seq<string>, m: string)
    requires m in SkipMarkers || m in GroundingTags
    ensures forall i :: 0 <= i < |FilterLines(lines)| ==> !Contains(FilterLines(lines)[i], m)
  {
    var kept := FilterLines(lines);
    FilterLinesMembers(lines);
    forall i | 0 <= i < |kept| ensures !Contains(kept[i], m) {
      assert kept[i] in kept;
      assert !IsNoise(kept[i]);
    }
  }

  /** Lines free of a one-line `m`, joined by newlines and stripped, are free of `m`. */
  lemma StrippedJoinLacks(kept: seq<string>, m: string)
    requires |m| > 0 && '\n' !in m
    requires forall i :: 0 <= i < |kept| ==> !Contains(kept[i], m)
    ensures !Contains(Strip(Join(kept, "\n")), m)
  {
    JoinLacks(kept, '\n', m);
    StripLacks(Join(kept, "\n"), m);
  }

  /** No diagnostic marker and no grounding tag survives into a page's text. */
  lemma CleanOutputLacksMarkers(rawOutput: string, m: string)
    requires m in SkipMarkers || m in GroundingTags
    ensures !Contains(CleanOutput(rawOutput), m)
  {
    KeptLinesLackMarker(Split(rawOutput, "\n"), m);
    MarkerShape(m);
    StrippedJoinLacks(FilterLines(Split(rawOutput, "\n")), m);
  }

  /** Output with no noise line is only stripped. */
  lemma CleanOutputPlain(rawOutput: string)
    requires forall l :: l in Split(rawOutput, "\n") ==> !IsNoise(l)
    ensures CleanOutput(rawOutput) == Strip(rawOutput)
  {
    var lines := Split(rawOutput, "\n");
    forall i | 0 <= i < |lines| ensures !IsNoise(lines[i]) {
      assert lines[i] in lines;
    }
    FilterLinesClean(lines);
    SplitJoin(rawOutput, "\n");
  }

  // ---------------------------------------------------------------------------
  // Assembling the pages
  // ---------------------------------------------------------------------------

  /** A page's part of the document: headed by its 1-based number when there is more than one page. */
  function PagePart(index: nat, page: string, pageCount: nat): string {
    if pageCount > 1 then "--- Page " + NatToString(index + 1) + " ---\n" + page else page
  }

  /** Page index to that page's cleaned text, or the message of the exception its inference raised. */
  type PageSource = nat -> Result<string>

  /** `_run_inference_sync` for each page: the model's output, cleaned. */
  function RunInference(infer: Inference, baseSize: nat): PageSource {
    (i: nat) =>
      match infer(i, baseSize)
      case Err(e) => Err(e)
      case Ok(raw) => Ok(CleanOutput(raw))
  }

  /** `_run_inference_sync`: one inference with its printed output captured, then cleaned. */
  method RunInferenceSync(infer: Inference, page: nat, baseSize: nat) returns (r: Result<string>)
    ensures r == RunInference(infer, baseSize)(page)
  {
    var captured := infer(page, baseSize);
    if captured.Err? {
      return Err(captured.error);
    }
    var result := CleanInferenceOutput(captured.value);
    r := Ok(result);
  }

  /** The parts of the first `n` pages (empty pages contribute nothing), or the first failure. */
  function PagesUpTo(pages: PageSource, pageCount: nat, n: nat): Result<seq<string>>
  {
    if n == 0 then Ok([])
    else
      match PagesUpTo(pages, pageCount, n - 1)
      case Err(e) => Err(e)
      case Ok(parts) =>
        match pages(n - 1)
        case Err(e) => Err(e)
        case Ok(page) => Ok(if page != "" then parts + [PagePart(n - 1, page, pageCount)] else parts)
  }

  /** A failure, once it has happened, is the outcome of the whole run. */
  lemma {:induction false} PagesErrPersist(pages: PageSource, pageCount: nat, n: nat, m: nat)
    requires n <= m
    requires PagesUpTo(pages, pageCount, n).Err?
    ensures PagesUpTo(pages, pageCount, m) == PagesUpTo(pages, pageCount, n)
    decreases m
  {
    if n < m {
      PagesErrPersist(pages, pageCount, n, m - 1);
    }
  }

  /** The run succeeds exactly when every page's inference does. */
  lemma {:induction false} PagesOkIff(pages: PageSource, pageCount: nat, n: nat)
    ensures PagesUpTo(pages, pageCount, n).Ok? <==> forall j :: 0 <= j < n ==> pages(j).Ok?
  {
    if n > 0 {
      PagesOkIff(pages, pageCount, n - 1);
    }
  }

  /** A failing run fails with the message of the first page whose inference failed. */
  lemma PagesFirstError(pages: PageSource, pageCount: nat, n: nat, k: nat)
    requires k < n && pages(k).Err?
    requires forall j :: 0 <= j < k ==> pages(j).Ok?
    ensures PagesUpTo(pages, pageCount, n) == Err(pages(k).error)
  {
    PagesOkIff(pages, pageCount, k);
    assert PagesUpTo(pages, pageCount, k + 1) == Err(pages(k).error);
    PagesErrPersist(pages, pageCount, k + 1, n);
  }

  /**
   * The kept parts, in page order: each non-empty page contributes one part, empty pages
   * none, and with several pages each part opens with its page header.
   */
  lemma {:induction false} PagesNonEmpty(pages: PageSource, pageCount: nat, n: nat)
    requires PagesUpTo(pages, pageCount, n).Ok?
    ensures var parts := PagesUpTo(pages, pageCount, n).value;
            && |parts| <= n
            && (forall i :: 0 <= i < |parts| ==> parts[i] != "")
            && (pageCount > 1 ==> forall i :: 0 <= i < |parts| ==> StartsWith(parts[i], "--- Page "))
  {
    if n > 0 {
      PagesNonEmpty(pages, pageCount, n - 1);
      var parts := PagesUpTo(pages, pageCount, n - 1).value;
      var page := pages(n - 1).value;
      if page != "" {
        var part := PagePart(n - 1, page, pageCount);
        assert PagesUpTo(pages, pageCount, n).value == parts + [part];
        if pageCount > 1 {
          assert part == "--- Page " + (NatToString(n) + " ---\n" + page);
        }
      }
    }
  }

  /** The pages that contribute a part: those whose inference gave non-empty text, in page order. */
  function KeptPages(pages: PageSource, n: nat): seq<nat>
  {
    if n == 0 then []
    else KeptPages(pages, n - 1) + (if pages(n - 1).Ok? && pages(n - 1).value != "" then [n - 1] else [])
  }

  /** The kept pages are strictly increasing, and a page below `n` is kept exactly when its text is non-empty. */
  lemma {:induction false} KeptPagesFacts(pages: PageSource, n: nat)
    ensures var kept := KeptPages(pages, n);
            && (forall k, l :: 0 <= k < l < |kept| ==> kept[k] < kept[l])
            && (forall k :: 0 <= k < |kept| ==> kept[k] < n)
            && (forall j :: j in kept <==> 0 <= j < n && pages(j).Ok? && pages(j).value != "")
  {
    if n > 0 {
      KeptPagesFacts(pages, n - 1);
    }
  }

  /**
   * The parts are exactly the parts of the kept pages, in page order: part `k` is the
   * `k`-th non-empty page, headed by its 1-based number when there are several pages.
   */
  lemma {:induction false} PagesKept(pages: PageSource, pageCount: nat, n: nat)
    requires PagesUpTo(pages, pageCount, n).Ok?
    ensures var parts := PagesUpTo(pages, pageCount, n).value;
            var kept := KeptPages(pages, n);
            && |parts| == |kept|
            && forall k :: 0 <= k < |kept| ==>
                 pages(kept[k]).Ok? && parts[k] == PagePart(kept[k], pages(kept[k]).value, pageCount)
  {
    if n > 0 {
      PagesKept(pages, pageCount, n - 1);
    }
  }

  /** A page's part: with several pages, a header whose number reads as the page's 1-based index; with one, the bare text. */
  lemma PagePartShape(index: nat, page: string, pageCount: nat)
    ensures pageCount > 1 ==>
              var number := NatToString(index + 1);
              && PagePart(index, page, pageCount) == "--- Page " + number + " ---\n" + page
              && DigitsValue(number) == index + 1
    ensures pageCount <= 1 ==> PagePart(index, page, pageCount) == page
  {
  }

  /** When every page is empty the document text is empty. */
  lemma {:induction false} PagesAllEmpty(pages: PageSource, pageCount: nat, n: nat)
    requires forall j :: 0 <= j < n ==> pages(j) == Ok("")
    ensures PagesUpTo(pages, pageCount, n) == Ok([])
  {
    if n > 0 {
      PagesAllEmpty(pages, pageCount, n - 1);
    }
  }

  /** A one-page document is exactly the cleaned text of its page, with no header. */
  lemma SinglePageText(pages: PageSource)
    requires pages(0).Ok?
    ensures PagesUpTo(pages, 1, 1).Ok?
    ensures Join(PagesUpTo(pages, 1, 1).value, "\n\n") == pages(0).value
  {
  }

  // ---------------------------------------------------------------------------
  // Extraction
  // ---------------------------------------------------------------------------

  /** OCR metadata reported beside the markdown. */
  datatype OcrMetadata = OcrMetadata(
    ocrMethod: string,
    processingTimeMs: nat,
    pageCount: nat,
    gpuUsed: bool,
    modelVersion: string)

  datatype Extraction = Extraction(markdown: string, metadata: OcrMetadata)

  /** `file_path.suffix.lower()` names an image type. */
  predicate IsImagePath(filePath: string) {
    Lower(Suffix(filePath)) in ImageExtensions
  }

  /**
   * What `extract_markdown` returns: the not-loaded error, the wrapped message of any
   * failure while counting or reading the pages, or the pages' parts joined by blank lines.
   * An image is one page; anything else is treated as a PDF, whose page count (or whose
   * failure to open or render) is `pdfPages`.
   */
  function ExtractSpec(loaded: bool, device: string, filePath: string, quality: string,
                       pdfPages: Result<nat>, infer: Inference, elapsedMs: nat): Result<Extraction>
  {
    if !loaded then Err(NotLoadedMessage)
    else
      var baseSize := Config.GetOcrQualitySettings(quality).baseSize;
      var counted := if IsImagePath(filePath) then Ok(1) else pdfPages;
      match counted
      case Err(e) => Err(OcrFailedPrefix + e)
      case Ok(pageCount) =>
        match PagesUpTo(RunInference(infer, baseSize), pageCount, pageCount)
        case Err(e) => Err(OcrFailedPrefix + e)
        case Ok(parts) =>
          Ok(Extraction(Join(parts, "\n\n"),
                        OcrMetadata(OcrMethod, elapsedMs, pageCount, device == "cuda", Config.ModelName)))
  }

  /** Without a model the extraction fails with the not-loaded message, unwrapped. */
  lemma NotLoadedFails(device: string, filePath: string, quality: string,
                       pdfPages: Result<nat>, infer: Inference, elapsedMs: nat)
    ensures ExtractSpec(false, device, filePath, quality, pdfPages, infer, elapsedMs) == Err(NotLoadedMessage)
  {
  }

  /** With a model, every failure carries the OCR-failure prefix. */
  lemma LoadedFailuresWrapped(device: string, filePath: string, quality: string,
                              pdfPages: Result<nat>, infer: Inference, elapsedMs: nat)
    requires ExtractSpec(true, device, filePath, quality, pdfPages, infer, elapsedMs).Err?
    ensures StartsWith(ExtractSpec(true, device, filePath, quality, pdfPages, infer, elapsedMs).error, OcrFailedPrefix)
  {
  }

  /** An image is one page, run at the preset's base size, and its text has no page header. */
  lemma ImageIsOnePage(device: string, filePath: string, quality: string,
                       pdfPages: Result<nat>, infer: Inference, elapsedMs: nat)
    requires IsImagePath(filePath)
    requires infer(0, Config.GetOcrQualitySettings(quality).baseSize).Ok?
    ensures var r := ExtractSpec(true, device, filePath, quality, pdfPages, infer, elapsedMs);
            && r.Ok?
            && r.value.metadata.pageCount == 1
            && r.value.markdown == CleanOutput(infer(0, Config.GetOcrQualitySettings(quality).baseSize).value)
  {
    var baseSize := Config.GetOcrQualitySettings(quality).baseSize;
    assert RunInference(infer, baseSize)(0) == Ok(CleanOutput(infer(0, baseSize).value));
    SinglePageText(RunInference(infer, baseSize));
  }

  /** A successful extraction reports the fixed method and model names, the timing and the device. */
  lemma MetadataFacts(loaded: bool, device: string, filePath: string, quality: string,
                      pdfPages: Result<nat>, infer: Inference, elapsedMs: nat)
    requires ExtractSpec(loaded, device, filePath, quality, pdfPages, infer, elapsedMs).Ok?
    ensures var m := ExtractSpec(loaded, device, filePath, quality, pdfPages, infer, elapsedMs).value.metadata;
            && loaded
            && m.ocrMethod == "deepseek-ocr-2"
            && m.modelVersion == "deepseek-ai/DeepSeek-OCR-2"
            && m.processingTimeMs == elapsedMs
            && (m.gpuUsed <==> device == "cuda")
            && (IsImagePath(filePath) ==> m.pageCount == 1)
            && (!IsImagePath(filePath) ==> pdfPages == Ok(m.pageCount))
  {
  }

  /** The page loop of `extract_markdown`: each page through the model, keeping the non-empty ones. */
  method OcrPages(infer: Inference, baseSize: nat, pageCount: nat) returns (r: Result<seq<string>>)
    ensures r == PagesUpTo(RunInference(infer, baseSize), pageCount, pageCount)
  {
    var allMarkdown: seq<string> := [];
    for idx := 0 to pageCount
      invariant PagesUpTo(RunInference(infer, baseSize), pageCount, idx) == Ok(allMarkdown)
    {
      var pageMarkdown := RunInferenceSync(infer, idx, baseSize);
      if pageMarkdown.Err? {
        PagesErrPersist(RunInference(infer, baseSize), pageCount, idx + 1, pageCount);
        return Err(pageMarkdown.error);
      }
      if pageMarkdown.value != "" {
        if pageCount > 1 {
          allMarkdown := allMarkdown + ["--- Page " + NatToString(idx + 1) + " ---\n" + pageMarkdown.value];
        } else {
          allMarkdown := allMarkdown + [pageMarkdown.value];
        }
      }
    }
    r := Ok(allMarkdown);
  }

  // ---------------------------------------------------------------------------
  // PDF analysis
  // ---------------------------------------------------------------------------

  /** What PyMuPDF reports of a PDF: its page count and the text of its first page. */
  datatype PdfText = PdfText(pageCount: nat, firstPageText: string)

  datatype PdfAnalysis = PdfAnalysis(
    pdfType: string,
    requiresOcr: bool,
    pageCount: nat,
    estimatedTimeMs: nat,
    textExtractabilityScore: real)

  /** `min(1.0, text_length / 1000)`. */
  function ExtractabilityScore(textLength: nat): (score: real)
    ensures 0.0 <= score <= 1.0
    ensures score == 1.0 <==> textLength >= 1000
  {
    var ratio := textLength as real / 1000.0;
    if ratio < 1.0 then ratio else 1.0
  }

  /** `analyze_pdf`: classify by the first page's stripped text; a PDF with no pages has no first page. */
  function AnalyzePdf(doc: Result<PdfText>): (r: Result<PdfAnalysis>)
    ensures doc.Err? ==> r == Err(doc.error)
    ensures doc.Ok? ==> (r.Err? <==> doc.value.pageCount == 0)
    ensures r.Ok? ==>
              var n := |Strip(doc.value.firstPageText)|;
              var a := r.value;
              && a.pageCount == doc.value.pageCount
              && (a.requiresOcr <==> n < 300)
              && a.pdfType == (if n < 300 then "scanned" else "text")
              && a.estimatedTimeMs == a.pageCount * (if n < 300 then 8000 else 500)
              && a.textExtractabilityScore == ExtractabilityScore(n)
              && 0.0 <= a.textExtractabilityScore <= 1.0
  {
    match doc
    case Err(e) => Err(e)
    case Ok(d) =>
      if d.pageCount == 0 then Err("page not in document")
      else
        var textLength := |Strip(d.firstPageText)|;
        var score := ExtractabilityScore(textLength);
        var requiresOcr := score < 0.3;
        var pdfType := if requiresOcr then "scanned" else "text";
        var estimated := d.pageCount * (if requiresOcr then 8000 else 500);
        Ok(PdfAnalysis(pdfType, requiresOcr, d.pageCount, estimated, score))
  }

  /** More text never turns a text PDF into a scanned one. */
  lemma ScoreMonotone(a: nat, b: nat)
    requires a <= b
    ensures ExtractabilityScore(a) <= ExtractabilityScore(b)
    ensures ExtractabilityScore(a) >= 0.3 ==> ExtractabilityScore(b) >= 0.3
  {
  }

  // ---------------------------------------------------------------------------
  // The adapter object
  // ---------------------------------------------------------------------------

  class Adapter {
    var model: Option<ModelHandle>
    var tokenizer: Option<TokenizerHandle>
    /** The configured device when CUDA is available, else the CPU, fixed at construction. */
    const device: string

    constructor (cudaAvailable: bool)
      ensures model == None && tokenizer == None
      ensures device == (if cudaAvailable then Config.DefaultDevice else "cpu")
    {
      model := None;
      tokenizer := None;
      device := if cudaAvailable then Config.DefaultDevice else "cpu";
    }

    /** `is_loaded`: a model is held. */
    predicate IsLoaded()
      reads this
    {
      model.Some?
    }

    /**
     * `load_model`: succeeds only when every step does. A step that raises leaves what
     * earlier steps assigned: the tokenizer once it loaded, the unmoved model once it loaded.
     */
    method LoadModel(outcome: LoadOutcome) returns (ok: bool)
      modifies this
      ensures ok <==> outcome.Loaded?
      ensures outcome.ModelPathMissing? || outcome.TokenizerFailed? ==> model == old(model) && tokenizer == old(tokenizer)
      ensures outcome.ModelFailed? ==> model == old(model) && tokenizer == Some(outcome.tokenizer)
      ensures outcome.DeviceMoveFailed? ==> model == Some(outcome.raw) && tokenizer == Some(outcome.tokenizer)
      ensures outcome.Loaded? ==> model == Some(outcome.model) && tokenizer == Some(outcome.tokenizer)
    {
      match outcome
      case ModelPathMissing =>
        ok := false;
      case TokenizerFailed =>
        ok := false;
      case ModelFailed(tok) =>
        tokenizer := Some(tok);
        ok := false;
      case DeviceMoveFailed(tok, raw) =>
        tokenizer := Some(tok);
        model := Some(raw);
        ok := false;
      case Loaded(tok, m) =>
        tokenizer := Some(tok);
        model := Some(m);
        ok := true;
    }

    /** `unload_model`: drops model and tokenizer together, and does nothing when no model is held. */
    method UnloadModel()
      modifies this
      ensures model == None
      ensures old(model).Some? ==> tokenizer == None
      ensures old(model).None? ==> tokenizer == old(tokenizer)
    {
      if model.Some? {
        model := None;
        tokenizer := None;
      }
    }

    /** `cleanup`: the same as unloading. */
    method Cleanup()
      modifies this
      ensures model == None
      ensures old(model).Some? ==> tokenizer == None
      ensures old(model).None? ==> tokenizer == old(tokenizer)
    {
      UnloadModel();
    }

    /** `extract_markdown`: run every page through the model and join the non-empty results. */
    method ExtractMarkdown(filePath: string, quality: string, pdfPages: Result<nat>,
                           infer: Inference, elapsedMs: nat) returns (r: Result<Extraction>)
      ensures r == ExtractSpec(IsLoaded(), device, filePath, quality, pdfPages, infer, elapsedMs)
    {
      var qualitySettings := Config.GetOcrQualitySettings(quality);
      var baseSize := qualitySettings.baseSize;
      if !IsLoaded() {
        return Err(NotLoadedMessage);
      }
      var pageCount: nat;
      if IsImagePath(filePath) {
        pageCount := 1;
      } else {
        if pdfPages.Err? {
          return Err(OcrFailedPrefix + pdfPages.error);
        }
        pageCount := pdfPages.value;
      }
      var allMarkdown := OcrPages(infer, baseSize, pageCount);
      if allMarkdown.Err? {
        return Err(OcrFailedPrefix + allMarkdown.error);
      }
      var markdown := Join(allMarkdown.value, "\n\n");
      var metadata := OcrMetadata(OcrMethod, elapsedMs, pageCount, device == "cuda", Config.ModelName);
      r := Ok(Extraction(markdown, metadata));
    }
  }

  /** The module-level `get_ocr_adapter` singleton. */
  class Registry {
    var instance: Adapter?

    constructor ()
      ensures instance == null
    {
      instance := null;
    }

    /** The one adapter: created unloaded on first use, the same object afterwards. */
    method GetOcrAdapter(cudaAvailable: bool) returns (a: Adapter)
      modifies this
      ensures old(instance) != null ==> a == old(instance)
      ensures old(instance) == null ==> fresh(a) && !a.IsLoaded() && a.tokenizer == None
      ensures instance == a
    {
      if instance == null {
        instance := new Adapter(cudaAvailable);
      }
      a := instance;
    }
  }
}
