/**
 * The HTTP endpoints of the backend: upload validation, the extract-only, parse-only and
 * unload endpoints used in low-VRAM mode, the two-step `/api/ocr/process` pipeline with its
 * warnings, and the catalogue endpoints. An endpoint either answers with a body or raises
 * an HTTPException, which becomes an error status and a detail string.
 *
 * Uploaded bytes, temp files and the clock are not modelled: what an endpoint needs from
 * them (the upload's size, the PDF's page count, the elapsed time) comes in as a parameter.
 */
module Api {
  import opened Wrappers
  import opened PyStrings
  import opened JsonValues
  import Config
  import LlmParser
  import OcrAdapter

  /** An endpoint's outcome: the response body, or an HTTPException's status and detail. */
  datatype Response<+T> = Respond(body: T) | Fail(status: nat, detail: string)

  // ---------------------------------------------------------------------------
  // Upload validation
  // ---------------------------------------------------------------------------

  /** The endpoints' own allow-list of upload types. */
  const UploadExtensions: seq<string> := [".pdf", ".png", ".jpg", ".jpeg", ".webp"]

  const UnsupportedExtract: string := "Only PDF and image files allowed"
  const UnsupportedProcess: string := "Only PDF and image files allowed: .pdf, .png, .jpg, .jpeg, .webp"
  const TooLargeDetail: string := "File too large. Max size: 10.0MB"
  const PdfOnlyDetail: string := "Only PDF files allowed"
  const ProcessFailedPrefix: string := "Processing failed: "

  /** The extract and process endpoints' check: the lowercased final suffix is allowed. */
  predicate AllowedUpload(filename: string) {
    Lower(Suffix(filename)) in UploadExtensions
  }

  /** The analyze endpoint's check: a case-sensitive `.pdf` ending. */
  predicate AnalyzeAccepts(filename: string) {
    EndsWith(filename, ".pdf")
  }

  /** The size check of `/api/ocr/process`. */
  predicate WithinSizeLimit(size: nat) {
    size <= Config.MaxFileSize
  }

  /** The rejection message lists the allow-list joined by commas. */
  lemma UnsupportedProcessLists()
    ensures UnsupportedProcess == UnsupportedExtract + ": " + Join(UploadExtensions, ", ")
  {
    var exts := UploadExtensions;
    assert exts[1..][1..][1..][1..] == [".webp"];
    assert exts[1..][1..][1..] == [".jpeg", ".webp"];
    assert exts[1..][1..] == [".jpg", ".jpeg", ".webp"];
    assert exts[1..] == [".png", ".jpg", ".jpeg", ".webp"];
  }

  /** The size in the message is the limit in MiB: 10485760 / 1024 / 1024 is 10.0. */
  lemma TooLargeNamesLimit()
    ensures Config.MaxFileSize == 10 * 1024 * 1024
    ensures TooLargeDetail == "File too large. Max size: " + NatToString(Config.MaxFileSize / 1024 / 1024) + ".0MB"
  {
    assert NatToString(10) == NatToString(1) + [DigitChar(0)];
  }

  /** The limit itself is accepted; one byte more is not. */
  lemma SizeLimitBoundary()
    ensures WithinSizeLimit(10485760)
    ensures !WithinSizeLimit(10485761)
  {
  }

  /** Every type the adapter runs as an image is an allowed upload; any other allowed upload is a PDF. */
  lemma AllowedUploadKinds(filename: string)
    ensures OcrAdapter.IsImagePath(filename) ==> AllowedUpload(filename)
    ensures AllowedUpload(filename) && !OcrAdapter.IsImagePath(filename) ==> Lower(Suffix(filename)) == ".pdf"
  {
  }

  /** A final component that is a bare extension (`.pdf`, `x/.png`) has no suffix, so it is refused. */
  lemma BareExtensionRefused(filename: string)
    requires var name := PathName(filename);
             |name| > 0 && name[0] == '.' && forall k :: 0 < k < |name| ==> name[k] != '.'
    ensures Suffix(filename) == ""
    ensures !AllowedUpload(filename)
  {
    SuffixEmptyIff(filename);
    assert Lower("") == "";
  }

  /** A name without a slash is its own final component. */
  lemma PathNameOfPlainName(p: string)
    requires p != "" && p != "." && '/' !in p
    ensures PathName(p) == p
  {
    assert Split(p, "/") == [p] by {
      forall k | 0 <= k && k + 1 <= |p| ensures !OccursAt(p, "/", k) {
        assert p[k..k + 1] == [p[k]];
      }
    }
  }

  /** The two checks disagree both ways: case matters to only one, and a bare `.pdf` to only the other. */
  lemma ChecksDisagree()
    ensures AllowedUpload("scan.PDF") && !AnalyzeAccepts("scan.PDF")
    ensures AnalyzeAccepts(".pdf") && !AllowedUpload(".pdf")
  {
    var upper := "scan.PDF";
    PathNameOfPlainName(upper);
    assert upper[4] == '.' && upper[5] != '.' && upper[6] != '.' && upper[7] != '.';
    assert RFind(upper, '.') == 4;
    assert Suffix(upper) == ".PDF";
    assert Lower(".PDF") == ".pdf";
    PathNameOfPlainName(".pdf");
    BareExtensionRefused(".pdf");
  }

  // ---------------------------------------------------------------------------
  // Warnings
  // ---------------------------------------------------------------------------

  const NoPersonalInfo: string := "No personal info extracted"
  const NoExperience: string := "No experience extracted"
  const NoEducation: string := "No education extracted"

  /** Position of a warning in the order the keys are checked. */
  function WarningRank(w: string): nat {
    if w == NoPersonalInfo then 0 else if w == NoExperience then 1 else 2
  }

  /**
   * `warnings` reports on `parsed`: a message is present exactly when its key is missing
   * or falsy, nothing else is present, and messages keep the checking order.
   */
  predicate WarningsReport(parsed: map<string, Json>, warnings: seq<string>) {
    && (NoPersonalInfo in warnings <==> !Truthy(Get(parsed, "personal_info")))
    && (NoExperience in warnings <==> !Truthy(Get(parsed, "experience")))
    && (NoEducation in warnings <==> !Truthy(Get(parsed, "education")))
    && (forall i :: 0 <= i < |warnings| ==> warnings[i] in [NoPersonalInfo, NoExperience, NoEducation])
    && (forall i, j :: 0 <= i < j < |warnings| ==> WarningRank(warnings[i]) < WarningRank(warnings[j]))
  }

  /** The warnings of `/api/ocr/process`, appended one check at a time. */
  method BuildWarnings(parsed: map<string, Json>) returns (warnings: seq<string>)
    ensures WarningsReport(parsed, warnings)
  {
    warnings := [];
    if !Truthy(Get(parsed, "personal_info")) {
      warnings := warnings + [NoPersonalInfo];
    }
    if !Truthy(Get(parsed, "experience")) {
      warnings := warnings + [NoExperience];
    }
    if !Truthy(Get(parsed, "education")) {
      warnings := warnings + [NoEducation];
    }
  }

  /** At most three warnings, and none exactly when all three keys hold something truthy. */
  lemma WarningsBounds(parsed: map<string, Json>, warnings: seq<string>)
    requires WarningsReport(parsed, warnings)
    ensures |warnings| <= 3
    ensures warnings == [] <==>
              Truthy(Get(parsed, "personal_info")) && Truthy(Get(parsed, "experience")) && Truthy(Get(parsed, "education"))
  {
    forall i | 0 <= i < |warnings| ensures WarningRank(warnings[i]) >= i {
      RankAtLeastIndex(warnings, i);
    }
    if |warnings| > 0 {
      assert WarningRank(warnings[|warnings| - 1]) >= |warnings| - 1;
    }
    if warnings != [] {
      assert warnings[0] in warnings;
    }
  }

  /** In a strictly rank-ordered list each element's rank is at least its index. */
  lemma {:induction false} RankAtLeastIndex(warnings: seq<string>, i: nat)
    requires i < |warnings|
    requires forall a, b :: 0 <= a < b < |warnings| ==> WarningRank(warnings[a]) < WarningRank(warnings[b])
    ensures WarningRank(warnings[i]) >= i
  {
    if i > 0 {
      RankAtLeastIndex(warnings, i - 1);
    }
  }

  /** Two lists that both report on the same result are the same list. */
  lemma WarningsDetermined(parsed: map<string, Json>, w1: seq<string>, w2: seq<string>)
    requires WarningsReport(parsed, w1) && WarningsReport(parsed, w2)
    ensures w1 == w2
  {
    WarningsCanonical(parsed, w1);
    WarningsCanonical(parsed, w2);
  }

  /** The one list that reports on `parsed`. */
  lemma WarningsCanonical(parsed: map<string, Json>, w: seq<string>)
    requires WarningsReport(parsed, w)
    ensures w == (if Truthy(Get(parsed, "personal_info")) then [] else [NoPersonalInfo])
               + (if Truthy(Get(parsed, "experience")) then [] else [NoExperience])
               + (if Truthy(Get(parsed, "education")) then [] else [NoEducation])
  {
    WarningsBounds(parsed, w);
    var c := (if Truthy(Get(parsed, "personal_info")) then [] else [NoPersonalInfo])
           + (if Truthy(Get(parsed, "experience")) then [] else [NoExperience])
           + (if Truthy(Get(parsed, "education")) then [] else [NoEducation]);
    forall i | 0 <= i < |w| ensures WarningRank(w[i]) >= i {
      RankAtLeastIndex(w, i);
    }
    if |w| >= 1 { assert w[0] in w; }
    if |w| >= 2 { assert w[1] in w; }
    if |w| >= 3 { assert w[2] in w; }
  }

  // ---------------------------------------------------------------------------
  // Catalogue endpoints
  // ---------------------------------------------------------------------------

  /** What `/api/ocr/quality-presets` shows of a preset: everything but the render scale. */
  datatype PresetView = PresetView(id: string, baseSize: nat, tokens: nat, description: string, estTime: string)

  predicate Exposes(v: PresetView, e: Config.PresetEntry) {
    && v.id == e.key
    && v.baseSize == e.preset.baseSize
    && v.tokens == e.preset.tokens
    && v.description == e.preset.description
    && v.estTime == e.preset.estTime
  }

  /** `get_ocr_quality_presets`: one view per preset, in table order. */
  method GetOcrQualityPresets() returns (presets: seq<PresetView>)
    ensures |presets| == |Config.PresetTable|
    ensures forall i :: 0 <= i < |presets| ==> Exposes(presets[i], Config.PresetTable[i])
  {
    presets := [];
    for i := 0 to |Config.PresetTable|
      invariant |presets| == i
      invariant forall k :: 0 <= k < i ==> Exposes(presets[k], Config.PresetTable[k])
    {
      var entry := Config.PresetTable[i];
      presets := presets + [PresetView(entry.key, entry.preset.baseSize, entry.preset.tokens,
                                       entry.preset.description, entry.preset.estTime)];
    }
  }

  /** The listed ids are tiny, small, base and large, with increasing sizes. */
  lemma PresetViewsInOrder(presets: seq<PresetView>)
    requires |presets| == |Config.PresetTable|
    requires forall i :: 0 <= i < |presets| ==> Exposes(presets[i], Config.PresetTable[i])
    ensures [presets[0].id, presets[1].id, presets[2].id, presets[3].id] == ["tiny", "small", "base", "large"]
    ensures forall i, j :: 0 <= i < j < |presets| ==> presets[i].baseSize < presets[j].baseSize && presets[i].tokens < presets[j].tokens
  {
    Config.PresetsIncrease();
  }

  datatype TemplatesBody = TemplatesBody(
    templates: seq<Config.TemplateInfo>,
    categories: seq<Config.Bucket>,
    count: nat)

  /** `get_templates`: the sorted listing, its grouping by category, and the count. */
  method GetTemplates(stems: seq<string>) returns (body: TemplatesBody)
    ensures body.templates == Config.SortTemplates(Config.DescribeAll(stems))
    ensures body.count == |stems|
    ensures var ts := Config.SortTemplates(Config.DescribeAll(stems));
            && Config.Keys(body.categories) == Config.Dedup(Config.Categories(ts))
            && forall b :: 0 <= b < |body.categories| ==>
                 body.categories[b].entries == Config.Project(Config.FilterCategory(ts, body.categories[b].category))
  {
    var templates := Config.ListTemplates(stems);
    var byCategory := Config.ListTemplatesByCategory(stems);
    body := TemplatesBody(templates, byCategory, |templates|);
  }

  // ---------------------------------------------------------------------------
  // OCR endpoints
  // ---------------------------------------------------------------------------

  const TempDir: string := "backend/temp"

  /** The temp file an endpoint writes the upload to: `<temp_dir>/<kind>_<unix time>_<filename>`. */
  function TempPath(kind: string, now: nat, filename: string): string {
    TempDir + "/" + kind + "_" + NatToString(now) + "_" + filename
  }

  /** `/api/ocr/analyze`: PDFs only; a failing analysis surfaces as a bare 500. */
  function AnalyzeUpload(filename: string, doc: Result<OcrAdapter.PdfText>): (r: Response<OcrAdapter.PdfAnalysis>)
    ensures !AnalyzeAccepts(filename) ==> r == Fail(400, PdfOnlyDetail)
    ensures AnalyzeAccepts(filename) ==>
              (r.Respond? <==> OcrAdapter.AnalyzePdf(doc).Ok?)
              && (r.Respond? ==> r.body == OcrAdapter.AnalyzePdf(doc).value)
              && (r.Fail? ==> r.status == 500)
  {
    if !AnalyzeAccepts(filename) then Fail(400, PdfOnlyDetail)
    else
      match OcrAdapter.AnalyzePdf(doc)
      case Ok(a) => Respond(a)
      case Err(_) => Fail(500, "Internal Server Error")
  }

  datatype ExtractBody = ExtractBody(filename: string, markdown: string, metadata: OcrAdapter.OcrMetadata)

  /** `/api/ocr/extract` once the model state is settled: refuse, fail with the message, or answer. */
  function ExtractOutcome(loaded: bool, device: string, filename: string, quality: string, now: nat,
                          pdfPages: Result<nat>, infer: OcrAdapter.Inference, elapsedMs: nat): Response<ExtractBody>
  {
    if !AllowedUpload(filename) then Fail(400, UnsupportedExtract)
    else
      match OcrAdapter.ExtractSpec(loaded, device, TempPath("extract", now, filename), quality, pdfPages, infer, elapsedMs)
      case Err(e) => Fail(500, e)
      case Ok(x) => Respond(ExtractBody(filename, x.markdown, x.metadata))
  }

  /** The extract endpoint's outcomes: 400 for a refused type, 500 carrying the message, or the markdown. */
  lemma ExtractOutcomeCases(loaded: bool, device: string, filename: string, quality: string, now: nat,
                            pdfPages: Result<nat>, infer: OcrAdapter.Inference, elapsedMs: nat)
    ensures var r := ExtractOutcome(loaded, device, filename, quality, now, pdfPages, infer, elapsedMs);
            var x := OcrAdapter.ExtractSpec(loaded, device, TempPath("extract", now, filename), quality, pdfPages, infer, elapsedMs);
            && (r == Fail(400, UnsupportedExtract) <==> !AllowedUpload(filename))
            && (AllowedUpload(filename) && !loaded ==> r == Fail(500, OcrAdapter.NotLoadedMessage))
            && (AllowedUpload(filename) && loaded && r.Fail? ==>
                  r.status == 500 && StartsWith(r.detail, OcrAdapter.OcrFailedPrefix))
            && (r.Respond? ==> r.body.filename == filename && x.Ok? && r.body.markdown == x.value.markdown)
  {
    if AllowedUpload(filename) && loaded {
      var x := OcrAdapter.ExtractSpec(loaded, device, TempPath("extract", now, filename), quality, pdfPages, infer, elapsedMs);
      if x.Err? {
        OcrAdapter.LoadedFailuresWrapped(device, TempPath("extract", now, filename), quality, pdfPages, infer, elapsedMs);
      }
    }
  }

  /** `extract_only`: reload the model when it was unloaded, then extract. */
  method ExtractOnly(ocr: OcrAdapter.Adapter, filename: string, quality: string, now: nat,
                     reload: OcrAdapter.LoadOutcome, pdfPages: Result<nat>,
                     infer: OcrAdapter.Inference, elapsedMs: nat) returns (r: Response<ExtractBody>)
    modifies ocr
    ensures !AllowedUpload(filename) || old(ocr.IsLoaded()) ==>
              ocr.model == old(ocr.model) && ocr.tokenizer == old(ocr.tokenizer)
    ensures AllowedUpload(filename) && !old(ocr.IsLoaded()) ==>
              && (ocr.IsLoaded() <==> reload.Loaded? || reload.DeviceMoveFailed?)
              && (reload.ModelPathMissing? || reload.TokenizerFailed? ==>
                    ocr.model == old(ocr.model) && ocr.tokenizer == old(ocr.tokenizer))
              && (reload.ModelFailed? ==> ocr.model == old(ocr.model) && ocr.tokenizer == Some(reload.tokenizer))
              && (reload.DeviceMoveFailed? ==> ocr.model == Some(reload.raw) && ocr.tokenizer == Some(reload.tokenizer))
              && (reload.Loaded? ==> ocr.model == Some(reload.model) && ocr.tokenizer == Some(reload.tokenizer))
    ensures r == ExtractOutcome(ocr.IsLoaded(), ocr.device, filename, quality, now, pdfPages, infer, elapsedMs)
  {
    var fileExt := Lower(Suffix(filename));
    if fileExt !in UploadExtensions {
      return Fail(400, UnsupportedExtract);
    }
    var tempPath := TempPath("extract", now, filename);
    if !ocr.IsLoaded() {
      var _ := ocr.LoadModel(reload);
    }
    var extracted := ocr.ExtractMarkdown(tempPath, quality, pdfPages, infer, elapsedMs);
    if extracted.Err? {
      return Fail(500, extracted.error);
    }
    r := Respond(ExtractBody(filename, extracted.value.markdown, extracted.value.metadata));
  }

  /** `unload_ocr`: unload and report success whatever the state was. */
  method UnloadOcr(ocr: OcrAdapter.Adapter) returns (message: string)
    modifies ocr
    ensures !ocr.IsLoaded()
    ensures old(ocr.IsLoaded()) ==> ocr.tokenizer == None
    ensures !old(ocr.IsLoaded()) ==> ocr.tokenizer == old(ocr.tokenizer)
    ensures message == "DeepSeek-OCR-2 unloaded, VRAM freed"
  {
    ocr.UnloadModel();
    message := "DeepSeek-OCR-2 unloaded, VRAM freed";
  }

  // ---------------------------------------------------------------------------
  // LLM endpoints
  // ---------------------------------------------------------------------------

  /** The body of `/api/llm/parse`. */
  datatype ParseRequest = ParseRequest(
    markdown: string,
    filename: string,
    llmModel: string,
    template: string,
    contextWindow: int)

  /** A request that names only its markdown. */
  function DefaultParseRequest(markdown: string): (req: ParseRequest)
    ensures req.markdown == markdown
    ensures req.filename == "document" && req.template == "resume"
    ensures req.llmModel == "gpt-oss:latest" && req.contextWindow == 32768
  {
    ParseRequest(markdown, "document", "gpt-oss:latest", "resume", 32768)
  }

  datatype ParseBody = ParseBody(filename: string, parsedData: Json)

  /** What `/api/llm/parse` answers for a request, given the template cache it starts from. */
  function ParseOnlyOutcome(request: ParseRequest, cache: map<string, LlmParser.Template>,
                            files: LlmParser.TemplateFiles, chat: LlmParser.Chat, decode: Decoder): Response<ParseBody>
  {
    var t := LlmParser.CachedOrRead(cache, files, request.template);
    Respond(ParseBody(request.filename,
                      LlmParser.ParseReply(t, request.markdown, request.llmModel, request.contextWindow, chat, decode)))
  }

  /**
   * A request naming only its markdown is answered under the file name `document`, with
   * the `resume` template, parsed by `gpt-oss:latest` with a 32768-token budget.
   */
  lemma DefaultRequestOutcome(markdown: string, cache: map<string, LlmParser.Template>,
                              files: LlmParser.TemplateFiles, chat: LlmParser.Chat, decode: Decoder)
    ensures var r := ParseOnlyOutcome(DefaultParseRequest(markdown), cache, files, chat, decode);
            && r.Respond? && r.body.filename == "document"
            && r.body.parsedData
               == LlmParser.ParseReply(LlmParser.CachedOrRead(cache, files, "resume"), markdown,
                                       "gpt-oss:latest", 32768, chat, decode)
  {
  }

  /** `parse_markdown_only`: the parser's result under the request's file name; it never fails. */
  method ParseMarkdownOnly(parser: LlmParser.Parser, request: ParseRequest, files: LlmParser.TemplateFiles,
                           chat: LlmParser.Chat, decode: Decoder) returns (r: Response<ParseBody>)
    modifies parser
    ensures var t := LlmParser.CachedOrRead(old(parser.cache), files, request.template);
            && parser.cache == old(parser.cache)[request.template := t]
            && r == Respond(ParseBody(request.filename,
                      LlmParser.ParseReply(t, request.markdown, request.llmModel, request.contextWindow, chat, decode)))
    ensures r == ParseOnlyOutcome(request, old(parser.cache), files, chat, decode)
  {
    var parsedData := parser.ParseMarkdown(request.markdown, request.llmModel, request.template,
                                           request.contextWindow, files, chat, decode);
    r := Respond(ParseBody(request.filename, parsedData));
  }

  // ---------------------------------------------------------------------------
  // The two-step pipeline
  // ---------------------------------------------------------------------------

  /** The message of the exception the result shaping raises on a parse result that is not a dict. */
  function NotADictError(j: Json): string {
    match j
    case JObject(_) => ""
    case JArray(_) => "'list' object has no attribute 'get'"
    case JString(_) => "'str' object has no attribute 'get'"
    case JInt(_) => "object of type 'int' has no len()"
    case JFloat(_) => "object of type 'float' has no len()"
    case JBool(_) => "object of type 'bool' has no len()"
    case JNull => "object of type 'NoneType' has no len()"
  }

  /** What `/api/ocr/process` produces before its warnings are added. */
  datatype Processed = Processed(rawOutput: string, parsedData: map<string, Json>, metadata: OcrAdapter.OcrMetadata)

  /**
   * `/api/ocr/process`: validate, extract with whatever model is held (no reload), parse the
   * markdown with the template, and shape the result; every failure after validation is a
   * 500 whose detail carries the `Processing failed: ` prefix.
   */
  function ProcessOutcome(loaded: bool, device: string, filename: string, size: nat,
                          llmModel: string, template: string, contextWindow: int, quality: string, now: nat,
                          cache: map<string, LlmParser.Template>, files: LlmParser.TemplateFiles,
                          chat: LlmParser.Chat, decode: Decoder,
                          pdfPages: Result<nat>, infer: OcrAdapter.Inference, elapsedMs: nat): Response<Processed>
  {
    if !AllowedUpload(filename) then Fail(400, UnsupportedProcess)
    else if !WithinSizeLimit(size) then Fail(400, TooLargeDetail)
    else
      ProcessAccepted(OcrAdapter.ExtractSpec(loaded, device, TempPath("process", now, filename), quality,
                                             pdfPages, infer, elapsedMs),
                      LlmParser.CachedOrRead(cache, files, template), llmModel, contextWindow, chat, decode)
  }

  /** The pipeline once the upload passed validation: the extraction's error, or the parse of its markdown. */
  function ProcessAccepted(extracted: Result<OcrAdapter.Extraction>, t: LlmParser.Template,
                           llmModel: string, contextWindow: int,
                           chat: LlmParser.Chat, decode: Decoder): Response<Processed>
  {
    match extracted
    case Err(e) => Fail(500, ProcessFailedPrefix + e)
    case Ok(x) =>
      match LlmParser.ParseReply(t, x.markdown, llmModel, contextWindow, chat, decode)
      case JObject(fields) => Respond(Processed(x.markdown, fields, x.metadata))
      case other => Fail(500, ProcessFailedPrefix + NotADictError(other))
  }

  /** Which uploads the pipeline refuses, with 400: a disallowed type, or more bytes than the limit. */
  lemma ProcessRejections(loaded: bool, device: string, filename: string, size: nat,
                          llmModel: string, template: string, contextWindow: int, quality: string, now: nat,
                          cache: map<string, LlmParser.Template>, files: LlmParser.TemplateFiles,
                          chat: LlmParser.Chat, decode: Decoder,
                          pdfPages: Result<nat>, infer: OcrAdapter.Inference, elapsedMs: nat)
    ensures var r := ProcessOutcome(loaded, device, filename, size, llmModel, template, contextWindow, quality, now,
                                    cache, files, chat, decode, pdfPages, infer, elapsedMs);
            && (r == Fail(400, UnsupportedProcess) <==> !AllowedUpload(filename))
            && (r == Fail(400, TooLargeDetail) <==> AllowedUpload(filename) && size > Config.MaxFileSize)
            && (r.Fail? && r.status == 400 <==> !AllowedUpload(filename) || size > Config.MaxFileSize)
            && (r.Fail? && r.status != 400 ==> r.status == 500 && StartsWith(r.detail, ProcessFailedPrefix))
  {
  }

  /** Unlike the extract endpoint, the pipeline does not reload an unloaded model. */
  lemma ProcessNeedsLoadedModel(device: string, filename: string, size: nat,
                                llmModel: string, template: string, contextWindow: int, quality: string, now: nat,
                                cache: map<string, LlmParser.Template>, files: LlmParser.TemplateFiles,
                                chat: LlmParser.Chat, decode: Decoder,
                                pdfPages: Result<nat>, infer: OcrAdapter.Inference, elapsedMs: nat)
    requires AllowedUpload(filename) && size <= Config.MaxFileSize
    ensures ProcessOutcome(false, device, filename, size, llmModel, template, contextWindow, quality, now,
                           cache, files, chat, decode, pdfPages, infer, elapsedMs)
            == Fail(500, ProcessFailedPrefix + OcrAdapter.NotLoadedMessage)
  {
    OcrAdapter.NotLoadedFails(device, TempPath("process", now, filename), quality, pdfPages, infer, elapsedMs);
  }

  /** A success carries the extracted markdown as raw output and the parse of that same markdown. */
  lemma ProcessParsesExtractedMarkdown(loaded: bool, device: string, filename: string, size: nat,
                                       llmModel: string, template: string, contextWindow: int, quality: string, now: nat,
                                       cache: map<string, LlmParser.Template>, files: LlmParser.TemplateFiles,
                                       chat: LlmParser.Chat, decode: Decoder,
                                       pdfPages: Result<nat>, infer: OcrAdapter.Inference, elapsedMs: nat)
    requires ProcessOutcome(loaded, device, filename, size, llmModel, template, contextWindow, quality, now,
                            cache, files, chat, decode, pdfPages, infer, elapsedMs).Respond?
    ensures var p := ProcessOutcome(loaded, device, filename, size, llmModel, template, contextWindow, quality, now,
                                    cache, files, chat, decode, pdfPages, infer, elapsedMs).body;
            var x := OcrAdapter.ExtractSpec(loaded, device, TempPath("process", now, filename), quality, pdfPages, infer, elapsedMs);
            && AllowedUpload(filename) && size <= Config.MaxFileSize && loaded
            && x.Ok?
            && p.rawOutput == x.value.markdown
            && p.metadata == x.value.metadata
            && JObject(p.parsedData)
               == LlmParser.ParseReply(LlmParser.CachedOrRead(cache, files, template), x.value.markdown,
                                       llmModel, contextWindow, chat, decode)
  {
  }

  /** The response model of `/api/ocr/process` (its status is always "success"). */
  datatype OcrResult = OcrResult(
    rawOutput: string,
    parsedData: map<string, Json>,
    metadata: OcrAdapter.OcrMetadata,
    warnings: seq<string>)

  /** Whether the pipeline got as far as the parse step (and so touched the template cache). */
  predicate ParseRan(loaded: bool, device: string, filename: string, size: nat, quality: string, now: nat,
                     pdfPages: Result<nat>, infer: OcrAdapter.Inference, elapsedMs: nat)
  {
    && AllowedUpload(filename) && WithinSizeLimit(size)
    && OcrAdapter.ExtractSpec(loaded, device, TempPath("process", now, filename), quality, pdfPages, infer, elapsedMs).Ok?
  }

  /** `process_file`: extract, then parse that markdown, then add the warnings. */
  method ProcessFile(ocr: OcrAdapter.Adapter, parser: LlmParser.Parser, filename: string, size: nat,
                     llmModel: string, template: string, contextWindow: int, quality: string, now: nat,
                     files: LlmParser.TemplateFiles, chat: LlmParser.Chat, decode: Decoder,
                     pdfPages: Result<nat>, infer: OcrAdapter.Inference, elapsedMs: nat)
    returns (r: Response<OcrResult>)
    modifies parser
    ensures var expected := ProcessOutcome(ocr.IsLoaded(), ocr.device, filename, size, llmModel, template,
                                           contextWindow, quality, now, old(parser.cache), files, chat, decode,
                                           pdfPages, infer, elapsedMs);
            && (expected.Fail? ==> r == Fail(expected.status, expected.detail))
            && (expected.Respond? ==>
                  && r.Respond?
                  && r.body.rawOutput == expected.body.rawOutput
                  && r.body.parsedData == expected.body.parsedData
                  && r.body.metadata == expected.body.metadata
                  && WarningsReport(r.body.parsedData, r.body.warnings))
    ensures parser.cache ==
              if ParseRan(ocr.IsLoaded(), ocr.device, filename, size, quality, now, pdfPages, infer, elapsedMs)
              then old(parser.cache)[template := LlmParser.CachedOrRead(old(parser.cache), files, template)]
              else old(parser.cache)
  {
    var fileExt := Lower(Suffix(filename));
    if fileExt !in UploadExtensions {
      return Fail(400, UnsupportedProcess);
    }
    if size > Config.MaxFileSize {
      return Fail(400, TooLargeDetail);
    }
    var tempPath := TempPath("process", now, filename);
    var extracted := ocr.ExtractMarkdown(tempPath, quality, pdfPages, infer, elapsedMs);
    ghost var expected := ProcessAccepted(extracted, LlmParser.CachedOrRead(parser.cache, files, template),
                                          llmModel, contextWindow, chat, decode);
    assert expected == ProcessOutcome(ocr.IsLoaded(), ocr.device, filename, size, llmModel, template,
                                      contextWindow, quality, now, parser.cache, files, chat, decode,
                                      pdfPages, infer, elapsedMs);
    if extracted.Err? {
      assert expected == Fail(500, ProcessFailedPrefix + extracted.error);
      return Fail(500, ProcessFailedPrefix + extracted.error);
    }
    var markdown := extracted.value.markdown;
    ghost var t := LlmParser.CachedOrRead(parser.cache, files, template);
    var parsedData := parser.ParseMarkdown(markdown, llmModel, template, contextWindow, files, chat, decode);
    assert parsedData == LlmParser.ParseReply(t, markdown, llmModel, contextWindow, chat, decode);
    if !parsedData.JObject? {
      assert expected == Fail(500, ProcessFailedPrefix + NotADictError(parsedData));
      return Fail(500, ProcessFailedPrefix + NotADictError(parsedData));
    }
    assert expected == Respond(Processed(markdown, parsedData.fields, extracted.value.metadata));
    var warnings := BuildWarnings(parsedData.fields);
    r := Respond(OcrResult(markdown, parsedData.fields, extracted.value.metadata, warnings));
  }
}
