# Vision-Ingest backend core, modelled in Dafny

Vision-Ingest turns uploaded PDFs and images into structured JSON in two steps. The
"eyes" step runs DeepSeek-OCR-2 on each page to get markdown. The "brain" step asks a
local LLM (through Ollama) to fill a document template's JSON schema from that markdown.
This project models the backend's core logic and proves properties of it:

- `Config` (`config.dfy`): the OCR quality presets and their lookup with a `base`
  fallback; the template catalogue (category and display name per template id, with an
  `Other` / title-case fallback); the listing sorted by (category, name); the grouping
  by category.
- `LlmParser` (`llm_parser.dfy`): the `LLMParser` object and its template cache; prompt
  assembly; the clean-up of the model's reply (strip, code fence, `json` tag, first
  `{`); the empty result used on failure; the `get_llm_parser` singleton.
- `OcrAdapter` (`ocr_adapter.dfy`): the `DeepSeekOCRAdapter` object with its model and
  tokenizer fields; the filter over the model's printed output; the page loop of
  `extract_markdown` with its page headers; the `analyze_pdf` decision; the
  `get_ocr_adapter` singleton.
- `Api` (`main.dfy`): the upload checks (extension allow-list on `Path.suffix`,
  case-sensitive `.pdf` for analyze, size limit); the warnings list; the presets and
  templates endpoints; extract-only, unload and parse-only; the extract-then-parse
  pipeline `/api/ocr/process` and its error wrapping.
- `PyStrings` (`pystrings.dfy`): the Python `str` and `pathlib` behaviour these depend
  on, over `seq<char>`: `strip`, `find`/`in`, `split`/`join`, `lower`, `title`,
  `replace`, `str(int)`, string `<`, `Path.name` and `Path.suffix`.
- `JsonValues` (`json_values.dfy`): decoded JSON values and Python truthiness.
- `Wrappers` (`wrappers.dfy`): `Option` and `Result`.

Every foreign call is a function-valued parameter. This covers the Ollama chat call,
`json.loads`, the model's inference (page index and base size to printed text, or the
exception's message), and PyMuPDF's page count. The templates directory is a map from
file name to contents. The templates glob is a sequence of file stems. An endpoint's
outcome is either a body or an `HTTPException`'s status and detail (`Api.Response`).

Three behaviours of the code are easy to miss:

- `unload_model` clears the tokenizer only when a model is held. A failed load can
  therefore leave a tokenizer behind, and unloading keeps it.
- If moving the model to the device fails, the loaded but unmoved model stays assigned.
  `is_loaded` then holds.
- `/api/ocr/process` does not reload an unloaded model; only `/api/ocr/extract` does.

## Model

| member | source | states |
|---|---|---|
| Config.FindPreset | backend/config.py:91-93 | The dict lookup: None exactly when no entry has the key; otherwise an entry's preset with that key |
| Config.PresetKeysDistinct | backend/config.py:59-88 | The preset keys are pairwise distinct, as dict keys are |
| Config.GetOcrQualitySettings | backend/config.py:91-93 | A preset key gets its own preset; any other string gets the `base` preset, whose base size is 1024 |
| Config.PresetsIncrease | backend/config.py:59-88 | Base size and token count both strictly increase from tiny to small to base to large |
| Config.DescribeKnown | backend/config.py:144-145 | A catalogued stem gets the table's category and display name, and the stem as id |
| Config.DescribeUnknown | backend/config.py:146-148 | An unknown stem goes under "Other". Its name has `_` turned into a space, a capital after any non-letter and small letters after a letter |
| Config.KeyLtIrreflexive | backend/config.py:154 | No entry's (category, name) key sorts before itself |
| Config.KeyLtTransitive | backend/config.py:154 | The tuple ordering of keys is transitive |
| Config.KeyLtTotal | backend/config.py:154 | Any two keys are ordered one way, equal, or ordered the other way |
| Config.KeyLtAsymmetric | backend/config.py:154 | A smaller key is neither greater nor equal |
| Config.InsertPermutes | backend/config.py:154 | One insertion step of the sort adds exactly the inserted entry |
| Config.InsertSorted | backend/config.py:154 | Inserting into a sorted listing keeps it sorted |
| Config.InsertFilter | backend/config.py:154 | Inserting keeps same-key entries in arrival order and puts the new one last among its key |
| Config.SortTemplatesPermutes | backend/config.py:154 | The sort is a permutation of its input |
| Config.SortTemplatesSorted | backend/config.py:154 | The sort's output is ordered by (category, name) |
| Config.SortTemplatesStable | backend/config.py:154 | Entries with equal keys keep their input order, as Python's stable `sorted` keeps them |
| Config.SortTemplatesCorrect | backend/config.py:154 | The sort is length-preserving, ordered, a permutation and stable for every key |
| Config.ListTemplates | backend/config.py:138-154 | `list_templates` is the sorted listing of the stems' entries: one per stem, ordered by key, a permutation, same-key entries in glob order |
| Config.ListedEntries | backend/config.py:142-154 | Every stem's entry is listed, and every listed entry is the entry built from its own id, which is one of the stems |
| Config.DedupFacts | backend/config.py:161-164 | The dict's keys hold exactly the categories seen, each once |
| Config.BucketIndex | backend/config.py:163 | The membership test `cat in by_category`: the index of the bucket keyed `c`, or -1 when no bucket has that key |
| Config.GroupsStepExisting | backend/config.py:161-165 | Appending to an existing bucket keeps the grouping invariant for the listing grown by one entry |
| Config.GroupsStepNew | backend/config.py:161-165 | Opening a bucket for a new category keeps the grouping invariant for the listing grown by one entry |
| Config.FilterCategoryMembers | backend/config.py:161-165 | A bucket's source entries are exactly the listed entries of its category |
| Config.ListTemplatesByCategory | backend/config.py:157-166 | One bucket per category, in order of first appearance in the sorted listing. Each bucket holds only (id, name) of exactly its category's entries, in listing order |
| Config.BucketsPartition | backend/config.py:157-166 | Bucket keys are distinct and are exactly the categories present. Every template sits in the bucket keyed by its category |
| Config.FilterCategorySorted | backend/config.py:154-166 | Within a bucket of the sorted listing, entries are ordered by display name |
| PyStrings.LStrip | backend/llm_parser.py:82 | The result is a suffix of the input; everything dropped is whitespace; it does not start with whitespace |
| PyStrings.RStrip | backend/llm_parser.py:82 | The result is a prefix of the input; everything dropped is whitespace; it does not end with whitespace |
| PyStrings.Strip | backend/llm_parser.py:82 | `strip()` leaves no whitespace at either end and never lengthens the text |
| PyStrings.StripTrimmed | backend/llm_parser.py:95 | Text without whitespace at its ends is unchanged by `strip()` |
| PyStrings.StripIdempotent | backend/llm_parser.py:82-95 | Stripping twice equals stripping once |
| PyStrings.FindFrom | backend/llm_parser.py:90 | `find(sub, start)` is the least index at or after `start` where `sub` occurs, or -1 when there is none |
| PyStrings.Contains | backend/ocr_adapter.py:115-117 | `sub in s` holds exactly when `sub` occurs at some index |
| PyStrings.SliceOfSlice | backend/llm_parser.py:92-94 | A slice of a slice is the corresponding slice of the original |
| PyStrings.SliceLacks | backend/ocr_adapter.py:121 | A slice of text free of `sub` is free of `sub` |
| PyStrings.StripLacks | backend/ocr_adapter.py:121 | Stripping cannot create an occurrence of a substring |
| PyStrings.SplitJoin | backend/ocr_adapter.py:112-121 | Joining the pieces of `s.split(sep)` with `sep` gives back `s` |
| PyStrings.SplitPiecesLackSeparator | backend/llm_parser.py:90 | No piece of a split contains the separator |
| PyStrings.SplitAfterLeadingSeparator | backend/llm_parser.py:89-92 | Text starting with the separator splits into at least two pieces: an empty one, then the text up to the next separator |
| PyStrings.SplitFirstPiece | backend/llm_parser.py:90-92 | The first piece is a separator-free prefix that is all the text or is followed by the separator |
| PyStrings.JoinLacks | backend/ocr_adapter.py:121 | Joining pieces free of `m` with a one-character separator not in `m` gives text free of `m` |
| PyStrings.LowerChar | backend/main.py:218 | An ASCII capital becomes its small letter; every other character is unchanged |
| PyStrings.UpperChar | backend/config.py:148 | An ASCII small letter becomes its capital; every other character is unchanged |
| PyStrings.Lower | backend/main.py:218 | `lower()` keeps the length and lowers each character on its own. No ASCII capital is left, and text without capitals is unchanged |
| PyStrings.LowerIdempotent | backend/main.py:218 | Lowering twice is lowering once, and two strings that differ only in ASCII case lower to the same string |
| PyStrings.TitleFromAt | backend/config.py:148 | The title-casing scan keeps the length and decides each character from the one before it |
| PyStrings.TitleAt | backend/config.py:148 | `title()`: a letter after a letter is lowered, and any other character is capitalised |
| PyStrings.ReplaceChar | backend/config.py:148 | `replace('_', ' ')` changes exactly the `_` positions, so no `_` is left |
| PyStrings.NatToString | backend/ocr_adapter.py:236 | `str(n)` is a non-empty string of decimal digits, without a leading zero, whose value is `n` |
| PyStrings.LexLtIrreflexive | backend/config.py:154 | String `<` is irreflexive |
| PyStrings.LexLtTransitive | backend/config.py:154 | String `<` is transitive |
| PyStrings.LexLtTrichotomy | backend/config.py:154 | Any two strings are ordered one way, equal, or ordered the other way |
| PyStrings.LastComponent | backend/main.py:218 | The result is never `.`. It is "" exactly when every component is "" or `.`; otherwise it is the component at `LastComponentIndex` |
| PyStrings.LastComponentIndex | backend/main.py:218 | The position of the last component that is neither "" nor `.`, or -1 if there is none; every later component is "" or `.` |
| PyStrings.PathName | backend/main.py:218 | `Path(p).name` contains no `/` |
| PyStrings.PathNameIsLastSegment | backend/main.py:218 | `Path(p).name` is the last `/`-separated segment that is neither "" nor `.`; it is "" when there is none |
| PyStrings.IndexOf | backend/main.py:218 | The index returned holds the character sought |
| PyStrings.RFind | backend/main.py:218 | `rfind(c)` is the last index holding `c`, or -1 when there is none |
| PyStrings.SuffixShape | backend/main.py:218 | A non-empty suffix is a dot, then at least one dot-free character; it ends a final component that is longer than it |
| PyStrings.SuffixEmptyIff | backend/main.py:218 | `Path.suffix` as in Python 3.13 and earlier: empty exactly when the final component is empty, ends in a dot, or has no dot after its first character |
| JsonValues.MissingKeyFalsy | backend/main.py:350-355 | `d.get(k)` of a missing key is None, which is falsy |
| LlmParser.ReadTemplateLocal | backend/llm_parser.py:28-43 | A template depends only on its own `.json` and `.txt` files; no other file, and no other file's presence, changes it |
| LlmParser.ReadTemplateDefaults | backend/llm_parser.py:28-43 | With neither file present the template is `{"data": {}}` with the default extraction sentence; with both it is their texts verbatim |
| LlmParser.CacheTransparent | backend/llm_parser.py:23-46 | While cached pairs match the files, what a load returns is what reading the files gives, and the grown cache still matches |
| LlmParser.CacheIsSticky | backend/llm_parser.py:25-26 | After a template is cached, editing its schema file changes nothing a later load returns |
| LlmParser.PromptLayout | backend/llm_parser.py:63-71 | The prompt opens with the template prompt, then `JSON Schema:` and the schema, then `Document Text:` and the markdown, and ends with the closing request. Exact offsets and total length are given |
| LlmParser.CleanReplyFence | backend/llm_parser.py:89-95 | A fenced reply keeps the separator-free segment between the first fence and the next one (or the rest), drops a leading `json` and is stripped |
| LlmParser.CleanReplyNoFence | backend/llm_parser.py:82-95 | An unfenced reply is only stripped |
| LlmParser.CleanReplyStripped | backend/llm_parser.py:82-95 | The cleaned reply has no whitespace at its ends |
| LlmParser.FindJsonStart | backend/llm_parser.py:97-102 | The for/break scan finds the index of the first `{`, and -1 exactly when there is no `{` |
| LlmParser.FirstBrace | backend/llm_parser.py:97-102 | A first-`{` scan agrees with `find("{")` |
| LlmParser.JsonCandidateShape | backend/llm_parser.py:104-105 | The decoder's input ends the cleaned text. It starts at that text's first `{` when there is one, and is the whole text otherwise |
| LlmParser.CleanReplyText | backend/llm_parser.py:82-105 | The reassignments of `result` produce the cleaned reply cut at its first `{` |
| LlmParser.ParseReplyCases | backend/llm_parser.py:73-120 | The result is either the template's empty result, or a JSON object decoded from the cleaned reply |
| LlmParser.FailureYieldsFallback | backend/llm_parser.py:108-120 | A failed chat call, an undecodable reply or a non-object reply all give the template's empty result |
| LlmParser.MissingSchemaFallback | backend/llm_parser.py:31-36 | Without a schema file, the empty result decodes the default schema `{"data": {}}` |
| LlmParser.Parser.constructor | backend/llm_parser.py:15-17 | A new parser starts with an empty cache |
| LlmParser.Parser.ClearCache | backend/llm_parser.py:19-21 | After clearing, the cache is empty, so every next load reads the files |
| LlmParser.Parser.LoadTemplate | backend/llm_parser.py:23-46 | Returns the cached pair untouched when there is one, else the files read with defaults. The pair is then cached, and a cache matching the files keeps matching |
| LlmParser.Parser.EmptyResult | backend/llm_parser.py:122-128 | The template's schema decoded, or `{}` when it does not decode; the template ends up cached |
| LlmParser.Parser.ParseMarkdown | backend/llm_parser.py:48-120 | Never fails. The result is `ParseReply` of the loaded template, and the cache gains exactly that template |
| LlmParser.Registry.constructor | backend/llm_parser.py:131-132 | No parser exists before the first request |
| LlmParser.Registry.GetLlmParser | backend/llm_parser.py:135-140 | The first call creates a parser with an empty cache; every later call returns that same object |
| OcrAdapter.FilterLines | backend/ocr_adapter.py:112-119 | The filter never adds lines |
| OcrAdapter.FilterLinesMembers | backend/ocr_adapter.py:112-119 | A line survives exactly when it was in the input and carries no marker or grounding tag |
| OcrAdapter.FilterLinesClean | backend/ocr_adapter.py:112-119 | Without noise lines the filter keeps every line, in order |
| OcrAdapter.CleanInferenceOutput | backend/ocr_adapter.py:111-124 | The loop with `continue` yields the surviving lines, in order, joined by newlines and stripped |
| OcrAdapter.MarkerShape | backend/ocr_adapter.py:115-117 | Every marker and tag is non-empty and contains no newline |
| OcrAdapter.KeptLinesLackMarker | backend/ocr_adapter.py:113-119 | No surviving line contains a marker or a tag |
| OcrAdapter.StrippedJoinLacks | backend/ocr_adapter.py:121 | Joining marker-free lines with newlines and stripping cannot create a marker |
| OcrAdapter.CleanOutputLacksMarkers | backend/ocr_adapter.py:111-124 | A page's cleaned text contains none of `BASE:`, `PATCHES:`, `===`, `image size:`, `tokens`, `compression`, `<\|ref\|>`, `<\|det\|>`, `<\|grounding\|>` |
| OcrAdapter.CleanOutputPlain | backend/ocr_adapter.py:111-124 | Output with no noise line is only stripped |
| OcrAdapter.RunInferenceSync | backend/ocr_adapter.py:84-124 | One page: the exception's message, or the model's printed output cleaned |
| OcrAdapter.PagesErrPersist | backend/ocr_adapter.py:223-242 | Once a page fails, that failure is the outcome of the whole loop |
| OcrAdapter.PagesOkIff | backend/ocr_adapter.py:223-242 | The loop succeeds exactly when every page's inference does |
| OcrAdapter.PagesFirstError | backend/ocr_adapter.py:223-242 | A failing loop fails with the message of the first failing page |
| OcrAdapter.PagesNonEmpty | backend/ocr_adapter.py:234-238 | Every kept part is non-empty. With more than one page, every part opens with `--- Page ` |
| OcrAdapter.KeptPagesFacts | backend/ocr_adapter.py:223-240 | The kept pages are strictly increasing, all below the page count, and a page is kept exactly when its inference gave non-empty text |
| OcrAdapter.PagesKept | backend/ocr_adapter.py:223-240 | A successful loop gives one part per kept page, in page order: part `k` is `PagePart` of the `k`-th kept page's text |
| OcrAdapter.PagePartShape | backend/ocr_adapter.py:234-238 | With several pages a part is `--- Page `, a number that reads as the 1-based page index, ` ---`, a newline and the text; with one page it is the bare text |
| OcrAdapter.PagesAllEmpty | backend/ocr_adapter.py:234-238 | When every page is empty, no part is kept |
| OcrAdapter.SinglePageText | backend/ocr_adapter.py:234-244 | A one-page document is exactly its page's text, with no header |
| OcrAdapter.NotLoadedFails | backend/ocr_adapter.py:166-167 | Without a model, extraction fails with the bare not-loaded message and produces no markdown |
| OcrAdapter.LoadedFailuresWrapped | backend/ocr_adapter.py:259-263 | With a model, every extraction failure carries the `OCR processing failed: ` prefix |
| OcrAdapter.ImageIsOnePage | backend/ocr_adapter.py:177-192 | An image is one page, run at the preset's base size. Its markdown is that page's cleaned text |
| OcrAdapter.MetadataFacts | backend/ocr_adapter.py:246-254 | A success reports the fixed method and model names, the elapsed time, `gpu_used` exactly on `cuda`, and the page count (1 for images, the PDF's otherwise) |
| OcrAdapter.OcrPages | backend/ocr_adapter.py:223-242 | The page loop gives the first failure, or the parts of the non-empty pages with headers |
| OcrAdapter.ExtractabilityScore | backend/ocr_adapter.py:134 | `min(1.0, len/1000)` lies in [0, 1] and is 1 exactly when the length is at least 1000 |
| OcrAdapter.AnalyzePdf | backend/ocr_adapter.py:126-149 | `requires_ocr` holds exactly when the stripped first-page text is shorter than 300, and then the type is `scanned`; the estimate is pages times 8000 or 500, and the score is `ExtractabilityScore` of the stripped length. Failures propagate, and a PDF without pages fails |
| OcrAdapter.ScoreMonotone | backend/ocr_adapter.py:134-135 | More text never lowers the score, so it never turns a text PDF into a scanned one |
| OcrAdapter.Adapter.constructor | backend/ocr_adapter.py:20-25 | A new adapter holds no model or tokenizer. Its device is the configured one when CUDA is available, else `cpu` |
| OcrAdapter.Adapter.LoadModel | backend/ocr_adapter.py:27-78 | Succeeds exactly when every step does. A failing step keeps what earlier steps assigned: the tokenizer, and the unmoved model |
| OcrAdapter.Adapter.UnloadModel | backend/ocr_adapter.py:265-274 | Afterwards no model is held. Model and tokenizer are dropped together, and nothing changes when no model was held |
| OcrAdapter.Adapter.Cleanup | backend/ocr_adapter.py:276-278 | The same state change as unloading |
| OcrAdapter.Adapter.ExtractMarkdown | backend/ocr_adapter.py:151-263 | The result is `ExtractSpec` of the adapter's state: not-loaded error, wrapped failure, or the parts joined by blank lines with the metadata |
| OcrAdapter.Registry.constructor | backend/ocr_adapter.py:281-282 | No adapter exists before the first request |
| OcrAdapter.Registry.GetOcrAdapter | backend/ocr_adapter.py:285-290 | The first call creates an unloaded adapter; every later call returns that same object |
| Api.UnsupportedProcessLists | backend/main.py:308-311 | The process endpoint's rejection lists the allow-list joined by `, ` |
| Api.TooLargeNamesLimit | backend/main.py:317-321 | The size message names the limit in MiB, `10.0` |
| Api.SizeLimitBoundary | backend/main.py:317 | A file of exactly 10485760 bytes is accepted and one byte more is refused |
| Api.AllowedUploadKinds | backend/main.py:308-310 | Every type the adapter treats as an image is an allowed upload. Any other allowed upload has suffix `.pdf` |
| Api.BareExtensionRefused | backend/main.py:308-310 | A final component that is only an extension, like `.pdf`, has no suffix and is refused |
| Api.PathNameOfPlainName | backend/main.py:309 | A name without `/` is its own final component |
| Api.ChecksDisagree | backend/main.py:187-188 | The analyze check and the allow-list disagree both ways: `scan.PDF` passes only the allow-list, and `.pdf` passes only analyze |
| Api.BuildWarnings | backend/main.py:349-355 | Each message is present exactly when its key is missing or falsy. Nothing else is present, and the order is personal info, experience, education |
| Api.WarningsBounds | backend/main.py:349-355 | At most three warnings, and none exactly when all three keys are truthy |
| Api.RankAtLeastIndex | backend/main.py:349-355 | In a strictly ordered warnings list, each message's rank is at least its position |
| Api.WarningsDetermined | backend/main.py:349-355 | The warnings for a parse result are unique |
| Api.WarningsCanonical | backend/main.py:349-355 | The one warnings list is the three conditional appends in order |
| Api.GetOcrQualityPresets | backend/main.py:135-150 | One view per preset, in table order, copying id, base size, tokens, description and time, but not the render scale |
| Api.PresetViewsInOrder | backend/main.py:138-146 | The listed ids are tiny, small, base and large, with strictly increasing sizes and token counts |
| Api.GetTemplates | backend/main.py:122-132 | The body holds the sorted listing, its grouping by category, and the count of templates |
| Api.AnalyzeUpload | backend/main.py:184-202 | Without a case-sensitive `.pdf` ending the answer is 400; otherwise it is the analysis, or a 500 when the analysis fails |
| Api.ExtractOutcomeCases | backend/main.py:205-249 | A 400 exactly for a refused type. Without a model, a 500 with the not-loaded message; otherwise a 500 with the OCR-failure prefix, or this file's markdown |
| Api.ExtractOnly | backend/main.py:205-249 | The model is reloaded only for an accepted upload when none is held. A missing model path or a failed tokenizer changes nothing; a failed model load keeps the new tokenizer; a failed device move keeps the unmoved model; a full load holds both. The answer is `ExtractOutcome` on the state after that |
| Api.UnloadOcr | backend/main.py:252-257 | Afterwards no model is held. The tokenizer is cleared if a model was held and kept otherwise. The success message is always returned |
| Api.DefaultRequestOutcome | backend/main.py:20-25 | A request naming only its markdown is answered under `document`, parsed with the `resume` template by `gpt-oss:latest` with a 32768-token budget |
| Api.ParseMarkdownOnly | backend/main.py:260-283 | The answer is `ParseOnlyOutcome` on the cache it started from: never a failure, the request's file name and `ParseReply` of the loaded template. The cache gains that template |
| Api.ProcessRejections | backend/main.py:308-321 | A 400 exactly for a refused type or a size over the limit, with the matching message. Every other failure is a 500 prefixed `Processing failed: ` |
| Api.ProcessNeedsLoadedModel | backend/main.py:331-333 | An accepted upload with no model loaded fails with 500 and `Processing failed: ` plus the not-loaded message |
| Api.ProcessParsesExtractedMarkdown | backend/main.py:331-366 | A success came from an accepted upload and a loaded model. The raw output is the extracted markdown, and the parsed data is the parse of that same markdown |
| Api.ProcessFile | backend/main.py:286-374 | The answer matches `ProcessOutcome`, and the warnings report on the parsed data. The cache gains the template exactly when the parse step ran |

## Left out

- The client-side batch orchestrator (job list, scheduling policies, cancellation) is not part of this model: its source is not among the backend files.
- `backend/preprocessor.py` is not part of this model. It is OpenCV image processing and floating-point geometry, and the adapter's use of it is hidden inside the inference parameter.
- Model loading internals are an input, `LoadOutcome`. This covers the transformers and torch calls, the flash-attention fallback and the device move.
- Inference and stdout capture are one input, the `Inference` function. So are the Ollama chat call (`Chat`) and `json.loads` (`Decoder`).
- PDF opening and page rendering are one input, the page count `pdfPages`; a failure anywhere in them is one error message. The model does not capture that all pages are rendered before any inference runs.
- `cv2.imread` falling back to the original image is not modelled, because it does not change the page count or the loop.
- The UTF-8 `encode(..., errors='replace').decode()` round trip is the identity. Dafny strings hold no lone surrogates, and only those would be replaced.
- Reading a template file is a map lookup. A file that exists but cannot be read, which would raise, is not modelled.
- `health_check`, `list_ollama_models` and the root endpoint are left out: they are foreign I/O or constant bodies.
- Also left out as I/O plumbing: FastAPI routing and CORS, the lifespan hook, uvicorn, logging, temp-file writes and deletes, and directory creation. The temp path's name is modelled; the file is not.
- `asyncio.to_thread` calls are ordinary sequential calls.
- Settings are fixed at their defaults; `.env` overrides are not modelled.
- The clock is an input: `now` for temp-file names and `elapsedMs` for the processing time.
- PyStrings.Lower: case mapping covers ASCII letters only; other letters are uncased here.
- PyStrings.TitleAt: non-ASCII letters count as word boundaries, so Unicode letters are not title-cased.
- PyStrings.PathName: POSIX path rules are modelled, not Windows ones.
- PyStrings.Suffix: follows the `Path.suffix` rule of Python 3.13 and earlier. From Python 3.14, `Path("a.").suffix` is `.` rather than empty.
- OcrAdapter.ExtractabilityScore: the score is an exact real, not a binary float. The float `len/1000` is below the float `0.3` exactly for lengths below 300, so the decision is the same.
- Api.AnalyzeUpload: a failing analysis is a 500 with a fixed detail, standing for FastAPI's generic server error.
- Api.ParseMarkdownOnly: the 500 branch is not modelled; with template reads total, `parse_markdown` never raises.
- Pydantic validation of the response models is not modelled; the shapes they check are the datatypes' fields.
- OcrAdapter.Adapter.UnloadModel: does not model freeing the CUDA cache.
- `backend/models.py` gives only the field names of `OcrMetadata`, `PdfAnalysis` and `OcrResult`; it has no behaviour to model.
