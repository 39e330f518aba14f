/**
 * The "brain" step: a template's schema and instruction prompt are combined with the
 * OCR markdown into one prompt, the local LLM answers, and the answer is cleaned and
 * decoded as JSON. Any failure yields the template's empty result instead.
 *
 * The LLM call and `json.loads` are foreign and come in as function parameters; the
 * templates directory comes in as a map from file name to file contents.
 */
module LlmParser {
  import opened Wrappers
  import opened PyStrings
  import opened JsonValues

  /** A template: its JSON schema text and its instruction prompt. */
  datatype Template = Template(schema: string, prompt: string)

  /** The templates directory: file name (`<id>.json`, `<id>.txt`) to file contents. */
  type TemplateFiles = map<string, string>

  /** The chat call: model name, prompt and `num_predict` to the reply content, or None where it raises. */
  type Chat = (string, string, int) -> Option<string>

  const DefaultSchema: string := "{\"data\": {}}"
  const DefaultPrompt: string := "Extract the document data into the JSON schema provided."
  const Fence: string := "```"

  // ---------------------------------------------------------------------------
  // Templates and the cache
  // ---------------------------------------------------------------------------

  /** Reading a template from disk: each missing file is replaced by its default. */
  function ReadTemplate(files: TemplateFiles, id: string): (t: Template)
    ensures t.schema == (if id + ".json" in files then files[id + ".json"] else DefaultSchema)
    ensures t.prompt == (if id + ".txt" in files then files[id + ".txt"] else DefaultPrompt)
  {
    var schema := if id + ".json" in files then files[id + ".json"] else DefaultSchema;
    var prompt := if id + ".txt" in files then files[id + ".txt"] else DefaultPrompt;
    Template(schema, prompt)
  }

  /** A template depends only on its own two files: other files, and their presence, do not matter. */
  lemma ReadTemplateLocal(files: TemplateFiles, other: TemplateFiles, id: string)
    requires (id + ".json" in files <==> id + ".json" in other)
    requires id + ".json" in files ==> files[id + ".json"] == other[id + ".json"]
    requires (id + ".txt" in files <==> id + ".txt" in other)
    requires id + ".txt" in files ==> files[id + ".txt"] == other[id + ".txt"]
    ensures ReadTemplate(files, id) == ReadTemplate(other, id)
  {
  }

  /** With neither file present, the template is the built-in pair; with both, it is their contents verbatim. */
  lemma ReadTemplateDefaults(files: TemplateFiles, id: string)
    ensures id + ".json" !in files && id + ".txt" !in files ==>
              ReadTemplate(files, id)
              == Template("{\"data\": {}}", "Extract the document data into the JSON schema provided.")
    ensures id + ".json" in files && id + ".txt" in files ==>
              ReadTemplate(files, id) == Template(files[id + ".json"], files[id + ".txt"])
    ensures ReadTemplate(map[], id).schema == DefaultSchema && ReadTemplate(map[], id).prompt == DefaultPrompt
  {
  }

  /** What `_load_template` hands back: the cached pair when there is one, else a fresh read. */
  function CachedOrRead(cache: map<string, Template>, files: TemplateFiles, id: string): Template {
    if id in cache then cache[id] else ReadTemplate(files, id)
  }

  /** Every cached pair is what reading the given files would produce. */
  predicate Faithful(cache: map<string, Template>, files: TemplateFiles) {
    forall id :: id in cache ==> cache[id] == ReadTemplate(files, id)
  }

  /** While the files have not changed since they were cached, the cache is invisible. */
  lemma CacheTransparent(cache: map<string, Template>, files: TemplateFiles, id: string)
    requires Faithful(cache, files)
    ensures CachedOrRead(cache, files, id) == ReadTemplate(files, id)
    ensures Faithful(cache[id := CachedOrRead(cache, files, id)], files)
  {
  }

  /** Once a template is cached, later edits to its files are not seen until the cache is cleared. */
  lemma CacheIsSticky(cache: map<string, Template>, files: TemplateFiles, id: string)
    requires id !in cache
    requires id + ".json" in files
    ensures var t := CachedOrRead(cache, files, id);
            var edited := files[id + ".json" := files[id + ".json"] + " "];
            && CachedOrRead(cache[id := t], edited, id) == t
            && CachedOrRead(cache[id := t], edited, id).schema != ReadTemplate(edited, id).schema
  {
  }

  // ---------------------------------------------------------------------------
  // The prompt and the reply
  // ---------------------------------------------------------------------------

  /** The prompt sent to the model: instructions, schema, document text, closing request. */
  function BuildPrompt(t: Template, markdown: string): string {
    t.prompt + "\n\nJSON Schema:\n" + t.schema + "\n\nDocument Text:\n" + markdown + "\n\nReturn ONLY the JSON object:"
  }

  /** Where each part of the prompt sits, in order. */
  lemma PromptLayout(t: Template, markdown: string)
    ensures var p := BuildPrompt(t, markdown);
            var schemaAt := |t.prompt| + |"\n\nJSON Schema:\n"|;
            var textAt := schemaAt + |t.schema| + |"\n\nDocument Text:\n"|;
            && StartsWith(p, t.prompt)
            && OccursAt(p, "JSON Schema:\n", |t.prompt| + 2)
            && OccursAt(p, t.schema, schemaAt)
            && OccursAt(p, "Document Text:\n", schemaAt + |t.schema| + 2)
            && OccursAt(p, markdown, textAt)
            && EndsWith(p, "\n\nReturn ONLY the JSON object:")
            && |p| == textAt + |markdown| + |"\n\nReturn ONLY the JSON object:"|
  {
    var p := BuildPrompt(t, markdown);
    var schemaAt := |t.prompt| + |"\n\nJSON Schema:\n"|;
    var textAt := schemaAt + |t.schema| + |"\n\nDocument Text:\n"|;
    assert p[|t.prompt| + 2..schemaAt] == "JSON Schema:\n";
    assert p[schemaAt..schemaAt + |t.schema|] == t.schema;
    assert p[schemaAt + |t.schema| + 2..textAt] == "Document Text:\n";
    assert p[textAt..textAt + |markdown|] == markdown;
  }

  /** The reply without a wrapping code fence: the text between the first two fences, less a `json` tag. */
  function Unfence(result: string): string {
    if StartsWith(result, Fence) then
      var parts := Split(result, Fence);
      var inner :=
        if |parts| >= 2 then
          (if StartsWith(parts[1], "json") then parts[1][4..] else parts[1])
        else result;
      Strip(inner)
    else result
  }

  /** The reply after stripping and code-fence removal (the UTF-8 round trip changes nothing here). */
  function CleanReply(content: string): string {
    Unfence(Strip(content))
  }

  /** A fenced reply keeps only what lies between the opening fence and the next one, less a `json` tag. */
  lemma CleanReplyFence(content: string)
    requires StartsWith(Strip(content), Fence)
    ensures var body := Strip(content)[|Fence|..];
            var seg := Split(body, Fence)[0];
            && StartsWith(body, seg)
            && !Contains(seg, Fence)
            && (seg == body || OccursAt(body, Fence, |seg|))
            && CleanReply(content) == Strip(if StartsWith(seg, "json") then seg[4..] else seg)
  {
    var r := Strip(content);
    SplitAfterLeadingSeparator(r, Fence);
    SplitFirstPiece(r[|Fence|..], Fence);
  }

  /** A reply that does not open with a fence is only stripped. */
  lemma CleanReplyNoFence(content: string)
    requires !StartsWith(Strip(content), Fence)
    ensures CleanReply(content) == Strip(content)
  {
  }

  /** The cleaned reply never has whitespace at its ends. */
  lemma CleanReplyStripped(content: string)
    ensures var c := CleanReply(content);
            c == [] || (!IsSpace(c[0]) && !IsSpace(c[|c| - 1]))
  {
  }

  /** The index of the first `{`, or -1 when there is none. */
  method FindJsonStart(result: string) returns (jsonStart: int)
    ensures jsonStart == FindFrom(result, "{", 0)
    ensures -1 <= jsonStart < |result|
    ensures jsonStart == -1 <==> '{' !in result
    ensures jsonStart >= 0 ==> result[jsonStart] == '{' && '{' !in result[..jsonStart]
  {
    jsonStart := -1;
    for i := 0 to |result|
      invariant jsonStart == -1
      invariant '{' !in result[..i]
    {
      if result[i] == '{' {
        jsonStart := i;
        break;
      }
      assert result[..i + 1] == result[..i] + [result[i]];
    }
    assert jsonStart == -1 ==> result[..|result|] == result;
    FirstBrace(result, jsonStart);
  }

  /** `FindFrom` for a one-character needle agrees with a scan for the first such character. */
  lemma FirstBrace(s: string, j: int)
    requires -1 <= j < |s|
    requires j == -1 ==> '{' !in s
    requires j >= 0 ==> s[j] == '{' && '{' !in s[..j]
    ensures j == FindFrom(s, "{", 0)
  {
    if j == -1 {
      forall k | 0 <= k && k + 1 <= |s| ensures !OccursAt(s, "{", k) {
        assert s[k..k + 1] == [s[k]];
      }
    } else {
      assert s[j..j + 1] == [s[j]];
      assert OccursAt(s, "{", j);
      forall k | 0 <= k < j ensures !OccursAt(s, "{", k) {
        assert s[k..k + 1] == [s[k]];
        assert s[..j][k] == s[k];
      }
    }
  }

  /** The text handed to `json.loads`: from the first `{` on, when there is text before it. */
  function JsonCandidate(s: string): string {
    var i := FindFrom(s, "{", 0);
    if i > 0 then s[i..] else s
  }

  /** The candidate ends the cleaned text and opens at its first `{`, when it has one. */
  lemma JsonCandidateShape(s: string)
    ensures EndsWith(s, JsonCandidate(s))
    ensures '{' in s ==> JsonCandidate(s) != [] && JsonCandidate(s)[0] == '{'
                         && '{' !in s[..|s| - |JsonCandidate(s)|]
    ensures '{' !in s ==> JsonCandidate(s) == s
  {
    var i := FindFrom(s, "{", 0);
    if '{' in s {
      var k :| 0 <= k < |s| && s[k] == '{';
      assert s[k..k + 1] == "{";
      assert OccursAt(s, "{", k);
      assert i >= 0;
      assert s[i..i + 1] == "{";
      forall m | 0 <= m < i ensures s[m] != '{' {
        assert !OccursAt(s, "{", m);
        assert s[m..m + 1] == [s[m]];
      }
      assert s[..i] == s[..|s| - |JsonCandidate(s)|];
    } else {
      forall k | 0 <= k && k + 1 <= |s| ensures !OccursAt(s, "{", k) {
        assert s[k..k + 1] == [s[k]];
      }
    }
  }

  /** The reply text as `parse_markdown` prepares it for decoding: stripped, unfenced, cut at the first `{`. */
  method CleanReplyText(content: string) returns (result: string)
    ensures result == JsonCandidate(CleanReply(content))
  {
    result := Strip(content);
    if StartsWith(result, Fence) {
      var parts := Split(result, Fence);
      if |parts| >= 2 {
        result := parts[1];
        if StartsWith(result, "json") {
          result := result[4..];
        }
      }
      result := Strip(result);
    }
    var jsonStart := FindJsonStart(result);
    if jsonStart > 0 {
      result := result[jsonStart..];
    }
  }

  // ---------------------------------------------------------------------------
  // The result
  // ---------------------------------------------------------------------------

  /** `_empty_result` given the schema text: the decoded schema, or `{}` when it does not decode. */
  function SchemaFallback(schema: string, decode: Decoder): Json {
    match decode(schema)
    case Some(v) => v
    case None => JObject(map[])
  }

  /**
   * What `parse_markdown` returns once the template is known: the decoded reply when it
   * is a JSON object, otherwise the template's empty result. A decoded value that is not
   * an object fails at `.keys()` and so ends in the fallback as well.
   */
  function ParseReply(t: Template, markdown: string, model: string, numPredict: int,
                      chat: Chat, decode: Decoder): Json
  {
    match chat(model, BuildPrompt(t, markdown), numPredict)
    case None => SchemaFallback(t.schema, decode)
    case Some(content) =>
      match decode(JsonCandidate(CleanReply(content)))
      case Some(JObject(fields)) => JObject(fields)
      case _ => SchemaFallback(t.schema, decode)
  }

  /** The parse result is either the template's fallback, or an object decoded from the cleaned reply. */
  lemma ParseReplyCases(t: Template, markdown: string, model: string, numPredict: int,
                        chat: Chat, decode: Decoder)
    ensures var r := ParseReply(t, markdown, model, numPredict, chat, decode);
            var reply := chat(model, BuildPrompt(t, markdown), numPredict);
            || r == SchemaFallback(t.schema, decode)
            || (&& reply.Some?
                && r.JObject?
                && decode(JsonCandidate(CleanReply(reply.value))) == Some(r))
  {
  }

  /** A failed call, an undecodable reply or a non-object reply all give the template's fallback. */
  lemma FailureYieldsFallback(t: Template, markdown: string, model: string, numPredict: int,
                              chat: Chat, decode: Decoder)
    requires var reply := chat(model, BuildPrompt(t, markdown), numPredict);
             || reply.None?
             || decode(JsonCandidate(CleanReply(reply.value))).None?
             || !decode(JsonCandidate(CleanReply(reply.value))).value.JObject?
    ensures ParseReply(t, markdown, model, numPredict, chat, decode) == SchemaFallback(t.schema, decode)
  {
  }

  /** Without a schema file, a failure decodes the built-in default schema. */
  lemma MissingSchemaFallback(files: TemplateFiles, id: string, decode: Decoder)
    requires id + ".json" !in files
    ensures SchemaFallback(ReadTemplate(files, id).schema, decode) == SchemaFallback("{\"data\": {}}", decode)
  {
  }

  // ---------------------------------------------------------------------------
  // The parser object
  // ---------------------------------------------------------------------------

  class Parser {
    /** Template id to its (schema, prompt) pair, as first read. */
    var cache: map<string, Template>

    constructor ()
      ensures cache == map[]
    {
      cache := map[];
    }

    /** `clear_cache`: forget every template so the next use reads the files again. */
    method ClearCache()
      modifies this
      ensures cache == map[]
      ensures Faithful(cache, map[])
    {
      cache := map[];
    }

    /** `_load_template`: the cached pair, or the files read (with defaults) and remembered. */
    method LoadTemplate(templateId: string, files: TemplateFiles) returns (t: Template)
      modifies this
      ensures t == CachedOrRead(old(cache), files, templateId)
      ensures templateId in old(cache) ==> t == old(cache)[templateId] && cache == old(cache)
      ensures cache == old(cache)[templateId := t]
      ensures old(Faithful(cache, files)) ==> Faithful(cache, files) && t == ReadTemplate(files, templateId)
    {
      if templateId in cache {
        t := cache[templateId];
        return;
      }
      var schema: string;
      if templateId + ".json" in files {
        schema := files[templateId + ".json"];
      } else {
        schema := DefaultSchema;
      }
      var prompt: string;
      if templateId + ".txt" in files {
        prompt := files[templateId + ".txt"];
      } else {
        prompt := DefaultPrompt;
      }
      t := Template(schema, prompt);
      cache := cache[templateId := t];
    }

    /** `_empty_result`: the template's schema decoded, or `{}` when it does not decode. */
    method EmptyResult(template: string, files: TemplateFiles, decode: Decoder) returns (r: Json)
      modifies this
      ensures r == SchemaFallback(CachedOrRead(old(cache), files, template).schema, decode)
      ensures cache == old(cache)[template := CachedOrRead(old(cache), files, template)]
    {
      var t := LoadTemplate(template, files);
      var parsed := decode(t.schema);
      if parsed.Some? {
        r := parsed.value;
      } else {
        r := JObject(map[]);
      }
    }

    /** `parse_markdown`: one LLM round trip for the document, falling back to the empty result. */
    method ParseMarkdown(markdown: string, model: string, template: string, numPredict: int,
                         files: TemplateFiles, chat: Chat, decode: Decoder) returns (r: Json)
      modifies this
      ensures var t := CachedOrRead(old(cache), files, template);
              && cache == old(cache)[template := t]
              && r == ParseReply(t, markdown, model, numPredict, chat, decode)
    {
      var t := LoadTemplate(template, files);
      ghost var loaded := cache;
      assert CachedOrRead(loaded, files, template) == t;
      var prompt := BuildPrompt(t, markdown);
      var reply := chat(model, prompt, numPredict);
      if reply.None? {
        r := EmptyResult(template, files, decode);
        assert cache == loaded;
        return;
      }
      var result := CleanReplyText(reply.value);
      var parsed := decode(result);
      if parsed.Some? && parsed.value.JObject? {
        r := parsed.value;
      } else {
        r := EmptyResult(template, files, decode);
        assert cache == loaded;
      }
    }
  }

  /** The module-level `get_llm_parser` singleton. */
  class Registry {
    var instance: Parser?

    constructor ()
      ensures instance == null
    {
      instance := null;
    }

    /** The one parser: created with an empty cache on first use, the same object afterwards. */
    method GetLlmParser() returns (p: Parser)
      modifies this
      ensures old(instance) != null ==> p == old(instance)
      ensures old(instance) == null ==> fresh(p) && p.cache == map[]
      ensures instance == p
    {
      if instance == null {
        instance := new Parser();
      }
      p := instance;
    }
  }
}
