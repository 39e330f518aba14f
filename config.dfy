/**
 * The backend's configuration tables: OCR quality presets, the template catalogue and
 * its category table, and the listing of templates sorted and grouped by category.
 * The glob of the templates directory is an input: the sequence of file stems it yields.
 */
module Config {
  import opened Wrappers
  import opened PyStrings

  // ---------------------------------------------------------------------------
  // Settings constants
  // ---------------------------------------------------------------------------

  /** `settings.max_file_size`: 10 MiB. */
  const MaxFileSize: nat := 10 * 1024 * 1024

  /** `settings.allowed_extensions`, in table order. */
  const AllowedExtensions: seq<string> := [".pdf", ".png", ".jpg", ".jpeg", ".webp"]

  /** `settings.device` (used when CUDA is available). */
  const DefaultDevice: string := "cuda"

  /** `settings.model_name`, reported as the OCR model version. */
  const ModelName: string := "deepseek-ai/DeepSeek-OCR-2"

  // ---------------------------------------------------------------------------
  // OCR quality presets
  // ---------------------------------------------------------------------------

  datatype Preset = Preset(baseSize: nat, matrixScale: real, tokens: nat, description: string, estTime: string)

  datatype PresetEntry = PresetEntry(key: string, preset: Preset)

  /** `OCR_QUALITY_PRESETS`, in its insertion order. */
  const PresetTable: seq<PresetEntry> := [
    PresetEntry("tiny", Preset(512, 1.5, 64, "Fastest, low detail", "~8s/page")),
    PresetEntry("small", Preset(640, 2.0, 100, "Quick processing", "~12s/page")),
    PresetEntry("base", Preset(1024, 2.0, 256, "Balanced quality/speed", "~25s/page")),
    PresetEntry("large", Preset(1280, 3.0, 400, "High detail, slower", "~40s/page"))
  ]

  /** Index of the `base` preset in the table. */
  const BaseIndex: nat := 2

  /** The first table entry with the given key, as a Python dict lookup finds it. */
  function FindPreset(table: seq<PresetEntry>, key: string): (r: Option<Preset>)
    ensures r.None? ==> forall i :: 0 <= i < |table| ==> table[i].key != key
    ensures r.Some? ==> exists i :: 0 <= i < |table| && table[i].key == key && table[i].preset == r.value
  {
    if |table| == 0 then None
    else if table[0].key == key then Some(table[0].preset)
    else
      var r := FindPreset(table[1..], key);
      assert r.Some? ==> exists i :: 1 <= i < |table| && table[i].key == key && table[i].preset == r.value by {
        if r.Some? {
          var i :| 0 <= i < |table[1..]| && table[1..][i].key == key && table[1..][i].preset == r.value;
          assert table[i + 1] == table[1..][i];
        }
      }
      r
  }

  /** The preset keys are pairwise distinct, as the keys of a dict are. */
  lemma PresetKeysDistinct()
    ensures forall i, j :: 0 <= i < j < |PresetTable| ==> PresetTable[i].key != PresetTable[j].key
  {
  }

  /**
   * `get_ocr_quality_settings(quality)`: the preset named `quality`, or the `base`
   * preset (base size 1024) for any other string.
   */
  function GetOcrQualitySettings(quality: string): (p: Preset)
    ensures forall i :: 0 <= i < |PresetTable| && PresetTable[i].key == quality ==> p == PresetTable[i].preset
    ensures (forall i :: 0 <= i < |PresetTable| ==> PresetTable[i].key != quality) ==>
              p == PresetTable[BaseIndex].preset && p.baseSize == 1024
  {
    PresetKeysDistinct();
    FindPreset(PresetTable, quality).GetOr(PresetTable[BaseIndex].preset)
  }

  /** Base size and token budget both strictly grow from `tiny` through `large`. */
  lemma PresetsIncrease()
    ensures forall i, j :: 0 <= i < j < |PresetTable| ==>
              PresetTable[i].preset.baseSize < PresetTable[j].preset.baseSize
              && PresetTable[i].preset.tokens < PresetTable[j].preset.tokens
  {
  }

  // ---------------------------------------------------------------------------
  // Template catalogue
  // ---------------------------------------------------------------------------

  datatype Label = Label(category: string, name: string)

  /** `TEMPLATE_CATEGORIES`: template id to (category, display name). */
  const TemplateCategories: map<string, Label> := map[
    "resume" := Label("Business", "Resume/CV"),
    "receipt" := Label("Business", "Receipt"),
    "invoice" := Label("Business", "Invoice"),
    "purchase_order" := Label("Business", "Purchase Order"),
    "business_card" := Label("Business", "Business Card"),
    "contract" := Label("Business", "Contract"),
    "id_card" := Label("Identity", "ID Card / Driver's License"),
    "passport" := Label("Identity", "Passport"),
    "visa" := Label("Identity", "Visa"),
    "bank_statement" := Label("Financial", "Bank Statement"),
    "tax_form" := Label("Financial", "Tax Form (W-2/1099)"),
    "pay_stub" := Label("Financial", "Pay Stub"),
    "medical_bill" := Label("Medical", "Medical Bill"),
    "prescription" := Label("Medical", "Prescription"),
    "lab_results" := Label("Medical", "Lab Results"),
    "transcript" := Label("Education", "Academic Transcript"),
    "diploma" := Label("Education", "Diploma/Certificate"),
    "report_card" := Label("Education", "Report Card"),
    "shipping_label" := Label("Shipping", "Shipping Label"),
    "bill_of_lading" := Label("Shipping", "Bill of Lading"),
    "customs_declaration" := Label("Shipping", "Customs Declaration"),
    "lease_agreement" := Label("Real Estate", "Lease Agreement"),
    "menu" := Label("Hospitality", "Restaurant Menu"),
    "restaurant_bill" := Label("Hospitality", "Restaurant Bill")
  ]

  const OtherCategory: string := "Other"

  /** One entry of `list_templates()`. */
  datatype TemplateInfo = TemplateInfo(id: string, name: string, category: string)

  /** The entry built for one file stem. */
  function Describe(stem: string): TemplateInfo {
    if stem in TemplateCategories then
      TemplateInfo(stem, TemplateCategories[stem].name, TemplateCategories[stem].category)
    else
      TemplateInfo(stem, Title(ReplaceChar(stem, '_', ' ')), OtherCategory)
  }

  /** A catalogued stem gets exactly the table's category and display name. */
  lemma DescribeKnown(stem: string)
    requires stem in TemplateCategories
    ensures Describe(stem).id == stem
    ensures Describe(stem).category == TemplateCategories[stem].category
    ensures Describe(stem).name == TemplateCategories[stem].name
  {
  }

  /**
   * An unknown stem is filed under "Other"; its display name has a space for every `_`,
   * a capital at the start of each word (after any non-letter) and small letters elsewhere.
   */
  lemma DescribeUnknown(stem: string)
    requires stem !in TemplateCategories
    ensures var t := Describe(stem);
            && t.id == stem && t.category == OtherCategory
            && |t.name| == |stem|
            && forall i :: 0 <= i < |stem| ==>
                 t.name[i] == if stem[i] == '_' then ' '
                              else if i > 0 && IsAsciiLetter(stem[i - 1]) then LowerChar(stem[i])
                              else UpperChar(stem[i])
  {
    var spaced := ReplaceChar(stem, '_', ' ');
    TitleAt(spaced);
  }

  /** The entries built for the globbed stems, in glob order. */
  function DescribeAll(stems: seq<string>): (ts: seq<TemplateInfo>)
    ensures |ts| == |stems|
    ensures forall i :: 0 <= i < |stems| ==> ts[i] == Describe(stems[i])
  {
    seq(|stems|, i requires 0 <= i < |stems| => Describe(stems[i]))
  }

  // ---------------------------------------------------------------------------
  // Sorting by (category, name), stably, as Python's `sorted` does
  // ---------------------------------------------------------------------------

  /** `(a.category, a.name) < (b.category, b.name)` on Python tuples of strings. */
  predicate KeyLt(a: TemplateInfo, b: TemplateInfo) {
    LexLt(a.category, b.category) || (a.category == b.category && LexLt(a.name, b.name))
  }

  predicate SameKey(a: TemplateInfo, b: TemplateInfo) {
    a.category == b.category && a.name == b.name
  }

  /** No later entry has a smaller key than an earlier one. */
  predicate Sorted(s: seq<TemplateInfo>) {
    forall i, j :: 0 <= i < j < |s| ==> !KeyLt(s[j], s[i])
  }

  /** The entries of `s` whose key is (category, name), in their order in `s`. */
  function FilterKey(s: seq<TemplateInfo>, category: string, name: string): seq<TemplateInfo>
  {
    if |s| == 0 then []
    else
      FilterKey(s[..|s| - 1], category, name)
      + (if s[|s| - 1].category == category && s[|s| - 1].name == name then [s[|s| - 1]] else [])
  }

  /** Place `x` after every entry whose key is not greater than its own. */
  function Insert(t: seq<TemplateInfo>, x: TemplateInfo): seq<TemplateInfo>
  {
    if |t| == 0 then [x]
    else if !KeyLt(x, t[|t| - 1]) then t + [x]
    else Insert(t[..|t| - 1], x) + [t[|t| - 1]]
  }

  /** `sorted(s, key=lambda x: (x["category"], x["name"]))`. */
  function SortTemplates(s: seq<TemplateInfo>): seq<TemplateInfo>
  {
    if |s| == 0 then [] else Insert(SortTemplates(s[..|s| - 1]), s[|s| - 1])
  }

  lemma KeyLtIrreflexive(a: TemplateInfo)
    ensures !KeyLt(a, a)
  {
    LexLtIrreflexive(a.category);
    LexLtIrreflexive(a.name);
  }

  lemma KeyLtTransitive(a: TemplateInfo, b: TemplateInfo, c: TemplateInfo)
    requires KeyLt(a, b) && KeyLt(b, c)
    ensures KeyLt(a, c)
  {
    if LexLt(a.category, b.category) && LexLt(b.category, c.category) {
      LexLtTransitive(a.category, b.category, c.category);
    } else if a.category == b.category && b.category == c.category {
      LexLtTransitive(a.name, b.name, c.name);
    }
  }

  lemma KeyLtTotal(a: TemplateInfo, b: TemplateInfo)
    ensures KeyLt(a, b) || SameKey(a, b) || KeyLt(b, a)
  {
    LexLtTrichotomy(a.category, b.category);
    LexLtTrichotomy(a.name, b.name);
  }

  lemma KeyLtAsymmetric(a: TemplateInfo, b: TemplateInfo)
    requires KeyLt(a, b)
    ensures !KeyLt(b, a) && !SameKey(a, b)
  {
    KeyLtIrreflexive(a);
    if KeyLt(b, a) { KeyLtTransitive(a, b, a); }
  }

  lemma {:induction false} InsertPermutes(t: seq<TemplateInfo>, x: TemplateInfo)
    ensures multiset(Insert(t, x)) == multiset(t) + multiset{x}
    decreases |t|
  {
    if |t| > 0 && KeyLt(x, t[|t| - 1]) {
      var init, last := t[..|t| - 1], t[|t| - 1];
      InsertPermutes(init, x);
      assert t == init + [last];
    }
  }

  lemma {:induction false} InsertSorted(t: seq<TemplateInfo>, x: TemplateInfo)
    requires Sorted(t)
    ensures Sorted(Insert(t, x))
    decreases |t|
  {
    if |t| == 0 {
    } else if !KeyLt(x, t[|t| - 1]) {
      var last := t[|t| - 1];
      forall i | 0 <= i < |t| ensures !KeyLt(x, t[i]) {
        if i < |t| - 1 {
          KeyLtTotal(t[i], last);
          if KeyLt(x, t[i]) {
            if KeyLt(t[i], last) { KeyLtTransitive(x, t[i], last); }
          }
        }
      }
    } else {
      var init, last := t[..|t| - 1], t[|t| - 1];
      assert Sorted(init);
      InsertSorted(init, x);
      InsertPermutes(init, x);
      var u := Insert(init, x);
      forall i | 0 <= i < |u| ensures !KeyLt(last, u[i]) {
        assert u[i] in multiset(u);
        if u[i] == x {
          KeyLtAsymmetric(x, last);
        } else {
          assert u[i] in multiset(init);
          var k :| 0 <= k < |init| && init[k] == u[i];
          assert t[k] == init[k];
        }
      }
    }
  }

  lemma FilterKeySnoc(s: seq<TemplateInfo>, x: TemplateInfo, category: string, name: string)
    ensures FilterKey(s + [x], category, name) ==
              FilterKey(s, category, name) + (if x.category == category && x.name == name then [x] else [])
  {
    assert (s + [x])[..|s|] == s;
  }

  /** Inserting keeps, for every key, the entries with that key in their order, `x` last. */
  lemma {:induction false} InsertFilter(t: seq<TemplateInfo>, x: TemplateInfo, category: string, name: string)
    ensures FilterKey(Insert(t, x), category, name) == FilterKey(t + [x], category, name)
    decreases |t|
  {
    if |t| > 0 && KeyLt(x, t[|t| - 1]) {
      var init, last := t[..|t| - 1], t[|t| - 1];
      InsertFilter(init, x, category, name);
      KeyLtAsymmetric(x, last);
      FilterKeySnoc(Insert(init, x), last, category, name);
      FilterKeySnoc(init, x, category, name);
      FilterKeySnoc(init, last, category, name);
      assert t == init + [last];
      FilterKeySnoc(t, x, category, name);
    }
  }

  lemma {:induction false} SortTemplatesPermutes(s: seq<TemplateInfo>)
    ensures multiset(SortTemplates(s)) == multiset(s)
  {
    if |s| > 0 {
      var init, last := s[..|s| - 1], s[|s| - 1];
      SortTemplatesPermutes(init);
      InsertPermutes(SortTemplates(init), last);
      assert s == init + [last];
    }
  }

  lemma {:induction false} SortTemplatesSorted(s: seq<TemplateInfo>)
    ensures Sorted(SortTemplates(s))
  {
    if |s| > 0 {
      SortTemplatesSorted(s[..|s| - 1]);
      InsertSorted(SortTemplates(s[..|s| - 1]), s[|s| - 1]);
    }
  }

  lemma {:induction false} SortTemplatesStable(s: seq<TemplateInfo>, c: string, n: string)
    ensures FilterKey(SortTemplates(s), c, n) == FilterKey(s, c, n)
  {
    if |s| > 0 {
      var init, last := s[..|s| - 1], s[|s| - 1];
      var t := SortTemplates(init);
      SortTemplatesStable(init, c, n);
      InsertFilter(t, last, c, n);
      FilterKeySnoc(t, last, c, n);
    }
  }

  /**
   * The sort is Python's stable sort: the result is ordered by (category, name), is a
   * permutation of the input, and entries with equal keys keep their input order.
   */
  lemma SortTemplatesCorrect(s: seq<TemplateInfo>)
    ensures |SortTemplates(s)| == |s|
    ensures Sorted(SortTemplates(s))
    ensures multiset(SortTemplates(s)) == multiset(s)
    ensures forall c, n :: FilterKey(SortTemplates(s), c, n) == FilterKey(s, c, n)
  {
    SortTemplatesPermutes(s);
    assert |multiset(SortTemplates(s))| == |SortTemplates(s)|;
    SortTemplatesSorted(s);
    forall c, n ensures FilterKey(SortTemplates(s), c, n) == FilterKey(s, c, n) {
      SortTemplatesStable(s, c, n);
    }
  }

  /**
   * `list_templates()` over the stems of the `*.json` files: one entry per stem, sorted
   * by (category, name), stably.
   */
  method ListTemplates(stems: seq<string>) returns (templates: seq<TemplateInfo>)
    ensures templates == SortTemplates(DescribeAll(stems))
    ensures |templates| == |stems|
    ensures Sorted(templates)
    ensures multiset(templates) == multiset(DescribeAll(stems))
    ensures forall c, n :: FilterKey(templates, c, n) == FilterKey(DescribeAll(stems), c, n)
  {
    var found: seq<TemplateInfo> := [];
    for i := 0 to |stems|
      invariant found == DescribeAll(stems[..i])
    {
      var entry := Describe(stems[i]);
      found := found + [entry];
    }
    assert stems[..|stems|] == stems;
    templates := SortTemplates(found);
    SortTemplatesCorrect(found);
  }

  /** Every listed entry comes from exactly the stem it names, and every stem is listed. */
  lemma ListedEntries(stems: seq<string>)
    ensures var ts := SortTemplates(DescribeAll(stems));
            && (forall i :: 0 <= i < |stems| ==> Describe(stems[i]) in ts)
            && (forall t :: t in ts ==> t.id in stems && t == Describe(t.id))
  {
    var all := DescribeAll(stems);
    var ts := SortTemplates(all);
    SortTemplatesCorrect(all);
    forall i | 0 <= i < |stems| ensures Describe(stems[i]) in ts {
      assert all[i] in multiset(all);
    }
    forall t | t in ts ensures t.id in stems && t == Describe(t.id) {
      assert t in multiset(all);
      var i :| 0 <= i < |all| && all[i] == t;
    }
  }

  // ---------------------------------------------------------------------------
  // Grouping by category
  // ---------------------------------------------------------------------------

  /** One entry of a category bucket: only id and name. */
  datatype Entry = Entry(id: string, name: string)

  /** One key of `list_templates_by_category()` and its list. */
  datatype Bucket = Bucket(category: string, entries: seq<Entry>)

  function Categories(ts: seq<TemplateInfo>): (cs: seq<string>)
    ensures |cs| == |ts| && forall i :: 0 <= i < |ts| ==> cs[i] == ts[i].category
  {
    seq(|ts|, i requires 0 <= i < |ts| => ts[i].category)
  }

  function Keys(buckets: seq<Bucket>): (ks: seq<string>)
    ensures |ks| == |buckets| && forall i :: 0 <= i < |buckets| ==> ks[i] == buckets[i].category
  {
    seq(|buckets|, i requires 0 <= i < |buckets| => buckets[i].category)
  }

  /** The elements of `s` in order of first appearance, each once. */
  function Dedup(s: seq<string>): seq<string>
  {
    if |s| == 0 then []
    else
      var d := Dedup(s[..|s| - 1]);
      if s[|s| - 1] in d then d else d + [s[|s| - 1]]
  }

  lemma {:induction false} DedupFacts(s: seq<string>)
    ensures forall x :: x in Dedup(s) <==> x in s
    ensures forall i, j :: 0 <= i < j < |Dedup(s)| ==> Dedup(s)[i] != Dedup(s)[j]
  {
    if |s| > 0 {
      DedupFacts(s[..|s| - 1]);
      assert s == s[..|s| - 1] + [s[|s| - 1]];
    }
  }

  /** The entries of `s` in category `c`, in their order in `s`. */
  function FilterCategory(s: seq<TemplateInfo>, c: string): seq<TemplateInfo>
  {
    if |s| == 0 then []
    else FilterCategory(s[..|s| - 1], c) + (if s[|s| - 1].category == c then [s[|s| - 1]] else [])
  }

  /** The projection of template entries to their (id, name) pairs. */
  function Project(ts: seq<TemplateInfo>): (es: seq<Entry>)
    ensures |es| == |ts| && forall i :: 0 <= i < |ts| ==> es[i] == Entry(ts[i].id, ts[i].name)
  {
    seq(|ts|, i requires 0 <= i < |ts| => Entry(ts[i].id, ts[i].name))
  }

  /** Index of the bucket keyed `c`, or -1: the dict membership test `c in by_category`. */
  function BucketIndex(buckets: seq<Bucket>, c: string): (r: int)
    ensures -1 <= r < |buckets|
    ensures r >= 0 ==> buckets[r].category == c
    ensures r < 0 ==> forall i :: 0 <= i < |buckets| ==> buckets[i].category != c
  {
    if |buckets| == 0 then -1
    else if buckets[|buckets| - 1].category == c then |buckets| - 1
    else BucketIndex(buckets[..|buckets| - 1], c)
  }

  /** The buckets that grouping the entries `ts` in order produces (the dict's items in order). */
  ghost predicate GroupsOf(buckets: seq<Bucket>, ts: seq<TemplateInfo>) {
    && Keys(buckets) == Dedup(Categories(ts))
    && forall b :: 0 <= b < |buckets| ==> buckets[b].entries == Project(FilterCategory(ts, buckets[b].category))
  }

  lemma FilterCategorySnoc(s: seq<TemplateInfo>, t: TemplateInfo, c: string)
    ensures FilterCategory(s + [t], c) == FilterCategory(s, c) + (if t.category == c then [t] else [])
  {
    assert (s + [t])[..|s|] == s;
  }

  lemma ProjectConcat(a: seq<TemplateInfo>, b: seq<TemplateInfo>)
    ensures Project(a + b) == Project(a) + Project(b)
  {
  }

  lemma DedupSnoc(s: seq<string>, x: string)
    ensures Dedup(s + [x]) == if x in s then Dedup(s) else Dedup(s) + [x]
  {
    assert (s + [x])[..|s|] == s;
    DedupFacts(s);
  }

  /** Appending an entry to the existing bucket of its category. */
  lemma GroupsStepExisting(buckets: seq<Bucket>, ts: seq<TemplateInfo>, t: TemplateInfo, j: nat)
    requires GroupsOf(buckets, ts)
    requires j < |buckets| && buckets[j].category == t.category
    ensures GroupsOf(buckets[j := Bucket(t.category, buckets[j].entries + [Entry(t.id, t.name)])], ts + [t])
  {
    var ts' := ts + [t];
    var next := buckets[j := Bucket(t.category, buckets[j].entries + [Entry(t.id, t.name)])];
    assert Categories(ts') == Categories(ts) + [t.category];
    DedupFacts(Categories(ts));
    assert t.category in Dedup(Categories(ts)) by {
      assert Keys(buckets)[j] == t.category;
    }
    DedupSnoc(Categories(ts), t.category);
    assert Keys(next) == Keys(buckets);
    forall b | 0 <= b < |next|
      ensures next[b].entries == Project(FilterCategory(ts', next[b].category))
    {
      FilterCategorySnoc(ts, t, next[b].category);
      if b == j {
        ProjectConcat(FilterCategory(ts, t.category), [t]);
      } else {
        assert Keys(buckets)[b] != Keys(buckets)[j];
      }
    }
  }

  /** Opening a new bucket for a category not seen before. */
  lemma GroupsStepNew(buckets: seq<Bucket>, ts: seq<TemplateInfo>, t: TemplateInfo)
    requires GroupsOf(buckets, ts)
    requires forall i :: 0 <= i < |buckets| ==> buckets[i].category != t.category
    ensures GroupsOf(buckets + [Bucket(t.category, [Entry(t.id, t.name)])], ts + [t])
  {
    var ts' := ts + [t];
    var next := buckets + [Bucket(t.category, [Entry(t.id, t.name)])];
    assert Categories(ts') == Categories(ts) + [t.category];
    DedupFacts(Categories(ts));
    assert t.category !in Keys(buckets);
    DedupSnoc(Categories(ts), t.category);
    assert Keys(next) == Keys(buckets) + [t.category];
    assert forall i :: 0 <= i < |ts| ==> ts[i].category != t.category by {
      forall i | 0 <= i < |ts| ensures ts[i].category != t.category {
        assert Categories(ts)[i] == ts[i].category;
      }
    }
    FilterCategoryNone(ts, t.category);
    forall b | 0 <= b < |next|
      ensures next[b].entries == Project(FilterCategory(ts', next[b].category))
    {
      FilterCategorySnoc(ts, t, next[b].category);
      if b == |buckets| {
        assert FilterCategory(ts', t.category) == [t];
      }
    }
  }

  lemma {:induction false} FilterCategoryNone(s: seq<TemplateInfo>, c: string)
    requires forall i :: 0 <= i < |s| ==> s[i].category != c
    ensures FilterCategory(s, c) == []
  {
    if |s| > 0 {
      FilterCategoryNone(s[..|s| - 1], c);
    }
  }

  lemma {:induction false} FilterCategoryMembers(s: seq<TemplateInfo>, c: string)
    ensures forall x :: x in FilterCategory(s, c) <==> x in s && x.category == c
  {
    if |s| > 0 {
      FilterCategoryMembers(s[..|s| - 1], c);
      assert s == s[..|s| - 1] + [s[|s| - 1]];
    }
  }

  /**
   * `list_templates_by_category()`: one bucket per category present, in order of first
   * appearance in the sorted listing; each bucket holds the (id, name) of exactly the
   * entries of its category, in listing order.
   */
  method ListTemplatesByCategory(stems: seq<string>) returns (buckets: seq<Bucket>)
    ensures var ts := SortTemplates(DescribeAll(stems));
            && Keys(buckets) == Dedup(Categories(ts))
            && forall b :: 0 <= b < |buckets| ==>
                 buckets[b].entries == Project(FilterCategory(ts, buckets[b].category))
  {
    var templates := ListTemplates(stems);
    buckets := [];
    for i := 0 to |templates|
      invariant GroupsOf(buckets, templates[..i])
    {
      var t := templates[i];
      var j := BucketIndex(buckets, t.category);
      assert templates[..i + 1] == templates[..i] + [t];
      if j < 0 {
        GroupsStepNew(buckets, templates[..i], t);
        ghost var grown := buckets + [Bucket(t.category, [Entry(t.id, t.name)])];
        buckets := buckets + [Bucket(t.category, [])];
        j := |buckets| - 1;
        assert [] + [Entry(t.id, t.name)] == [Entry(t.id, t.name)];
        assert buckets[j := Bucket(t.category, buckets[j].entries + [Entry(t.id, t.name)])] == grown;
      } else {
        GroupsStepExisting(buckets, templates[..i], t, j);
      }
      buckets := buckets[j := Bucket(t.category, buckets[j].entries + [Entry(t.id, t.name)])];
    }
    assert templates[..|templates|] == templates;
  }

  /** Every listed template sits in the one bucket keyed by its category, and the keys are the categories present. */
  lemma BucketsPartition(ts: seq<TemplateInfo>, buckets: seq<Bucket>)
    requires GroupsOf(buckets, ts)
    ensures forall i, j :: 0 <= i < j < |buckets| ==> buckets[i].category != buckets[j].category
    ensures forall c :: c in Keys(buckets) <==> c in Categories(ts)
    ensures forall t :: t in ts ==>
              exists b :: 0 <= b < |buckets| && buckets[b].category == t.category
                          && Entry(t.id, t.name) in buckets[b].entries
  {
    DedupFacts(Categories(ts));
    forall t | t in ts
      ensures exists b :: 0 <= b < |buckets| && buckets[b].category == t.category
                          && Entry(t.id, t.name) in buckets[b].entries
    {
      var k :| 0 <= k < |ts| && ts[k] == t;
      assert Categories(ts)[k] == t.category;
      assert t.category in Keys(buckets);
      var b :| 0 <= b < |buckets| && Keys(buckets)[b] == t.category;
      FilterCategoryMembers(ts, t.category);
      var f := FilterCategory(ts, t.category);
      var m :| 0 <= m < |f| && f[m] == t;
      assert Project(f)[m] == Entry(t.id, t.name);
    }
  }

  /** Within a bucket of a sorted listing, entries are ordered by display name. */
  predicate SortedByName(f: seq<TemplateInfo>) {
    forall i, j :: 0 <= i < j < |f| ==> !LexLt(f[j].name, f[i].name)
  }

  lemma {:induction false} FilterCategorySorted(s: seq<TemplateInfo>, c: string)
    requires Sorted(s)
    ensures SortedByName(FilterCategory(s, c))
  {
    if |s| > 0 {
      var init, last := s[..|s| - 1], s[|s| - 1];
      assert Sorted(init);
      FilterCategorySorted(init, c);
      FilterCategoryMembers(init, c);
      var f0 := FilterCategory(init, c);
      var f := FilterCategory(s, c);
      if last.category == c {
        assert f == f0 + [last];
        forall i | 0 <= i < |f0| ensures !LexLt(last.name, f0[i].name) {
          assert f0[i] in init;
          var k :| 0 <= k < |init| && init[k] == f0[i];
          assert s[k] == f0[i];
          assert !KeyLt(last, s[k]);
        }
        forall i, j | 0 <= i < j < |f| ensures !LexLt(f[j].name, f[i].name) {
          if j == |f0| {
            assert f[j] == last && f[i] == f0[i];
            assert !LexLt(last.name, f0[i].name);
          } else {
            assert f[j] == f0[j] && f[i] == f0[i];
            assert !LexLt(f0[j].name, f0[i].name);
          }
        }
      } else {
        assert f == f0;
      }
    }
  }
}
