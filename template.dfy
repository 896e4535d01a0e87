/**
 * The template catalog and placeholder substitution of
 * backend/src/services/template.service.js: five stored templates keyed by
 * id, lookups that answer `null` for an unknown id, a summary listing in
 * catalog order, and `generateHTML`, which replaces `{{key}}` and `[KEY]`
 * for each data key in turn.
 */
module TemplateService {
  import opened Wrappers
  import opened Text

  // --------------------------------------------------------------- catalog

  datatype TemplateRecord = TemplateRecord(id: string, name: string, description: string, category: string, html: string)

  /** What the listing shows of a template: everything but its HTML. */
  datatype TemplateSummary = TemplateSummary(id: string, name: string, description: string, category: string)

  /**
   * A stored page: the decorative markup is not part of this model, only the
   * doctype, the title with its placeholder, the placeholders of the body in
   * order, and the closing tag.
   */
  function Page(title: string, placeholders: seq<string>): (html: string)
    ensures StartsWith(html, Doctype) && EndsWith(html, ClosingTag)
  {
    var rest := "\n<html lang=\"en\">\n<head>\n  <title>" + title + "</title>\n</head>\n<body>\n"
                + Join(placeholders, "\n") + "\n</body>\n";
    StartsWithAppend(Doctype, rest + ClosingTag);
    AppendAssoc(Doctype, rest, ClosingTag);
    EndsWithAppend(Doctype + rest, ClosingTag);
    Doctype + rest + ClosingTag
  }

  /** The keys of the catalog object. */
  datatype TemplateKey = ProfessionalReportKey | SeoReportKey | ResumeKey | MeetingNotesKey | InvoiceKey

  /** The property name each record is stored under. */
  function KeyName(k: TemplateKey): string {
    match k
    case ProfessionalReportKey => "professional-report"
    case SeoReportKey => "seo-report"
    case ResumeKey => "resume"
    case MeetingNotesKey => "meeting-notes"
    case InvoiceKey => "invoice"
  }

  /** The record stored under each key: its id, texts and page. */
  function Record(k: TemplateKey): TemplateRecord {
    TemplateRecord(RecordId(k), DisplayName(k), Description(k), Category(k), Page(PageTitle(k), Placeholders(k)))
  }

  /** The `id` field written inside each record. */
  function RecordId(k: TemplateKey): string {
    match k
    case ProfessionalReportKey => "professional-report"
    case SeoReportKey => "seo-report"
    case ResumeKey => "resume"
    case MeetingNotesKey => "meeting-notes"
    case InvoiceKey => "invoice"
  }

  function DisplayName(k: TemplateKey): string {
    match k
    case ProfessionalReportKey => "Professional Report"
    case SeoReportKey => "SEO Analysis Report"
    case ResumeKey => "Professional Resume"
    case MeetingNotesKey => "Meeting Notes"
    case InvoiceKey => "Invoice"
  }

  function Description(k: TemplateKey): string {
    match k
    case ProfessionalReportKey => "Clean, formal report layout with sections for summary, analysis, and recommendations"
    case SeoReportKey => "Comprehensive SEO audit template with metrics, scores, and improvement suggestions"
    case ResumeKey => "Modern resume layout with sections for experience, skills, and education"
    case MeetingNotesKey => "Organized meeting minutes with attendees, agenda, action items"
    case InvoiceKey => "Professional invoice template with line items and totals"
  }

  function Category(k: TemplateKey): string {
    match k
    case ProfessionalReportKey => "Business"
    case SeoReportKey => "Marketing"
    case ResumeKey => "Career"
    case MeetingNotesKey => "Business"
    case InvoiceKey => "Finance"
  }

  function PageTitle(k: TemplateKey): string {
    match k
    case ProfessionalReportKey => "[TITLE]"
    case SeoReportKey => "SEO Analysis Report - [WEBSITE]"
    case ResumeKey => "[CANDIDATE_NAME] - Resume"
    case MeetingNotesKey => "Meeting Notes - [MEETING_TITLE]"
    case InvoiceKey => "Invoice #[INVOICE_NUMBER]"
  }

  /** The placeholders of each page's body, in document order. */
  function Placeholders(k: TemplateKey): seq<string> {
    match k
    case ProfessionalReportKey =>
      ["[TITLE]", "[DATE]", "[SUMMARY]", "[KEY_DETAILS]", "[ANALYSIS]", "[RECOMMENDATIONS]"]
    case SeoReportKey =>
      ["[WEBSITE]", "[SEO_SCORE]", "[PERFORMANCE_SCORE]", "[ACCESSIBILITY_SCORE]", "[BEST_PRACTICES]",
       "[SEO_GRADE]", "[KEY_FINDINGS]", "[ISSUES]", "[RECOMMENDATIONS]", "[TECHNICAL_DETAILS]", "[DATE]"]
    case ResumeKey =>
      ["[CANDIDATE_NAME]", "[PROFESSIONAL_TITLE]", "[CONTACT_INFO]", "[PROFESSIONAL_SUMMARY]", "[EXPERIENCE]",
       "[PROJECTS]", "[SKILLS]", "[EDUCATION]", "[CERTIFICATIONS]", "[LANGUAGES]"]
    case MeetingNotesKey =>
      ["[MEETING_TITLE]", "[DATE]", "[TIME]", "[LOCATION]", "[ATTENDEES]", "[AGENDA]", "[DISCUSSION]",
       "[DECISIONS]", "[ACTION_ITEMS]", "[NEXT_STEPS]"]
    case InvoiceKey =>
      ["[COMPANY_NAME]", "[COMPANY_ADDRESS]", "[INVOICE_NUMBER]", "[DATE]", "[DUE_DATE]", "[CLIENT_NAME]",
       "[CLIENT_ADDRESS]", "[PAYMENT_DETAILS]", "[LINE_ITEMS]", "[SUBTOTAL]", "[TAX]", "[TOTAL]", "[NOTES]"]
  }

  /** The catalog's keys in insertion order, the order `Object.values` follows. */
  const Catalog: seq<TemplateKey> := [ProfessionalReportKey, SeoReportKey, ResumeKey, MeetingNotesKey, InvoiceKey]

  /** Every record's id is the key it is stored under. */
  lemma IdIsKey(k: TemplateKey)
    ensures Record(k).id == KeyName(k)
  {
    match k
    case ProfessionalReportKey =>
    case SeoReportKey =>
    case ResumeKey =>
    case MeetingNotesKey =>
    case InvoiceKey =>
  }

  /** No key of the catalog is used twice, and every key is in it. */
  lemma CatalogKeysDistinct()
    ensures forall i, j :: 0 <= i < j < |Catalog| ==> KeyName(Catalog[i]) != KeyName(Catalog[j])
    ensures forall k: TemplateKey :: k in Catalog
  {
    forall k: TemplateKey
      ensures k in Catalog
    {
      match k
      case ProfessionalReportKey => assert Catalog[0] == k;
      case SeoReportKey => assert Catalog[1] == k;
      case ResumeKey => assert Catalog[2] == k;
      case MeetingNotesKey => assert Catalog[3] == k;
      case InvoiceKey => assert Catalog[4] == k;
    }
  }

  /** The first key of `keys` whose name is `id`: property access on the catalog object. */
  function Lookup(keys: seq<TemplateKey>, id: string): (r: Option<TemplateKey>)
    ensures r.None? <==> forall i :: 0 <= i < |keys| ==> KeyName(keys[i]) != id
    ensures r.Some? ==> KeyName(r.value) == id && r.value in keys
    decreases |keys|
  {
    if keys == [] then None
    else if KeyName(keys[0]) == id then Some(keys[0])
    else
      var r := Lookup(keys[1..], id);
      assert forall i :: 1 <= i < |keys| ==> keys[i] == keys[1..][i - 1];
      r
  }

  /** `getTemplateById`: the stored record, or nothing (`null`) for an unknown id. */
  function GetTemplateById(templateId: string): (r: Option<TemplateRecord>)
    ensures r.None? <==> forall k: TemplateKey :: KeyName(k) != templateId
    ensures r.Some? ==> r.value.id == templateId && exists k: TemplateKey :: KeyName(k) == templateId && r.value == Record(k)
  {
    CatalogKeysDistinct();
    match Lookup(Catalog, templateId)
    case None => None
    case Some(k) =>
      IdIsKey(k);
      Some(Record(k))
  }

  /** `getTemplateHtml`: the stored record's HTML, or nothing (`null`) for an unknown id. */
  function GetTemplateHtml(templateId: string): (r: Option<string>)
    ensures r.None? <==> GetTemplateById(templateId).None?
    ensures r.Some? ==> r.value == GetTemplateById(templateId).value.html
  {
    match Lookup(Catalog, templateId)
    case None => None
    case Some(k) => Some(Record(k).html)
  }

  /** Every stored page starts with the doctype and ends with the closing tag. */
  lemma StoredPagesAreDocuments(k: TemplateKey)
    ensures StartsWith(Record(k).html, Doctype) && EndsWith(Record(k).html, ClosingTag)
  {
  }

  function Summary(t: TemplateRecord): TemplateSummary {
    TemplateSummary(t.id, t.name, t.description, t.category)
  }

  /** `getAvailableTemplates`: one summary per catalog entry, in catalog order. */
  function GetAvailableTemplates(): (r: seq<TemplateSummary>)
    ensures |r| == |Catalog|
    ensures forall i :: 0 <= i < |r| ==> r[i] == Summary(Record(Catalog[i]))
  {
    seq(|Catalog|, i requires 0 <= i < |Catalog| => Summary(Record(Catalog[i])))
  }

  /** With distinct names, looking up an entry's name finds exactly that entry. */
  lemma {:induction false} LookupFindsKey(keys: seq<TemplateKey>, i: nat)
    requires i < |keys|
    requires forall a, b :: 0 <= a < b < |keys| ==> KeyName(keys[a]) != KeyName(keys[b])
    ensures Lookup(keys, KeyName(keys[i])) == Some(keys[i])
    decreases i
  {
    if i > 0 {
      assert KeyName(keys[0]) != KeyName(keys[i]);
      assert keys[1..][i - 1] == keys[i];
      forall a, b | 0 <= a < b < |keys[1..]|
        ensures KeyName(keys[1..][a]) != KeyName(keys[1..][b])
      {
        assert keys[1..][a] == keys[a + 1] && keys[1..][b] == keys[b + 1];
      }
      LookupFindsKey(keys[1..], i - 1);
    }
  }

  /** The summary listed at position `i` leads back, by its id, to the record it summarises. */
  lemma ListedEntryRoundTrip(i: nat)
    requires i < |Catalog|
    ensures GetTemplateById(GetAvailableTemplates()[i].id) == Some(Record(Catalog[i]))
  {
    CatalogKeysDistinct();
    IdIsKey(Catalog[i]);
    LookupFindsKey(Catalog, i);
  }

  /** Every listed summary leads back, by its id, to the record it summarises. */
  lemma ListingRoundTrip()
    ensures forall i :: 0 <= i < |GetAvailableTemplates()| ==>
      GetTemplateById(GetAvailableTemplates()[i].id) == Some(Record(Catalog[i]))
  {
    forall i | 0 <= i < |GetAvailableTemplates()|
      ensures GetTemplateById(GetAvailableTemplates()[i].id) == Some(Record(Catalog[i]))
    {
      ListedEntryRoundTrip(i);
    }
  }

  // ---------------------------------------------------------- substitution

  /** A data value: a truthy value and its string form, or a falsy one (replaced by the empty string). */
  datatype DataValue = Value(text: string) | Falsy

  function ValueText(v: DataValue): string {
    match v
    case Value(t) => t
    case Falsy => ""
  }

  function CurlyToken(key: string): (t: string)
    ensures |t| > 0
  {
    "{{" + key + "}}"
  }

  function BracketToken(key: string): (t: string)
    ensures |t| > 0
  {
    "[" + Upper(key) + "]"
  }

  /** One key's step: every `{{key}}`, then every `[KEY]`, becomes the value. */
  function SubstituteKey(html: string, key: string, value: DataValue): string {
    ReplaceAll(ReplaceAll(html, CurlyToken(key), ValueText(value)), BracketToken(key), ValueText(value))
  }

  /** The keys' steps, in key order, each applied to the result of the ones before. */
  function SubstituteAll(html: string, data: seq<(string, DataValue)>): string
    decreases |data|
  {
    if data == [] then html else SubstituteAll(SubstituteKey(html, data[0].0, data[0].1), data[1..])
  }

  const TemplateRequired: string := "HTML template is required"

  /**
   * `generateHTML`: a missing or empty template is refused; `data` that is
   * not an object (`None`) leaves the template as it is.
   */
  function Generated(customTemplate: Option<string>, data: Option<seq<(string, DataValue)>>): (r: Result<string>)
    ensures r.Err? <==> customTemplate.None? || customTemplate.value == ""
    ensures r.Err? ==> r.error == TemplateRequired
    ensures r.Ok? && (data.None? || data.value == []) ==> r.value == customTemplate.value
    ensures r.Ok? && data.Some? ==> r.value == SubstituteAll(customTemplate.value, data.value)
  {
    if customTemplate.None? || customTemplate.value == "" then Err(TemplateRequired)
    else if data.None? then Ok(customTemplate.value)
    else Ok(SubstituteAll(customTemplate.value, data.value))
  }

  /** `generateHTML`, step by step over the data keys. */
  method GenerateHtml(customTemplate: Option<string>, data: Option<seq<(string, DataValue)>>) returns (r: Result<string>)
    ensures r == Generated(customTemplate, data)
  {
    if customTemplate.None? || customTemplate.value == "" {
      return Err(TemplateRequired);
    }
    var htmlContent := customTemplate.value;
    if data.Some? {
      var keys := data.value;
      var i := 0;
      while i < |keys|
        invariant 0 <= i <= |keys|
        invariant SubstituteAll(customTemplate.value, keys) == SubstituteAll(htmlContent, keys[i..])
      {
        assert keys[i..][0] == keys[i] && keys[i..][1..] == keys[i + 1..];
        var key := keys[i].0;
        htmlContent := ReplaceAll(htmlContent, CurlyToken(key), ValueText(keys[i].1));
        htmlContent := ReplaceAll(htmlContent, BracketToken(key), ValueText(keys[i].1));
        i := i + 1;
      }
      assert keys[|keys|..] == [];
    }
    return Ok(htmlContent);
  }

  /** Keys are processed in order: the data splits into the steps of its first part, then of the rest. */
  lemma {:induction false} SubstituteSequential(html: string, p: seq<(string, DataValue)>, q: seq<(string, DataValue)>)
    ensures SubstituteAll(html, p + q) == SubstituteAll(SubstituteAll(html, p), q)
    decreases |p|
  {
    if p == [] {
      assert p + q == q;
    } else {
      assert (p + q)[0] == p[0] && (p + q)[1..] == p[1..] + q;
      SubstituteSequential(SubstituteKey(html, p[0].0, p[0].1), p[1..], q);
    }
  }

  /** One key's step cuts at `{{key}}` and joins with the value, then does the same at `[KEY]`. */
  lemma SubstituteKeyIsSplitJoin(html: string, key: string, value: DataValue)
    ensures SubstituteKey(html, key, value)
         == Join(SplitOn(Join(SplitOn(html, CurlyToken(key)), ValueText(value)), BracketToken(key)), ValueText(value))
  {
    var v := ValueText(value);
    ReplaceAllIsSplitJoin(html, CurlyToken(key), v);
    ReplaceAllIsSplitJoin(ReplaceAll(html, CurlyToken(key), v), BracketToken(key), v);
  }

  /** A template holding no token of any data key comes back unchanged. */
  lemma {:induction false} SubstituteWithoutTokens(html: string, data: seq<(string, DataValue)>)
    requires forall i :: 0 <= i < |data| ==> !Contains(html, CurlyToken(data[i].0)) && !Contains(html, BracketToken(data[i].0))
    ensures SubstituteAll(html, data) == html
    decreases |data|
  {
    if data != [] {
      ReplaceAllAbsent(html, CurlyToken(data[0].0), ValueText(data[0].1));
      ReplaceAllAbsent(html, BracketToken(data[0].0), ValueText(data[0].1));
      assert forall i :: 0 <= i < |data| - 1 ==> data[1..][i] == data[i + 1];
      SubstituteWithoutTokens(html, data[1..]);
    }
  }

  // ------------------------------------------------ unlisted placeholders

  /** No brace and no square bracket: the characters placeholder syntax is made of. */
  predicate PlainKey(key: string) {
    forall j :: 0 <= j < |key| ==> key[j] !in "{}[]"
  }

  lemma UpperPlain(key: string)
    requires PlainKey(key)
    ensures PlainKey(Upper(key))
  {
  }

  lemma CurlyChar(key: string, j: nat)
    requires j < |key| + 4
    ensures |CurlyToken(key)| == |key| + 4
    ensures CurlyToken(key)[j] == if j < 2 then '{' else if j < |key| + 2 then key[j - 2] else '}'
  {
  }

  lemma BracketChar(key: string, j: nat)
    requires j < |key| + 2
    ensures |BracketToken(key)| == |key| + 2
    ensures BracketToken(key)[j] == if j == 0 then '[' else if j < |key| + 1 then Upper(key)[j - 1] else ']'
  {
  }

  /** Where the placeholder `y` sits, the text reads `y`. */
  lemma Embedded(p: string, y: string, q: string, j: nat)
    requires j < |y|
    ensures (p + y + q)[|p| + j] == y[j]
  {
  }

  /** `{{a}}` cannot overlap an embedded `{{k}}` of another plain key. */
  lemma CurlyApartFromCurly(p: string, k: string, q: string, a: string, i: nat)
    requires PlainKey(k) && PlainKey(a) && a != k
    requires i < |p| + |CurlyToken(k)| && i + |CurlyToken(a)| > |p|
    ensures !OccursAt(p + CurlyToken(k) + q, CurlyToken(a), i)
  {
    var m: nat;
    if i >= |p| + 2 {
      m := 0;
    } else if i == |p| + 1 {
      m := 1;
    } else if i == |p| {
      if |a| < |k| {
        m := |a| + 2;
      } else if |a| > |k| {
        m := |k| + 2;
      } else {
        var j :| 0 <= j < |a| && a[j] != k[j];
        m := j + 2;
      }
    } else if i + 1 == |p| {
      m := 2;
    } else {
      m := |p| - i;
    }
    CurlyChar(k, i + m - |p|);
    CurlyChar(a, m);
    Embedded(p, CurlyToken(k), q, i + m - |p|);
    MismatchAt(p + CurlyToken(k) + q, CurlyToken(a), i, m);
  }

  /** `[A]` cannot overlap an embedded `{{k}}`. */
  lemma BracketApartFromCurly(p: string, k: string, q: string, a: string, i: nat)
    requires PlainKey(k) && PlainKey(a)
    requires i < |p| + |CurlyToken(k)| && i + |BracketToken(a)| > |p|
    ensures !OccursAt(p + CurlyToken(k) + q, BracketToken(a), i)
  {
    var m: nat := if i >= |p| then 0 else |p| - i;
    UpperPlain(a);
    CurlyChar(k, i + m - |p|);
    BracketChar(a, m);
    Embedded(p, CurlyToken(k), q, i + m - |p|);
    MismatchAt(p + CurlyToken(k) + q, BracketToken(a), i, m);
  }

  /** `{{a}}` cannot overlap an embedded `[K]`. */
  lemma CurlyApartFromBracket(p: string, k: string, q: string, a: string, i: nat)
    requires PlainKey(k) && PlainKey(a)
    requires i < |p| + |BracketToken(k)| && i + |CurlyToken(a)| > |p|
    ensures !OccursAt(p + BracketToken(k) + q, CurlyToken(a), i)
  {
    var m: nat := if i >= |p| then 0 else |p| - i;
    UpperPlain(k);
    BracketChar(k, i + m - |p|);
    CurlyChar(a, m);
    Embedded(p, BracketToken(k), q, i + m - |p|);
    MismatchAt(p + BracketToken(k) + q, CurlyToken(a), i, m);
  }

  /** `[A]` cannot overlap an embedded `[K]` when the two keys upper-case differently. */
  lemma BracketApartFromBracket(p: string, k: string, q: string, a: string, i: nat)
    requires PlainKey(k) && PlainKey(a) && Upper(a) != Upper(k)
    requires i < |p| + |BracketToken(k)| && i + |BracketToken(a)| > |p|
    ensures !OccursAt(p + BracketToken(k) + q, BracketToken(a), i)
  {
    var ua, uk := Upper(a), Upper(k);
    UpperPlain(a);
    UpperPlain(k);
    var m: nat;
    if i >= |p| + 1 {
      m := 0;
    } else if i == |p| {
      if |a| < |k| {
        m := |a| + 1;
      } else if |a| > |k| {
        m := |k| + 1;
      } else {
        var j :| 0 <= j < |ua| && ua[j] != uk[j];
        m := j + 1;
      }
    } else {
      m := |p| - i;
    }
    BracketChar(k, i + m - |p|);
    BracketChar(a, m);
    Embedded(p, BracketToken(k), q, i + m - |p|);
    MismatchAt(p + BracketToken(k) + q, BracketToken(a), i, m);
  }

  /** One key's step works around an embedded `{{k}}` of another key. */
  lemma KeyStepAroundCurly(p: string, k: string, q: string, a: string, v: DataValue)
    requires PlainKey(k) && PlainKey(a) && a != k
    ensures SubstituteKey(p + CurlyToken(k) + q, a, v)
         == SubstituteKey(p, a, v) + CurlyToken(k) + SubstituteKey(q, a, v)
  {
    var y, t := CurlyToken(k), ValueText(v);
    forall i | 0 <= i < |p| + |y| && i + |CurlyToken(a)| > |p|
      ensures !OccursAt(p + y + q, CurlyToken(a), i)
    {
      CurlyApartFromCurly(p, k, q, a, i);
    }
    ReplaceAllAcross(p, y, q, CurlyToken(a), t);
    var p1, q1 := ReplaceAll(p, CurlyToken(a), t), ReplaceAll(q, CurlyToken(a), t);
    forall i | 0 <= i < |p1| + |y| && i + |BracketToken(a)| > |p1|
      ensures !OccursAt(p1 + y + q1, BracketToken(a), i)
    {
      BracketApartFromCurly(p1, k, q1, a, i);
    }
    ReplaceAllAcross(p1, y, q1, BracketToken(a), t);
  }

  /** One key's step works around an embedded `[K]` of a key that upper-cases differently. */
  lemma KeyStepAroundBracket(p: string, k: string, q: string, a: string, v: DataValue)
    requires PlainKey(k) && PlainKey(a) && Upper(a) != Upper(k)
    ensures SubstituteKey(p + BracketToken(k) + q, a, v)
         == SubstituteKey(p, a, v) + BracketToken(k) + SubstituteKey(q, a, v)
  {
    var y, t := BracketToken(k), ValueText(v);
    forall i | 0 <= i < |p| + |y| && i + |CurlyToken(a)| > |p|
      ensures !OccursAt(p + y + q, CurlyToken(a), i)
    {
      CurlyApartFromBracket(p, k, q, a, i);
    }
    ReplaceAllAcross(p, y, q, CurlyToken(a), t);
    var p1, q1 := ReplaceAll(p, CurlyToken(a), t), ReplaceAll(q, CurlyToken(a), t);
    forall i | 0 <= i < |p1| + |y| && i + |BracketToken(a)| > |p1|
      ensures !OccursAt(p1 + y + q1, BracketToken(a), i)
    {
      BracketApartFromBracket(p1, k, q1, a, i);
    }
    ReplaceAllAcross(p1, y, q1, BracketToken(a), t);
  }

  /**
   * A `{{k}}` placeholder of a key the data does not list survives
   * `generateHTML`; the text on either side is substituted on its own.
   */
  lemma {:induction false} UnlistedCurlyKept(p: string, k: string, q: string, data: seq<(string, DataValue)>)
    requires PlainKey(k)
    requires forall i :: 0 <= i < |data| ==> PlainKey(data[i].0) && data[i].0 != k
    ensures SubstituteAll(p + CurlyToken(k) + q, data)
         == SubstituteAll(p, data) + CurlyToken(k) + SubstituteAll(q, data)
    decreases |data|
  {
    if data != [] {
      KeyStepAroundCurly(p, k, q, data[0].0, data[0].1);
      assert forall i :: 0 <= i < |data| - 1 ==> data[1..][i] == data[i + 1];
      UnlistedCurlyKept(SubstituteKey(p, data[0].0, data[0].1), k, SubstituteKey(q, data[0].0, data[0].1), data[1..]);
    }
  }

  /** The same for a `[K]` placeholder, when no data key upper-cases to `K`. */
  lemma {:induction false} UnlistedBracketKept(p: string, k: string, q: string, data: seq<(string, DataValue)>)
    requires PlainKey(k)
    requires forall i :: 0 <= i < |data| ==> PlainKey(data[i].0) && Upper(data[i].0) != Upper(k)
    ensures SubstituteAll(p + BracketToken(k) + q, data)
         == SubstituteAll(p, data) + BracketToken(k) + SubstituteAll(q, data)
    decreases |data|
  {
    if data != [] {
      KeyStepAroundBracket(p, k, q, data[0].0, data[0].1);
      assert forall i :: 0 <= i < |data| - 1 ==> data[1..][i] == data[i + 1];
      UnlistedBracketKept(SubstituteKey(p, data[0].0, data[0].1), k, SubstituteKey(q, data[0].0, data[0].1), data[1..]);
    }
  }

  /** So a `{{k}}` in the template is still in the result when no data key is `k`. */
  lemma UnlistedCurlyStays(html: string, k: string, data: seq<(string, DataValue)>)
    requires Contains(html, CurlyToken(k)) && PlainKey(k)
    requires forall i :: 0 <= i < |data| ==> PlainKey(data[i].0) && data[i].0 != k
    ensures Contains(SubstituteAll(html, data), CurlyToken(k))
  {
    var y := CurlyToken(k);
    var i :| 0 <= i <= |html| - |y| && OccursAt(html, y, i);
    var p, q := html[..i], html[i + |y|..];
    assert html == p + y + q;
    UnlistedCurlyKept(p, k, q, data);
    ContainsInfix(SubstituteAll(p, data), y, SubstituteAll(q, data));
  }
}
