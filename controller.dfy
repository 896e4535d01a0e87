/**
 * Request shaping of backend/src/controllers/document.controller.js:
 * `generateCustomTemplate`, the keyword dispatch that picks a template for a
 * described output format, and `processDocument`, which picks the text
 * (pasted text over an uploaded file) and the template (a given HTML
 * template over a format description), refuses incomplete requests with
 * status 400, and answers with the analysed HTML and a preview of the text.
 */
module DocumentController {
  import opened Wrappers
  import opened Text
  import Ai
  import ExtractService

  // ------------------------------------------------- generateCustomTemplate

  /** The three templates `generateCustomTemplate` can return. */
  datatype Design = CandidateProfile | SeoAnalysis | FormatReport

  /** The keyword tests on the lower-cased description, in source order: the first that matches decides. */
  function DesignFor(outputFormat: string): Design {
    var format := Lower(outputFormat);
    if Contains(format, "candidate") || Contains(format, "profile") || Contains(format, "resume") then CandidateProfile
    else if Contains(format, "seo") || Contains(format, "website") then SeoAnalysis
    else FormatReport
  }

  const HeadOpen: string := Doctype + "\n<html>\n<head>\n    "
  const HeadToBody: string := "\n</head>\n<body>\n"
  const BodyClose: string := "\n</body>\n" + ClosingTag

  /**
   * A generated page: the title element in the head and the body's content.
   * The styling and the decorative markup are not part of this model.
   */
  function Layout(titleElement: string, content: string): (d: string)
    ensures StartsWith(d, Doctype) && EndsWith(d, ClosingTag)
    ensures Contains(d, titleElement) && Contains(d, content)
  {
    SpliceEdges(HeadOpen, titleElement, HeadToBody, content, BodyClose);
    StartsWithAppend(Doctype, "\n<html>\n<head>\n    ");
    StartsWithTrans(Splice(HeadOpen, titleElement, HeadToBody, content, BodyClose), HeadOpen, Doctype);
    EndsWithAppend("\n</body>\n", ClosingTag);
    EndsWithTrans(Splice(HeadOpen, titleElement, HeadToBody, content, BodyClose), BodyClose, ClosingTag);
    Splice(HeadOpen, titleElement, HeadToBody, content, BodyClose)
  }

  const CandidatePlaceholders: seq<string> :=
    ["[CANDIDATE_NAME]", "[PROFESSIONAL_TITLE]", "[CONTACT_INFO]", "[PROFESSIONAL_SUMMARY]", "[TECHNICAL_SKILLS]",
     "[EXPERIENCE_PROJECTS]", "[EDUCATION]", "[ACHIEVEMENTS]", "[LANGUAGES_ADDITIONAL]"]
  const SeoPlaceholders: seq<string> :=
    ["[WEBSITE_NAME]", "[SEO_GRADE]", "[SEO_SCORE]", "[KEY_FINDINGS]", "[RECOMMENDATIONS]", "[TECHNICAL_DETAILS]"]
  const ReportPlaceholders: seq<string> := ["[SUMMARY]", "[KEY_DETAILS]", "[ANALYSIS]", "[RECOMMENDATIONS]"]

  function TitleElement(title: string): string {
    "<title>" + title + "</title>"
  }

  function Heading(text: string): string {
    "<h1>" + text + "</h1>"
  }

  /** The body of the default report: the description as its heading, then the report's sections. */
  function ReportBody(outputFormat: string): (b: string)
    ensures Contains(b, Heading(outputFormat))
  {
    StartsWithAppend(Heading(outputFormat), "\n" + Join(ReportPlaceholders, "\n"));
    StartsWithContains(Heading(outputFormat) + ("\n" + Join(ReportPlaceholders, "\n")), Heading(outputFormat));
    Heading(outputFormat) + ("\n" + Join(ReportPlaceholders, "\n"))
  }

  /** The page of each design; only the default report mentions the description, as given. */
  function Rendered(design: Design, outputFormat: string): (d: string)
    ensures StartsWith(d, Doctype) && EndsWith(d, ClosingTag)
  {
    match design
    case CandidateProfile => Layout(TitleElement("Candidate Profile Report"), Join(CandidatePlaceholders, "\n"))
    case SeoAnalysis => Layout(TitleElement("SEO Analysis Report"),
                               Heading("SEO Analysis Report") + "\n" + Join(SeoPlaceholders, "\n"))
    case FormatReport => Layout(TitleElement(outputFormat + " Report"), ReportBody(outputFormat))
  }

  /**
   * `generateCustomTemplate`: the page of the design the keywords pick, after
   * a line break; trimmed, it is a complete document.
   */
  function GenerateCustomTemplate(outputFormat: string): (r: string)
    ensures Trim(r) == Rendered(DesignFor(outputFormat), outputFormat)
    ensures StartsWith(Trim(r), Doctype) && EndsWith(Trim(r), ClosingTag)
  {
    var page := Rendered(DesignFor(outputFormat), outputFormat);
    DocumentEdges(page);
    TrimPadded("\n", page);
    "\n" + page
  }

  /** The default report carries the description itself, not lower-cased, in its title and its heading. */
  lemma FormatNamesReport(outputFormat: string)
    requires DesignFor(outputFormat) == FormatReport
    ensures Contains(GenerateCustomTemplate(outputFormat), TitleElement(outputFormat + " Report"))
    ensures Contains(GenerateCustomTemplate(outputFormat), Heading(outputFormat))
  {
    var page := Rendered(FormatReport, outputFormat);
    ContainsInfix("\n", page, "");
    assert "\n" + page + "" == GenerateCustomTemplate(outputFormat);
    ContainsTrans(GenerateCustomTemplate(outputFormat), page, TitleElement(outputFormat + " Report"));
    ContainsTrans(page, ReportBody(outputFormat), Heading(outputFormat));
    ContainsTrans(GenerateCustomTemplate(outputFormat), page, Heading(outputFormat));
  }

  /** The candidate keywords come first: a description naming a resume gets the candidate profile, even if it also names SEO. */
  lemma CandidateBeforeSeo(outputFormat: string)
    requires Contains(Lower(outputFormat), "resume") && Contains(Lower(outputFormat), "seo")
    ensures GenerateCustomTemplate(outputFormat) == GenerateCustomTemplate("resume")
  {
    var r := Lower("resume");
    assert r == "resume";
    ContainsInfix("", "resume", "");
    assert "" + "resume" + "" == r;
  }

  /** The dispatch ignores case: a description and its upper-cased spelling get the same design. */
  lemma DesignIgnoresCase(outputFormat: string)
    ensures DesignFor(Upper(outputFormat)) == DesignFor(outputFormat)
  {
    LowerOfUpper(outputFormat);
  }

  // ---------------------------------------------------------- processDocument

  /** The form fields of the request, each absent or a string. */
  datatype RequestBody = RequestBody(htmlTemplate: Option<string>, directText: Option<string>, outputFormat: Option<string>)

  /** `field && field.trim()`: present and not blank. */
  predicate Provided(field: Option<string>) {
    field.Some? && !IsBlank(field.value)
  }

  /** The JSON answer: the formatted document, or an error with its status. */
  datatype Response =
    | Formatted(htmlContent: string, downloadUrl: string, fileName: string, extractedText: string)
    | Refused(status: nat, error: string)

  const NoInput: string := "Either upload a file or provide text input"
  const NoText: string := "No text content provided"
  const NoTemplate: string := "Either provide HTML template or specify output format"
  const DownloadPrefix: string := "/api/document/download/"

  /** A step of the request that either yields a value or ends it with a status and a message. */
  datatype Step<T> = Proceed(value: T) | Halt(status: nat, error: string)

  /** What extracting the uploaded file yields, if a file was uploaded. */
  function Extracted(file: Option<ExtractService.Upload>): Option<Result<string>> {
    match file
    case None => None
    case Some(f) => Some(ExtractService.ExtractFromAnyFile(f.mimetype, f.originalname, f.readers))
  }

  /**
   * The text to format: the trimmed pasted text, else the uploaded file's
   * text (`extracted`); a failed extraction is a 500.
   */
  function TextToFormat(directText: Option<string>, extracted: Option<Result<string>>): Step<string> {
    if Provided(directText) then Proceed(Trim(directText.value))
    else
      match extracted
      case None => Halt(400, NoInput)
      case Some(Ok(text)) => Proceed(text)
      case Some(Err(message)) => Halt(500, message)
  }

  /** Where the template comes from: an HTML template given as it is, or a format description to generate one for. */
  datatype TemplateSource = GivenTemplate(html: string) | DescribedFormat(outputFormat: string)

  /** The template text of each source. */
  function TemplateText(source: TemplateSource): string {
    match source
    case GivenTemplate(html) => html
    case DescribedFormat(outputFormat) => GenerateCustomTemplate(outputFormat)
  }

  /** The template: a non-blank HTML template wins over a non-blank format description. */
  function TemplateToUse(htmlTemplate: Option<string>, outputFormat: Option<string>): Step<TemplateSource> {
    if Provided(htmlTemplate) then Proceed(GivenTemplate(htmlTemplate.value))
    else if Provided(outputFormat) then Proceed(DescribedFormat(outputFormat.value))
    else Halt(400, NoTemplate)
  }

  /** What follows the choice of the text: the check that it is not blank, then the choice of the template. */
  function WithTemplate(text: Step<string>, body: RequestBody): Step<(string, TemplateSource)> {
    match text
    case Halt(status, error) => Halt(status, error)
    case Proceed(t) =>
      if IsBlank(t) then Halt(400, NoText)
      else
        match TemplateToUse(body.htmlTemplate, body.outputFormat)
        case Halt(status, error) => Halt(status, error)
        case Proceed(source) => Proceed((t, source))
  }

  /** The text and the template source handed to the analysis, or the answer that ends the request first. */
  function AnalysisInputs(body: RequestBody, extracted: Option<Result<string>>): Step<(string, TemplateSource)> {
    WithTemplate(TextToFormat(body.directText, extracted), body)
  }

  /** `text.substring(0, 500) + '...'`. */
  function Preview(text: string): (p: string)
    ensures |p| == (if |text| < 500 then |text| else 500) + 3
    ensures StartsWith(text, p[..|p| - 3]) && p[|p| - 3..] == "..."
  {
    Take(text, 500) + "..."
  }

  /** `formatted_${Date.now()}.html`. */
  function OutputFileName(now: nat): (name: string)
    ensures StartsWith(name, "formatted_") && EndsWith(name, ".html") && |name| >= 16
    ensures forall i :: 10 <= i < |name| - 5 ==> '0' <= name[i] <= '9'
    ensures ParseDecimal(name[10..|name| - 5]) == now
  {
    StartsWithAppend("formatted_", NatToString(now) + ".html");
    AppendAssoc("formatted_", NatToString(now), ".html");
    EndsWithAppend("formatted_" + NatToString(now), ".html");
    NatToStringRoundTrip(now);
    var name := "formatted_" + NatToString(now) + ".html";
    assert name[10..|name| - 5] == NatToString(now);
    name
  }

  /** Two requests at different milliseconds write to different files. */
  lemma OutputFileNamesDiffer(now1: nat, now2: nat)
    requires now1 != now2
    ensures OutputFileName(now1) != OutputFileName(now2)
  {
  }

  /** The answer once the analysis of `text` has produced `html`. */
  function Answer(text: string, html: string, now: nat): (r: Response)
    ensures r.Formatted? && r.htmlContent == html && r.downloadUrl == DownloadPrefix + r.fileName
    ensures r.fileName == OutputFileName(now) && r.extractedText == Preview(text)
  {
    Formatted(html, DownloadPrefix + OutputFileName(now), OutputFileName(now), Preview(text))
  }

  /**
   * The specification of `processDocument` at clock reading `now`, for an
   * analysis `analyze` that turns a text and a template into HTML.
   */
  function Respond(body: RequestBody, extracted: Option<Result<string>>, analyze: (string, string) -> string,
                   now: nat): Response
  {
    match AnalysisInputs(body, extracted)
    case Halt(status, error) => Refused(status, error)
    case Proceed((text, source)) => Answer(text, analyze(text, TemplateText(source)), now)
  }

  /**
   * The part of `processDocument` before the analysis: the text (pasted, or
   * extracted from the file), its check, and the template's source.
   */
  method ChooseInputs(body: RequestBody, file: Option<ExtractService.Upload>) returns (inputs: Step<(string, TemplateSource)>)
    ensures inputs == AnalysisInputs(body, Extracted(file))
  {
    var text: Step<string>;
    if Provided(body.directText) {
      text := Proceed(Trim(body.directText.value));
    } else if file.Some? {
      var outcome := ExtractService.ExtractFromAnyFile(file.value.mimetype, file.value.originalname, file.value.readers);
      if outcome.Err? {
        text := Halt(500, outcome.error);
      } else {
        text := Proceed(outcome.value);
      }
    } else {
      text := Halt(400, NoInput);
    }
    assert text == TextToFormat(body.directText, Extracted(file));
    if text.Halt? {
      return Halt(text.status, text.error);
    }
    if IsBlank(text.value) {
      return Halt(400, NoText);
    }
    if Provided(body.htmlTemplate) {
      inputs := Proceed((text.value, GivenTemplate(body.htmlTemplate.value)));
    } else if Provided(body.outputFormat) {
      inputs := Proceed((text.value, DescribedFormat(body.outputFormat.value)));
    } else {
      inputs := Halt(400, NoTemplate);
    }
  }

  /**
   * `processDocument`: the inputs, or the refusal that ends the request; then
   * the analysis of the text with the template, which sets the service's
   * model slot, and the answer.
   */
  method ProcessDocument(service: Ai.AiService, body: RequestBody, file: Option<ExtractService.Upload>,
                         apiKey: Option<string>, provider: Ai.Provider, now: nat) returns (response: Response)
    modifies service
    ensures response == Respond(body, Extracted(file), (text, template) => Ai.Analyze(text, template, apiKey, provider).html, now)
    ensures AnalysisInputs(body, Extracted(file)).Proceed? ==>
      var (text, source) := AnalysisInputs(body, Extracted(file)).value;
      service.currentModel == Ai.Analyze(text, TemplateText(source), apiKey, provider).modelUsed
    ensures AnalysisInputs(body, Extracted(file)).Halt? ==> service.currentModel == old(service.currentModel)
  {
    var inputs := ChooseInputs(body, file);
    if inputs.Halt? {
      return Refused(inputs.status, inputs.error);
    }
    var (text, source) := inputs.value;
    var template := TemplateText(source);
    var finalHtml, calls := service.AnalyzeDocument(text, template, apiKey, provider);
    var fileName := "formatted_" + NatToString(now) + ".html";
    response := Formatted(finalHtml, DownloadPrefix + fileName, fileName, Preview(text));
  }

  /** Non-blank pasted text wins: whether a file was uploaded, and what it holds, makes no difference. */
  lemma PastedTextWins(body: RequestBody, extracted1: Option<Result<string>>, extracted2: Option<Result<string>>)
    requires Provided(body.directText)
    ensures AnalysisInputs(body, extracted1) == AnalysisInputs(body, extracted2)
  {
    assert TextToFormat(body.directText, extracted1) == TextToFormat(body.directText, extracted2);
  }

  /** Pasted text is analysed trimmed, and once trimmed it is never blank, so it never meets the 400 for empty text. */
  lemma PastedTextIsTrimmed(body: RequestBody, extracted: Option<Result<string>>)
    requires Provided(body.directText)
    ensures AnalysisInputs(body, extracted).Proceed? ==> AnalysisInputs(body, extracted).value.0 == Trim(body.directText.value)
    ensures AnalysisInputs(body, extracted) != Halt(400, NoText)
  {
    var t := Trim(body.directText.value);
    TrimmedBlank(body.directText.value);
    assert TextToFormat(body.directText, extracted) == Proceed(t) && !IsBlank(t);
    assert |NoTemplate| != |NoText|;
  }

  /** Without pasted text or a file the request is refused, whatever else it holds. */
  lemma NothingToFormat(body: RequestBody, analyze: (string, string) -> string, now: nat)
    requires !Provided(body.directText)
    ensures Respond(body, None, analyze, now) == Refused(400, NoInput)
  {
  }

  /** A file that yields only white space is refused. */
  lemma BlankFileRefused(body: RequestBody, text: string, analyze: (string, string) -> string, now: nat)
    requires !Provided(body.directText) && IsBlank(text)
    ensures Respond(body, Some(Ok(text)), analyze, now) == Refused(400, NoText)
  {
  }

  /** A failed extraction ends the request with status 500 and the extraction's message, which names the failure. */
  lemma FailedExtractionIsServerError(body: RequestBody, file: ExtractService.Upload,
                                      analyze: (string, string) -> string, now: nat)
    requires !Provided(body.directText)
    requires ExtractService.ExtractFromAnyFile(file.mimetype, file.originalname, file.readers).Err?
    ensures Respond(body, Extracted(Some(file)), analyze, now).Refused?
    ensures Respond(body, Extracted(Some(file)), analyze, now).status == 500
    ensures StartsWith(Respond(body, Extracted(Some(file)), analyze, now).error, ExtractService.ExtractionFailed)
  {
    var e := ExtractService.ExtractAs(ExtractService.KindOf(file.mimetype, file.originalname), file.readers).error;
    StartsWithAppend(ExtractService.ExtractionFailed, e);
  }

  /** A non-blank HTML template wins: the format description then makes no difference. */
  lemma TemplateWins(body: RequestBody, otherFormat: Option<string>, extracted: Option<Result<string>>)
    requires Provided(body.htmlTemplate)
    ensures AnalysisInputs(body, extracted) == AnalysisInputs(body.(outputFormat := otherFormat), extracted)
  {
  }

  /** With usable text but neither a template nor a description the request is refused. */
  lemma NoTemplateRefused(body: RequestBody, extracted: Option<Result<string>>, analyze: (string, string) -> string,
                          now: nat)
    requires TextToFormat(body.directText, extracted).Proceed? && !IsBlank(TextToFormat(body.directText, extracted).value)
    requires !Provided(body.htmlTemplate) && !Provided(body.outputFormat)
    ensures Respond(body, extracted, analyze, now) == Refused(400, NoTemplate)
  {
  }

  /** A description alone is analysed with the template generated for it. */
  lemma DescriptionGeneratesTemplate(body: RequestBody, extracted: Option<Result<string>>)
    requires TextToFormat(body.directText, extracted).Proceed? && !IsBlank(TextToFormat(body.directText, extracted).value)
    requires !Provided(body.htmlTemplate) && Provided(body.outputFormat)
    ensures AnalysisInputs(body, extracted) == Proceed((TextToFormat(body.directText, extracted).value,
                                                       DescribedFormat(body.outputFormat.value)))
  {
  }

  /** A formatted answer carries the analysis of the chosen text with the chosen template, and previews that text. */
  lemma FormattedAnswer(body: RequestBody, extracted: Option<Result<string>>, analyze: (string, string) -> string,
                        now: nat)
    requires AnalysisInputs(body, extracted).Proceed?
    ensures var (text, source) := AnalysisInputs(body, extracted).value;
      var r := Respond(body, extracted, analyze, now);
      r.Formatted? && r.htmlContent == analyze(text, TemplateText(source))
      && StartsWith(text, r.extractedText[..|r.extractedText| - 3]) && EndsWith(r.fileName, ".html")
  {
  }
}
