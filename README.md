# myformatterfriend — a Dafny model of the formatting pipeline

myformatterfriend turns a document into a formatted HTML page. The user either
pastes text or uploads a file (PDF, Word, Excel, plain text, HTML). They also
give an HTML template or describe the output they want ("resume", "SEO report").
This model covers five parts of the system:

- **The document controller** (`processDocument`). It picks the text: pasted text
  wins, otherwise it extracts the uploaded file. It rejects blank input. It picks
  the template: a given template wins over a format description, which is turned
  into a built-in design by `generateCustomTemplate`. It then asks the AI service
  for the page and answers with the HTML, a download name and a 500-character
  preview. Each error becomes a 400 or 500 answer with the controller's message.
- **The extraction service.** It routes each file by MIME type and extension to
  a reader, has a fallback for PDFs that fail to parse, reads workbooks sheet by
  sheet, combines several files into one text with an error section for each
  failing file, and puts one prefix on every error.
- **The AI service.** It holds the `currentModel` slot. It walks a chain of nine
  models; only the primary model gets one retry after a 2-second wait on a 429.
  It cleans the code fences off the answer. When the key is missing or malformed,
  or every model fails, it fills the template from the text itself: website name,
  grade, score, recommendations, a cycle of ten data points for `Not available`,
  and the bracket placeholders.
- **The template catalog.** It lists templates, looks them up by id, and
  substitutes `{{key}}` and `[KEY]` placeholders in `generateHTML`.
- **The browser client.** This is the API base URL, `apiCall`'s error messages,
  the `fetchWithRetry` policy (502/503 retried with a growing delay), and the
  health check. As in the code, a 502/503 on the last attempt still waits before
  `Max retries exceeded` is thrown. It also covers both upload components: the multi-file list with
  its extension/MIME filter, and the single-file slot.

Every effect outside the code becomes a parameter:

- the generative provider is a function `(model, prompt, attempt) -> reply`;
- `fetch` is a function `(url, attempt) -> outcome`;
- the file parsers (pdf-parse, mammoth, xlsx, `fs`) are a `Readers` record of
  what they would yield;
- the clock is a number `now`.

The state that the source mutates is kept as state:

- `Ai.AiService` is a class with the `currentModel` field;
- the upload components are classes (`FileListUpload.FileList`,
  `SingleFileUpload.FileSlot`) with the drag flag, the file list or slot, and the
  sequence of values handed to the parent's callback.

Loops in the source are methods with invariants, each proved equal to a recursive
specification function:

- the model chain `TryChain`;
- the fallback passes `FillTemplate`;
- the workbook loop `ExtractFromExcel`;
- the multi-file loop `ExtractFromMultipleFiles`;
- the substitution loop `GenerateHtml`;
- the retry loop `FetchWithRetry`.

The code is laid out as follows:

- `wrappers.dfy`: `Option` and `Result`.
- `seqs.dfy`: filtering.
- `text.dfy`: the JavaScript string operations used, i.e. trim, ASCII case
  mapping, `includes`, literal global replace, split/join and decimal rendering.
- `patterns.dfy`: leftmost regular-expression matching.
- One module per source file: `ai.dfy`, `template.dfy`, `extract.dfy`,
  `controller.dfy`, `api.dfy` and `webfile.dfy`. The last holds both upload
  components.

## Model

| member | source | states |
|---|---|---|
| `Ai.LimitsFor` | backend/src/services/ai.service.js:24-29 | a known model name gets its table entry; any other name gets `N/A` for all three figures |
| `Ai.LimitsCoverChain` | backend/src/services/ai.service.js:10-43 | every model of the chain has a real limits entry, and the fallback sentinel has none |
| `Ai.Prompt` | backend/src/services/ai.service.js:59-116 | the prompt sent to every model contains the document text and the template verbatim |
| `Ai.Cleanup` | backend/src/services/ai.service.js:130-137 | an answer that does not start with a fence comes back trimmed; a fenced one loses at least the fence |
| `Ai.Unfence` | backend/src/services/ai.service.js:131-136 | fence removal changes nothing without an opening fence and otherwise removes at least the fence |
| `Ai.FenceBodyUnwraps` | backend/src/services/ai.service.js:132 | after the opening fence, white space around the content and the closing fence are all removed |
| `Ai.OpeningFenceDropped` | backend/src/services/ai.service.js:131-136 | the opening fence is dropped with its `html` tag, or alone when what follows does not start with `html`, and then the white space after it |
| `Ai.CleanupUnwrapsFence` | backend/src/services/ai.service.js:130-137 | content wrapped in a fence comes back exactly as it was: fence tagged `html` or bare, with or without white space around the content, as long as a bare fence is not directly followed by content starting with `html` |
| `Ai.RetryOnlyRateLimitedPrimary` | backend/src/services/ai.service.js:141-166 | a model gets a second request exactly when it is the primary and its first reply is a 429; the second request waits 2000 ms |
| `Ai.FirstAnswering` | backend/src/services/ai.service.js:119-166 | the index found is the first model whose attempt does not fail, and none is found exactly when all fail |
| `Ai.RunExhaustsChain` | backend/src/services/ai.service.js:119-170 | when no model answers, the walk ends exhausted after making every model's requests in chain order |
| `Ai.RunStopsAtFirstAnswer` | backend/src/services/ai.service.js:119-139 | the walk returns the reply of the first answering model, after making the requests of the models before it |
| `Ai.NoneAnswerWhenAllFail` | backend/src/services/ai.service.js:165-166 | when every model fails, no model answers |
| `Ai.RunCallBound` | backend/src/services/ai.service.js:141-166 | with only the head at priority 1, a walk makes at most one request more than there are models |
| `Ai.RunStartsAtHead` | backend/src/services/ai.service.js:119-125 | the first request always goes to the first model of the chain, as attempt 0 with no wait |
| `Ai.WebsiteNameDefault` | backend/src/services/ai.service.js:186-187 | with `Website Report for `, space included, matching nowhere, the site is `washcure-2f63e.web.app` |
| `Ai.WebsiteNameLeftmost` | backend/src/services/ai.service.js:186-187 | otherwise the site is the trimmed rest of the line after the leftmost match |
| `Ai.ReportLineNamesSite` | backend/src/services/ai.service.js:186-187 | a text opening with `Website Report for ` in any case and an unpadded name up to a line break or the end names exactly that site |
| `Ai.ColonAfterLeadGivesDefault` | backend/src/services/ai.service.js:186-187 | `Website Report for:x` does not match, because the space after `for` is required, so the default site is used |
| `Ai.EmptyLineAfterLeadGivesDefault` | backend/src/services/ai.service.js:186-187 | `Website Report for ` followed by a line break does not match, because the capture needs one character, so the default site is used |
| `Ai.LineHead` | backend/src/services/ai.service.js:186-187 | the capture `[^\n\r]+` is a prefix with no line break, and it stops at a line break or at the end |
| `Ai.GradeAt` | backend/src/services/ai.service.js:192 | a grade capture is one letter A-F in either case, with an optional sign |
| `Ai.GradeAtReadsLetter` | backend/src/services/ai.service.js:192 | `grade` in any case, then any run of `:` and white space, then a letter A-F captures that letter and a following `+` or `-` if there is one |
| `Ai.GradeLeftmost` | backend/src/services/ai.service.js:192-219 | with no match anywhere the grade is `B+`; otherwise it is the capture of the leftmost match |
| `Ai.ScoreAt` | backend/src/services/ai.service.js:193 | a score capture is a non-empty run of digits |
| `Ai.ScoreAtReadsDigits` | backend/src/services/ai.service.js:193 | `score` in any case, then any run of `:` and white space, then digits up to a non-digit or the end captures exactly those digits |
| `Ai.ScoreLeftmost` | backend/src/services/ai.service.js:193-220 | with no match anywhere the score is `85`; otherwise it is the capture of the leftmost match |
| `Ai.RecommendationsAreAdviceLines` | backend/src/services/ai.service.js:196-201 | the recommendations are exactly the lines longer than 15 characters once trimmed that contain an advice word |
| `Ai.DataPoints` | backend/src/services/ai.service.js:216-227 | ten data points: the website name, the grade and the score first, then the seven fixed phrases in their order |
| `Ai.NotAvailableCycle` | backend/src/services/ai.service.js:229-236 | the k-th `Not available` of the template becomes data point k mod 10, and all other text is kept |
| `Ai.InformationPass` | backend/src/services/ai.service.js:238-242 | each full `Information not found in document` phrase becomes the first three recommendations joined |
| `Ai.TagWidthAt` | backend/src/services/ai.service.js:246-248 | a tag matches exactly when `[`, then the word in any case, then a later `]` are there; the match runs to the first such `]` |
| `Ai.NameTagSpan` | backend/src/services/ai.service.js:246 | a `[Name…]` match runs from its `[` through `name` in any case to the first `]` after it |
| `Ai.FillBracketsWithoutTags` | backend/src/services/ai.service.js:245-251 | where none of `[Name…]`, `[Email…]`, `[Experience…]` and `[Work history]` matches, so any other bracket token such as `[Phone]`, the bracket passes change nothing |
| `Ai.RenameIsSplitJoin` | backend/src/services/ai.service.js:254-255 | each `WashCure Website` becomes `<name> Analysis`, then each remaining `WashCure` becomes the name up to its first `.` |
| `Patterns.ReplaceEachFirstMatch` | backend/src/services/ai.service.js:246-249 | a global regular-expression replace such as the `[Name…]` pass keeps the text before the leftmost match, replaces the match and resumes after it |
| `Ai.FallbackKeepsPlainTemplate` | backend/src/services/ai.service.js:183-260 | a template with none of the recognised placeholders comes back unchanged from the fallback |
| `Ai.BadKeyGoesStraightToFallback` | backend/src/services/ai.service.js:51-57 | a missing key or one not starting with `AIza` makes no request and returns the filled template under the sentinel |
| `Ai.AtMostTenCalls` | backend/src/services/ai.service.js:33-166 | one analysis makes at most ten provider requests: nine models plus one retry |
| `Ai.SuccessNamesChainModel` | backend/src/services/ai.service.js:122 | a successful walk names a model of its chain |
| `Ai.ModelUsedIsChainOrFallback` | backend/src/services/ai.service.js:119-175 | the slot ends naming either a chain model (which has limits) or the fallback sentinel |
| `Ai.FallbackExactlyWhenNoAnswer` | backend/src/services/ai.service.js:170-175 | the sentinel is used exactly when the key is unusable or no model answers |
| `Ai.NotSentinel` | backend/src/services/ai.service.js:33-43 | no chain model has the sentinel's name |
| `Ai.PrimarySucceeds` | backend/src/services/ai.service.js:119-139 | a generated first reply is returned cleaned, from the primary, after one request |
| `Ai.RateLimitedPrimaryRetried` | backend/src/services/ai.service.js:141-159 | a 429 on the primary followed by an answer gives two requests, the second after 2000 ms, and returns the cleaned answer |
| `Ai.NextModelAfterPlainFailure` | backend/src/services/ai.service.js:161-166 | a first model that fails without a retry hands over to the second model at once |
| `Ai.OtherFailureMovesOn` | backend/src/services/ai.service.js:141-166 | a failure of the primary other than 429 is not retried; the second model is asked next |
| `Ai.AllFailuresFillTemplate` | backend/src/services/ai.service.js:170-260 | when every request fails, the result is exactly the filled template under the sentinel, after all requests of the chain |
| `Ai.AiService.constructor` | backend/src/services/ai.service.js:7 | the slot starts at the primary model |
| `Ai.AiService.GetCurrentModel` | backend/src/services/ai.service.js:22 | returns the slot |
| `Ai.AiService.GetModelLimits` | backend/src/services/ai.service.js:24-30 | reports the slot with its table entry, or `N/A` throughout for an unknown name |
| `Ai.AiService.TryChain` | backend/src/services/ai.service.js:119-166 | the loop's outcome is the walk's; the slot names the answering model, or the last model tried when all fail |
| `Ai.AiService.AnalyzeDocument` | backend/src/services/ai.service.js:32-262 | the HTML, the final slot and the requests are those of the analysis specification |
| `Ai.FillTemplate` | backend/src/services/ai.service.js:183-260 | the pass-by-pass fill equals the fallback's specification |
| `TemplateService.Page` | backend/src/services/template.service.js:2-361 | every page starts with the doctype and ends with the closing html tag |
| `TemplateService.IdIsKey` | backend/src/services/template.service.js:2-361 | each of the five records' id literals is the key it is stored under |
| `TemplateService.CatalogKeysDistinct` | backend/src/services/template.service.js:2-361 | the catalog keys are pairwise distinct and cover every template |
| `TemplateService.Lookup` | backend/src/services/template.service.js:393 | lookup fails exactly when no key has the name; otherwise it finds a key with that name |
| `TemplateService.GetTemplateById` | backend/src/services/template.service.js:392-394 | an unknown id gives null; a known id gives the record stored under it, whose id is the one asked for |
| `TemplateService.GetTemplateHtml` | backend/src/services/template.service.js:396-399 | null exactly when the record is missing, else that record's HTML |
| `TemplateService.StoredPagesAreDocuments` | backend/src/services/template.service.js:2-361 | every stored page is a full document from doctype to closing tag |
| `TemplateService.GetAvailableTemplates` | backend/src/services/template.service.js:383-390 | one summary per catalog entry, in catalog order |
| `TemplateService.LookupFindsKey` | backend/src/services/template.service.js:392-394 | with distinct names, looking up an entry's name finds exactly that entry |
| `TemplateService.ListedEntryRoundTrip` | backend/src/services/template.service.js:383-394 | the id of the i-th listed summary leads back to the record it summarises |
| `TemplateService.ListingRoundTrip` | backend/src/services/template.service.js:383-394 | every listed summary leads back by its id to its record |
| `TemplateService.CurlyToken` | backend/src/services/template.service.js:373 | the `{{key}}` token is never empty |
| `TemplateService.BracketToken` | backend/src/services/template.service.js:374 | the `[KEY]` token is never empty |
| `TemplateService.Generated` | backend/src/services/template.service.js:363-381 | an empty or missing template is an error with the fixed message; with no data the template is returned as it is; otherwise the result is the template after every key's step, in key order |
| `TemplateService.GenerateHtml` | backend/src/services/template.service.js:363-381 | the key-by-key loop equals the specification of `generateHTML` |
| `TemplateService.SubstituteSequential` | backend/src/services/template.service.js:372-377 | keys are applied in order, each to the result of the ones before |
| `TemplateService.SubstituteKeyIsSplitJoin` | backend/src/services/template.service.js:375-376 | one key's step cuts at each `{{key}}` and joins with the value, then does the same at `[KEY]` |
| `TemplateService.UnlistedCurlyKept` | backend/src/services/template.service.js:371-378 | a `{{k}}` of a key the data does not list stays where it is, and the text on either side is substituted on its own (keys free of braces and brackets) |
| `TemplateService.UnlistedBracketKept` | backend/src/services/template.service.js:371-378 | the same for `[K]` when no data key upper-cases to `K` |
| `TemplateService.UnlistedCurlyStays` | backend/src/services/template.service.js:371-378 | a `{{k}}` placeholder in the template is still in the result when no data key is `k` |
| `Text.ReplaceAllAcross` | backend/src/services/template.service.js:375-376 | a global replace leaves a piece of text in place when no occurrence of the pattern overlaps it, and replaces on either side independently |
| `TemplateService.SubstituteWithoutTokens` | backend/src/services/template.service.js:371-378 | a template holding no token of any data key comes back unchanged |
| `ExtractService.BaseName` | backend/src/services/extract.service.js:80 | the base name is a suffix of the path with no `/`; when it is not the whole path, a `/` comes right before it |
| `ExtractService.Extname` | backend/src/services/extract.service.js:80 | the extension is empty or a suffix that starts with its only `.` and has no `/` |
| `ExtractService.ExtnameOfName` | backend/src/services/extract.service.js:80 | a name written as stem `.` ext has extension `.ext` |
| `ExtractService.ExtnameWithoutDot` | backend/src/services/extract.service.js:80 | a name with no `.` has no extension |
| `ExtractService.SpreadsheetMimeFirst` | backend/src/services/extract.service.js:84-86 | a spreadsheet MIME type is read as a workbook whatever the extension |
| `ExtractService.TextMimeBeforeHtml` | backend/src/services/extract.service.js:99-106 | a `.html` file with a `text` MIME type goes by the text route, whose condition comes first |
| `ExtractService.Labelled` | backend/src/services/extract.service.js:7-43 | the reader's text is passed through; its error gets the extractor's heading |
| `ExtractService.PdfText` | backend/src/services/extract.service.js:16-35 | parsed text wins; after a parse error, the UTF-8 text is used exactly when it is readable and longer than 100 characters once trimmed, else the PDF error is reported |
| `ExtractService.SheetBlocks` | backend/src/services/extract.service.js:50-54 | one block per sheet, in workbook order |
| `ExtractService.ExcelText` | backend/src/services/extract.service.js:45-60 | a workbook error is reported under the Excel heading, and only then is there an error; a read workbook gives its sheets' blocks in order |
| `ExtractService.ExtractFromExcel` | backend/src/services/extract.service.js:45-60 | the sheet loop equals the workbook text specification |
| `ExtractService.WorkbookTextSplits` | backend/src/services/extract.service.js:50-54 | a workbook's text is its first sheets' text followed by the rest's |
| `ExtractService.WorkbookNamesEverySheet` | backend/src/services/extract.service.js:51-53 | every sheet's block, headed by its name, appears in the workbook text |
| `ExtractService.UnrecognisedText` | backend/src/services/extract.service.js:108-120 | non-blank UTF-8 text is used; blank text is refused; an unreadable file falls back to its first bytes |
| `ExtractService.ExtractFromAnyFile` | backend/src/services/extract.service.js:79-124 | the chosen extractor's text passes through, and every error gets the same outer prefix |
| `ExtractService.HtmlReadAsText` | backend/src/services/extract.service.js:99-106 | HTML files are read exactly as text files |
| `ExtractService.BlankUnrecognisedRefused` | backend/src/services/extract.service.js:108-123 | an unrecognised blank file is refused with the fixed message under the prefix |
| `ExtractService.ShortPdfFallbackRefused` | backend/src/services/extract.service.js:24-33 | a failed PDF parse with short or unreadable text reports the PDF error |
| `ExtractService.SectionsBy` | backend/src/services/extract.service.js:66-74 | one section per file |
| `ExtractService.SectionsIndexed` | backend/src/services/extract.service.js:66-74 | the section at position i is the one for the file at index i |
| `ExtractService.ExtractFromMultipleFiles` | backend/src/services/extract.service.js:63-77 | the file loop equals the combined text specification; a failing file adds its error section and the batch goes on |
| `ExtractService.NoFilesNoText` | backend/src/services/extract.service.js:64 | no files give the empty text |
| `ExtractService.OneMoreFile` | backend/src/services/extract.service.js:66-74 | one more file appends exactly its own section and keeps the earlier text |
| `ExtractService.EveryFileHasSection` | backend/src/services/extract.service.js:66-74 | every file's section, success or error, is in the combined text |
| `DocumentController.Layout` | backend/src/controllers/document.controller.js:196-238 | the layout is a full document containing its title element and content |
| `DocumentController.ReportBody` | backend/src/controllers/document.controller.js:213 | the generic report body carries the format as its heading |
| `DocumentController.Rendered` | backend/src/controllers/document.controller.js:80-238 | every design renders as a full document from doctype to closing tag |
| `DocumentController.GenerateCustomTemplate` | backend/src/controllers/document.controller.js:77-239 | the trimmed template is the rendering of the design chosen from the lower-cased format, and a full document |
| `DocumentController.FormatNamesReport` | backend/src/controllers/document.controller.js:196-238 | a format with no known keyword gets a page titled `<format> Report` with the format as heading |
| `DocumentController.CandidateBeforeSeo` | backend/src/controllers/document.controller.js:80-147 | a format naming both a resume and SEO gets the resume design, whose condition comes first |
| `DocumentController.DesignIgnoresCase` | backend/src/controllers/document.controller.js:78 | the design does not depend on the case of the format |
| `DocumentController.Preview` | backend/src/controllers/document.controller.js:63 | the preview is the first 500 characters (or all of a shorter text) followed by `...` |
| `DocumentController.OutputFileName` | backend/src/controllers/document.controller.js:54 | the file name is `formatted_`, then digits that read back as the time stamp, then `.html` |
| `DocumentController.OutputFileNamesDiffer` | backend/src/controllers/document.controller.js:54 | different time stamps give different file names |
| `DocumentController.Answer` | backend/src/controllers/document.controller.js:58-64 | the answer carries the HTML, the file name, its download URL and the preview |
| `DocumentController.ChooseInputs` | backend/src/controllers/document.controller.js:15-46 | the text and template chosen equal the specification of the controller's choices |
| `DocumentController.ProcessDocument` | backend/src/controllers/document.controller.js:7-74 | the answer is the specification applied to the AI analysis; the slot moves only when the analysis runs |
| `DocumentController.PastedTextWins` | backend/src/controllers/document.controller.js:15-26 | with non-blank pasted text, the uploaded file does not matter |
| `DocumentController.PastedTextIsTrimmed` | backend/src/controllers/document.controller.js:15-18 | pasted text is used trimmed and is never reported as missing |
| `DocumentController.NothingToFormat` | backend/src/controllers/document.controller.js:27-29 | no pasted text and no file give 400 with the input message |
| `DocumentController.BlankFileRefused` | backend/src/controllers/document.controller.js:31-33 | a blank extracted text gives 400 with the no-text message |
| `DocumentController.FailedExtractionIsServerError` | backend/src/controllers/document.controller.js:19-73 | a failed extraction gives 500 with the extraction error |
| `DocumentController.TemplateWins` | backend/src/controllers/document.controller.js:37-41 | a non-blank template makes the format description irrelevant |
| `DocumentController.NoTemplateRefused` | backend/src/controllers/document.controller.js:42-46 | neither template nor format gives 400 with the template message |
| `DocumentController.DescriptionGeneratesTemplate` | backend/src/controllers/document.controller.js:39-41 | without a template, the format description selects a generated template |
| `DocumentController.FormattedAnswer` | backend/src/controllers/document.controller.js:48-64 | once inputs are chosen, the answer is the analysis of that text and template, wrapped with a name and a preview |
| `Api.GetBaseUrl` | frontend/src/lib/api.ts:2-15 | the configured URL when set and non-empty; else the production or the local URL |
| `Api.BaseUrlNeverEmpty` | frontend/src/lib/api.ts:2-15 | the base URL is never empty, and a configured one does not depend on the build mode |
| `Api.ApiCall` | frontend/src/lib/api.ts:30-49 | an ok response passes through; a thrown error is rethrown; other responses throw the error field or `HTTP <status>: <text>` |
| `Api.DigitsBeforeColon` | frontend/src/lib/api.ts:43-46 | a digit run followed by `: ` is read back unambiguously |
| `Api.StatusLineNamesStatus` | frontend/src/lib/api.ts:43-46 | two fallback error messages that are equal name the same status |
| `Api.FetchWithRetry` | frontend/src/lib/api.ts:52-76 | the loop's outcome, its fetch count and its waits equal the retry specification; the count of attempts defaults to 3 |
| `Api.DefaultAttemptsBounded` | frontend/src/lib/api.ts:52-76 | with the default count, at most three fetches and at most three waits, of 2, 4 and 6 seconds |
| `Api.BackoffsAt` | frontend/src/lib/api.ts:64-72 | the k-th wait from attempt i is (i+k+1)*2000 ms |
| `Api.RetryBounds` | frontend/src/lib/api.ts:52-76 | from attempt i there are at most retries-i fetches, the waits are the growing backoffs, and there are no more waits than fetches |
| `Api.AttemptsBounded` | frontend/src/lib/api.ts:52-76 | at most `retries` fetches, and the k-th wait is (k+1)*2000 ms |
| `Api.FirstDecisiveAnswerReturned` | frontend/src/lib/api.ts:59-68 | the first ok response, or the first failure other than 502/503, after retryable attempts is returned with the waits before it |
| `Api.LastErrorRethrown` | frontend/src/lib/api.ts:69-73 | a network error on the last attempt is rethrown after all earlier waits |
| `Api.WakingBackendExhaustsRetries` | frontend/src/lib/api.ts:53-75 | a backend answering 502/503 every time uses every attempt and waits, then throws `Max retries exceeded` |
| `Api.HealthyIffOkWithinTwo` | frontend/src/lib/api.ts:79-89 | healthy exactly when the first health fetch is ok, or it fails retryably and the second is ok |
| `FileListUpload.Extension` | myformatterfriend/src/components/FileUpload.tsx:61 | the extension is the lower-cased suffix from the last `.`, or the whole lower-cased name when there is no `.` |
| `FileListUpload.ExtensionsStartWithDot` | myformatterfriend/src/components/FileUpload.tsx:60 | every accepted extension starts with `.` |
| `FileListUpload.NoDotOnlyByMimeType` | myformatterfriend/src/components/FileUpload.tsx:50-63 | a name without a `.` is accepted exactly by its MIME type |
| `FileListUpload.ExtensionIgnoresCase` | myformatterfriend/src/components/FileUpload.tsx:61 | names equal up to case have the same extension |
| `FileListUpload.ValidityIgnoresCase` | myformatterfriend/src/components/FileUpload.tsx:50-63 | renaming a file to a case variant does not change whether it is accepted |
| `FileListUpload.Added` | myformatterfriend/src/components/FileUpload.tsx:28-33 | the current files are kept in front; exactly the valid incoming files are appended |
| `FileListUpload.AddedTwice` | myformatterfriend/src/components/FileUpload.tsx:28-47 | adding two batches one after the other equals adding them together |
| `FileListUpload.NothingValidAddsNothing` | myformatterfriend/src/components/FileUpload.tsx:29-33 | a batch with no valid file leaves the list unchanged |
| `FileListUpload.RemoveExactlyIndex` | myformatterfriend/src/components/FileUpload.tsx:65-69 | removing an index in range drops exactly that file; an index out of range removes nothing |
| `FileListUpload.RemoveKeepsValid` | myformatterfriend/src/components/FileUpload.tsx:65-69 | removal keeps every remaining file valid |
| `FileListUpload.FileList.constructor` | myformatterfriend/src/components/FileUpload.tsx:11-12 | not dragging, no files, nothing notified |
| `FileListUpload.FileList.DragOver` | myformatterfriend/src/components/FileUpload.tsx:14-17 | sets the drag flag and changes nothing else |
| `FileListUpload.FileList.DragLeave` | myformatterfriend/src/components/FileUpload.tsx:19-22 | clears the drag flag and changes nothing else |
| `FileListUpload.FileList.AddFiles` | myformatterfriend/src/components/FileUpload.tsx:28-33 | appends the valid files and notifies the new list only if some file was valid |
| `FileListUpload.FileList.Drop` | myformatterfriend/src/components/FileUpload.tsx:24-36 | clears the drag flag, then adds the dropped files |
| `FileListUpload.FileList.Select` | myformatterfriend/src/components/FileUpload.tsx:38-48 | adds the picked files; no selection adds nothing |
| `FileListUpload.FileList.RemoveFile` | myformatterfriend/src/components/FileUpload.tsx:65-69 | removes the index, notifies the new list and keeps the list valid |
| `FileListUpload.FileList.ClearAllFiles` | myformatterfriend/src/components/FileUpload.tsx:71-74 | empties the list and notifies the empty list |
| `SingleFileUpload.Accepted` | src/components/FileUpload.tsx:28-55 | a file is accepted exactly when there is a first file and it has an accepted type; it is that first file |
| `SingleFileUpload.OnlyFirstFileCounts` | src/components/FileUpload.tsx:28 | files after the first, and the first file's name, make no difference |
| `SingleFileUpload.AcceptedTypes` | src/components/FileUpload.tsx:48-55 | a file is accepted exactly when its MIME type is PDF, Word or DOCX |
| `SingleFileUpload.FileSlot.constructor` | src/components/FileUpload.tsx:11-12 | not dragging, empty slot, nothing notified |
| `SingleFileUpload.FileSlot.DragOver` | src/components/FileUpload.tsx:14-17 | sets the drag flag and changes nothing else |
| `SingleFileUpload.FileSlot.DragLeave` | src/components/FileUpload.tsx:19-22 | clears the drag flag and changes nothing else |
| `SingleFileUpload.FileSlot.Offer` | src/components/FileUpload.tsx:28-32 | an accepted first file fills the slot and is notified; otherwise nothing changes |
| `SingleFileUpload.FileSlot.Drop` | src/components/FileUpload.tsx:24-35 | clears the drag flag, then offers the dropped files |
| `SingleFileUpload.FileSlot.Select` | src/components/FileUpload.tsx:37-46 | offers the picked files; no selection changes nothing |
| `SingleFileUpload.FileSlot.RemoveFile` | src/components/FileUpload.tsx:57-60 | empties the slot and notifies the empty value |

## Left out

- Prompt wording. Only the fact that the prompt embeds the text and the template is modelled; the instruction prose is not.
- The Gemini SDK, the network and `fetch`. These are oracle functions, keyed by model and attempt number (AI) or by URL and attempt number (client).
- `setTimeout` waits. They are recorded as the list of delays in milliseconds; no time passes in the model.
- Console logging, and the `replacementCount` counter, which is only logged.
- File readers: `fs`, pdf-parse, mammoth, xlsx and multer's storage. They are a `Readers` record of what each would yield. The 50 KB `firstBytes` truncation is part of that record, not computed.
- Concurrency: interleaved requests sharing `currentModel` are not modelled. Each call runs to completion.
- `formatFileSize`, because it uses floating point, and all React rendering, styles and animation.
- Template keys are matched literally. Placeholders whose key holds regular-expression metacharacters are not modelled.
- `$` patterns (`$&`, `` $` ``, `$'`, `$$`) in replacement values are not interpreted. This applies to `generateHTML` and also to the fallback's `Information not found`, bracket and `WashCure` passes (`FillInformation`, `FillBrackets`, `Rename`), whose values come from the document.
- Keys inherited from `Object.prototype` (such as `toString`) are not found by template lookup. The source would find them.
- Data values other than strings are modelled as truthy text or falsy, and a falsy one becomes `''`. A non-string `error` field in an API error body is not modelled.
- Case mapping is ASCII only. Strings are sequences of characters, not UTF-16 code units.
- `path.extname` is modelled for `/` separators. Windows paths and trailing-slash paths are not modelled.
- The HTML bodies of the catalog pages and of the generated custom templates are abbreviated. Each keeps its doctype, its placeholders, its title and heading and its closing tag.
- The file write in `processDocument` and its 500 error, and the `downloadFile`, `getTemplates` and model-status controllers.
- `API_CONFIG.ENDPOINTS`, request options and headers, and CORS.
- If `response.json()` fails on an error response in `apiCall`, the model treats the body as having no error field. A body that parses as JSON `null` is not modelled: there `errorData.error` throws a `TypeError` in place of the `HTTP <status>: <text>` message.
- Ai.TryModel: the rules for one model are stated by the lemmas `Ai.RetryOnlyRateLimitedPrimary`, `Ai.NextModelAfterPlainFailure` and `Ai.RateLimitedPrimaryRetried`, not by its own contract.
- Patterns.FirstMatch: leftmost matching is stated by the lemma `Patterns.FirstMatchLeftmost`, not by its own contract.
- Ai.Analyze: the specification of `analyzeDocument` has no contract of its own; `Ai.AiService.AnalyzeDocument` is proved equal to it, and `Ai.FallbackExactlyWhenNoAnswer`, `Ai.BadKeyGoesStraightToFallback`, `Ai.AtMostTenCalls`, `Ai.ModelUsedIsChainOrFallback`, `Ai.PrimarySucceeds`, `Ai.RateLimitedPrimaryRetried`, `Ai.OtherFailureMovesOn` and `Ai.AllFailuresFillTemplate` state its behaviour.
- Ai.Run: the walk down the model chain has no contract of its own; `Ai.FirstAnswering`, `Ai.RunExhaustsChain`, `Ai.RunStopsAtFirstAnswer`, `Ai.RunCallBound`, `Ai.RunStartsAtHead`, `Ai.SuccessNamesChainModel` and `Ai.NextModelAfterPlainFailure` state it, and `Ai.AiService.TryChain` is proved equal to it.
- Ai.KeyValid: the key test is stated through `Ai.BadKeyGoesStraightToFallback` and `Ai.FallbackExactlyWhenNoAnswer`, not by its own contract.
- Ai.WebsiteName: stated by `Ai.WebsiteNameDefault`, `Ai.WebsiteNameLeftmost`, `Ai.ReportLineNamesSite`, `Ai.ColonAfterLeadGivesDefault` and `Ai.EmptyLineAfterLeadGivesDefault`, not by its own contract.
- Ai.Grade: stated by `Ai.GradeLeftmost` and, for the capture itself, by `Ai.GradeAt` and `Ai.GradeAtReadsLetter`, not by its own contract.
- Ai.Score: stated by `Ai.ScoreLeftmost` and, for the capture itself, by `Ai.ScoreAt` and `Ai.ScoreAtReadsDigits`, not by its own contract.
- Ai.Recommendations: stated by `Ai.RecommendationsAreAdviceLines`, not by its own contract.
- Ai.FillNotAvailable: stated by `Ai.NotAvailableCycle`, not by its own contract.
- Ai.FillInformation: stated by `Ai.InformationPass`, not by its own contract.
- Ai.FillBrackets: stated by `Ai.FillBracketsWithoutTags`, `Ai.TagWidthAt`, `Ai.NameTagSpan` and `Patterns.ReplaceEachFirstMatch`, not by its own contract.
- Ai.Rename: stated by `Ai.RenameIsSplitJoin`, not by its own contract.
- Ai.FallbackFill: the specification of `fallbackAnalysis` has no contract of its own; `Ai.FillTemplate` is proved equal to it, and `Ai.FallbackKeepsPlainTemplate` and `Ai.AllFailuresFillTemplate` state its behaviour.
- TemplateService.SubstituteAll: stated by `TemplateService.SubstituteSequential`, `TemplateService.SubstituteKeyIsSplitJoin`, `TemplateService.SubstituteWithoutTokens`, `TemplateService.UnlistedCurlyKept`, `TemplateService.UnlistedBracketKept` and `TemplateService.UnlistedCurlyStays`, and `TemplateService.GenerateHtml` is proved equal to it.
- TemplateService.Catalog: the list of the five template keys is a constant; `TemplateService.CatalogKeysDistinct` and `TemplateService.IdIsKey` state its properties.
- ExtractService.KindOf: the choice of extractor is stated by `ExtractService.SpreadsheetMimeFirst`, `ExtractService.TextMimeBeforeHtml`, `ExtractService.HtmlReadAsText` and `ExtractService.BlankUnrecognisedRefused`, not by its own contract.
- ExtractService.KindFor: the order of the extension and MIME tests is stated through `ExtractService.KindOf` by `ExtractService.SpreadsheetMimeFirst` and `ExtractService.TextMimeBeforeHtml`, not by its own contract.
- ExtractService.ExtractAs: stated by `ExtractService.ExtractFromAnyFile`, `ExtractService.Labelled`, `ExtractService.PdfText`, `ExtractService.ExcelText` and `ExtractService.UnrecognisedText`, not by its own contract.
- ExtractService.WorkbookText: stated by `ExtractService.ExcelText`, `ExtractService.SheetBlocks`, `ExtractService.WorkbookTextSplits` and `ExtractService.WorkbookNamesEverySheet`, and `ExtractService.ExtractFromExcel` is proved equal to it.
- ExtractService.CombinedText: stated by `ExtractService.NoFilesNoText`, `ExtractService.OneMoreFile`, `ExtractService.EveryFileHasSection` and `ExtractService.SectionsIndexed`, and `ExtractService.ExtractFromMultipleFiles` is proved equal to it.
- DocumentController.DesignFor: stated by `DocumentController.GenerateCustomTemplate`, `DocumentController.FormatNamesReport`, `DocumentController.CandidateBeforeSeo` and `DocumentController.DesignIgnoresCase`, not by its own contract.
- DocumentController.TextToFormat: stated by `DocumentController.PastedTextWins`, `DocumentController.PastedTextIsTrimmed`, `DocumentController.NothingToFormat`, `DocumentController.BlankFileRefused` and `DocumentController.FailedExtractionIsServerError`, not by its own contract.
- DocumentController.TemplateToUse: stated by `DocumentController.TemplateWins`, `DocumentController.NoTemplateRefused` and `DocumentController.DescriptionGeneratesTemplate`, not by its own contract.
- DocumentController.Respond: the specification of `processDocument`'s answer has no contract of its own; `DocumentController.ProcessDocument` is proved equal to it, and `DocumentController.FormattedAnswer`, `DocumentController.NothingToFormat`, `DocumentController.BlankFileRefused`, `DocumentController.FailedExtractionIsServerError` and `DocumentController.NoTemplateRefused` state its cases.
- Api.ErrorMessage: stated through `Api.ApiCall` and by `Api.StatusLineNamesStatus` and `Api.DigitsBeforeColon`, not by its own contract.
- Api.RetryFrom: the retry specification has no contract of its own; `Api.FetchWithRetry` is proved equal to it, and `Api.RetryBounds`, `Api.AttemptsBounded`, `Api.DefaultAttemptsBounded`, `Api.FirstDecisiveAnswerReturned`, `Api.LastErrorRethrown` and `Api.WakingBackendExhaustsRetries` state its behaviour.
- Api.CheckBackendHealth: stated in both directions by `Api.HealthyIffOkWithinTwo`, not by its own contract.
- FileListUpload.IsValidFileType: stated by `FileListUpload.NoDotOnlyByMimeType`, `FileListUpload.ValidityIgnoresCase`, `FileListUpload.Extension` and `FileListUpload.ExtensionsStartWithDot`, not by its own contract.
- FileListUpload.WithoutIndex: stated by `FileListUpload.RemoveExactlyIndex` and `FileListUpload.RemoveKeepsValid`, not by its own contract.
- SingleFileUpload.IsValidFileType: stated in both directions by `SingleFileUpload.AcceptedTypes`, not by its own contract.
