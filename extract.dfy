/**
 * Text extraction of backend/src/services/extract.service.js: the choice of
 * extractor from a file's extension and MIME type, the per-sheet text of a
 * workbook, the raw-text fallback for PDFs, and the batch extraction that
 * writes one delimited section per uploaded file.
 *
 * The parsers (mammoth, pdf-parse, xlsx) and the filesystem are foreign: each
 * upload carries what each of them yields for it, text or an error message.
 */
module ExtractService {
  import opened Wrappers
  import opened Text

  /** A worksheet: its name and `sheet_to_txt` of its cells. */
  datatype Sheet = Sheet(name: string, text: string)

  /** What the foreign readers yield for one stored file. */
  datatype Readers = Readers(
    utf8: Result<string>,          // fs.readFileSync(path, 'utf8')
    firstBytes: Result<string>,    // the first 50 000 bytes of the file, decoded as UTF-8
    docx: Result<string>,          // mammoth's raw text
    pdf: Result<string>,           // pdf-parse's text
    workbook: Result<seq<Sheet>>)  // xlsx: the sheets in workbook order

  /** An uploaded file as multer stores it. */
  datatype Upload = Upload(mimetype: string, originalname: string, readers: Readers)

  // -------------------------------------------------------------- extension

  /** The last path segment: the text after the last `/`. */
  function BaseName(p: string): (b: string)
    ensures EndsWith(p, b) && '/' !in b
    ensures |b| < |p| ==> p[|p| - |b| - 1] == '/'
  {
    match LastIndexOf(p, '/')
    case None => p
    case Some(k) => p[k + 1..]
  }

  /** A suffix of a suffix is a suffix. */
  lemma SuffixOfSuffix(p: string, b: string, d: nat)
    requires EndsWith(p, b) && d <= |b|
    ensures EndsWith(p, b[d..])
  {
    assert p[|p| - |b|..][d..] == p[|p| - |b[d..]|..];
  }

  /**
   * `path.extname` of a name: the text from the last `.` of its last segment,
   * or nothing when that segment has no `.`, starts with its only `.`, or is `..`.
   */
  function Extname(p: string): (r: string)
    ensures r == [] || (r[0] == '.' && EndsWith(p, r) && '.' !in r[1..] && '/' !in r)
  {
    var b := BaseName(p);
    match LastIndexOf(b, '.')
    case None => ""
    case Some(d) =>
      if d == 0 || (d == 1 && |b| == 2 && b[0] == '.') then ""
      else
        ExtensionOfSegment(p, b, d);
        b[d..]
  }

  /** The text from the last `.` of the last segment is a suffix starting with its only `.`. */
  lemma ExtensionOfSegment(p: string, b: string, d: nat)
    requires EndsWith(p, b) && '/' !in b && d < |b| && b[d] == '.' && '.' !in b[d + 1..]
    ensures b[d..][0] == '.' && EndsWith(p, b[d..]) && '.' !in b[d..][1..] && '/' !in b[d..]
  {
    SuffixOfSuffix(p, b, d);
    assert b[d..][1..] == b[d + 1..];
    assert forall i :: 0 <= i < |b| - d ==> b[d..][i] == b[d + i];
  }

  /** A name written as a stem and an extension has that extension. */
  lemma ExtnameOfName(stem: string, ext: string)
    requires stem != [] && stem != "." && '/' !in stem && '/' !in ext && '.' !in ext
    ensures Extname(stem + "." + ext) == "." + ext
  {
    var p := stem + "." + ext;
    assert '/' !in p by {
      forall i | 0 <= i < |p|
        ensures p[i] != '/'
      {
        if i < |stem| { assert p[i] == stem[i]; }
        else if i > |stem| { assert p[i] == ext[i - |stem| - 1]; }
      }
    }
    assert BaseName(p) == p;
    var d := LastIndexOf(p, '.');
    assert p[|stem|] == '.';
    assert p[|stem| + 1..] == ext;
    assert d == Some(|stem|);
    assert p[|stem|..] == "." + ext;
  }

  /** A name with no `.` at all has no extension. */
  lemma ExtnameWithoutDot(p: string)
    requires '.' !in p
    ensures Extname(p) == ""
  {
    var b := BaseName(p);
    assert forall i :: 0 <= i < |b| ==> b[i] == p[|p| - |b| + i];
  }

  // ---------------------------------------------------------------- dispatch

  /** The extractor `extractFromAnyFile` picks. */
  datatype Kind = Workbook | Word | Pdf | PlainText | Html | Unrecognised

  /** The tests of `extractFromAnyFile` in order, on the lower-cased extension and the MIME type as given. */
  function KindOf(mimetype: string, originalname: string): Kind {
    KindFor(Lower(Extname(originalname)), mimetype)
  }

  function KindFor(ext: string, mimetype: string): Kind {
    if ext == ".xlsx" || ext == ".xls" || Contains(mimetype, "spreadsheet") then Workbook
    else if ext == ".docx" || ext == ".doc" || Contains(mimetype, "word") then Word
    else if ext == ".pdf" || Contains(mimetype, "pdf") then Pdf
    else if ext == ".txt" || Contains(mimetype, "text") then PlainText
    else if ext == ".html" || ext == ".htm" || Contains(mimetype, "html") then Html
    else Unrecognised
  }

  /** A MIME type naming a spreadsheet is read as a workbook, whatever the extension says. */
  lemma SpreadsheetMimeFirst(mimetype: string, originalname: string)
    requires Contains(mimetype, "spreadsheet")
    ensures KindOf(mimetype, originalname) == Workbook
  {
  }

  /** The `text` MIME condition comes before the `.html` extension, so such a file is read by the text route. */
  lemma TextMimeBeforeHtml(mimetype: string, originalname: string)
    requires Lower(Extname(originalname)) == ".html"
    requires Contains(mimetype, "text") && !Contains(mimetype, "spreadsheet") && !Contains(mimetype, "word")
             && !Contains(mimetype, "pdf")
    ensures KindOf(mimetype, originalname) == PlainText
  {
    TextBeforeHtmlFor(".html", mimetype);
  }

  lemma TextBeforeHtmlFor(ext: string, mimetype: string)
    requires ext == ".html"
    requires Contains(mimetype, "text") && !Contains(mimetype, "spreadsheet") && !Contains(mimetype, "word")
             && !Contains(mimetype, "pdf")
    ensures KindFor(ext, mimetype) == PlainText
  {
  }

  const ExtractionFailed: string := "File extraction failed: "
  const Unreadable: string := "Unable to extract readable text from this file type"

  /** `extractFromDocx` and `extractFromTxt`: the reader's text, or its error under the extractor's own heading. */
  function Labelled(r: Result<string>, heading: string): (out: Result<string>)
    ensures out.Ok? <==> r.Ok?
    ensures out.Ok? ==> out.value == r.value
    ensures out.Err? ==> out.error == heading + r.error
  {
    match r
    case Ok(t) => Ok(t)
    case Err(e) => Err(heading + e)
  }

  /**
   * `extractFromPdf`: pdf-parse's text; when parsing fails, the file read as
   * UTF-8 if that has more than 100 characters once trimmed, else the parse error.
   */
  function PdfText(rd: Readers): (r: Result<string>)
    ensures rd.pdf.Ok? ==> r == rd.pdf
    ensures rd.pdf.Err? && r.Ok? ==> rd.utf8.Ok? && r.value == rd.utf8.value && |Trim(r.value)| > 100
    ensures rd.pdf.Err? && r.Err? ==> r.error == "Error extracting PDF: " + rd.pdf.error
    ensures rd.pdf.Err? && rd.utf8.Ok? && |Trim(rd.utf8.value)| > 100 ==> r == rd.utf8
  {
    if rd.pdf.Ok? then rd.pdf
    else if rd.utf8.Ok? && |Trim(rd.utf8.value)| > 100 then Ok(rd.utf8.value)
    else Err("Error extracting PDF: " + rd.pdf.error)
  }

  /** One worksheet's block of the workbook text. */
  function SheetBlock(s: Sheet): string {
    "Sheet: " + s.name + "\n" + s.text + "\n\n"
  }

  function SheetBlocks(sheets: seq<Sheet>): (r: seq<string>)
    ensures |r| == |sheets| && forall i :: 0 <= i < |sheets| ==> r[i] == SheetBlock(sheets[i])
  {
    seq(|sheets|, i requires 0 <= i < |sheets| => SheetBlock(sheets[i]))
  }

  /** The text of a workbook: the sheets' blocks in workbook order. */
  function WorkbookText(sheets: seq<Sheet>): string {
    Concat(SheetBlocks(sheets))
  }

  /** `extractFromExcel`'s result for what xlsx yields. */
  function ExcelText(workbook: Result<seq<Sheet>>): (r: Result<string>)
    ensures r.Err? <==> workbook.Err?
    ensures r.Err? ==> r.error == "Error extracting Excel: " + workbook.error
    ensures workbook.Ok? ==> r == Ok(WorkbookText(workbook.value))
  {
    match workbook
    case Ok(sheets) => Ok(WorkbookText(sheets))
    case Err(e) => Err("Error extracting Excel: " + e)
  }

  /** `extractFromExcel`: the blocks of the sheets appended one by one. */
  method ExtractFromExcel(workbook: Result<seq<Sheet>>) returns (r: Result<string>)
    ensures r == ExcelText(workbook)
  {
    if workbook.Err? {
      return Err("Error extracting Excel: " + workbook.error);
    }
    var sheets := workbook.value;
    var text := "";
    var i := 0;
    while i < |sheets|
      invariant 0 <= i <= |sheets|
      invariant text == Concat(SheetBlocks(sheets)[..i])
    {
      assert SheetBlocks(sheets)[..i + 1][..i] == SheetBlocks(sheets)[..i];
      text := text + SheetBlock(sheets[i]);
      i := i + 1;
    }
    assert SheetBlocks(sheets)[..|sheets|] == SheetBlocks(sheets);
    return Ok(text);
  }

  /** A workbook's text is the text of its first sheets followed by the text of the others. */
  lemma WorkbookTextSplits(a: seq<Sheet>, b: seq<Sheet>)
    ensures WorkbookText(a + b) == WorkbookText(a) + WorkbookText(b)
  {
    assert SheetBlocks(a + b) == SheetBlocks(a) + SheetBlocks(b);
    ConcatAppend(SheetBlocks(a), SheetBlocks(b));
  }

  /** Every sheet's name, heading its own text, appears in the workbook text. */
  lemma WorkbookNamesEverySheet(sheets: seq<Sheet>, i: nat)
    requires i < |sheets|
    ensures Contains(WorkbookText(sheets), SheetBlock(sheets[i]))
  {
    ConcatContains(SheetBlocks(sheets), i);
  }

  /** When every test fails: the file's UTF-8 text if it is not blank; if reading it fails, its first bytes. */
  function UnrecognisedText(rd: Readers): (r: Result<string>)
    ensures rd.utf8.Ok? && !IsBlank(rd.utf8.value) ==> r == rd.utf8
    ensures rd.utf8.Ok? && IsBlank(rd.utf8.value) ==> r == Err(Unreadable)
    ensures rd.utf8.Err? ==> r == rd.firstBytes
  {
    match rd.utf8
    case Ok(content) => if !IsBlank(content) then Ok(content) else Err(Unreadable)
    case Err(_) => rd.firstBytes
  }

  /** The result of the extractor chosen for `kind`, before the outer error prefix. */
  function ExtractAs(kind: Kind, rd: Readers): Result<string> {
    match kind
    case Workbook => ExcelText(rd.workbook)
    case Word => Labelled(rd.docx, "Error extracting DOCX: ")
    case Pdf => PdfText(rd)
    case PlainText => Labelled(rd.utf8, "Error reading TXT file: ")
    case Html => Labelled(rd.utf8, "Error reading TXT file: ")
    case Unrecognised => UnrecognisedText(rd)
  }

  /** `extractFromAnyFile`: the chosen extractor's text; every error leaves with the same prefix. */
  function ExtractFromAnyFile(mimetype: string, originalname: string, rd: Readers): (r: Result<string>)
    ensures r.Ok? <==> ExtractAs(KindOf(mimetype, originalname), rd).Ok?
    ensures r.Ok? ==> r.value == ExtractAs(KindOf(mimetype, originalname), rd).value
    ensures r.Err? ==> r.error == ExtractionFailed + ExtractAs(KindOf(mimetype, originalname), rd).error
  {
    match ExtractAs(KindOf(mimetype, originalname), rd)
    case Ok(t) => Ok(t)
    case Err(e) => Err(ExtractionFailed + e)
  }

  /** HTML files are read exactly as text files are. */
  lemma HtmlReadAsText(rd: Readers)
    ensures ExtractAs(Html, rd) == ExtractAs(PlainText, rd)
  {
  }

  /** An unrecognised file with blank content is refused with the fixed message, under the outer prefix. */
  lemma BlankUnrecognisedRefused(mimetype: string, originalname: string, rd: Readers)
    requires KindOf(mimetype, originalname) == Unrecognised
    requires rd.utf8.Ok? && IsBlank(rd.utf8.value)
    ensures ExtractFromAnyFile(mimetype, originalname, rd) == Err(ExtractionFailed + Unreadable)
  {
  }

  /** A PDF whose parse fails and whose text is short (at most 100 characters once trimmed) fails. */
  lemma ShortPdfFallbackRefused(rd: Readers)
    requires rd.pdf.Err? && (rd.utf8.Err? || |Trim(rd.utf8.value)| <= 100)
    ensures PdfText(rd) == Err("Error extracting PDF: " + rd.pdf.error)
  {
  }

  // ----------------------------------------------------------- many files

  /** The section for the file at index `i`: its text, or the error under an `(ERROR)` heading. */
  function Section(i: nat, f: Upload): string {
    SectionOf(i, f.originalname, ExtractFromAnyFile(f.mimetype, f.originalname, f.readers))
  }

  function SectionOf(i: nat, name: string, extracted: Result<string>): string {
    var n := NatToString(i + 1);
    match extracted
    case Ok(text) => "\n\n=== FILE " + n + ": " + name + " ===\n" + text + "\n"
    case Err(msg) => "\n\n=== FILE " + n + ": " + name + " (ERROR) ===\nFailed to extract: " + msg + "\n"
  }

  /** The sections `section` writes for the files, in input order, each told its file's index. */
  function SectionsBy(files: seq<Upload>, section: (nat, Upload) -> string): (r: seq<string>)
    ensures |r| == |files|
    decreases |files|
  {
    if files == [] then [] else SectionsBy(files[..|files| - 1], section) + [section(|files| - 1, files[|files| - 1])]
  }

  /** The section at position `i` is the one for the file at index `i`. */
  lemma {:induction false} SectionsIndexed(files: seq<Upload>, section: (nat, Upload) -> string, i: nat)
    requires i < |files|
    ensures SectionsBy(files, section)[i] == section(i, files[i])
    decreases |files|
  {
    if i < |files| - 1 {
      SectionsIndexed(files[..|files| - 1], section, i);
    }
  }

  /** One more file adds one section at the end. */
  lemma SectionsSnoc(files: seq<Upload>, section: (nat, Upload) -> string, f: Upload)
    ensures Concat(SectionsBy(files + [f], section)) == Concat(SectionsBy(files, section)) + section(|files|, f)
  {
    assert (files + [f])[..|files|] == files;
    ConcatSnoc(SectionsBy(files, section), section(|files|, f));
  }

  /** The sections of the first `i + 1` files are those of the first `i` and one more. */
  lemma SectionsStep(files: seq<Upload>, section: (nat, Upload) -> string, i: nat)
    requires i < |files|
    ensures Concat(SectionsBy(files[..i + 1], section)) == Concat(SectionsBy(files[..i], section)) + section(i, files[i])
  {
    assert files[..i + 1][..i] == files[..i];
    ConcatSnoc(SectionsBy(files[..i], section), section(i, files[i]));
  }

  /** What `extractFromMultipleFiles` returns: one section per file, in input order. */
  function CombinedText(files: seq<Upload>): string {
    Concat(SectionsBy(files, Section))
  }

  /** `extractFromMultipleFiles`: a failing file adds its error section and the batch goes on. */
  method ExtractFromMultipleFiles(files: seq<Upload>) returns (combinedText: string)
    ensures combinedText == CombinedText(files)
  {
    combinedText := "";
    var i := 0;
    while i < |files|
      invariant 0 <= i <= |files|
      invariant combinedText == Concat(SectionsBy(files[..i], Section))
    {
      var file := files[i];
      var n := NatToString(i + 1);
      var extracted := ExtractFromAnyFile(file.mimetype, file.originalname, file.readers);
      var section;
      if extracted.Ok? {
        section := "\n\n=== FILE " + n + ": " + file.originalname + " ===\n" + extracted.value + "\n";
      } else {
        section := "\n\n=== FILE " + n + ": " + file.originalname + " (ERROR) ===\nFailed to extract: " + extracted.error + "\n";
      }
      assert section == Section(i, file);
      SectionsStep(files, Section, i);
      combinedText := combinedText + section;
      i := i + 1;
    }
    assert files[..|files|] == files;
  }

  /** No files, no text. */
  lemma NoFilesNoText()
    ensures CombinedText([]) == ""
  {
    assert SectionsBy([], Section) == [];
  }

  /** One more file adds exactly its own section and leaves the earlier text as it was. */
  lemma OneMoreFile(files: seq<Upload>, f: Upload)
    ensures CombinedText(files + [f]) == CombinedText(files) + Section(|files|, f)
  {
    SectionsSnoc(files, Section, f);
  }

  /** Every file has its section in the combined text, whether its extraction succeeded or not. */
  lemma EveryFileHasSection(files: seq<Upload>, i: nat)
    requires i < |files|
    ensures Contains(CombinedText(files), Section(i, files[i]))
  {
    SectionsIndexed(files, Section, i);
    ConcatContains(SectionsBy(files, Section), i);
  }
}
