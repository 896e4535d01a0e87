/** A file picked or dropped in the browser, as the upload components see it. */
module WebFile {
  import opened Wrappers

  /** `File`: its name and its MIME type (`file.type`). */
  datatype BrowserFile = BrowserFile(name: string, mimeType: string)

  const PdfType: string := "application/pdf"
  const MsWordType: string := "application/msword"
  const DocxType: string := "application/vnd.openxmlformats-officedocument.wordprocessingml.document"

  /** `input.files || []`: the files of a file input, none when it has no file list. */
  function Picked(files: Option<seq<BrowserFile>>): seq<BrowserFile> {
    match files
    case None => []
    case Some(fs) => fs
  }
}

/**
 * The multi-file upload of myformatterfriend/src/components/FileUpload.tsx:
 * the type check by MIME type or extension, and the list of uploaded files
 * that drops and selections extend and that `removeFile` and
 * `clearAllFiles` shrink. Every list stored is handed to `onFileUpload`;
 * the component records these hand-overs in `notified`.
 */
module FileListUpload {
  import opened Wrappers
  import opened Text
  import opened Seqs
  import opened WebFile

  const ValidTypes: seq<string> :=
    [PdfType, MsWordType, DocxType, "application/vnd.ms-excel",
     "application/vnd.openxmlformats-officedocument.spreadsheetml.sheet", "text/plain", "text/html"]
  const ValidExtensions: seq<string> := [".pdf", ".doc", ".docx", ".txt", ".xls", ".xlsx", ".html", ".htm"]

  /**
   * `name.toLowerCase().substring(name.lastIndexOf('.'))`: the lower-cased
   * suffix from the last '.', or the whole lower-cased name when it has no
   * '.' (`substring(-1)` starts at 0).
   */
  function Extension(name: string): (ext: string)
    ensures |ext| <= |name| && ext == Lower(name)[|name| - |ext|..]
    ensures '.' !in name ==> ext == Lower(name)
    ensures '.' in name ==> ext != [] && ext[0] == '.' && '.' !in ext[1..]
  {
    match LastIndexOf(name, '.')
    case None => Lower(name)
    case Some(i) =>
      assert Lower(name)[i..][1..] == Lower(name)[i + 1..];
      Lower(name)[i..]
  }

  /** `isValidFileType`: a listed MIME type, or a listed extension. */
  predicate IsValidFileType(file: BrowserFile) {
    file.mimeType in ValidTypes || Extension(file.name) in ValidExtensions
  }

  /** Every listed extension begins with its dot. */
  lemma ExtensionsStartWithDot()
    ensures forall k :: 0 <= k < |ValidExtensions| ==> |ValidExtensions[k]| > 0 && ValidExtensions[k][0] == '.'
  {
  }

  /** A name without a '.' has no extension to match, so only its MIME type can make the file valid. */
  lemma NoDotOnlyByMimeType(file: BrowserFile)
    requires '.' !in file.name
    ensures IsValidFileType(file) <==> file.mimeType in ValidTypes
  {
    ExtensionsStartWithDot();
    var ext := Lower(file.name);
    forall k | 0 <= k < |ValidExtensions|
      ensures ValidExtensions[k] != ext
    {
      if ext != [] {
        LowerKeepsDots(file.name, 0);
      }
    }
  }

  /** Lower-casing keeps exactly the dots where they were. */
  lemma LowerKeepsDots(s: string, i: nat)
    requires i < |s|
    ensures Lower(s)[i] == '.' <==> s[i] == '.'
  {
  }

  /** Names that differ only in the case of their letters get the same extension. */
  lemma ExtensionIgnoresCase(name1: string, name2: string)
    requires Lower(name1) == Lower(name2)
    ensures Extension(name1) == Extension(name2)
  {
    forall i | 0 <= i < |name1|
      ensures name1[i] == '.' <==> name2[i] == '.'
    {
      LowerKeepsDots(name1, i);
      LowerKeepsDots(name2, i);
    }
    LastIndexOfSamePositions(name1, name2, '.');
  }

  /** So validity does not depend on the case of the name: `REPORT.PDF` is as valid as `report.pdf`. */
  lemma ValidityIgnoresCase(file: BrowserFile, name: string)
    requires Lower(name) == Lower(file.name)
    ensures IsValidFileType(file.(name := name)) <==> IsValidFileType(file)
  {
    ExtensionIgnoresCase(name, file.name);
  }

  /** `[...uploadedFiles, ...files.filter(isValidFileType)]`. */
  function Added(current: seq<BrowserFile>, incoming: seq<BrowserFile>): (r: seq<BrowserFile>)
    ensures |current| <= |r| <= |current| + |incoming| && r[..|current|] == current
    ensures forall i :: |current| <= i < |r| ==> r[i] in incoming && IsValidFileType(r[i])
    ensures forall i :: 0 <= i < |incoming| && IsValidFileType(incoming[i]) ==> incoming[i] in r[|current|..]
  {
    var kept := Filter(IsValidFileType, incoming);
    assert (current + kept)[|current|..] == kept;
    forall i | |current| <= i < |current| + |kept|
      ensures (current + kept)[i] in incoming && IsValidFileType((current + kept)[i])
    {
      assert (current + kept)[i] == kept[i - |current|];
    }
    current + kept
  }

  /** Two drops in a row add what one drop of both batches would add, in the same order. */
  lemma AddedTwice(current: seq<BrowserFile>, first: seq<BrowserFile>, second: seq<BrowserFile>)
    ensures Added(Added(current, first), second) == Added(current, first + second)
  {
    FilterAppend(IsValidFileType, first, second);
    AppendAssoc(current, Filter(IsValidFileType, first), Filter(IsValidFileType, second));
  }

  /** When no incoming file is valid the list stays as it is. */
  lemma NothingValidAddsNothing(current: seq<BrowserFile>, incoming: seq<BrowserFile>)
    requires forall i :: 0 <= i < |incoming| ==> !IsValidFileType(incoming[i])
    ensures Added(current, incoming) == current
  {
    FilterNonePass(IsValidFileType, incoming);
  }

  /** The elements of `files` from position `pos` on whose position is not `index`: `filter((_, i) => i !== index)`. */
  function KeepOthers(files: seq<BrowserFile>, index: int, pos: int): seq<BrowserFile>
    decreases |files|
  {
    if files == [] then []
    else (if pos != index then [files[0]] else []) + KeepOthers(files[1..], index, pos + 1)
  }

  function WithoutIndex(files: seq<BrowserFile>, index: int): seq<BrowserFile> {
    KeepOthers(files, index, 0)
  }

  lemma {:induction false} KeepOthersSplit(files: seq<BrowserFile>, index: int, pos: int)
    ensures KeepOthers(files, index, pos)
         == if pos <= index < pos + |files| then files[..index - pos] + files[index - pos + 1..] else files
    decreases |files|
  {
    if files != [] {
      KeepOthersSplit(files[1..], index, pos + 1);
      if pos < index < pos + |files| {
        assert files[..index - pos] == [files[0]] + files[1..][..index - pos - 1];
        assert files[index - pos + 1..] == files[1..][index - pos..];
      }
    }
  }

  /** `removeFile(i)` removes exactly the file at position i, keeping the others in order; any other i changes nothing. */
  lemma RemoveExactlyIndex(files: seq<BrowserFile>, index: int)
    ensures WithoutIndex(files, index) == if 0 <= index < |files| then files[..index] + files[index + 1..] else files
  {
    KeepOthersSplit(files, index, 0);
  }

  /** Every file of the list has a valid type. */
  ghost predicate AllValid(files: seq<BrowserFile>) {
    forall i :: 0 <= i < |files| ==> IsValidFileType(files[i])
  }

  /** Removing a file leaves only valid files in a list of valid files. */
  lemma RemoveKeepsValid(files: seq<BrowserFile>, index: int)
    requires AllValid(files)
    ensures AllValid(WithoutIndex(files, index))
  {
    RemoveExactlyIndex(files, index);
    var rest := WithoutIndex(files, index);
    forall i | 0 <= i < |rest|
      ensures IsValidFileType(rest[i])
    {
      if 0 <= index < |files| && i >= index {
        assert rest[i] == files[i + 1];
      }
    }
  }

  /** The component's state: the drag highlight, the uploaded files, and each list handed to `onFileUpload`. */
  class FileList {
    var isDragging: bool
    var uploadedFiles: seq<BrowserFile>
    var notified: seq<seq<BrowserFile>>

    /** Only valid files are ever stored, and the last list handed over is the one stored. */
    ghost predicate Valid()
      reads this
    {
      AllValid(uploadedFiles)
      && (if notified == [] then uploadedFiles == [] else notified[|notified| - 1] == uploadedFiles)
    }

    constructor()
      ensures Valid()
      ensures !isDragging && uploadedFiles == [] && notified == []
    {
      isDragging := false;
      uploadedFiles := [];
      notified := [];
    }

    /** `handleDragOver`. */
    method DragOver()
      modifies this
      ensures isDragging && uploadedFiles == old(uploadedFiles) && notified == old(notified)
    {
      isDragging := true;
    }

    /** `handleDragLeave`. */
    method DragLeave()
      modifies this
      ensures !isDragging && uploadedFiles == old(uploadedFiles) && notified == old(notified)
    {
      isDragging := false;
    }

    /** The valid files of a batch are appended and the new list handed over; a batch without one changes nothing. */
    method AddFiles(files: seq<BrowserFile>)
      requires Valid()
      modifies this
      ensures Valid()
      ensures isDragging == old(isDragging)
      ensures uploadedFiles == Added(old(uploadedFiles), files)
      ensures notified == if Filter(IsValidFileType, files) == [] then old(notified) else old(notified) + [uploadedFiles]
    {
      var valid := Filter(IsValidFileType, files);
      if |valid| > 0 {
        var newFiles := uploadedFiles + valid;
        assert AllValid(newFiles) by {
          forall i | 0 <= i < |newFiles|
            ensures IsValidFileType(newFiles[i])
          {
            if i >= |uploadedFiles| {
              assert newFiles[i] == valid[i - |uploadedFiles|];
            }
          }
        }
        uploadedFiles := newFiles;
        notified := notified + [newFiles];
      }
    }

    /** `handleDrop`: the highlight goes off, then the dropped batch is added. */
    method Drop(files: seq<BrowserFile>)
      requires Valid()
      modifies this
      ensures Valid()
      ensures !isDragging
      ensures uploadedFiles == Added(old(uploadedFiles), files)
      ensures notified == if Filter(IsValidFileType, files) == [] then old(notified) else old(notified) + [uploadedFiles]
    {
      isDragging := false;
      AddFiles(files);
    }

    /** `handleFileSelect`: the picked files, none when the input has no file list, are added. */
    method Select(files: Option<seq<BrowserFile>>)
      requires Valid()
      modifies this
      ensures Valid()
      ensures isDragging == old(isDragging)
      ensures uploadedFiles == Added(old(uploadedFiles), Picked(files))
      ensures notified == if Filter(IsValidFileType, Picked(files)) == [] then old(notified)
                          else old(notified) + [uploadedFiles]
    {
      AddFiles(Picked(files));
    }

    /** `removeFile(index)`: the list without that position, handed over even when nothing was removed. */
    method RemoveFile(index: int)
      requires Valid()
      modifies this
      ensures Valid()
      ensures isDragging == old(isDragging)
      ensures uploadedFiles == WithoutIndex(old(uploadedFiles), index)
      ensures notified == old(notified) + [uploadedFiles]
    {
      var newFiles := WithoutIndex(uploadedFiles, index);
      RemoveKeepsValid(uploadedFiles, index);
      uploadedFiles := newFiles;
      notified := notified + [newFiles];
    }

    /** `clearAllFiles`: the empty list, handed over. */
    method ClearAllFiles()
      requires Valid()
      modifies this
      ensures Valid()
      ensures isDragging == old(isDragging)
      ensures uploadedFiles == [] && notified == old(notified) + [[]]
    {
      uploadedFiles := [];
      notified := notified + [[]];
    }
  }
}

/**
 * The single-file upload of src/components/FileUpload.tsx: only the first
 * file of a drop or a selection is considered, only PDF and Word types are
 * accepted, and the handlers store an accepted file in place of the one
 * held. In the rendered component the drop zone and the file input exist
 * only while the slot is empty (src/components/FileUpload.tsx:78), so that
 * replacement is what the handlers do, not something a user can reach
 * without removing the file first. Every file stored (or `null`, on
 * removal) is handed to `onFileUpload`; the component records these
 * hand-overs in `notified`.
 */
module SingleFileUpload {
  import opened Wrappers
  import opened WebFile

  const ValidTypes: seq<string> := [PdfType, MsWordType, DocxType]

  /** `isValidFileType`: the MIME type alone decides. */
  predicate IsValidFileType(file: BrowserFile) {
    file.mimeType in ValidTypes
  }

  /** The file a drop or a selection offers: the first of them, if it is valid. */
  function Accepted(files: seq<BrowserFile>): (r: Option<BrowserFile>)
    ensures r.Some? <==> files != [] && IsValidFileType(files[0])
    ensures r.Some? ==> r.value == files[0]
  {
    if files != [] && IsValidFileType(files[0]) then Some(files[0]) else None
  }

  /** Only the first file counts: the files after it, and the first file's name, make no difference. */
  lemma OnlyFirstFileCounts(first: BrowserFile, rest1: seq<BrowserFile>, rest2: seq<BrowserFile>, name: string)
    ensures Accepted([first] + rest1) == Accepted([first] + rest2)
    ensures Accepted([first] + rest1).Some? == Accepted([first.(name := name)]).Some?
  {
    assert ([first] + rest1)[0] == first && ([first] + rest2)[0] == first;
  }

  /** A Word or PDF file is accepted whatever its name; any other type is refused whatever its name. */
  lemma AcceptedTypes(file: BrowserFile)
    ensures Accepted([file]).Some? <==> file.mimeType in {PdfType, MsWordType, DocxType}
  {
  }

  /** The component's state: the drag highlight, the file held, and each value handed to `onFileUpload`. */
  class FileSlot {
    var isDragging: bool
    var uploadedFile: Option<BrowserFile>
    var notified: seq<Option<BrowserFile>>

    /** Only a valid file is ever held, and the last value handed over is the one held. */
    ghost predicate Valid()
      reads this
    {
      (uploadedFile.Some? ==> IsValidFileType(uploadedFile.value))
      && (if notified == [] then uploadedFile.None? else notified[|notified| - 1] == uploadedFile)
    }

    constructor()
      ensures Valid()
      ensures !isDragging && uploadedFile.None? && notified == []
    {
      isDragging := false;
      uploadedFile := None;
      notified := [];
    }

    /** `handleDragOver`. */
    method DragOver()
      modifies this
      ensures isDragging && uploadedFile == old(uploadedFile) && notified == old(notified)
    {
      isDragging := true;
    }

    /** `handleDragLeave`. */
    method DragLeave()
      modifies this
      ensures !isDragging && uploadedFile == old(uploadedFile) && notified == old(notified)
    {
      isDragging := false;
    }

    /** An accepted first file replaces the one held and is handed over; otherwise nothing changes. */
    method Offer(files: seq<BrowserFile>)
      requires Valid()
      modifies this
      ensures Valid()
      ensures isDragging == old(isDragging)
      ensures Accepted(files).Some? ==> uploadedFile == Accepted(files) && notified == old(notified) + [uploadedFile]
      ensures Accepted(files).None? ==> uploadedFile == old(uploadedFile) && notified == old(notified)
    {
      if |files| > 0 && IsValidFileType(files[0]) {
        uploadedFile := Some(files[0]);
        notified := notified + [uploadedFile];
      }
    }

    /** `handleDrop`: the highlight goes off, then the first dropped file is offered. */
    method Drop(files: seq<BrowserFile>)
      requires Valid()
      modifies this
      ensures Valid()
      ensures !isDragging
      ensures Accepted(files).Some? ==> uploadedFile == Accepted(files) && notified == old(notified) + [uploadedFile]
      ensures Accepted(files).None? ==> uploadedFile == old(uploadedFile) && notified == old(notified)
    {
      isDragging := false;
      Offer(files);
    }

    /** `handleFileSelect`: the first picked file, if the input has a file list, is offered. */
    method Select(files: Option<seq<BrowserFile>>)
      requires Valid()
      modifies this
      ensures Valid()
      ensures isDragging == old(isDragging)
      ensures Accepted(Picked(files)).Some? ==>
        uploadedFile == Accepted(Picked(files)) && notified == old(notified) + [uploadedFile]
      ensures Accepted(Picked(files)).None? ==> uploadedFile == old(uploadedFile) && notified == old(notified)
    {
      Offer(Picked(files));
    }

    /** `removeFile`: the slot is emptied and `null` handed over. */
    method RemoveFile()
      requires Valid()
      modifies this
      ensures Valid()
      ensures isDragging == old(isDragging)
      ensures uploadedFile.None? && notified == old(notified) + [None]
    {
      uploadedFile := None;
      notified := notified + [None];
    }
  }
}
