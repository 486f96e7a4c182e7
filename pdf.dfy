/**
 * Text assembly and file placement in `PDFProcessor` (backend/utils/pdf_processor.py).
 * PyPDF2, pdf2image and EasyOCR are inputs: the page texts a PDF reader yields, and the
 * lines the OCR reader returns for each page image (or the message of the exception it
 * raised). Paths follow POSIX `os.path.join`.
 */
module Pdf {
  import opened Wrappers
  import opened Text

  /** `text += page + "\n"` over the pages, before the final strip. */
  function PagesText(pages: seq<string>): string {
    if pages == [] then [] else PagesText(pages[..|pages| - 1]) + pages[|pages| - 1] + "\n"
  }

  /** The accumulated text is the pages joined by newlines, with one newline after the last page. */
  lemma {:induction false} PagesTextIsJoin(pages: seq<string>)
    ensures PagesText(pages) == Join(pages + [[]], '\n')
  {
    if pages != [] {
      var init := pages[..|pages| - 1];
      PagesTextIsJoin(init);
      JoinAppend(init, pages[|pages| - 1], '\n');
      assert init + [pages[|pages| - 1]] == pages;
    }
  }

  /** Joining with one more trailing piece: `join(ps + [p, ""]) == join(ps + [""]) + p + sep`. */
  lemma {:induction false} JoinAppend(ps: seq<string>, p: string, sep: char)
    ensures Join(ps + [p] + [[]], sep) == Join(ps + [[]], sep) + p + [sep]
  {
    if ps == [] {
      assert [p] + [[]] == [p, []];
      assert Join([p, []], sep) == p + [sep] + Join([[]], sep);
    } else {
      JoinAppend(ps[1..], p, sep);
      assert (ps + [p] + [[]])[1..] == ps[1..] + [p] + [[]];
      assert (ps + [[]])[1..] == ps[1..] + [[]];
    }
  }

  /** Splitting the accumulated text on newlines gives the pages back (and an empty tail). */
  lemma PagesTextSplit(pages: seq<string>)
    requires forall i :: 0 <= i < |pages| ==> '\n' !in pages[i]
    ensures Split(PagesText(pages), '\n') == pages + [[]]
  {
    PagesTextIsJoin(pages);
    SplitJoin(pages + [[]], '\n');
  }

  /** `extract_text_from_pdf`: the pages' text, or the reader's failure wrapped in a message. */
  method ExtractTextFromPdf(reader: Result<seq<string>, string>) returns (r: Result<string, string>)
    ensures reader.Ok? ==> r == Ok(Strip(PagesText(reader.value)))
    ensures reader.Err? ==> r == Err("Error extracting text from PDF: " + reader.error)
  {
    if reader.Err? {
      return Err("Error extracting text from PDF: " + reader.error);
    }
    var pages := reader.value;
    var text := "";
    for i := 0 to |pages|
      invariant text == PagesText(pages[..i])
    {
      assert pages[..i + 1][..i] == pages[..i];
      text := text + pages[i] + "\n";
    }
    assert pages[..|pages|] == pages;
    return Ok(Strip(text));
  }

  /** A PDF with no pages, or only blank pages, yields the empty text. */
  lemma {:induction false} BlankPagesGiveEmptyText(pages: seq<string>)
    requires forall i :: 0 <= i < |pages| ==> IsBlank(pages[i])
    ensures Strip(PagesText(pages)) == []
  {
    BlankPagesText(pages);
  }

  lemma {:induction false} BlankPagesText(pages: seq<string>)
    requires forall i :: 0 <= i < |pages| ==> IsBlank(pages[i])
    ensures IsBlank(PagesText(pages))
  {
    if pages != [] {
      BlankPagesText(pages[..|pages| - 1]);
    }
  }

  /** One page's OCR text: its lines joined by newlines, or a placeholder when none were read. */
  function PageText(lines: seq<string>): (r: string)
    ensures lines == [] ==> r == "[No text detected]"
  {
    if lines == [] then "[No text detected]" else Join(lines, '\n')
  }

  /** The lines of a page can be recovered from its text when no line holds a newline. */
  lemma PageTextSplit(lines: seq<string>)
    requires lines != []
    requires forall i :: 0 <= i < |lines| ==> '\n' !in lines[i]
    ensures Split(PageText(lines), '\n') == lines
  {
    SplitJoin(lines, '\n');
  }

  /** The heading line of page `k` (1-based). */
  function PageHeading(k: nat): string {
    "--- Page " + NatToString(k) + " ---"
  }

  /** What page `k` adds to the extracted text. */
  function PageBlock(k: nat, lines: seq<string>): string {
    "\n--- Page " + NatToString(k) + " ---\n" + PageText(lines) + "\n"
  }

  /** A page's block is a newline, its heading, then its text on the following lines. */
  lemma PageBlockShape(k: nat, lines: seq<string>)
    ensures PageBlock(k, lines) == "\n" + PageHeading(k) + ("\n" + PageText(lines) + "\n")
  {
    var n, t := NatToString(k), PageText(lines);
    assert "\n--- Page " == "\n" + "--- Page " && " ---\n" == " ---" + "\n";
    assert PageBlock(k, lines) == "\n" + ("--- Page " + n + " ---") + "\n" + t + "\n";
  }

  /** The heading has non-space characters at both ends. */
  lemma PageHeadingEnds(k: nat)
    ensures var h := PageHeading(k); h != [] && !IsSpace(h[0]) && !IsSpace(h[|h| - 1])
  {
  }

  /** The text accumulated over the pages' OCR results, or the first failure. */
  function Assemble(results: seq<Result<seq<string>, string>>): Result<string, string> {
    if results == [] then Ok([])
    else
      var last := results[|results| - 1];
      match Assemble(results[..|results| - 1])
      case Err(e) => Err(e)
      case Ok(t) =>
        match last
        case Err(e) => Err(e)
        case Ok(lines) => Ok(t + PageBlock(|results|, lines))
  }

  /** `extract_text_from_images` from the OCR results of its pages. */
  function OcrText(results: seq<Result<seq<string>, string>>): (r: Result<string, string>)
    ensures results == [] ==> r == Ok([])
  {
    match Assemble(results)
    case Ok(t) => Ok(Strip(t))
    case Err(e) => Err("Error extracting text from images: " + e)
  }

  /** Assembly succeeds exactly when every page was read. */
  lemma {:induction false} AssembleOkIff(results: seq<Result<seq<string>, string>>)
    ensures Assemble(results).Ok? <==> forall i :: 0 <= i < |results| ==> results[i].Ok?
  {
    if results != [] {
      var init := results[..|results| - 1];
      var last := results[|results| - 1];
      AssembleOkIff(init);
      assert Assemble(results).Ok? <==> Assemble(init).Ok? && last.Ok?;
      assert results == init + [last];
    }
  }

  /** The text assembled for the first `n` pages is a prefix of the whole text. */
  lemma {:induction false} AssemblePrefix(results: seq<Result<seq<string>, string>>, n: nat)
    requires n <= |results| && Assemble(results).Ok?
    ensures Assemble(results[..n]).Ok? && IsPrefix(Assemble(results[..n]).value, Assemble(results).value)
    decreases |results|
  {
    if n < |results| {
      var init := results[..|results| - 1];
      assert init[..n] == results[..n];
      AssemblePrefix(init, n);
    } else {
      assert results[..n] == results;
    }
  }

  /** Page `k + 1` contributes its block right after the blocks of the pages before it. */
  lemma PageBlocksInOrder(results: seq<Result<seq<string>, string>>, k: nat)
    requires k < |results| && Assemble(results).Ok?
    ensures Assemble(results[..k]).Ok? && results[k].Ok?
    ensures IsPrefix(Assemble(results[..k]).value + PageBlock(k + 1, results[k].value), Assemble(results).value)
  {
    var upTo := results[..k + 1];
    AssemblePrefix(results, k + 1);
    assert upTo[..k] == results[..k];
    AssembleLast(upTo);
  }

  /** The text for some pages is the text for all but the last, then the last page's block. */
  lemma AssembleLast(results: seq<Result<seq<string>, string>>)
    requires results != [] && Assemble(results).Ok?
    ensures var init := results[..|results| - 1];
      Assemble(init).Ok? && results[|results| - 1].Ok? &&
      Assemble(results).value == Assemble(init).value + PageBlock(|results|, results[|results| - 1].value)
  {
  }

  /** A document with at least one page yields text that starts with the first page's heading. */
  lemma FirstHeadingLeads(results: seq<Result<seq<string>, string>>)
    requires results != [] && OcrText(results).Ok?
    ensures IsPrefix(PageHeading(1), OcrText(results).value)
  {
    var lines := FirstBlockLeads(results);
    PageBlockShape(1, lines);
    PageHeadingEnds(1);
    LeadingBlock(Assemble(results).value, PageBlock(1, lines), PageHeading(1), "\n" + PageText(lines) + "\n");
  }

  /** The assembled text starts with the first page's block. */
  lemma FirstBlockLeads(results: seq<Result<seq<string>, string>>) returns (lines: seq<string>)
    requires results != [] && Assemble(results).Ok?
    ensures results[0] == Ok(lines) && IsPrefix(PageBlock(1, lines), Assemble(results).value)
  {
    PageBlocksInOrder(results, 0);
    assert results[..0] == [];
    lines := results[0].value;
    var block := PageBlock(1, lines);
    assert Assemble(results[..0]).value + block == block;
  }

  /** A text that starts with `"\n" + w + tail` is `"\n" + w` followed by the rest. */
  lemma LeadingBlock(t: string, block: string, w: string, tail: string)
    requires IsPrefix(block, t) && block == "\n" + w + tail
    requires w != [] && !IsSpace(w[0]) && !IsSpace(w[|w| - 1])
    ensures IsPrefix(w, Strip(t))
  {
    var rest := tail + t[|block|..];
    assert t == "\n" + w + rest;
    StripKeepsLeadingWord(w, rest);
  }

  /** `convert_pdf_to_images`: the page images, or the converter's failure wrapped in a message. */
  function ConvertPdfToImages(converted: Result<seq<Image>, string>): (r: Result<seq<Image>, string>)
    ensures converted.Ok? <==> r.Ok?
    ensures r.Ok? ==> r.value == converted.value
    ensures r.Err? ==> r.error == "Error converting PDF to images: " + converted.error
  {
    match converted
    case Ok(images) => Ok(images)
    case Err(e) => Err("Error converting PDF to images: " + e)
  }

  /** An uploaded file: its client-side name and contents. */
  datatype Upload = Upload(filename: string, content: string)

  /**
   * What the file system answers to `save_uploaded_file`: `os.makedirs`, asked only when the
   * folder is missing, and `file.save`, each either done or the message of the exception it
   * raised (a name such as `sub/a.pdf` whose sub-folder does not exist makes the save raise).
   */
  datatype SaveOutcome = SaveOutcome(makedirs: Result<(), string>, write: Result<(), string>)

  /** The folders after `save_uploaded_file`: the upload folder is there unless `makedirs` raised. */
  function FoldersAfterSave(folders: set<string>, uploadFolder: string, io: SaveOutcome): (r: set<string>)
    ensures uploadFolder in r <==> uploadFolder in folders || io.makedirs.Ok?
    ensures folders <= r <= folders + {uploadFolder}
  {
    if uploadFolder in folders || io.makedirs.Ok? then folders + {uploadFolder} else folders
  }

  /** The message of the exception `save_uploaded_file` raises, or None when the file is written. */
  function SaveError(folders: set<string>, uploadFolder: string, io: SaveOutcome): (r: Option<string>)
    ensures r.None? <==> (uploadFolder in folders || io.makedirs.Ok?) && io.write.Ok?
    ensures uploadFolder !in folders && io.makedirs.Err? ==> r == Some(io.makedirs.error)
    ensures (uploadFolder in folders || io.makedirs.Ok?) && io.write.Err? ==> r == Some(io.write.error)
  {
    if uploadFolder !in folders && io.makedirs.Err? then Some(io.makedirs.error)
    else if io.write.Err? then Some(io.write.error)
    else None
  }

  /** POSIX `os.path.join(folder, name)`: an absolute name replaces the folder. */
  function JoinPath(folder: string, name: string): (r: string)
    ensures name != [] && name[0] == '/' ==> r == name
    ensures (name == [] || name[0] != '/') && folder != [] && folder[|folder| - 1] != '/' ==> r == folder + "/" + name
  {
    if name != [] && name[0] == '/' then name
    else if folder == [] || folder[|folder| - 1] == '/' then folder + name
    else folder + "/" + name
  }

  /** A relative name lands inside the folder, and the name can be read back after the separator. */
  lemma RelativeNameInFolder(folder: string, name: string)
    requires folder != [] && name != [] && name[0] != '/'
    ensures IsPrefix(folder, JoinPath(folder, name))
    ensures JoinPath(folder, name)[|JoinPath(folder, name)| - |name|..] == name
  {
  }

  /** The client's name is used as given: an absolute name escapes the upload folder. */
  lemma AbsoluteNameEscapesFolder(folder: string)
    ensures JoinPath(folder, "/etc/passwd") == "/etc/passwd"
  {
  }

  /** The images handed to the OCR reader, by page. */
  datatype Image = Image(page: nat)

  /** An OCR reader instance (`easyocr.Reader(['en'])`). */
  datatype Reader = Reader(id: nat)

  /** The reader `get_ocr_reader` returns: the cached one, else the new one or the message its construction raised. */
  function ReaderFor(cache: Option<Reader>, created: Result<Reader, string>): Result<Reader, string> {
    if cache.Some? then Ok(cache.value) else created
  }

  /** The cache after `get_ocr_reader`: a cached reader stays, and only a construction that succeeds fills it. */
  function CacheAfter(cache: Option<Reader>, created: Result<Reader, string>): (r: Option<Reader>)
    ensures cache.Some? ==> r == cache
    ensures cache.None? ==> (r.Some? <==> created.Ok?)
    ensures r.Some? ==> ReaderFor(cache, created) == Ok(r.value)
  {
    match ReaderFor(cache, created)
    case Ok(reader) => Some(reader)
    case Err(_) => None
  }

  /** A construction that raised is retried by the next call, which sees an empty cache again. */
  lemma ReaderRetried(m: string, next: Result<Reader, string>)
    ensures CacheAfter(None, Err(m)) == None
    ensures ReaderFor(CacheAfter(None, Err(m)), next) == next
  {
  }

  /** `extract_text_from_images` from the cache, the reader's construction and the pages' OCR results. */
  function ImagesText(cache: Option<Reader>, created: Result<Reader, string>,
                      results: seq<Result<seq<string>, string>>): (r: Result<string, string>)
    ensures ReaderFor(cache, created).Err? ==> r == Err("Error extracting text from images: " + created.error)
    ensures ReaderFor(cache, created).Ok? ==> r == OcrText(results)
  {
    match ReaderFor(cache, created)
    case Err(m) => Err("Error extracting text from images: " + m)
    case Ok(_) => OcrText(results)
  }

  /** Without a reader the request fails even when there are no pages to read. */
  lemma ReaderFailureFailsEmptyPdf(m: string)
    ensures ImagesText(None, Err(m), []) == Err("Error extracting text from images: " + m)
    ensures OcrText([]) == Ok([])
  {
  }

  /** The processor's files and folders, and the OCR reader it caches across calls. */
  class PdfProcessor {
    var folders: set<string>
    var files: map<string, string>
    var ocrReader: Option<Reader>
    ghost var readersCreated: nat

    ghost predicate Valid()
      reads this
    {
      readersCreated == if ocrReader.Some? then 1 else 0
    }

    constructor(folders0: set<string>, files0: map<string, string>)
      ensures Valid() && ocrReader == None
      ensures folders == folders0 && files == files0
    {
      folders := folders0;
      files := files0;
      ocrReader := None;
      readersCreated := 0;
    }

    /**
     * `get_ocr_reader`: the cached reader, else a new one from `created`. A construction that
     * raises leaves the cache empty, so the next call constructs again.
     */
    method GetOcrReader(created: Result<Reader, string>) returns (r: Result<Reader, string>)
      requires Valid()
      modifies this
      ensures Valid() && ocrReader == CacheAfter(old(ocrReader), created)
      ensures r == ReaderFor(old(ocrReader), created)
      ensures r.Ok? ==> ocrReader == Some(r.value)
      ensures old(ocrReader).Some? ==> readersCreated == old(readersCreated)
      ensures readersCreated <= 1
      ensures folders == old(folders) && files == old(files)
    {
      if ocrReader.None? {
        if created.Err? {
          return Err(created.error);
        }
        ocrReader := Some(created.value);
        readersCreated := readersCreated + 1;
      }
      r := Ok(ocrReader.value);
    }

    /**
     * `extract_text_from_images`: fetch the reader, then for each page append its heading
     * and text; a reader that cannot be constructed, or the first OCR failure, aborts with a
     * wrapped message.
     */
    method ExtractTextFromImages(images: seq<Image>, readtext: Image -> Result<seq<string>, string>,
                                 created: Result<Reader, string>)
      returns (r: Result<string, string>)
      requires Valid()
      modifies this
      ensures Valid() && ocrReader == CacheAfter(old(ocrReader), created)
      ensures old(ocrReader).None? && created.Err? ==>
                r == Err("Error extracting text from images: " + created.error) && ocrReader == None
      ensures r == ImagesText(old(ocrReader), created, seq(|images|, i requires 0 <= i < |images| => readtext(images[i])))
      ensures folders == old(folders) && files == old(files)
    {
      var results := seq(|images|, i requires 0 <= i < |images| => readtext(images[i]));
      var fetched := GetOcrReader(created);
      if fetched.Err? {
        return Err("Error extracting text from images: " + fetched.error);
      }
      var reader := fetched.value;
      var extractedText := "";
      for idx := 0 to |images|
        invariant Assemble(results[..idx]) == Ok(extractedText)
        invariant Valid() && ocrReader == CacheAfter(old(ocrReader), created) == Some(reader)
        invariant folders == old(folders) && files == old(files)
      {
        var pageResult := readtext(images[idx]);
        if pageResult.Err? {
          AssembleErrStays(results, idx + 1, pageResult.error);
          assert results[..|results|] == results;
          return Err("Error extracting text from images: " + pageResult.error);
        }
        var pageText := PageText(pageResult.value);
        AssembleStep(results, idx, extractedText);
        extractedText := extractedText + ("\n--- Page " + NatToString(idx + 1) + " ---\n" + pageText + "\n");
      }
      assert results[..|images|] == results;
      return Ok(Strip(extractedText));
    }

    /**
     * `save_uploaded_file`: create the folder if needed, then write the file at the joined path
     * and return that path. Either step can raise; a failed write leaves no file behind.
     */
    method SaveUploadedFile(file: Upload, uploadFolder: string, io: SaveOutcome) returns (r: Result<string, string>)
      modifies this
      ensures folders == FoldersAfterSave(old(folders), uploadFolder, io)
      ensures SaveError(old(folders), uploadFolder, io).Some? ==>
                r == Err(SaveError(old(folders), uploadFolder, io).value) && files == old(files)
      ensures SaveError(old(folders), uploadFolder, io).None? ==>
                r == Ok(JoinPath(uploadFolder, file.filename)) &&
                files == old(files)[JoinPath(uploadFolder, file.filename) := file.content]
      ensures ocrReader == old(ocrReader) && readersCreated == old(readersCreated)
    {
      if uploadFolder !in folders {
        if io.makedirs.Err? {
          return Err(io.makedirs.error);
        }
        folders := folders + {uploadFolder};
      }
      var filePath := JoinPath(uploadFolder, file.filename);
      if io.write.Err? {
        return Err(io.write.error);
      }
      files := files[filePath := file.content];
      return Ok(filePath);
    }

    /** `os.remove(path)`: the file goes away; a missing file raises. */
    method RemoveFile(path: string) returns (r: Result<(), string>)
      modifies this
      ensures path in old(files) ==> r.Ok? && files == old(files) - {path}
      ensures path !in old(files) ==> r == Err("[Errno 2] No such file or directory: '" + path + "'") && files == old(files)
      ensures folders == old(folders) && ocrReader == old(ocrReader) && readersCreated == old(readersCreated)
    {
      if path !in files {
        return Err("[Errno 2] No such file or directory: '" + path + "'");
      }
      files := files - {path};
      return Ok(());
    }
  }

  /** Reading page `idx + 1` appends its block to the text of the pages before it. */
  lemma AssembleStep(results: seq<Result<seq<string>, string>>, idx: nat, t: string)
    requires idx < |results| && results[idx].Ok? && Assemble(results[..idx]) == Ok(t)
    ensures Assemble(results[..idx + 1]) == Ok(t + PageBlock(idx + 1, results[idx].value))
  {
    assert results[..idx + 1][..idx] == results[..idx];
  }

  /** Once a prefix of the pages fails, assembly of any longer prefix fails with the same message. */
  lemma {:induction false} AssembleErrStays(results: seq<Result<seq<string>, string>>, n: nat, e: string)
    requires 0 < n <= |results| && results[n - 1] == Err(e) && Assemble(results[..n - 1]).Ok?
    ensures Assemble(results) == Err(e)
    decreases |results|
  {
    if n < |results| {
      var init := results[..|results| - 1];
      assert init[..n - 1] == results[..n - 1];
      AssembleErrStays(init, n, e);
    } else {
      assert results[..n - 1] == results[..|results| - 1];
    }
  }
}
