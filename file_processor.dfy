/**
 * The upload text extractor (app/utils/file_processor.py): the extension is taken from the
 * file name, checked against the supported types and used to pick an extractor; the text
 * is returned stripped together with counts taken from the unstripped text. The PDF, DOCX,
 * UTF-8 and HTML libraries and the markdown regular expressions are parameters.
 */
module FileProcessor {
  import opened Common
  import opened Text

  /** `FileProcessor.SUPPORTED_FILE_TYPES`. */
  const SupportedFileTypes: seq<string> := ["pdf", "docx", "txt", "md", "html"]

  /** `filename.split(".")[-1].lower()`. */
  function FileExtension(filename: string): (ext: string)
    ensures var k := LastIndexOf(filename, '.');
      ext == Lower(filename[k + 1..]) && (k < 0 ==> ext == Lower(filename))
  {
    SplitLast(filename, '.');
    var parts := Split(filename, '.');
    Lower(parts[|parts| - 1])
  }

  /** The extension never holds a dot. */
  lemma ExtensionHasNoDot(filename: string)
    ensures '.' !in FileExtension(filename)
  {
    var k := LastIndexOf(filename, '.');
    var last := filename[k + 1..];
    var ext := FileExtension(filename);
    forall j | 0 <= j < |ext|
      ensures ext[j] != '.'
    {
      var c := filename[k + 1 + j];
      assert last[j] == c && c != '.';
      assert ext[j] == LowerChar(c);
    }
  }

  /** A name whose final component follows its last dot has that component, lower-cased, as extension. */
  lemma ExtensionOfDottedName(base: string, ext: string)
    requires '.' !in ext
    ensures LastIndexOf(base + "." + ext, '.') == |base|
    ensures FileExtension(base + "." + ext) == Lower(ext)
  {
    var name := base + "." + ext;
    var k := |base|;
    assert name[k] == '.';
    assert forall j :: k < j < |name| ==> name[j] == ext[j - k - 1];
    assert LastIndexOf(name, '.') == k;
    assert name[k + 1..] == ext;
  }

  /** FastAPI's `HTTPException`. */
  datatype HttpError = HttpError(statusCode: int, detail: string)

  /** The `file_info` dictionary. */
  datatype FileInfo = FileInfo(
    filename: string,
    contentType: string,
    sizeInKb: real,
    lineCount: nat,
    characterCount: nat,
    wordCount: nat,
    fileExtension: string)

  /** What `extract_text` returns: the stripped text and its `file_info`. */
  datatype Extracted = Extracted(text: string, fileInfo: FileInfo)

  /**
   * The libraries the extractors call: pdfplumber's text of the whole document, docx2txt
   * (which may return nothing), `bytes.decode("utf-8", errors="ignore")`, BeautifulSoup's
   * `get_text(separator="\n")` and the markdown substitutions.
   */
  datatype Extractors = Extractors(
    pdf: seq<bv8> -> Result<string, string>,
    docx: seq<bv8> -> Result<Option<string>, string>,
    decodeUtf8: seq<bv8> -> string,
    html: string -> Result<string, string>,
    stripMarkdown: string -> string)

  /** `_extract_pdf`. */
  function ExtractPdf(lib: Extractors, fileBytes: seq<bv8>): Result<string, string> {
    match lib.pdf(fileBytes)
    case Ok(text) => Ok(text)
    case Err(e) => Err("PDF extraction failed: " + e)
  }

  /** `_extract_docx`: no text becomes the empty string. */
  function ExtractDocx(lib: Extractors, fileBytes: seq<bv8>): Result<string, string> {
    match lib.docx(fileBytes)
    case Ok(text) => Ok(text.GetOr(""))
    case Err(e) => Err("DOCX extraction failed: " + e)
  }

  /** `_extract_html`. */
  function ExtractHtml(lib: Extractors, fileBytes: seq<bv8>): Result<string, string> {
    match lib.html(lib.decodeUtf8(fileBytes))
    case Ok(text) => Ok(text)
    case Err(e) => Err("HTML extraction failed: " + e)
  }

  /** `_extract_text_or_markdown`: decoding ignores errors, and only markdown loses its markup. */
  function ExtractTextOrMarkdown(lib: Extractors, fileBytes: seq<bv8>, extension: string): string {
    var text := lib.decodeUtf8(fileBytes);
    if extension == "md" then lib.stripMarkdown(text) else text
  }

  /**
   * The dispatch inside the `try` of `extract_text`, for a supported extension (the final
   * `else` cannot be reached once the gate has passed).
   */
  function RawText(lib: Extractors, fileBytes: seq<bv8>, extension: string): Result<string, string>
    requires extension in SupportedFileTypes
  {
    if extension == "pdf" then ExtractPdf(lib, fileBytes)
    else if extension == "docx" then ExtractDocx(lib, fileBytes)
    else if extension == "txt" || extension == "md" then Ok(ExtractTextOrMarkdown(lib, fileBytes, extension))
    else if extension == "html" then ExtractHtml(lib, fileBytes)
    else assert false; Err("")
  }

  /** Python's line boundaries for `str.splitlines()`. */
  predicate IsLineBreak(c: char) {
    c == '\n' || c == '\r' || c == '\U{0B}' || c == '\U{0C}' || c == '\U{1C}' || c == '\U{1D}'
    || c == '\U{1E}' || c == '\U{85}' || c == '\U{2028}' || c == '\U{2029}'
  }

  /** The index of the first line boundary of `s`, or `|s|`. */
  function LineEnd(s: string): (n: nat)
    ensures n <= |s| && (n < |s| ==> IsLineBreak(s[n]))
    ensures forall j :: 0 <= j < n ==> !IsLineBreak(s[j])
    ensures (forall j :: 0 <= j < |s| ==> !IsLineBreak(s[j])) ==> n == |s|
  {
    if s == [] || IsLineBreak(s[0]) then 0 else LineEnd(s[1..]) + 1
  }

  /** `str.splitlines()`: a final line boundary opens no empty line, and "\r\n" is one boundary. */
  function Lines(s: string): (ls: seq<string>)
    ensures |ls| <= |s|
    ensures forall k :: 0 <= k < |ls| ==> forall j :: 0 <= j < |ls[k]| ==> !IsLineBreak(ls[k][j])
    decreases |s|
  {
    if s == [] then []
    else
      var n := LineEnd(s);
      if n == |s| then [s]
      else
        var width := if s[n] == '\r' && n + 1 < |s| && s[n + 1] == '\n' then 2 else 1;
        [s[..n]] + Lines(s[n + width..])
  }

  /** A non-empty text without a line boundary is one line; the empty text has none. */
  lemma LinesOfOneLine(s: string)
    requires forall j :: 0 <= j < |s| ==> !IsLineBreak(s[j])
    ensures Lines(s) == if s == [] then [] else [s]
  {
  }

  /** "\r\n" ends one line, and a trailing boundary adds no empty line. */
  lemma LinesOfCrLf()
    ensures Lines("a\r\nb\n") == ["a", "b"]
  {
    var s := "a\r\nb\n";
    assert s[1..][0] == '\r';
    assert LineEnd(s[1..]) == 0;
    assert LineEnd(s) == 1;
    var t := s[3..];
    assert t == "b\n";
    assert t[1..][0] == '\n';
    assert LineEnd(t[1..]) == 0;
    assert LineEnd(t) == 1;
    assert t[2..] == [];
    assert Lines(t) == [t[..1]] + Lines(t[2..]);
    assert Lines(s) == [s[..1]] + Lines(t);
    assert s[..1] == "a" && t[..1] == "b";
  }

  /** The length of the run of non-whitespace that opens `s`. */
  function WordEnd(s: string): (n: nat)
    ensures n <= |s| && (n < |s| ==> IsSpace(s[n]))
    ensures forall j :: 0 <= j < n ==> !IsSpace(s[j])
  {
    if s == [] || IsSpace(s[0]) then 0 else WordEnd(s[1..]) + 1
  }

  /** `str.split()` with no separator: the maximal runs of non-whitespace, in order. */
  function Words(s: string): (ws: seq<string>)
    ensures |ws| <= |s|
    ensures forall k :: 0 <= k < |ws| ==> ws[k] != [] && forall j :: 0 <= j < |ws[k]| ==> !IsSpace(ws[k][j])
    decreases |s|
  {
    if s == [] then []
    else if IsSpace(s[0]) then Words(s[1..])
    else var n := WordEnd(s); [s[..n]] + Words(s[n..])
  }

  /** `WordEnd` is pinned down by its contract. */
  lemma {:induction false} WordEndIs(s: string, n: nat)
    requires n <= |s| && (n < |s| ==> IsSpace(s[n]))
    requires forall j :: 0 <= j < n ==> !IsSpace(s[j])
    ensures WordEnd(s) == n
    decreases n
  {
    if n > 0 {
      var t := s[1..];
      assert !IsSpace(s[0]);
      assert forall j :: 0 <= j < n - 1 ==> t[j] == s[j + 1];
      assert n - 1 < |t| ==> t[n - 1] == s[n];
      WordEndIs(t, n - 1);
    }
  }

  predicate AllSpace(t: string) {
    forall j :: 0 <= j < |t| ==> IsSpace(t[j])
  }

  /** Whitespace alone holds no word. */
  lemma {:induction false} WordsOfSpaces(sp: string)
    requires AllSpace(sp)
    ensures Words(sp) == []
    decreases |sp|
  {
    if sp != [] {
      WordsOfSpaces(sp[1..]);
    }
  }

  /** Leading whitespace does not change the words. */
  lemma {:induction false} WordsSkipLeading(sp: string, t: string)
    requires AllSpace(sp)
    ensures Words(sp + t) == Words(t)
    decreases |sp|
  {
    if sp == [] {
      assert sp + t == t;
    } else {
      assert (sp + t)[0] == sp[0];
      assert (sp + t)[1..] == sp[1..] + t;
      WordsSkipLeading(sp[1..], t);
    }
  }

  /** Trailing whitespace does not change the words. */
  lemma {:induction false} WordsDropTrailing(t: string, sp: string)
    requires AllSpace(sp)
    ensures Words(t + sp) == Words(t)
    decreases |t|
  {
    var s := t + sp;
    if t == [] {
      assert s == sp;
      WordsOfSpaces(sp);
    } else if IsSpace(t[0]) {
      assert s[1..] == t[1..] + sp;
      WordsDropTrailing(t[1..], sp);
    } else {
      var n := WordEnd(t);
      WordEndIs(s, n);
      assert s[..n] == t[..n];
      assert s[n..] == t[n..] + sp;
      WordsDropTrailing(t[n..], sp);
    }
  }

  /** Stripping keeps every word: `word_count` is the same for the returned text and the raw one. */
  lemma WordsOfStrip(s: string)
    ensures Words(Strip(s)) == Words(s)
  {
    WordsOfTrimStart(s);
    WordsOfTrimEnd(TrimStart(s));
  }

  lemma {:induction false} WordsOfTrimStart(s: string)
    ensures Words(TrimStart(s)) == Words(s)
    decreases |s|
  {
    if s != [] && IsSpace(s[0]) {
      WordsOfTrimStart(s[1..]);
    }
  }

  lemma {:induction false} WordsOfTrimEnd(s: string)
    ensures Words(TrimEnd(s)) == Words(s)
    decreases |s|
  {
    if s != [] && IsSpace(s[|s| - 1]) {
      var init := s[..|s| - 1];
      WordsOfTrimEnd(init);
      assert s == init + [s[|s| - 1]];
      WordsDropTrailing(init, [s[|s| - 1]]);
    }
  }

  /** `FileProcessor.extract_text`; `round2` is Python's `round(x, 2)`. */
  function ExtractText(lib: Extractors, fileBytes: seq<bv8>, filename: string, contentType: string,
                       round2: real -> real): (r: Result<Extracted, HttpError>)
    ensures var ext := FileExtension(filename);
      && (ext !in SupportedFileTypes ==> r == Err(HttpError(400, "Unsupported file type: ." + ext)))
      && (ext in SupportedFileTypes && RawText(lib, fileBytes, ext).Err? ==>
            r == Err(HttpError(500, "Failed to extract text from " + Upper(ext) + " file: "
                                    + RawText(lib, fileBytes, ext).error)))
      && (ext in SupportedFileTypes && RawText(lib, fileBytes, ext).Ok? ==>
            var raw := RawText(lib, fileBytes, ext).value;
            r.Ok? && r.value.text == Strip(raw)
            && r.value.fileInfo.characterCount == |raw| >= |r.value.text|
            && r.value.fileInfo.lineCount == |Lines(raw)|
            && r.value.fileInfo.wordCount == |Words(raw)| == |Words(r.value.text)|
            && r.value.fileInfo.fileExtension == ext && r.value.fileInfo.filename == filename
            && r.value.fileInfo.contentType == contentType
            && r.value.fileInfo.sizeInKb == round2(|fileBytes| as real / 1024.0))
  {
    var extension := FileExtension(filename);
    if extension !in SupportedFileTypes then
      Err(HttpError(400, "Unsupported file type: ." + extension))
    else
      match RawText(lib, fileBytes, extension)
      case Err(e) => Err(HttpError(500, "Failed to extract text from " + Upper(extension) + " file: " + e))
      case Ok(text) =>
        WordsOfStrip(text);
        var fileInfo := FileInfo(filename, contentType, round2(|fileBytes| as real / 1024.0),
                                 |Lines(text)|, |text|, |Words(text)|, extension);
        Ok(Extracted(Strip(text), fileInfo))
  }

  /** An unsupported extension is refused before any library is called: the libraries do not matter. */
  lemma UnsupportedRefusedBeforeExtraction(lib1: Extractors, lib2: Extractors, fileBytes: seq<bv8>,
                                           filename: string, contentType: string, round2: real -> real)
    requires FileExtension(filename) !in SupportedFileTypes
    ensures ExtractText(lib1, fileBytes, filename, contentType, round2)
         == ExtractText(lib2, fileBytes, filename, contentType, round2)
         == Err(HttpError(400, "Unsupported file type: ." + FileExtension(filename)))
  {
  }

  /** Lower-casing leaves a string without upper-case letters as it is. */
  lemma LowerKeeps(s: string)
    requires forall j :: 0 <= j < |s| ==> !('A' <= s[j] <= 'Z')
    ensures Lower(s) == s
  {
  }

  /** A Word 97 ".doc" file is not a supported type. */
  lemma DocIsRefused(lib: Extractors, fileBytes: seq<bv8>, base: string, contentType: string, round2: real -> real)
    ensures ExtractText(lib, fileBytes, base + ".doc", contentType, round2)
         == Err(HttpError(400, "Unsupported file type: ." + "doc"))
  {
    assert base + ".doc" == base + "." + "doc";
    ExtensionOfDottedName(base, "doc");
    LowerKeeps("doc");
    var ext := FileExtension(base + ".doc");
    assert ext == "doc";
    assert ext !in SupportedFileTypes by {
      assert ext[2] != "pdf"[2] && ext[0] != "txt"[0] && ext[0] != "md"[0] && ext[0] != "html"[0];
      assert |ext| != |"docx"|;
    }
  }

  /** The extension is matched case-insensitively: "REPORT.PDF" goes to the PDF extractor. */
  lemma UpperCaseExtensionAccepted(lib: Extractors, fileBytes: seq<bv8>, base: string, contentType: string,
                                   round2: real -> real)
    ensures lib.pdf(fileBytes).Ok? ==>
      var r := ExtractText(lib, fileBytes, base + ".PDF", contentType, round2);
      r.Ok? && r.value.text == Strip(lib.pdf(fileBytes).value) && r.value.fileInfo.fileExtension == "pdf"
  {
    assert base + ".PDF" == base + "." + "PDF";
    ExtensionOfDottedName(base, "PDF");
    var ext := FileExtension(base + ".PDF");
    assert ext[0] == 'p' && ext[1] == 'd' && ext[2] == 'f';
    assert ext == "pdf";
    assert ext == SupportedFileTypes[0];
  }

  /**
   * Each supported extension reads only its own library: two sets of libraries that agree on
   * what the chosen extractor calls give the same text. Markup stripping is consulted for
   * ".md" alone.
   */
  lemma DispatchReadsOnlyItsExtractor(lib1: Extractors, lib2: Extractors, fileBytes: seq<bv8>, extension: string)
    requires extension in SupportedFileTypes
    requires extension == "pdf" ==> lib1.pdf(fileBytes) == lib2.pdf(fileBytes)
    requires extension == "docx" ==> lib1.docx(fileBytes) == lib2.docx(fileBytes)
    requires extension in ["txt", "md", "html"] ==> lib1.decodeUtf8(fileBytes) == lib2.decodeUtf8(fileBytes)
    requires extension == "html" ==> lib1.html(lib1.decodeUtf8(fileBytes)) == lib2.html(lib1.decodeUtf8(fileBytes))
    requires extension == "md" ==> lib1.stripMarkdown(lib1.decodeUtf8(fileBytes)) == lib2.stripMarkdown(lib1.decodeUtf8(fileBytes))
    ensures RawText(lib1, fileBytes, extension) == RawText(lib2, fileBytes, extension)
  {
  }

  /** Plain text is returned as decoded; markdown is decoded and then loses its markup. */
  lemma TextAndMarkdown(lib: Extractors, fileBytes: seq<bv8>)
    ensures RawText(lib, fileBytes, "txt") == Ok(lib.decodeUtf8(fileBytes))
    ensures RawText(lib, fileBytes, "md") == Ok(lib.stripMarkdown(lib.decodeUtf8(fileBytes)))
  {
  }

  /** Text and markdown extraction never fails: decoding ignores bad bytes. */
  lemma TextNeverFails(lib: Extractors, fileBytes: seq<bv8>, filename: string, contentType: string, round2: real -> real)
    requires FileExtension(filename) == "txt" || FileExtension(filename) == "md"
    ensures ExtractText(lib, fileBytes, filename, contentType, round2).Ok?
  {
    assert FileExtension(filename) in SupportedFileTypes;
  }

  /** The counts are taken before stripping: " x" gives the text "x" but a character count of 2. */
  lemma CountsPrecedeStripping(lib: Extractors, fileBytes: seq<bv8>, base: string, contentType: string,
                               round2: real -> real)
    requires lib.decodeUtf8(fileBytes) == " x"
    ensures var r := ExtractText(lib, fileBytes, base + ".txt", contentType, round2);
      r.Ok? && r.value.text == "x" && r.value.fileInfo.characterCount == 2 && r.value.fileInfo.wordCount == 1
  {
    assert base + ".txt" == base + "." + "txt";
    ExtensionOfDottedName(base, "txt");
    LowerKeeps("txt");
    var ext := FileExtension(base + ".txt");
    assert ext == SupportedFileTypes[2];
    assert RawText(lib, fileBytes, ext) == Ok(" x");
    StripAndWordsOfSpaceX();
  }

  lemma StripAndWordsOfSpaceX()
    ensures Strip(" x") == "x" && |Words(" x")| == 1
  {
    var raw := " x";
    assert IsSpace(raw[0]) && raw[1..] == "x" && !IsSpace('x');
    assert TrimStart("x") == "x";
    assert TrimStart(raw) == "x";
    assert TrimEnd("x") == "x";
    assert Strip(raw) == "x";
    WordsOfStrip(raw);
    WordEndIs("x", 1);
    assert "x"[..1] == "x" && "x"[1..] == [];
    assert Words("x") == ["x"] + Words([]);
  }

  /** A library failure becomes HTTP 500 naming the upper-cased extension and the extractor. */
  lemma PdfFailureIs500(lib: Extractors, fileBytes: seq<bv8>, base: string, contentType: string, round2: real -> real)
    requires lib.pdf(fileBytes).Err?
    ensures ExtractText(lib, fileBytes, base + ".pdf", contentType, round2)
         == Err(HttpError(500, "Failed to extract text from " + "PDF" + " file: " + "PDF extraction failed: "
                               + lib.pdf(fileBytes).error))
  {
    assert base + ".pdf" == base + "." + "pdf";
    ExtensionOfDottedName(base, "pdf");
    LowerKeeps("pdf");
    var ext := FileExtension(base + ".pdf");
    assert ext == SupportedFileTypes[0];
    var u := Upper(ext);
    assert u[0] == 'P' && u[1] == 'D' && u[2] == 'F';
    assert u == "PDF";
    var e := lib.pdf(fileBytes).error;
    assert RawText(lib, fileBytes, ext).error == "PDF extraction failed: " + e;
    ConcatAssociative("Failed to extract text from " + "PDF" + " file: ", "PDF extraction failed: ", e);
  }
}
