/** `FileProcessor`: validates an upload by its name and size, stores it in a
    temporary file, and extracts its text with the routine for its
    extension. */
module FileProcessor {
  import opened Common
  import opened Strings
  import opened PathName
  import opened Codecs
  import opened Documents
  import opened TempFiles

  const SupportedExtensions: set<string> := {".pdf", ".docx", ".txt"}

  /** 10 MiB. */
  const MaxFileSize: nat := 10 * 1024 * 1024

  /** An uploaded file: its name and the bytes `await file.read()` gives.
      A missing name (None) is represented by "", which the code treats the
      same way (`if not file.filename`). */
  datatype Upload = Upload(filename: string, content: seq<byte>)

  /** `os.path.splitext(filename.lower())[1]`. */
  function Extension(filename: string): string
  {
    SplitExt(Lower(filename)).1
  }

  /** `_is_valid_file`. A valid name ends, lower-cased, in its extension,
      with something before it. */
  predicate IsValidFile(filename: string)
    ensures IsValidFile(filename) ==>
              EndsWith(Lower(filename), Extension(filename)) && |Extension(filename)| < |filename|
  {
    filename != "" && Extension(filename) in SupportedExtensions
  }

  /** A file is accepted exactly when its name is non-empty and its
      lower-cased name ends in one of the supported extensions, with some
      character other than '.' before that extension in the last path
      component. */
  lemma IsValidFileCharacterized(filename: string)
    ensures IsValidFile(filename) <==>
              filename != "" && exists e :: e in SupportedExtensions && IsExtensionOf(Lower(filename), e)
  {
    var p := Lower(filename);
    if IsValidFile(filename) {
      SplitExtCharacterized(p, Extension(filename));
    }
    if exists e :: e in SupportedExtensions && IsExtensionOf(p, e) {
      var e :| e in SupportedExtensions && IsExtensionOf(p, e);
      SplitExtCharacterized(p, e);
    }
  }

  /** Case is ignored: a name is accepted exactly when its lower-case form
      is, so `REPORT.PDF` is judged as `report.pdf`. */
  lemma UpperCaseAccepted(filename: string)
    ensures IsValidFile(filename) <==> IsValidFile(Lower(filename))
  {
    var p := Lower(filename);
    forall k | 0 <= k < |p| ensures Lower(p)[k] == p[k] {
      assert Lower(p)[k] == LowerChar(LowerChar(filename[k]));
    }
    assert Lower(p) == p;
  }

  /** A dot-file has no extension: rejected. */
  lemma DotFileRejected()
    ensures !IsValidFile(".txt")
  {
    NoUpperCase(".txt");
    LastIndexOfIs(".txt", '.', 0);
  }

  /** A name without a dot has no extension: rejected. */
  lemma NameWithoutExtensionRejected()
    ensures !IsValidFile("notes") && !IsValidFile("")
  {
    NoUpperCase("notes");
    LastIndexOfAbsent("notes", '.');
  }

  /** Only the last extension counts: a name whose final part starts with
      '.' and holds no other '.' and no '/' (as `.bak` in `a.txt.bak`) has
      that part, lower-cased, or nothing as its extension, whatever stands
      before it; so it is rejected when that part is not supported. */
  lemma LastExtensionDecides(stem: string, last: string)
    requires |last| >= 1 && last[0] == '.'
    requires forall j :: 1 <= j < |last| ==> last[j] != '.' && last[j] != '/'
    ensures Extension(stem + last) == "" || Extension(stem + last) == Lower(last)
  {
    var name := stem + last;
    var p := Lower(name);
    var d := |stem|;
    assert name[d] == '.';
    forall j | d < j < |p| ensures p[j] != '.' {
      assert name[j] == last[j - d];
      LowerCharKeepsDot(name[j]);
    }
    SplitExtAtLastDot(p, d);
    LowerOfSuffix(stem, last);
  }

  /** So `a.txt.bak` is rejected, as is any name whose final part is not a
      supported extension. */
  lemma LastExtensionRejected(stem: string, last: string)
    requires |last| >= 1 && last[0] == '.'
    requires forall j :: 1 <= j < |last| ==> last[j] != '.' && last[j] != '/'
    requires Lower(last) !in SupportedExtensions
    ensures !IsValidFile(stem + last)
  {
    LastExtensionDecides(stem, last);
    UnsupportedExtensionRejected(stem + last, Lower(last));
  }

  /** A name whose extension is empty or an unsupported `e` is rejected. */
  lemma UnsupportedExtensionRejected(filename: string, e: string)
    requires Extension(filename) == "" || Extension(filename) == e
    requires e !in SupportedExtensions
    ensures !IsValidFile(filename)
  {
  }

  /** Lower-casing changes no character into a '.'. */
  lemma LowerCharKeepsDot(c: char)
    ensures LowerChar(c) == '.' <==> c == '.'
  {
  }

  /** With its last '.' at `d`, the extension of `p` is empty or runs from
      `d`. */
  lemma SplitExtAtLastDot(p: string, d: nat)
    requires d < |p| && p[d] == '.'
    requires forall j :: d < j < |p| ==> p[j] != '.'
    ensures SplitExt(p).1 == "" || SplitExt(p).1 == p[d..]
  {
    LastIndexOfIs(p, '.', d);
  }

  /** Lower-casing works character by character, so it commutes with
      taking a suffix. */
  lemma LowerOfSuffix(stem: string, last: string)
    ensures Lower(stem + last)[|stem|..] == Lower(last)
  {
    var p := Lower(stem + last);
    forall k | 0 <= k < |last| ensures p[|stem|..][k] == Lower(last)[k] {
      assert (stem + last)[|stem| + k] == last[k];
    }
  }

  /** In a lower-case name without '/', whose first character is not '.',
      the extension is everything from the last '.'. */
  lemma ExtensionOfPlainName(p: string, i: nat)
    requires 0 < i < |p| && p[0] != '.' && p[i] == '.'
    requires forall j :: i < j < |p| ==> p[j] != '.'
    requires forall k :: 0 <= k < |p| ==> !('A' <= p[k] <= 'Z') && p[k] != '/'
    ensures Extension(p) == p[i..]
  {
    NoUpperCase(p);
    LastIndexOfIs(p, '.', i);
    LastIndexOfAbsent(p, '/');
  }

  /** A plain ".txt" name can be a temporary file's suffix. */
  lemma TxtNameUsable()
    ensures SuffixUsable("big.txt")
  {
    var name := "big.txt";
    assert forall k :: 0 <= k < |name| ==> name[k] != '/' && name[k] != '\0';
    ShortNamesUsable(name);
  }

  /** A plain ".txt" name is accepted. */
  lemma TxtNameAccepted()
    ensures IsValidFile("big.txt")
  {
    var name := "big.txt";
    assert forall k :: 0 <= k < |name| ==> !('A' <= name[k] <= 'Z') && name[k] != '/';
    assert forall j :: 3 < j < |name| ==> name[j] != '.';
    ExtensionOfPlainName(name, 3);
    assert Extension(name) == name[3..] == ".txt";
  }

  lemma NoUpperCase(s: string)
    requires forall k :: 0 <= k < |s| ==> !('A' <= s[k] <= 'Z')
    ensures Lower(s) == s
  {
  }

  lemma LastIndexOfIs(s: string, c: char, i: nat)
    requires i < |s| && s[i] == c && forall j :: i < j < |s| ==> s[j] != c
    ensures LastIndexOf(s, c) == i
  {
  }

  lemma LastIndexOfAbsent(s: string, c: char)
    requires forall j :: 0 <= j < |s| ==> s[j] != c
    ensures LastIndexOf(s, c) == -1
  {
  }

  /** True when `order` lists the elements of `s` once each, as iterating
      over a Python set does, in an order the model leaves open. */
  predicate ListsSet(order: seq<string>, s: set<string>)
  {
    |order| == |s| && (set x | x in order) == s
  }

  function UnsupportedDetail(order: seq<string>): string
  {
    "Unsupported file format. Supported: " + Join(order, ", ")
  }

  function TooLargeDetail(): string
  {
    "File too large. Maximum size: " + Decimal(MaxFileSize / (1024 * 1024)) + "MB"
  }

  const PdfFailPrefix := "Failed to extract text from PDF: "
  const DocxFailPrefix := "Failed to extract text from DOCX: "
  const TxtFailPrefix := "Failed to read text file: "

  /** `_extract_from_txt`: UTF-8 first; on UnicodeDecodeError, Latin-1,
      which cannot fail; text mode turns "\r\n" and "\r" into "\n"; any other
      read error is a 400. */
  function TxtText(read: LibOutcome<seq<byte>>): (r: Outcome<string>)
    ensures read.Produced? ==> r.Returned? && '\r' !in r.value
    ensures read.Raised? ==> r.Http? && r.error.status == 400 && StartsWith(r.error.detail, TxtFailPrefix)
  {
    match read
    case Raised(reason) => Http(HttpError(400, TxtFailPrefix + reason))
    case Produced(bytes) =>
      match DecodeUtf8(bytes)
      case Some(text) => Returned(TranslateNewlines(text))
      case None => Returned(TranslateNewlines(DecodeLatin1(bytes)))
  }

  /** Every UTF-8 text comes back whole (only its line ends are normalised),
      and reading a readable file never fails. */
  lemma TxtKeepsUtf8Text(s: string)
    ensures TxtText(Produced(EncodeUtf8(s))) == Returned(TranslateNewlines(s))
    ensures '\r' !in s ==> TxtText(Produced(EncodeUtf8(s))) == Returned(s)
  {
    DecodeEncodeUtf8(s);
    TranslateNewlinesIdentity(s);
  }

  /** Latin-1 is used exactly for the contents that are not the UTF-8
      encoding of any text; it keeps every byte, one character each. */
  lemma TxtFallsBackOnlyOnInvalidUtf8(bytes: seq<byte>)
    ensures TxtText(Produced(bytes)).Returned?
    ensures (forall s :: EncodeUtf8(s) != bytes) <==> DecodeUtf8(bytes).None?
    ensures DecodeUtf8(bytes).None? ==>
              TxtText(Produced(bytes)).value == TranslateNewlines(DecodeLatin1(bytes))
              && EncodeLatin1(DecodeLatin1(bytes)) == bytes
  {
    if DecodeUtf8(bytes).Some? {
      assert EncodeUtf8(DecodeUtf8(bytes).value) == bytes;
    } else {
      Latin1RoundTrip(bytes);
      forall s ensures EncodeUtf8(s) != bytes {
        DecodeEncodeUtf8(s);
      }
    }
  }

  /** `_extract_text_by_extension`, as a function of the temporary file's
      bytes: ".pdf" to the PDF reader, ".docx" to the DOCX reader, every
      other extension to the text reader. Extraction either returns text or
      fails with a 400: it raises nothing else, and the text reader never
      fails. */
  function ExtractionResult(data: seq<byte>, filename: string, libs: Libraries): (r: Outcome<string>)
    ensures r.Returned? || (r.Http? && r.error.status == 400)
    ensures Extension(filename) != ".pdf" && Extension(filename) != ".docx" ==> r.Returned?
  {
    var ext := Extension(filename);
    if ext == ".pdf" then
      var pdf := PdfText(libs.pdfPages(data), PdfFailPrefix);
      assert pdf.Returned? || (pdf.Http? && pdf.error.status == 400);
      pdf
    else if ext == ".docx" then
      var docx := DocxText(libs.docxParagraphs(data), libs.documentXml(data), DocxFailPrefix);
      assert docx.Returned? || (docx.Http? && docx.error.status == 400);
      docx
    else TxtText(Produced(data))
  }

  /** After validation only ".txt" reaches the text reader. */
  lemma OnlyTxtReachesTextReader(data: seq<byte>, filename: string, libs: Libraries)
    requires IsValidFile(filename)
    requires Extension(filename) != ".pdf" && Extension(filename) != ".docx"
    ensures Extension(filename) == ".txt"
    ensures ExtractionResult(data, filename, libs) == TxtText(Produced(data))
  {
    var ext := Extension(filename);
    assert ext in SupportedExtensions;
    assert ExtractionResult(data, filename, libs) == TxtText(Produced(data));
  }

  /** `_extract_from_pdf`. */
  method ExtractFromPdf(data: seq<byte>, libs: Libraries) returns (r: Outcome<string>)
    ensures r == PdfText(libs.pdfPages(data), PdfFailPrefix)
  {
    match libs.pdfPages(data) {
      case Raised(reason) =>
        r := Http(HttpError(400, PdfFailPrefix + reason));
      case Produced(pages) =>
        var texts := CollectPageTexts(pages);
        match texts {
          case Raised(reason) => r := Http(HttpError(400, PdfFailPrefix + reason));
          case Produced(parts) => r := Returned(Join(parts, "\n"));
        }
    }
  }

  /** `_extract_docx_fallback`: read `word/document.xml` and join the
      non-empty element texts with " ". */
  method ExtractDocxFallback(data: seq<byte>, libs: Libraries) returns (r: LibOutcome<string>)
    ensures libs.documentXml(data).Raised? ==> r == Raised(libs.documentXml(data).reason)
    ensures libs.documentXml(data).Produced? ==>
              r == Produced(Join(NonEmptyTexts(PreOrder(libs.documentXml(data).value)), " "))
  {
    match libs.documentXml(data) {
      case Raised(reason) =>
        r := Raised(reason);
      case Produced(root) =>
        var parts := CollectElementTexts(root);
        r := Produced(Join(parts, " "));
    }
  }

  /** `_extract_from_docx`. */
  method ExtractFromDocx(data: seq<byte>, libs: Libraries) returns (r: Outcome<string>)
    ensures r == DocxText(libs.docxParagraphs(data), libs.documentXml(data), DocxFailPrefix)
  {
    match libs.docxParagraphs(data) {
      case Produced(paragraphs) =>
        r := Returned(Join(paragraphs, "\n"));
      case Raised(_) =>
        var fallback := ExtractDocxFallback(data, libs);
        match fallback {
          case Produced(text) => r := Returned(text);
          case Raised(reason) => r := Http(HttpError(400, DocxFailPrefix + reason));
        }
    }
  }

  /** `_extract_text_by_extension` on the temporary file at `path`. */
  method ExtractTextByExtension(fs: FileSystem, path: string, filename: string, libs: Libraries)
    returns (r: Outcome<string>)
    requires path in fs.files
    ensures r == ExtractionResult(fs.files[path], filename, libs)
  {
    var ext := Extension(filename);
    if ext == ".pdf" {
      r := ExtractFromPdf(fs.files[path], libs);
    } else if ext == ".docx" {
      r := ExtractFromDocx(fs.files[path], libs);
    } else {
      r := TxtText(fs.Read(path));
    }
  }

  /** What `extract_text_from_upload` returns or raises for an upload whose
      temporary file the library would create at `tmpPath`: an invalid name
      is rejected before anything is created; a name that cannot serve as
      the file's suffix makes the creation raise; then the size is checked,
      and the file's bytes are extracted. */
  function UploadOutcome(upload: Upload, tmpPath: string, order: seq<string>, libs: Libraries): Outcome<string>
  {
    if !IsValidFile(upload.filename) then Http(HttpError(400, UnsupportedDetail(order)))
    else if !SuffixUsable(upload.filename) then Fault(CreateError(tmpPath, upload.filename))
    else if |upload.content| > MaxFileSize then Http(HttpError(400, TooLargeDetail()))
    else ExtractionResult(upload.content, upload.filename, libs)
  }

  /** The upload raises something other than an HTTPException exactly when
      its name is valid but cannot be the temporary file's suffix (a name
      with a "/", say); every HTTPException it raises is a 400. */
  lemma UploadFailures(upload: Upload, tmpPath: string, order: seq<string>, libs: Libraries)
    ensures UploadOutcome(upload, tmpPath, order, libs).Fault?
            <==> IsValidFile(upload.filename) && !SuffixUsable(upload.filename)
    ensures UploadOutcome(upload, tmpPath, order, libs).Http? ==>
              UploadOutcome(upload, tmpPath, order, libs).error.status == 400
  {
    var outcome := UploadOutcome(upload, tmpPath, order, libs);
    if IsValidFile(upload.filename) && SuffixUsable(upload.filename) && |upload.content| <= MaxFileSize {
      var extracted := ExtractionResult(upload.content, upload.filename, libs);
      assert outcome == extracted;
      assert extracted.Returned? || (extracted.Http? && extracted.error.status == 400);
    }
  }

  /** The uploads whose temporary file the code as written leaves behind:
      valid, creatable, and over the size limit. */
  predicate LeavesTempFile(upload: Upload)
  {
    IsValidFile(upload.filename) && SuffixUsable(upload.filename) && |upload.content| > MaxFileSize
  }

  /** `extract_text_from_upload`, as written. The size check runs inside the
      `with` block that created the temporary file but before the
      `try/finally` that deletes it, so an oversized upload leaves an empty
      temporary file behind. On every other path the files end as they
      were: nothing is created, or the file is written, extracted and
      deleted, whatever the extraction gives. */
  method ExtractTextFromUpload(fs: FileSystem, upload: Upload, tmpPath: string, order: seq<string>, libs: Libraries)
    returns (r: Outcome<string>)
    requires tmpPath !in fs.files
    requires ListsSet(order, SupportedExtensions)
    modifies fs
    ensures r == UploadOutcome(upload, tmpPath, order, libs)
    ensures LeavesTempFile(upload) ==> fs.files == old(fs.files)[tmpPath := []]
    ensures !LeavesTempFile(upload) ==> fs.files == old(fs.files)
  {
    if !IsValidFile(upload.filename) {
      return Http(HttpError(400, UnsupportedDetail(order)));
    }
    var err := fs.CreateTemp(tmpPath, upload.filename);
    if err.Some? {
      return Fault(err.value);
    }
    var content := upload.content;
    if |content| > MaxFileSize {
      return Http(HttpError(400, TooLargeDetail()));
    }
    fs.Write(tmpPath, content);
    r := ExtractTextByExtension(fs, tmpPath, upload.filename, libs);
    assert r == ExtractionResult(content, upload.filename, libs);
    CreateWriteUnlinkRestores(old(fs.files), tmpPath, content);
    if fs.Exists(tmpPath) {
      fs.Unlink(tmpPath);
    }
  }

  /** The leak: on a fresh file system, every upload with a valid, creatable
      name and more bytes than the limit (for instance `big.txt`, which
      `TxtNameAccepted` and `TxtNameUsable` show valid and creatable, with
      10485761 bytes) is
      rejected with 400, and its temporary file stays behind. */
  method OversizeUploadLeaksTempFile(upload: Upload, tmpPath: string, order: seq<string>, libs: Libraries)
    returns (rejected: bool, leaked: bool)
    requires IsValidFile(upload.filename) && SuffixUsable(upload.filename) && |upload.content| > MaxFileSize
    requires ListsSet(order, SupportedExtensions)
    ensures rejected && leaked
  {
    var fs := new FileSystem(map[]);
    var r := ExtractTextFromUpload(fs, upload, tmpPath, order, libs);
    rejected := r == Http(HttpError(400, TooLargeDetail()));
    leaked := tmpPath in fs.files;
  }

  /** `extract_text_from_upload` with the clean-up it evidently intends: the
      size check moves inside the `try/finally`, so the file created for an
      oversized upload is deleted too and no path leaves a file behind.
      Results are those of the code as written. */
  method ExtractTextFromUploadWithCleanup(fs: FileSystem, upload: Upload, tmpPath: string, order: seq<string>, libs: Libraries)
    returns (r: Outcome<string>)
    requires tmpPath !in fs.files
    requires ListsSet(order, SupportedExtensions)
    modifies fs
    ensures r == UploadOutcome(upload, tmpPath, order, libs)
    ensures fs.files == old(fs.files)
  {
    if !IsValidFile(upload.filename) {
      return Http(HttpError(400, UnsupportedDetail(order)));
    }
    var err := fs.CreateTemp(tmpPath, upload.filename);
    if err.Some? {
      return Fault(err.value);
    }
    var content := upload.content;
    if |content| > MaxFileSize {
      r := Http(HttpError(400, TooLargeDetail()));
      CreateUnlinkRestores(old(fs.files), tmpPath);
      fs.Unlink(tmpPath);
      return;
    }
    fs.Write(tmpPath, content);
    r := ExtractTextByExtension(fs, tmpPath, upload.filename, libs);
    CreateWriteUnlinkRestores(old(fs.files), tmpPath, content);
    fs.Unlink(tmpPath);
  }

  /** The size limit is inclusive: for a valid name the temporary file can
      carry, exactly 10 MiB goes on to extraction and one byte more is
      rejected as too large, with a message that names 10MB. */
  lemma SizeLimitBoundary(upload: Upload, tmpPath: string, order: seq<string>, libs: Libraries)
    requires IsValidFile(upload.filename) && SuffixUsable(upload.filename)
    ensures MaxFileSize == 10485760
    ensures |upload.content| == MaxFileSize ==>
              UploadOutcome(upload, tmpPath, order, libs) == ExtractionResult(upload.content, upload.filename, libs)
    ensures |upload.content| == MaxFileSize + 1 ==>
              UploadOutcome(upload, tmpPath, order, libs) == Http(HttpError(400, TooLargeDetail()))
    ensures TooLargeDetail() == "File too large. Maximum size: 10MB"
  {
    TooLargeMessage();
  }

  /** The too-large message names the limit in whole mebibytes. */
  lemma TooLargeMessage()
    ensures TooLargeDetail() == "File too large. Maximum size: 10MB"
  {
    assert MaxFileSize / (1024 * 1024) == 10;
    assert Decimal(10) == Decimal(1) + [Digit(0)] == "10";
  }
}
