# Consistly in Dafny

Consistly is a small web service. It extracts text from uploaded
documents, asks a local Ollama server to write a style guide from
reference articles, and then asks the server to rewrite a draft in that
style. This project models the logic that sits between the document
libraries, the HTTP client and the web pages:

- **`FileProcessor`** (`file_processor.dfy`).
  - Upload validation by `os.path.splitext` extension and by size.
  - The temporary file's life cycle. A `FileSystem` class holds the live
    temporary files.
  - Dispatch to the PDF, DOCX and text readers.
  - Each reader's joining, fallback and error rules.
- **Shared document rules** (`documents.dfy`).
  - The element tree of `word/document.xml` and its pre-order walk.
  - The append loops over pages and elements.
  - The PDF and DOCX result functions.
- **Python semantics the code relies on**:
  - `str.join`, `str.strip`, `str.lower` and `rfind` (`strings.dfy`);
  - `os.path.splitext` (`pathname.dfy`);
  - the strict UTF-8 and Latin-1 codecs and text-mode newline translation
    (`codecs.dfy`);
  - `str()` of an HTTPException (`common.dfy`).
- **`AIEngine`** (`engine.dfy`).
  - Reply classification in `_generate_text`.
  - Both prompt builders.
  - The two guarded steps and the workflow that chains them.
  - The health check's shortened test output.
- **The `/api` routes** (`api_routes.dfy`).
  - Input guards, and the rule that HTTPExceptions pass through while
    anything else becomes a 500.
  - The response records.
- **The older single-file `app.py`** (`legacy.dfy`).
  - Its own client call, extractors, prompts and handlers.
  - Lemmas stating where it differs from the current code.

The document libraries (PyPDF2, python-docx, `zipfile` with
`ElementTree`) appear as functions of the file's bytes that either produce
a value or raise. The model server is an oracle. For each request it gives
the transport outcome: a reply with a status, a body text and a JSON body,
or a timeout, a connection failure or another exception. Every operation
that talks to it returns the requests it sent, so the lemmas can count
calls and state their order.

`file_processor.py` and `ai_engine.py` at the repository root are
line-for-line copies of `src/file_processor.py` and `src/ai_engine.py`.
The same model covers both, and every citation of the `src/` copy below
holds at the same line in the root copy.

## Model

| member | source | states |
|---|---|---|
| Common.Render | src/ai_engine.py:160-161 | `str()` of an HTTPException ends with its detail, so a re-wrapped exception keeps the original detail at its end |
| Common.DecimalRoundTrip | src/ai_engine.py:150 | `int(str(n)) == n`: the digits written for a status code give the code back |
| Common.DecimalInjective | src/ai_engine.py:150 | different status codes are written as different digit strings |
| Strings.SplitJoin | src/file_processor.py:129 | joining parts with a one-character separator that no part contains is undone by splitting on it: the parts come back in order |
| Strings.JoinPartAt | src/ai_engine.py:173 | in `sep.join(parts)` every part stands verbatim at its offset |
| Strings.JoinSeparatorAt | src/ai_engine.py:173 | in `sep.join(parts)` exactly the separator lies between neighbouring parts, and the next part starts right after it |
| Strings.JoinedPartInFrame | src/ai_engine.py:173-179 | with fixed text before and after a join, every part stands verbatim at its position in the whole |
| Strings.JoinedSeparatorInFrame | src/ai_engine.py:173-179 | with fixed text before and after a join, exactly the separator lies between neighbouring parts |
| Strings.FivePartsAt | src/ai_engine.py:225-244 | in a concatenation of five texts each stands verbatim at the sum of the lengths before it, the first at the start and the last at the end |
| Strings.StripCutsOnlySpace | src/ai_engine.py:148 | `strip()` gives the infix of the input that starts where the leading white space ends, and everything cut away on either side is white space |
| Strings.Strip | src/ai_engine.py:148 | `strip()` is no longer than its input, and what it keeps neither starts nor ends with white space |
| Strings.StripEmptyIffAllSpace | src/api_routes.py:155 | `s.strip()` is empty exactly when `s` is all white space, the empty string included |
| Strings.StripUnchangedIff | src/ai_engine.py:148 | `strip()` leaves a text unchanged exactly when the text is empty or has no white space at either end |
| Strings.Lower | src/file_processor.py:88 | lower-casing keeps the length and maps each character on its own |
| Strings.LastIndexOf | src/file_processor.py:88 | the last index holding the character, or -1 when the character is absent |
| PathName.SplitExt | src/file_processor.py:88 | `splitext` splits: root followed by extension is the path, and a non-empty extension starts with '.' and has a non-empty root before it |
| PathName.SplitExtCharacterized | src/file_processor.py:88 | the extension equals `e` exactly when `e` is a suffix that starts with '.', holds no other '.' or '/', and follows a character other than '.' or '/' in the last path component |
| Codecs.DecodeEncodeUtf8 | src/file_processor.py:193-194 | strict UTF-8 decoding of any text's encoding gives the text back |
| Codecs.DecodeUtf8 | src/file_processor.py:193-195 | strict UTF-8 decoding accepts only canonical UTF-8: whatever it accepts is exactly the encoding of the text it returns, and all other input raises UnicodeDecodeError |
| Codecs.DecodeLatin1 | src/file_processor.py:198-199 | Latin-1 decoding gives one character per byte, with the byte's value as its code |
| Codecs.Latin1RoundTrip | src/file_processor.py:198-199 | Latin-1 decoding loses nothing: encoding the result gives the bytes back |
| Codecs.TranslateNewlines | src/file_processor.py:193-194 | text-mode reading leaves no '\r' and never lengthens the text |
| Codecs.TranslateNewlinesIdentity | src/file_processor.py:193-194 | text-mode reading changes a text exactly when the text holds a '\r' |
| Codecs.TranslateNewlinesIsReplace | src/file_processor.py:193-194 | text-mode reading is `s.replace("\r\n", "\n").replace("\r", "\n")`: every "\r\n" and every lone '\r' becomes one '\n', and every other character is kept in order |
| Documents.PreOrderVisitsTree | src/file_processor.py:176 | `root.iter()` visits exactly the elements of the tree |
| Documents.PreOrderAllVisitsForest | src/file_processor.py:176 | walking a list of subtrees visits exactly the elements of those subtrees |
| Documents.NonEmptyTextsMembers | src/file_processor.py:176-178 | a string is collected exactly when it is the non-empty `.text` of some visited element |
| Documents.FallbackCollectsEveryText | src/file_processor.py:171-180 | the DOCX fallback collects exactly the non-empty texts of the elements in the tree |
| Documents.CollectElementTexts | src/file_processor.py:175-178 | the append loop over `root.iter()` yields the non-empty element texts in pre-order |
| Documents.GatherAppend | src/file_processor.py:124-129 | collecting page texts over two runs of pages is collecting the first run, then the second, stopping at the first failure |
| Documents.GatherProduced | src/file_processor.py:124-129 | collecting page texts succeeds exactly when every page gives its text, and it keeps them in page order |
| Documents.GatherRaisedFirst | src/file_processor.py:124-129 | a failed collection reports the reason of a page that failed |
| Documents.CollectPageTexts | src/file_processor.py:124-129 | the append loop over the pages computes the collection, failure included |
| Documents.PdfText | src/file_processor.py:111-134 | PDF text succeeds exactly when the reader opens the file and every page gives its text; any failure is a 400 whose detail starts with the PDF prefix |
| Documents.PdfTextMeaning | src/file_processor.py:121-134 | when no page text holds '\n', splitting the PDF text on '\n' gives back the page texts, one segment per page |
| Documents.PdfPageAt | src/file_processor.py:124-129 | every page text, line breaks included, stands verbatim in the PDF text at the offset given by the earlier pages with one '\n' after each |
| Documents.DocxText | src/file_processor.py:136-180 | DOCX text always succeeds when the primary reader works; the fallback is used only when it raises; the result is a 400 with the DOCX prefix and the fallback's reason exactly when both raise, and never any other exception |
| Documents.DocxTextMeaning | src/file_processor.py:146-159 | with the primary reader, splitting the DOCX text on '\n' gives back the paragraphs when none holds '\n' |
| Documents.FallbackKeepsEveryElementText | src/file_processor.py:171-180 | every non-empty element text stands verbatim in the fallback's result |
| TempFiles.FileSystem.CreateTemp | src/file_processor.py:56 | when the upload name can be the suffix, a new, empty file at a path that was not in use and nothing else changes; otherwise no file and the error raised: a NUL, a first path component too long, or a '/' leading through a directory that does not exist |
| TempFiles.FileSystem.Write | src/file_processor.py:65 | the file holds exactly the written bytes; nothing else changes |
| TempFiles.FileSystem.Unlink | src/file_processor.py:72-73 | the file is gone; nothing else changes |
| TempFiles.FileSystem.Read | src/file_processor.py:193 | reading gives an existing file's bytes, and raises for a missing file |
| TempFiles.UnusableSuffixes | src/file_processor.py:56 | a name holding '/' or longer than 244 characters can never be the suffix; a name with '/' but no NUL and at most 61 characters fails as "No such file or directory" |
| TempFiles.ShortNamesUsable | src/file_processor.py:56 | every name of at most 61 characters without a NUL or '/' can be the suffix, whatever its characters |
| FileProcessor.IsValidFileCharacterized | src/file_processor.py:85-89 | a file is valid exactly when its name is non-empty and its lower-cased name has `.pdf`, `.docx` or `.txt` as its extension |
| FileProcessor.IsValidFile | src/file_processor.py:75-89 | a valid name ends, lower-cased, in its extension, with at least one character before that extension |
| FileProcessor.UpperCaseAccepted | src/file_processor.py:88-89 | case is ignored: a name is accepted exactly when its lower-case form is, so `REPORT.PDF` is judged as `report.pdf` |
| FileProcessor.DotFileRejected | src/file_processor.py:88-89 | `.txt` has no extension and is rejected |
| FileProcessor.NameWithoutExtensionRejected | src/file_processor.py:85-89 | `notes` and the empty name are rejected |
| FileProcessor.LastExtensionDecides | src/file_processor.py:88 | only the last extension counts: for a name ending in a '.'-led part with no other '.' or '/', such as `.bak` in `a.txt.bak`, the extension is that part lower-cased or nothing, whatever precedes it |
| FileProcessor.LastExtensionRejected | src/file_processor.py:88-89 | such a name is rejected whenever its last part is not a supported extension, so `a.txt.bak` is rejected |
| FileProcessor.ExtensionOfPlainName | src/file_processor.py:88 | in a lower-case name without '/' that does not start with '.', the extension runs from the last '.' |
| FileProcessor.TxtNameAccepted | src/file_processor.py:88-89 | `big.txt` is accepted |
| FileProcessor.TxtNameUsable | src/file_processor.py:56 | `big.txt` can be the temporary file's suffix |
| FileProcessor.SizeLimitBoundary | src/file_processor.py:59-63 | for a valid name the temporary file can carry, exactly 10485760 bytes go on to extraction and one byte more is rejected as too large; the message reads "File too large. Maximum size: 10MB" |
| FileProcessor.TxtKeepsUtf8Text | src/file_processor.py:192-194 | any UTF-8 text is read back whole, with only its line ends normalised; text without '\r' comes back unchanged |
| FileProcessor.TxtFallsBackOnlyOnInvalidUtf8 | src/file_processor.py:192-199 | reading a `.txt` upload never fails; Latin-1 is used exactly for contents that encode no text in UTF-8, and it keeps every byte |
| FileProcessor.TxtText | src/file_processor.py:182-205 | reading an existing file never fails and gives text with no '\r'; a read error is a 400 whose detail starts with "Failed to read text file: " |
| FileProcessor.ExtractionResult | src/file_processor.py:91-109 | extraction either returns text or fails with a 400 and raises nothing else; every name other than `.pdf` and `.docx` gets text |
| FileProcessor.OnlyTxtReachesTextReader | src/file_processor.py:102-109 | after validation only `.txt` reaches the text reader |
| FileProcessor.ExtractFromPdf | src/file_processor.py:111-134 | the PDF reader's result is the PDF text of the file's bytes |
| FileProcessor.ExtractDocxFallback | src/file_processor.py:161-180 | the fallback gives the non-empty element texts, in pre-order, joined by ' ', or the reason the archive or XML could not be read |
| FileProcessor.ExtractFromDocx | src/file_processor.py:136-159 | the DOCX reader's result is the DOCX text of the file's bytes |
| FileProcessor.ExtractTextByExtension | src/file_processor.py:91-109 | dispatch gives the extraction result of the temporary file's bytes |
| FileProcessor.UploadFailures | src/file_processor.py:49-73 | the upload raises something other than an HTTPException exactly when its name is valid but cannot be the suffix; every HTTPException it raises is a 400 |
| FileProcessor.ExtractTextFromUpload | src/file_processor.py:36-73 | an invalid name gets 400 with nothing created; a valid name that cannot be the suffix raises the creation error with nothing created; an oversized upload gets 400 and leaves an empty temporary file; otherwise the extraction result, with the temporary file removed |
| FileProcessor.OversizeUploadLeaksTempFile | src/file_processor.py:56-73 | on a fresh file system every valid upload over the limit whose name can be the suffix is rejected with 400 and its temporary file stays |
| FileProcessor.ExtractTextFromUploadWithCleanup | src/file_processor.py:36-73 | the results of the code as written, with the files left as they were on every path |
| Engine.ClassifyReply | src/ai_engine.py:124-161 | `_generate_text` returns exactly for a 200 reply with a JSON object; every failure is an HTTPException with status 500 and never anything else |
| Engine.StatusDetailParts | src/ai_engine.py:150 | the non-200 detail starts with its prefix, the status digits stand right after it, and " - " with the body text closes it |
| Engine.StatusDetailInjective | src/ai_engine.py:150 | two non-200 details are equal exactly when they name the same status and the same body text |
| Engine.WrappedStatusDetail | src/ai_engine.py:149-161 | wrapped by a handler's prefix and `str()` of the HTTPException, the detail still ends with the status digits, " - " and the body text, and the wrapped text starts with the handler's prefix |
| Engine.WrappedStatusDetailInjective | src/ai_engine.py:149-161 | two wrapped non-200 details are equal exactly when they name the same status and the same body text |
| Engine.OkReplyIsStripped | src/ai_engine.py:146-148 | a 200 reply's `response` field (default "") is kept exactly when it has no white space at either end, and it becomes "" exactly when it is all white space |
| Engine.NonOkReplyIsRewrapped | src/ai_engine.py:149-161 | for a status other than 200 the caller sees "AI processing error: " followed by the rendered "AI API error: <status> - <text>" exception, which ends with the status digits, " - " and the body text; never that exception alone |
| Engine.NonOkRepliesDistinguished | src/ai_engine.py:149-161 | two replies with statuses other than 200 reach the caller as the same error exactly when they have the same status and the same body text |
| Engine.GenerateText | src/ai_engine.py:124-161 | one call sends exactly one request: to `<base_url>/api/generate`, with the configured model, the prompt, streaming off and the fixed sampling options; its result is that reply classified, and any failure is a 500 HTTPException |
| Engine.FailureKindsAreDistinguishable | src/ai_engine.py:153-161 | a timeout, a connection failure and a processing error never share a detail |
| Engine.StylePromptFrame | src/ai_engine.py:163-212 | `StylePrompt` (`_create_style_analysis_prompt`) starts with its fixed introduction and ends with its fixed instructions, whatever the articles |
| Engine.StylePromptPlacesArticles | src/ai_engine.py:173-179 | every reference article stands verbatim in the style prompt at its position, after the introduction and the earlier articles with their separators |
| Engine.StylePromptSeparatesArticles | src/ai_engine.py:173-179 | neighbouring articles keep their order: exactly the article separator follows each article, and the next article starts right after it |
| Engine.EditingPromptPlacesStyleGuide | src/ai_engine.py:214-229 | `EditingPrompt` (`_create_editing_prompt`) starts with its introduction; the style guide stands verbatim right after it, followed by the draft heading |
| Engine.EditingPromptPlacesDraft | src/ai_engine.py:225-244 | in `EditingPrompt` the draft stands verbatim after the guide and heading, and the prompt ends with the instructions |
| Engine.AnalyzeWritingStyle | src/ai_engine.py:72-86 | an empty list is rejected with 400 and no request; otherwise exactly one request, with the style prompt, whose classified reply is the result |
| Engine.EditContent | src/ai_engine.py:88-103 | an empty draft or style guide is rejected with 400 and no request (white space passes); otherwise exactly one request, with the editing prompt |
| Engine.ProcessCompleteWorkflow | src/ai_engine.py:105-122 | the workflow sends at most two requests, none exactly when the list of articles is empty, and fails only with HTTPExceptions |
| Engine.WorkflowOrder | src/ai_engine.py:116-122 | the style request comes first; a failed first step ends the run after one request; otherwise the second request carries the first reply as its style guide and gives the result; a success takes exactly two requests |
| Engine.BlankStyleGuideStopsWorkflow | src/ai_engine.py:99-100 | a blank first reply strips to "", so editing fails with 400 and the second request is never sent |
| Engine.TestOutput | src/ai_engine.py:63 | a reply of at most 100 characters is shown unchanged; a longer one is cut to its first 100 characters followed by "..." |
| Engine.TestOutputIdempotent | src/ai_engine.py:63 | a shortened reply is shown unchanged |
| Engine.HealthCheck | src/ai_engine.py:41-70 | the check never raises; it sends the hello request exactly when the ping answers 200; it reports success exactly when that request succeeds, with the shortened reply as test output |
| ApiRoutes.Respond | src/api_routes.py:105-108 | a handler's `try`: an HTTPException passes unchanged, any other exception becomes a 500 whose detail starts with the route's prefix, and a value becomes a successful response |
| ApiRoutes.ExtractTextRouteOutcomes | src/api_routes.py:70-80 | the route gives the text with the file name, or passes on the processor's 400; its own 500, "Text extraction failed: " with the creation error, occurs exactly when the name is valid but cannot be the temporary file's suffix |
| ApiRoutes.ExtractTextFromFile | src/api_routes.py:59-80 | `/extract-text` gives the processor's outcome, as written, wrapped in a response, and leaves the files as the processor does: an oversized upload's temporary file stays |
| ApiRoutes.AnalyzeStyle | src/api_routes.py:82-108 | a missing or empty `reference_articles` is rejected with 400 and no request; otherwise the engine's requests; success carries `style_guide`; every failure is the engine's own HTTPException |
| ApiRoutes.EditContentRoute | src/api_routes.py:110-138 | a missing or empty draft or style guide is rejected with 400 and no request; success carries `edited_content`; failures are the engine's |
| ApiRoutes.GenerateCompleteEdit | src/api_routes.py:140-172 | an empty list, then a blank draft, are rejected with 400 and no request; otherwise the workflow's requests; success carries `edited_article`; failures are the workflow's |
| ApiRoutes.GenerateEditGuardIsStricter | src/api_routes.py:155-156 | a draft of white space only is rejected by the route with no request, while the engine alone would send requests for it |
| ApiRoutes.Health | src/api_routes.py:42-57 | `/health` is always healthy with version 2.0.0, and it lists each supported extension exactly once |
| Legacy.ClassifyLegacyReply | app.py:30-62 | `call_ollama` returns exactly for a 200 reply with a JSON object; every failure is a 500 HTTPException |
| Legacy.LegacyNonOkReplyIsRewrapped | app.py:51-62 | the non-200 exception is re-raised as "Error calling Ollama: " followed by the rendered "Ollama API error: <status> - <text>", which ends with the status digits, " - " and the body text |
| Legacy.LegacyNonOkRepliesDistinguished | app.py:51-62 | two replies with statuses other than 200 reach the caller as the same error exactly when they have the same status and the same body text |
| Legacy.CallOllama | app.py:30-62 | one call sends exactly one request: to the fixed Ollama URL, with the model, the prompt, streaming off and the fixed sampling options; its result is that reply classified, and any failure is a 500 HTTPException |
| Legacy.StrippingIsTheOnlyDifference | app.py:48-50 | both clients succeed on the same outcomes; the current reply is the stripped legacy reply, and the two are equal exactly when the raw reply has no white space at either end |
| Legacy.LegacyStylePromptPlacesArticles | app.py:102-107 | every article stands verbatim in the legacy style prompt at its position |
| Legacy.LegacyStylePromptFrame | app.py:100-118 | `LegacyStylePrompt` (`create_style_analysis_prompt`) starts with its introduction and ends with its instructions |
| Legacy.LegacyEditingPromptPlacesInputs | app.py:120-138 | `LegacyEditingPrompt` (`create_editing_prompt`) starts with its introduction and ends with its instructions; it holds the style guide verbatim, then the draft heading, then the draft verbatim |
| Legacy.GenerateEdit | app.py:828-845 | a missing or empty list or draft is rejected with 400 and no request; at most two requests; success takes two and carries only `edited_article` |
| Legacy.LegacyWorkflowOrder | app.py:834-839 | with a non-empty list and draft the first request carries the legacy analysis prompt, and a failure of it ends the run after that one request |
| Legacy.LegacyWorkflowSecondStep | app.py:841-845 | once the first reply is returned, the second request carries the draft and that reply, as it came, as its style guide; the run returns the second reply under `edited_article`, or its failure |
| Legacy.LegacyBlankStyleGuideStillEdits | app.py:838-843 | a blank first reply does not stop the legacy workflow: the second request is sent with it as the style guide |
| Legacy.TxtVersionsAgreeOnlyOnPlainUtf8 | app.py:820-822 | on a `.txt` name the two extraction steps, run on the written temporary file, agree exactly when the bytes are UTF-8 text without '\r'; on other bytes the legacy step fails with an unhandled decoding error while the current one returns Latin-1 text. The current size cap and the creation failure come before these steps and are not part of the comparison |
| Legacy.LegacyAcceptsNameWithoutExtension | app.py:816-822 | the legacy handler decodes `notes` as text, which the current code rejects |
| Legacy.BareExtensionIsReadAsPdf | app.py:816-817 | the legacy handler reads `.pdf` as a PDF, which the current code rejects as a dot-file |
| Legacy.CollectParagraphTexts | app.py:68-70 | the paragraph loop yields every paragraph's text, in order |
| Legacy.LegacyExtractFromDocx | app.py:64-86 | the legacy DOCX reader follows the same rules as the current one, with its own 400 prefix |
| Legacy.LegacyExtractFromPdf | app.py:88-98 | the legacy PDF reader follows the same rules as the current one, with its own 400 prefix |
| Legacy.LegacyExtractionResult | app.py:816-822 | the legacy extraction fails with a 400 from the PDF or DOCX routine, or, for any other name, with an unhandled UnicodeDecodeError exactly when the bytes are not UTF-8 |
| Legacy.LegacyExtractText | app.py:806-826 | the legacy `/extract-text` extracts any name of any size and always removes its temporary file; a name that cannot be the suffix raises the creation error unhandled |

## Left out

- Strings.Lower: lower-cases ASCII letters only. Python also folds other
  letters. None of those folds yields a letter of `.pdf`, `.docx` or `.txt`,
  so validity and dispatch do not change.
- A missing upload name (`None`) is represented by the empty string. The
  current code rejects both the same way. The legacy handler would raise on
  `None.lower()`, which the model does not show.
- The internals of PyPDF2, python-docx, `zipfile` and `ElementTree`. Each
  is a function of the file's bytes that produces pages, paragraphs or an
  element tree, or raises with a reason.
- Network I/O: `requests`, the 120 s and 5 s timeouts, the health `GET`
  (its outcome is the `Ping` parameter) and the contents of model replies.
  The server is an oracle indexed by the call number within one run.
  Requests' `ConnectTimeout` is both a timeout and a connection error; the
  timeout handler catches it first, so it is the `Timeout` outcome.
- Engine.ClassifyReply: a JSON reply whose top level is not an object, or
  whose `response` field is not a string, is not modelled. Either raises
  inside `_generate_text` and ends in its catch-all handler as a processing
  error. The model reads only objects with an absent or string `response`.
- Legacy.ClassifyLegacyReply: a JSON reply whose `response` field is
  present but not a string is returned by `call_ollama` as it is, and flows
  on as the style guide or the edited article. A top level that is not an
  object ends in the catch-all handler. The model reads only objects with an
  absent or string `response`.
- Engine.ClassifyReply: `str()` of an HTTPException is rendered as
  "status: detail", as recent Starlette versions do. The lemmas rely only
  on the prefix and on the detail standing at the end.
- Engine.HealthCheck: an exception other than an HTTPException from the
  hello request cannot occur in the model. That branch keeps the code's
  shape only.
- The iteration order of the extension set in the "Unsupported file
  format" message and in `/health`. It is a parameter that must list the
  set once each.
- Legacy.LegacyExtractionResult: the UnicodeDecodeError message keeps only
  its fixed start. The byte value and position that Python adds are not
  modelled.
- Request-body validation by pydantic and FastAPI (422 responses). The
  routes take the already-parsed fields.
- The `/models` route and the `/test-ollama` probe, the HTML, CSS and
  JavaScript user interface, `main.py`, application start-up and CORS, and
  the `print` calls in `call_ollama`.
- The temporary file's random name. The path is a parameter that must not
  be in use.
- TempFiles.FileSystem.CreateTemp: of the ways creation can fail, only a
  NUL, a "/" and a name longer than 255 bytes are modelled. A full disk,
  permissions and the 4096-byte limit on the whole path are not. The
  error message always puts the path in single quotes; Python writes
  `repr(path)`, which switches to double quotes when the path holds a
  single quote and escapes characters that cannot be printed.
- `async`/`await`: the handlers run one step after another, and nothing
  else runs in between in the model.

## Findings

| source | as written | input that shows it | evidently intended | confidence | as-written member | corrected member |
|---|---|---|---|---|---|---|
| src/file_processor.py:56-73 | the size check at lines 59-63 raises inside the `with` block that created the temporary file (`delete=False`), before the `try/finally` at lines 68-73 that deletes it | a valid name that can be the temporary file's suffix, such as `big.txt`, with 10485761 bytes of content | the temporary file is removed on every path, the oversize rejection included | high, not executed | FileProcessor.OversizeUploadLeaksTempFile | FileProcessor.ExtractTextFromUploadWithCleanup |

The same lines in the root `file_processor.py` have the same defect. The
as-written `FileProcessor.ExtractTextFromUpload` states the leak. The
`/extract-text` route (`ApiRoutes.ExtractTextFromFile`) calls it as the
source does, so the route leaks too. The corrected member moves the size
check inside the `try/finally`. It gives the same results and leaves the
files as they were on every path.
