/** `app.py`, the earlier single-file version of the service. It calls the
    server directly, extracts text with its own routines, and builds its own
    prompts. Unlike the current code it has no extension whitelist and no
    size cap, decodes text strictly as UTF-8, does not strip replies, and does
    not check the style guide before the second request. The lemmas here
    state where the two versions part. */
module Legacy {
  import opened Common
  import opened Strings
  import opened PathName
  import opened Codecs
  import opened Documents
  import opened TempFiles
  import opened FileProcessor
  import opened Engine

  const OllamaUrl := "http://localhost:11434/api/generate"
  const DefaultModel := "llama3:8b"

  function LegacyRequest(prompt: string, model: string): GenerateRequest
  {
    GenerateRequest(OllamaUrl, model, prompt, false, GenerationParams)
  }

  const LegacyTimeoutDetail := "Ollama request timed out"
  const LegacyConnectDetail := "Could not connect to Ollama. Make sure 'ollama serve' is running."
  const LegacyErrorPrefix := "Error calling Ollama: "

  const LegacyApiPrefix :=
    "O" + "l" + "l" + "a" + "m" + "a" + " " + "A" + "P" + "I" + " " + "e" + "r" + "r" + "o" + "r" + ":" + " "

  /** The detail of the exception `call_ollama` raises for a status other
      than 200, before its own handler re-wraps it. */
  function LegacyApiErrorDetail(status: nat, text: string): string
  {
    StatusDetail(LegacyApiPrefix, status, text)
  }

  /** How `call_ollama` ends for a given transport outcome: a 200 reply
      gives its `response` field (default "") as it is; every failure is a
      500, and the exception raised for a status other than 200 is caught by
      the function's own catch-all and re-raised with its prefix. */
  function ClassifyLegacyReply(reply: Transport): (r: Outcome<string>)
    ensures !r.Fault?
    ensures r.Http? ==> r.error.status == 500
    ensures r.Returned? <==> reply.Reply? && reply.status == 200 && reply.body.JsonObject?
  {
    match reply
    case Reply(status, text, body) =>
      if status == 200 then
        match body
        case JsonObject(response) => Returned(response.GetOr(""))
        case NotJson(error) => Http(HttpError(500, LegacyErrorPrefix + error))
      else
        Http(HttpError(500, LegacyErrorPrefix + Render(HttpError(500, LegacyApiErrorDetail(status, text)))))
    case Timeout => Http(HttpError(500, LegacyTimeoutDetail))
    case ConnError => Http(HttpError(500, LegacyConnectDetail))
    case OtherError(message) => Http(HttpError(500, LegacyErrorPrefix + message))
  }

  /** The non-200 exception is re-wrapped here too: the caller sees the
      catch-all prefix, with the rendered original at the end, which ends
      with the status digits, " - " and the reply body text. */
  lemma LegacyNonOkReplyIsRewrapped(status: nat, text: string, body: JsonBody)
    requires status != 200
    ensures ClassifyLegacyReply(Reply(status, text, body)).Http?
    ensures var d := ClassifyLegacyReply(Reply(status, text, body)).error.detail;
            LegacyErrorPrefix <= d
            && EndsWith(d, LegacyApiErrorDetail(status, text))
            && EndsWith(d, Decimal(status) + " - " + text)
            && d != LegacyApiErrorDetail(status, text)
  {
    WrappedStatusDetail(LegacyErrorPrefix, 500, LegacyApiPrefix, status, text);
  }

  /** Replies with statuses other than 200 reach the caller as the same
      error exactly when they have the same status and the same body text. */
  lemma LegacyNonOkRepliesDistinguished(s1: nat, t1: string, b1: JsonBody, s2: nat, t2: string, b2: JsonBody)
    requires s1 != 200 && s2 != 200
    ensures ClassifyLegacyReply(Reply(s1, t1, b1)) == ClassifyLegacyReply(Reply(s2, t2, b2))
            <==> s1 == s2 && t1 == t2
  {
    WrappedStatusDetailInjective(LegacyErrorPrefix, 500, LegacyApiPrefix, s1, t1, s2, t2);
  }

  /** Both versions succeed on exactly the same transport outcomes, and then
      differ only in stripping: the legacy reply is the raw field, the
      current one the stripped field, and the two agree exactly when the
      field has no white space at either end. */
  lemma StrippingIsTheOnlyDifference(reply: Transport)
    ensures ClassifyLegacyReply(reply).Returned? <==> ClassifyReply(reply).Returned?
    ensures ClassifyReply(reply).Returned? ==>
              ClassifyReply(reply).value == Strip(ClassifyLegacyReply(reply).value)
    ensures ClassifyReply(reply).Returned? ==>
              var raw := ClassifyLegacyReply(reply).value;
              (ClassifyReply(reply).value == raw <==> raw == [] || (!IsSpace(raw[0]) && !IsSpace(raw[|raw| - 1])))
  {
    if ClassifyReply(reply).Returned? {
      var raw := reply.body.response.GetOr("");
      assert ClassifyLegacyReply(reply) == Returned(raw);
      assert ClassifyReply(reply) == Returned(Strip(raw));
      StripUnchangedIff(raw);
    }
  }

  /** `call_ollama(prompt, model)` as call number `k` of a run. */
  function CallOllama(server: Server, k: nat, prompt: string, model: string): (run: Run<string>)
    ensures run.sent == [GenerateRequest(OllamaUrl, model, prompt, false, GenerationParams)]
    ensures run.result == ClassifyLegacyReply(server(k, run.sent[0]))
    ensures !run.result.Fault? && (run.result.Http? ==> run.result.error.status == 500)
  {
    var request := LegacyRequest(prompt, model);
    Run(ClassifyLegacyReply(server(k, request)), [request])
  }

  /* The legacy prompt texts, spelled one character per literal as the
     engine's are. */

  const LegacyStyleIntro :=
    "\n"
    + "A" + "n" + "a" + "l" + "y" + "z" + "e" + " " + "t" + "h" + "e" + " " + "f" + "o" + "l" + "l" + "o" + "w" + "i" + "n" + "g" + " "
      + "a" + "r" + "t" + "i" + "c" + "l" + "e" + "s" + " " + "a" + "n" + "d" + " " + "i" + "d" + "e" + "n" + "t" + "i" + "f" + "y" + " "
      + "t" + "h" + "e" + " " + "k" + "e" + "y" + " " + "w" + "r" + "i" + "t" + "i" + "n" + "g" + " "
      + "s" + "t" + "y" + "l" + "e" + " " + "p" + "a" + "t" + "t" + "e" + "r" + "n" + "s" + "," + " "
      + "t" + "o" + "n" + "e" + "," + " " + "s" + "t" + "r" + "u" + "c" + "t" + "u" + "r" + "e" + "," + " "
      + "a" + "n" + "d" + " " + "s" + "t" + "a" + "n" + "d" + "a" + "r" + "d" + "s" + ":" + "\n"
    + "\n"

  const LegacyStyleInstructions :=
    "\n"
    + "\n"
    + "P" + "l" + "e" + "a" + "s" + "e" + " " + "i" + "d" + "e" + "n" + "t" + "i" + "f" + "y" + ":" + "\n"
    + "1" + "." + " " + "T" + "o" + "n" + "e" + " " + "a" + "n" + "d" + " " + "v" + "o" + "i" + "c" + "e" + " "
      + "c" + "h" + "a" + "r" + "a" + "c" + "t" + "e" + "r" + "i" + "s" + "t" + "i" + "c" + "s" + "\n"
    + "2" + "." + " " + "S" + "e" + "n" + "t" + "e" + "n" + "c" + "e" + " " + "s" + "t" + "r" + "u" + "c" + "t" + "u" + "r" + "e" + " "
      + "p" + "a" + "t" + "t" + "e" + "r" + "n" + "s" + "\n"
    + "3" + "." + " " + "P" + "a" + "r" + "a" + "g" + "r" + "a" + "p" + "h" + " " + "o" + "r" + "g" + "a" + "n" + "i" + "z" + "a" + "t" + "i" + "o" + "n" + "\n"
    + "4" + "." + " " + "W" + "o" + "r" + "d" + " " + "c" + "h" + "o" + "i" + "c" + "e" + " " + "p" + "r" + "e" + "f" + "e" + "r" + "e" + "n" + "c" + "e" + "s" + "\n"
    + "5" + "." + " " + "C" + "o" + "m" + "m" + "o" + "n" + " " + "p" + "h" + "r" + "a" + "s" + "e" + "s" + " "
      + "o" + "r" + " " + "e" + "x" + "p" + "r" + "e" + "s" + "s" + "i" + "o" + "n" + "s" + "\n"
    + "6" + "." + " " + "O" + "v" + "e" + "r" + "a" + "l" + "l" + " " + "w" + "r" + "i" + "t" + "i" + "n" + "g" + " "
      + "s" + "t" + "a" + "n" + "d" + "a" + "r" + "d" + "s" + " " + "a" + "n" + "d" + " " + "q" + "u" + "a" + "l" + "i" + "t" + "y" + " "
      + "m" + "a" + "r" + "k" + "e" + "r" + "s" + "\n"
    + "\n"
    + "P" + "r" + "o" + "v" + "i" + "d" + "e" + " " + "a" + " " + "c" + "o" + "n" + "c" + "i" + "s" + "e" + " "
      + "s" + "t" + "y" + "l" + "e" + " " + "g" + "u" + "i" + "d" + "e" + " " + "t" + "h" + "a" + "t" + " "
      + "c" + "a" + "n" + " " + "b" + "e" + " " + "u" + "s" + "e" + "d" + " " + "t" + "o" + " "
      + "e" + "d" + "i" + "t" + " " + "f" + "u" + "t" + "u" + "r" + "e" + " " + "a" + "r" + "t" + "i" + "c" + "l" + "e" + "s" + "." + "\n"

  const LegacyEditIntro :=
    "\n"
    + "Y" + "o" + "u" + " " + "a" + "r" + "e" + " " + "a" + "n" + " " + "e" + "x" + "p" + "e" + "r" + "t" + " "
      + "e" + "d" + "i" + "t" + "o" + "r" + "." + " " + "U" + "s" + "e" + " " + "t" + "h" + "e" + " "
      + "f" + "o" + "l" + "l" + "o" + "w" + "i" + "n" + "g" + " " + "s" + "t" + "y" + "l" + "e" + " "
      + "g" + "u" + "i" + "d" + "e" + " " + "t" + "o" + " " + "e" + "d" + "i" + "t" + " " + "a" + "n" + "d" + " "
      + "i" + "m" + "p" + "r" + "o" + "v" + "e" + " " + "t" + "h" + "e" + " " + "d" + "r" + "a" + "f" + "t" + " "
      + "a" + "r" + "t" + "i" + "c" + "l" + "e" + ":" + "\n"
    + "\n"
    + "S" + "T" + "Y" + "L" + "E" + " " + "G" + "U" + "I" + "D" + "E" + ":" + "\n"

  const LegacyDraftLabel := "\n\nDRAFT TO EDIT:\n"

  const LegacyEditInstructions :=
    "\n"
    + "\n"
    + "P" + "l" + "e" + "a" + "s" + "e" + " " + "e" + "d" + "i" + "t" + " " + "t" + "h" + "e" + " "
      + "d" + "r" + "a" + "f" + "t" + " " + "t" + "o" + " " + "m" + "a" + "t" + "c" + "h" + " "
      + "t" + "h" + "e" + " " + "s" + "t" + "y" + "l" + "e" + " " + "g" + "u" + "i" + "d" + "e" + "." + " "
      + "M" + "a" + "k" + "e" + " " + "i" + "m" + "p" + "r" + "o" + "v" + "e" + "m" + "e" + "n" + "t" + "s" + " "
      + "t" + "o" + ":" + "\n"
    + "-" + " " + "T" + "o" + "n" + "e" + " " + "a" + "n" + "d" + " " + "v" + "o" + "i" + "c" + "e" + " "
      + "c" + "o" + "n" + "s" + "i" + "s" + "t" + "e" + "n" + "c" + "y" + "\n"
    + "-" + " " + "S" + "e" + "n" + "t" + "e" + "n" + "c" + "e" + " " + "s" + "t" + "r" + "u" + "c" + "t" + "u" + "r" + "e" + " "
      + "a" + "n" + "d" + " " + "f" + "l" + "o" + "w" + "\n"
    + "-" + " " + "W" + "o" + "r" + "d" + " " + "c" + "h" + "o" + "i" + "c" + "e" + " " + "a" + "n" + "d" + " "
      + "v" + "o" + "c" + "a" + "b" + "u" + "l" + "a" + "r" + "y" + "\n"
    + "-" + " " + "P" + "a" + "r" + "a" + "g" + "r" + "a" + "p" + "h" + " " + "o" + "r" + "g" + "a" + "n" + "i" + "z" + "a" + "t" + "i" + "o" + "n" + "\n"
    + "-" + " " + "O" + "v" + "e" + "r" + "a" + "l" + "l" + " " + "c" + "l" + "a" + "r" + "i" + "t" + "y" + " "
      + "a" + "n" + "d" + " " + "q" + "u" + "a" + "l" + "i" + "t" + "y" + "\n"
    + "\n"
    + "R" + "e" + "t" + "u" + "r" + "n" + " " + "o" + "n" + "l" + "y" + " " + "t" + "h" + "e" + " "
      + "e" + "d" + "i" + "t" + "e" + "d" + " " + "v" + "e" + "r" + "s" + "i" + "o" + "n" + " "
      + "o" + "f" + " " + "t" + "h" + "e" + " " + "a" + "r" + "t" + "i" + "c" + "l" + "e" + "," + " "
      + "m" + "a" + "i" + "n" + "t" + "a" + "i" + "n" + "i" + "n" + "g" + " " + "t" + "h" + "e" + " "
      + "s" + "a" + "m" + "e" + " " + "g" + "e" + "n" + "e" + "r" + "a" + "l" + " " + "s" + "t" + "r" + "u" + "c" + "t" + "u" + "r" + "e" + " "
      + "b" + "u" + "t" + " " + "i" + "m" + "p" + "r" + "o" + "v" + "i" + "n" + "g" + " " + "i" + "t" + " "
      + "a" + "c" + "c" + "o" + "r" + "d" + "i" + "n" + "g" + " " + "t" + "o" + " " + "t" + "h" + "e" + " "
      + "s" + "t" + "y" + "l" + "e" + " " + "g" + "u" + "i" + "d" + "e" + "." + "\n"

  /** `create_style_analysis_prompt`. */
  function LegacyStylePrompt(articles: seq<string>): string
  {
    Framed(LegacyStyleIntro, articles, ArticleSeparator, LegacyStyleInstructions)
  }

  /** Where article `i` starts in the legacy style prompt. */
  function LegacyArticlePosition(articles: seq<string>, i: nat): nat
    requires i <= |articles|
  {
    PartPosition(LegacyStyleIntro, articles, ArticleSeparator, i)
  }

  /** Every article stands verbatim in the legacy style prompt, after the
      introduction and the articles before it with their separators. */
  lemma LegacyStylePromptPlacesArticles(articles: seq<string>, i: nat)
    requires i < |articles|
    ensures OccursAt(LegacyStylePrompt(articles), articles[i], LegacyArticlePosition(articles, i))
  {
    JoinedPartInFrame(LegacyStyleIntro, articles, ArticleSeparator, LegacyStyleInstructions, i);
  }

  /** The legacy style prompt starts with its introduction and ends with
      its instructions. */
  lemma LegacyStylePromptFrame(articles: seq<string>)
    ensures StartsWith(LegacyStylePrompt(articles), LegacyStyleIntro)
    ensures EndsWith(LegacyStylePrompt(articles), LegacyStyleInstructions)
  {
    FramedStartsAndEnds(LegacyStyleIntro, articles, ArticleSeparator, LegacyStyleInstructions);
  }

  /** `create_editing_prompt`. */
  function LegacyEditingPrompt(draft: string, styleGuide: string): string
  {
    LegacyEditIntro + styleGuide + LegacyDraftLabel + draft + LegacyEditInstructions
  }

  /** The prompt starts with its introduction and ends with its
      instructions; the style guide stands verbatim right after the
      introduction, and the draft verbatim after the guide and the draft
      heading. */
  lemma LegacyEditingPromptPlacesInputs(draft: string, styleGuide: string)
    ensures StartsWith(LegacyEditingPrompt(draft, styleGuide), LegacyEditIntro)
    ensures EndsWith(LegacyEditingPrompt(draft, styleGuide), LegacyEditInstructions)
    ensures OccursAt(LegacyEditingPrompt(draft, styleGuide), styleGuide, |LegacyEditIntro|)
    ensures OccursAt(LegacyEditingPrompt(draft, styleGuide), LegacyDraftLabel, |LegacyEditIntro| + |styleGuide|)
    ensures OccursAt(LegacyEditingPrompt(draft, styleGuide), draft, |LegacyEditIntro| + |styleGuide| + |LegacyDraftLabel|)
  {
    FivePartsAt(LegacyEditIntro, styleGuide, LegacyDraftLabel, draft, LegacyEditInstructions);
  }

  const LegacyMissingDetail := "Missing reference articles or draft content"

  /** `POST /generate-edit`, with `request.get` of the two keys given as
      options (None when the key is absent). A missing or empty list or
      draft is rejected with 400 before any request. Then two calls, in
      order, the reply to the first becoming the style guide of the second,
      unchecked. A failing call ends the handler with its HTTPException. */
  function GenerateEdit(server: Server, articles: Option<seq<string>>, draft: Option<string>): (run: Run<map<string, string>>)
    ensures run.sent == [] <==> articles.GetOr([]) == [] || draft.GetOr("") == ""
    ensures run.sent == [] ==> run.result == Http(HttpError(400, LegacyMissingDetail))
    ensures |run.sent| <= 2
    ensures !run.result.Fault?
    ensures run.result.Returned? ==> |run.sent| == 2 && run.result.value.Keys == {"edited_article"}
  {
    var refs := articles.GetOr([]);
    var text := draft.GetOr("");
    if refs == [] || text == "" then Run(Http(HttpError(400, LegacyMissingDetail)), [])
    else
      var style := CallOllama(server, 0, LegacyStylePrompt(refs), DefaultModel);
      if !style.result.Returned? then Run(style.result.Propagate(), style.sent)
      else
        var edit := CallOllama(server, 1, LegacyEditingPrompt(text, style.result.value), DefaultModel);
        if edit.result.Returned? then Run(Returned(map["edited_article" := edit.result.value]), style.sent + edit.sent)
        else Run(edit.result.Propagate(), style.sent + edit.sent)
  }

  /** The legacy workflow's first step. With a non-empty list and draft,
      the first request carries the legacy analysis prompt, and a failure
      of it ends the run after that one request. */
  lemma LegacyWorkflowOrder(server: Server, articles: seq<string>, draft: string)
    requires articles != [] && draft != ""
    ensures var run := GenerateEdit(server, Some(articles), Some(draft));
            var first := LegacyRequest(LegacyStylePrompt(articles), DefaultModel);
            var style := ClassifyLegacyReply(server(0, first));
            && |run.sent| >= 1
            && run.sent[0] == first
            && (!style.Returned? ==> run == Run(style.Propagate(), [first]))
  {
    var style := CallOllama(server, 0, LegacyStylePrompt(articles), DefaultModel);
    if style.result.Returned? {
      var edit := CallOllama(server, 1, LegacyEditingPrompt(draft, style.result.value), DefaultModel);
      assert GenerateEdit(server, Some(articles), Some(draft)).sent == style.sent + edit.sent;
    }
  }

  /** The legacy workflow's second step. Once the first reply is returned,
      the second request carries the draft and that reply, as it came, as
      its style guide, and the run returns the second reply under
      `edited_article`, or its failure. */
  lemma LegacyWorkflowSecondStep(server: Server, articles: seq<string>, draft: string, guide: string)
    requires articles != [] && draft != ""
    requires ClassifyLegacyReply(server(0, LegacyRequest(LegacyStylePrompt(articles), DefaultModel))) == Returned(guide)
    ensures var run := GenerateEdit(server, Some(articles), Some(draft));
            var second := LegacyRequest(LegacyEditingPrompt(draft, guide), DefaultModel);
            var edit := ClassifyLegacyReply(server(1, second));
            && run.sent == [LegacyRequest(LegacyStylePrompt(articles), DefaultModel), second]
            && (edit.Returned? ==> run.result == Returned(map["edited_article" := edit.value]))
            && (!edit.Returned? ==> run.result == edit.Propagate())
  {
    var style := CallOllama(server, 0, LegacyStylePrompt(articles), DefaultModel);
    var edit := CallOllama(server, 1, LegacyEditingPrompt(draft, guide), DefaultModel);
    assert GenerateEdit(server, Some(articles), Some(draft)).sent == style.sent + edit.sent;
  }

  /** Where the legacy workflow differs from the engine's: a reply to the
      analysis request that is white space only (or has no `response`
      field) does not stop it. The second request is still sent, with that
      reply, unstripped, as its style guide. */
  lemma LegacyBlankStyleGuideStillEdits(server: Server, articles: seq<string>, draft: string,
                                        text: string, response: Option<string>)
    requires articles != [] && draft != ""
    requires server(0, LegacyRequest(LegacyStylePrompt(articles), DefaultModel)) == Reply(200, text, JsonObject(response))
    requires AllSpace(response.GetOr(""))
    ensures var run := GenerateEdit(server, Some(articles), Some(draft));
            |run.sent| == 2
            && run.sent[1] == LegacyRequest(LegacyEditingPrompt(draft, response.GetOr("")), DefaultModel)
  {
    var guide := response.GetOr("");
    assert ClassifyLegacyReply(Reply(200, text, JsonObject(response))) == Returned(guide);
    LegacyWorkflowSecondStep(server, articles, draft, guide);
  }

  const LegacyPdfFailPrefix := "Could not extract text from PDF: "
  const LegacyDocxFailPrefix := "Could not extract text from document: "
  const Utf8DecodeError := "'utf-8' codec can't decode"

  /** What the legacy `/extract-text` handler computes from the upload: the
      lower-cased name ending in ".pdf" selects the PDF routine, ending in
      ".docx" the DOCX routine, and anything else is decoded as UTF-8 with
      no fallback, the UnicodeDecodeError escaping the handler. */
  function LegacyExtractionResult(data: seq<byte>, filename: string, libs: Libraries): (r: Outcome<string>)
    ensures r.Http? ==> r.error.status == 400
    ensures r.Fault? <==> !EndsWith(Lower(filename), ".pdf") && !EndsWith(Lower(filename), ".docx")
                          && DecodeUtf8(data).None?
    ensures r.Fault? ==> r.message == Utf8DecodeError
  {
    var name := Lower(filename);
    if EndsWith(name, ".pdf") then
      var pdf := PdfText(libs.pdfPages(data), LegacyPdfFailPrefix);
      assert !pdf.Fault? && (pdf.Http? ==> pdf.error.status == 400);
      pdf
    else if EndsWith(name, ".docx") then
      var docx := DocxText(libs.docxParagraphs(data), libs.documentXml(data), LegacyDocxFailPrefix);
      assert !docx.Fault? && (docx.Http? ==> docx.error.status == 400);
      docx
    else
      match DecodeUtf8(data)
      case Some(text) => Returned(text)
      case None => Fault(Utf8DecodeError)
  }

  /** On a ".txt" name the two extraction steps, run on the bytes of the
      written temporary file, agree exactly when those bytes are UTF-8 text
      without a carriage return. On other UTF-8 text the current step
      normalises line ends; on anything else the legacy step fails with an
      unhandled decoding error while the current one falls back to Latin-1.
      The current size cap and the creation failure come earlier and are
      not compared here. */
  lemma TxtVersionsAgreeOnlyOnPlainUtf8(data: seq<byte>, filename: string, libs: Libraries)
    requires Extension(filename) == ".txt"
    ensures LegacyExtractionResult(data, filename, libs) == ExtractionResult(data, filename, libs)
            <==> DecodeUtf8(data).Some? && '\r' !in DecodeUtf8(data).value
    ensures DecodeUtf8(data).None? ==>
              LegacyExtractionResult(data, filename, libs).Fault? && ExtractionResult(data, filename, libs).Returned?
  {
    var p := Lower(filename);
    var root := SplitExt(p).0;
    assert p == root + ".txt";
    assert p[|p| - 1] == 't';
    assert !EndsWith(p, ".pdf") by { assert ".pdf"[3] == 'f'; }
    assert !EndsWith(p, ".docx") by { assert ".docx"[4] == 'x'; }
    if DecodeUtf8(data).Some? {
      TranslateNewlinesIdentity(DecodeUtf8(data).value);
    }
  }

  /** The legacy handler has no whitelist: a name without any extension is
      decoded as text, which the current code rejects outright. */
  lemma LegacyAcceptsNameWithoutExtension(s: string, libs: Libraries)
    ensures LegacyExtractionResult(EncodeUtf8(s), "notes", libs) == Returned(s)
    ensures !IsValidFile("notes")
  {
    NameWithoutExtensionRejected();
    NotesIsNotPdfOrDocx();
    DecodeEncodeUtf8(s);
  }

  lemma NotesIsNotPdfOrDocx()
    ensures !EndsWith(Lower("notes"), ".pdf") && !EndsWith(Lower("notes"), ".docx")
  {
    NoUpperCase("notes");
    assert "notes"[4] != ".pdf"[3];
    assert "notes"[0] != ".docx"[0];
  }

  /** The legacy handler goes by the ending of the whole name, so ".pdf" on
      its own is read as a PDF, while `splitext` sees a dot-file without an
      extension and the current code rejects it. */
  lemma BareExtensionIsReadAsPdf(data: seq<byte>, libs: Libraries)
    ensures LegacyExtractionResult(data, ".pdf", libs) == PdfText(libs.pdfPages(data), LegacyPdfFailPrefix)
    ensures !IsValidFile(".pdf")
  {
    NoUpperCase(".pdf");
    assert EndsWith(".pdf", ".pdf");
    LastIndexOfIs(".pdf", '.', 0);
  }

  /** The paragraph loop of `extract_text_from_docx`: every paragraph's
      text, in order. */
  method CollectParagraphTexts(paragraphs: seq<string>) returns (texts: seq<string>)
    ensures texts == paragraphs
  {
    texts := [];
    var i := 0;
    while i < |paragraphs|
      invariant 0 <= i <= |paragraphs|
      invariant texts == paragraphs[..i]
    {
      texts := texts + [paragraphs[i]];
      i := i + 1;
    }
    assert paragraphs[..|paragraphs|] == paragraphs;
  }

  /** `extract_text_from_docx`. */
  method LegacyExtractFromDocx(data: seq<byte>, libs: Libraries) returns (r: Outcome<string>)
    ensures r == DocxText(libs.docxParagraphs(data), libs.documentXml(data), LegacyDocxFailPrefix)
  {
    match libs.docxParagraphs(data) {
      case Produced(paragraphs) =>
        var texts := CollectParagraphTexts(paragraphs);
        r := Returned(Join(texts, "\n"));
      case Raised(_) =>
        match libs.documentXml(data) {
          case Produced(root) =>
            var parts := CollectElementTexts(root);
            r := Returned(Join(parts, " "));
          case Raised(reason) =>
            r := Http(HttpError(400, LegacyDocxFailPrefix + reason));
        }
    }
  }

  /** `extract_text_from_pdf`. */
  method LegacyExtractFromPdf(data: seq<byte>, libs: Libraries) returns (r: Outcome<string>)
    ensures r == PdfText(libs.pdfPages(data), LegacyPdfFailPrefix)
  {
    match libs.pdfPages(data) {
      case Raised(reason) =>
        r := Http(HttpError(400, LegacyPdfFailPrefix + reason));
      case Produced(pages) =>
        var texts := CollectPageTexts(pages);
        match texts {
          case Raised(reason) => r := Http(HttpError(400, LegacyPdfFailPrefix + reason));
          case Produced(parts) => r := Returned(Join(parts, "\n"));
        }
    }
  }

  /** The legacy `POST /extract-text`: the upload, of any name and any size,
      is written to a temporary file, extracted, and the file is unlinked in
      the `finally`, whatever the extraction gives. A name the temporary
      file cannot carry as its suffix makes the creation raise, outside any
      handler, before anything is written. */
  method LegacyExtractText(fs: FileSystem, filename: string, content: seq<byte>, tmpPath: string, libs: Libraries)
    returns (r: Outcome<map<string, string>>)
    requires tmpPath !in fs.files
    modifies fs
    ensures fs.files == old(fs.files)
    ensures !SuffixUsable(filename) ==> r == Fault(CreateError(tmpPath, filename))
    ensures SuffixUsable(filename) && LegacyExtractionResult(content, filename, libs).Returned? ==>
              r == Returned(map["text" := LegacyExtractionResult(content, filename, libs).value])
    ensures SuffixUsable(filename) && !LegacyExtractionResult(content, filename, libs).Returned? ==>
              r == LegacyExtractionResult(content, filename, libs).Propagate()
  {
    var err := fs.CreateTemp(tmpPath, filename);
    if err.Some? {
      return Fault(err.value);
    }
    fs.Write(tmpPath, content);
    var name := Lower(filename);
    var text: Outcome<string>;
    if EndsWith(name, ".pdf") {
      text := LegacyExtractFromPdf(fs.files[tmpPath], libs);
    } else if EndsWith(name, ".docx") {
      text := LegacyExtractFromDocx(fs.files[tmpPath], libs);
    } else {
      match DecodeUtf8(content) {
        case Some(decoded) => text := Returned(decoded);
        case None => text := Fault(Utf8DecodeError);
      }
    }
    assert text == LegacyExtractionResult(content, filename, libs);
    CreateWriteUnlinkRestores(old(fs.files), tmpPath, content);
    fs.Unlink(tmpPath);
    match text {
      case Returned(t) => r := Returned(map["text" := t]);
      case Http(e) => r := Http(e);
      case Fault(m) => r := Fault(m);
    }
  }
}
