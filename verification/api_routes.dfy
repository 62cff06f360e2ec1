/** The HTTP routes under `/api`: each checks its input, delegates to the
    file processor or the engine, and wraps the result in a response
    record. An HTTPException raised anywhere inside a handler's `try` passes
    through unchanged; any other exception becomes a 500 whose detail starts
    with the route's own prefix. */
module ApiRoutes {
  import opened Common
  import opened Strings
  import opened Documents
  import opened TempFiles
  import opened FileProcessor
  import opened Engine

  /** `APIResponse(...).dict()`; every data value the routes put in is a
      string. */
  datatype ApiResponse = ApiResponse(success: bool, data: map<string, string>, message: string)

  const NoDraftDetail := "No draft content provided"

  /** The data dictionary `{key: value}` of a delegated call's result. */
  function Field(key: string, result: Outcome<string>): (r: Outcome<map<string, string>>)
    ensures r.Returned? <==> result.Returned?
    ensures r.Returned? ==> r.value == map[key := result.value]
    ensures !r.Returned? ==> r == result.Propagate()
  {
    match result
    case Returned(v) => Returned(map[key := v])
    case Http(e) => Http(e)
    case Fault(m) => Fault(m)
  }

  /** A handler's `try` block around its delegated call: success gives a
      response with `success` set; an HTTPException is re-raised as it is;
      any other exception becomes a 500 whose detail is `failPrefix`
      followed by the exception's message. */
  function Respond(result: Outcome<map<string, string>>, message: string, failPrefix: string): (r: Outcome<ApiResponse>)
    ensures !r.Fault?
    ensures r.Returned? <==> result.Returned?
    ensures r.Returned? ==> r.value.success && r.value.data == result.value && r.value.message == message
    ensures result.Http? ==> r == Http(result.error)
    ensures result.Fault? ==> r.Http? && r.error.status == 500 && failPrefix <= r.error.detail
                              && EndsWith(r.error.detail, result.message)
  {
    match result
    case Returned(data) => Returned(ApiResponse(true, data, message))
    case Http(e) => Http(e)
    case Fault(m) => Http(HttpError(500, failPrefix + m))
  }

  /** The response `/extract-text` builds from the processor's result. */
  function ExtractTextResponse(extracted: Outcome<string>, filename: string): Outcome<ApiResponse>
  {
    match extracted
    case Returned(text) =>
      Respond(Returned(map["text" := text, "filename" := filename]), "Text extracted successfully", ExtractFailPrefix)
    case Http(e) => Respond(Http(e), "Text extracted successfully", ExtractFailPrefix)
    case Fault(m) => Respond(Fault(m), "Text extracted successfully", ExtractFailPrefix)
  }

  const ExtractFailPrefix := "Text extraction failed: "

  /** What `/extract-text` answers for an upload: its text with its name, a
      400 from the processor passed through, or, exactly when the name is
      valid but the temporary file cannot be created with it as suffix, the
      route's own 500 carrying the creation error. */
  lemma ExtractTextRouteOutcomes(upload: Upload, tmpPath: string, order: seq<string>, libs: Libraries)
    ensures var extracted := UploadOutcome(upload, tmpPath, order, libs);
            var r := ExtractTextResponse(extracted, upload.filename);
            && !r.Fault?
            && (r.Returned? ==>
                  r.value.success
                  && r.value.data == map["text" := extracted.value, "filename" := upload.filename])
            && (r.Http? && r.error.status == 500
                <==> IsValidFile(upload.filename) && !SuffixUsable(upload.filename))
            && (r.Http? && r.error.status == 500 ==>
                  r.error.detail == ExtractFailPrefix + CreateError(tmpPath, upload.filename))
            && (r.Http? && r.error.status != 500 ==> r.error.status == 400 && r == extracted.Propagate())
  {
    UploadFailures(upload, tmpPath, order, libs);
  }

  /** `POST /extract-text`: the processor's outcome wrapped in a response.
      The processor is the one the route calls, as written, so an oversized
      upload's temporary file stays behind here too. */
  method ExtractTextFromFile(fs: FileSystem, upload: Upload, tmpPath: string, order: seq<string>, libs: Libraries)
    returns (r: Outcome<ApiResponse>)
    requires tmpPath !in fs.files
    requires ListsSet(order, SupportedExtensions)
    modifies fs
    ensures r == ExtractTextResponse(UploadOutcome(upload, tmpPath, order, libs), upload.filename)
    ensures LeavesTempFile(upload) ==> fs.files == old(fs.files)[tmpPath := []]
    ensures !LeavesTempFile(upload) ==> fs.files == old(fs.files)
  {
    var extracted := ExtractTextFromUpload(fs, upload, tmpPath, order, libs);
    r := ExtractTextResponse(extracted, upload.filename);
  }

  /** `POST /analyze-style`: a missing or empty `reference_articles` list is
      rejected with 400 before the engine is called; otherwise the engine's
      analysis, as call 0. */
  function AnalyzeStyle(cfg: EngineConfig, server: Server, request: map<string, seq<string>>): (run: Run<ApiResponse>)
    ensures var articles := if "reference_articles" in request then request["reference_articles"] else [];
            var step := AnalyzeWritingStyle(cfg, server, 0, articles);
            && (run.sent == [] <==> articles == [])
            && (articles == [] ==> run.result == Http(HttpError(400, NoArticlesDetail)))
            && run.sent == step.sent
            && (run.result.Returned? ==>
                  step.result.Returned? && run.result.value.success
                  && run.result.value.data == map["style_guide" := step.result.value])
            && (run.result.Http? ==> step.result == Http(run.result.error))
            && !run.result.Fault?
  {
    var articles := if "reference_articles" in request then request["reference_articles"] else [];
    if articles == [] then Run(Http(HttpError(400, NoArticlesDetail)), [])
    else
      var step := AnalyzeWritingStyle(cfg, server, 0, articles);
      Run(Respond(Field("style_guide", step.result), "Style analysis completed", "Style analysis failed: "), step.sent)
  }

  /** `POST /edit-content`: a missing or empty `draft_content` or
      `style_guide` is rejected with 400 before the engine is called;
      otherwise the engine's edit, as call 0. */
  function EditContentRoute(cfg: EngineConfig, server: Server, request: map<string, string>): (run: Run<ApiResponse>)
    ensures var draft := if "draft_content" in request then request["draft_content"] else "";
            var guide := if "style_guide" in request then request["style_guide"] else "";
            var step := EditContent(cfg, server, 0, draft, guide);
            && (run.sent == [] <==> draft == "" || guide == "")
            && (run.sent == [] ==> run.result == Http(HttpError(400, MissingInputDetail)))
            && run.sent == step.sent
            && (run.result.Returned? ==>
                  step.result.Returned? && run.result.value.success
                  && run.result.value.data == map["edited_content" := step.result.value])
            && (run.result.Http? ==> step.result == Http(run.result.error))
            && !run.result.Fault?
  {
    var draft := if "draft_content" in request then request["draft_content"] else "";
    var guide := if "style_guide" in request then request["style_guide"] else "";
    if draft == "" || guide == "" then Run(Http(HttpError(400, MissingInputDetail)), [])
    else
      var step := EditContent(cfg, server, 0, draft, guide);
      Run(Respond(Field("edited_content", step.result), "Content editing completed", "Content editing failed: "), step.sent)
  }

  /** `POST /generate-edit`: an empty list of articles, then a draft that is
      blank after `strip()`, are rejected with 400 before the workflow runs;
      otherwise the complete workflow's result. */
  function GenerateCompleteEdit(cfg: EngineConfig, server: Server, articles: seq<string>, draft: string): (run: Run<ApiResponse>)
    ensures run.sent == [] <==> articles == [] || AllSpace(draft)
    ensures articles == [] ==> run.result == Http(HttpError(400, NoArticlesDetail))
    ensures articles != [] && AllSpace(draft) ==> run.result == Http(HttpError(400, NoDraftDetail))
    ensures var flow := ProcessCompleteWorkflow(cfg, server, articles, draft);
            && (run.sent != [] ==> run.sent == flow.sent)
            && (run.result.Returned? ==>
                  flow.result.Returned? && run.result.value.success
                  && run.result.value.data == map["edited_article" := flow.result.value])
            && (run.sent != [] && run.result.Http? ==> flow.result == Http(run.result.error))
    ensures !run.result.Fault?
  {
    StripEmptyIffAllSpace(draft);
    if articles == [] then Run(Http(HttpError(400, NoArticlesDetail)), [])
    else if Strip(draft) == "" then Run(Http(HttpError(400, NoDraftDetail)), [])
    else
      var flow := ProcessCompleteWorkflow(cfg, server, articles, draft);
      Run(Respond(Field("edited_article", flow.result), "Article editing completed successfully", "Article generation failed: "),
          flow.sent)
  }

  /** The route's draft check is stricter than the engine's: a draft of
      white space only is rejected by the route with no request, while the
      engine alone would send the analysis request and, given a usable
      style guide, the editing request too. */
  lemma GenerateEditGuardIsStricter(cfg: EngineConfig, server: Server, articles: seq<string>, draft: string)
    requires articles != [] && draft != "" && AllSpace(draft)
    ensures GenerateCompleteEdit(cfg, server, articles, draft) == Run(Http(HttpError(400, NoDraftDetail)), [])
    ensures |ProcessCompleteWorkflow(cfg, server, articles, draft).sent| >= 1
    ensures var style := ClassifyReply(server(0, Request(cfg, StylePrompt(articles))));
            style.Returned? && style.value != "" ==>
              ProcessCompleteWorkflow(cfg, server, articles, draft).sent[1] == Request(cfg, EditingPrompt(draft, style.value))
  {
    WorkflowOrder(cfg, server, articles, draft);
  }

  /** The dictionary `GET /api/health` returns. */
  datatype HealthResponse = HealthResponse(status: string, version: string, aiService: HealthReport, supportedFormats: seq<string>)

  /** `GET /api/health`: always "healthy" with version "2.0.0", the
      engine's own report, and the processor's extensions, each once, in
      the set's iteration order `order`. */
  function Health(cfg: EngineConfig, server: Server, ping: Ping, order: seq<string>): (run: Run<HealthResponse>)
    requires ListsSet(order, SupportedExtensions)
    ensures run.result.Returned?
    ensures run.result.value.status == "healthy" && run.result.value.version == "2.0.0"
    ensures (set f | f in run.result.value.supportedFormats) == SupportedExtensions
    ensures |run.result.value.supportedFormats| == |SupportedExtensions|
    ensures run.result.value.aiService == HealthCheck(cfg, server, ping).result.value
    ensures run.sent == HealthCheck(cfg, server, ping).sent
  {
    var ai := HealthCheck(cfg, server, ping);
    Run(Returned(HealthResponse("healthy", "2.0.0", ai.result.value, order)), ai.sent)
  }
}
