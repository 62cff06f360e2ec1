/** `AIEngine`: the two-step generation workflow. A style guide is produced
    from reference articles, then a draft is rewritten to follow it, each step
    one request to an Ollama server's `/api/generate` endpoint. The engine's
    configuration never changes after construction, so it is a value here,
    and every operation is a function of the configuration, its inputs and
    the server's replies. */
module Engine {
  import opened Common
  import opened Strings

  /** Where the server is and which model it runs. */
  datatype EngineConfig = EngineConfig(baseUrl: string, model: string)

  const DefaultConfig := EngineConfig("http://localhost:11434", "llama3:8b")

  function GenerateUrl(cfg: EngineConfig): string
  {
    cfg.baseUrl + "/api/generate"
  }

  /** The sampling options sent with every request; they are passed through
      untouched, so they are kept as an opaque record. */
  datatype SamplingOptions = SamplingOptions(temperature: real, topP: real, numPredict: nat)

  const GenerationParams := SamplingOptions(0.7, 0.9, 2000)

  /** The JSON body of one POST to the generate endpoint. */
  datatype GenerateRequest =
    GenerateRequest(url: string, model: string, prompt: string, stream: bool, options: SamplingOptions)

  function Request(cfg: EngineConfig, prompt: string): GenerateRequest
  {
    GenerateRequest(GenerateUrl(cfg), cfg.model, prompt, false, GenerationParams)
  }

  /** The body of an HTTP reply as `response.json()` sees it: not JSON (it
      raises, with this message), or a JSON object whose `response` field is
      absent or a string. */
  datatype JsonBody = NotJson(error: string) | JsonObject(response: Option<string>)

  /** What one `requests.post` ends with: a reply, or the exception it
      raises (a timeout, a connection failure, anything else). */
  datatype Transport =
    | Reply(status: nat, text: string, body: JsonBody)
    | Timeout
    | ConnError
    | OtherError(message: string)

  /** The model server, an oracle: the transport outcome of the request sent
      as call number `k` (counting from 0) of one run. */
  type Server = (nat, GenerateRequest) -> Transport

  /** The outcome of an operation together with the requests it sent, in
      the order it sent them. */
  datatype Run<T> = Run(result: Outcome<T>, sent: seq<GenerateRequest>)

  const TimeoutDetail := "AI request timed out"
  const ConnectDetail := "Could not connect to AI service. Make sure Ollama is running."
  const ProcessingPrefix := "AI processing error: "
  const NoArticlesDetail := "No reference articles provided"
  const MissingInputDetail := "Missing content or style guide"

  /** `f"{prefix}{status} - {text}"`: the detail of the exception raised for
      a reply whose status is not 200, naming the status and the reply body. */
  function StatusDetail(prefix: string, status: nat, text: string): string
  {
    prefix + Decimal(status) + " - " + text
  }

  /** The detail starts with its prefix, the status digits stand right
      after it, and the reply text closes it. */
  lemma StatusDetailParts(prefix: string, status: nat, text: string)
    ensures StartsWith(StatusDetail(prefix, status, text), prefix)
    ensures OccursAt(StatusDetail(prefix, status, text), Decimal(status), |prefix|)
    ensures EndsWith(StatusDetail(prefix, status, text), " - " + text)
  {
    var d := StatusDetail(prefix, status, text);
    assert d == prefix + (Decimal(status) + (" - " + text));
  }

  /** Two details are equal exactly when they name the same status and the
      same reply text: the digits end where the " - " begins. */
  lemma StatusDetailInjective(prefix: string, s1: nat, t1: string, s2: nat, t2: string)
    ensures StatusDetail(prefix, s1, t1) == StatusDetail(prefix, s2, t2) <==> s1 == s2 && t1 == t2
  {
    if StatusDetail(prefix, s1, t1) == StatusDetail(prefix, s2, t2) {
      var a, b := Decimal(s1), Decimal(s2);
      var d := StatusDetail(prefix, s1, t1);
      var n := |prefix|;
      assert d == prefix + (a + (" - " + t1));
      assert d == prefix + (b + (" - " + t2));
      DigitsThenOther(a, " - " + t1);
      DigitsThenOther(b, " - " + t2);
      assert d[n..] == a + (" - " + t1) == b + (" - " + t2);
      assert a == d[n..n + |a|] == b;
      DecimalInjective(s1, s2);
      assert t1 == d[n + |a| + 3..] == t2;
    }
  }

  /** `f"{outer}{e}"` where `e` is the HTTPException carrying such a detail:
      the handler's prefix opens it, and the status digits, " - " and the
      reply text still close it. */
  lemma WrappedStatusDetail(outer: string, code: nat, prefix: string, status: nat, text: string)
    ensures var w := outer + Render(HttpError(code, StatusDetail(prefix, status, text)));
            outer <= w
            && EndsWith(w, StatusDetail(prefix, status, text))
            && EndsWith(w, Decimal(status) + " - " + text)
            && (outer != [] ==> w != StatusDetail(prefix, status, text))
  {
    var tail := Decimal(status) + " - " + text;
    var e := StatusDetail(prefix, status, text);
    var w := outer + Render(HttpError(code, e));
    assert e == prefix + [] + tail;
    FramedBy(prefix, [], tail);
    var m := Decimal(code) + ": ";
    assert w == outer + m + e;
    FramedBy(outer, m, e);
    EndsWithTransitive(w, e, tail);
  }

  /** Two such wrapped details are equal exactly when they name the same
      status and the same reply text. */
  lemma WrappedStatusDetailInjective(outer: string, code: nat, prefix: string, s1: nat, t1: string, s2: nat, t2: string)
    ensures outer + Render(HttpError(code, StatusDetail(prefix, s1, t1)))
            == outer + Render(HttpError(code, StatusDetail(prefix, s2, t2)))
            <==> s1 == s2 && t1 == t2
  {
    var front := outer + (Decimal(code) + ": ");
    var e1, e2 := StatusDetail(prefix, s1, t1), StatusDetail(prefix, s2, t2);
    assert outer + Render(HttpError(code, e1)) == front + e1;
    assert outer + Render(HttpError(code, e2)) == front + e2;
    if front + e1 == front + e2 {
      assert e1 == (front + e1)[|front|..] == (front + e2)[|front|..] == e2;
    }
    StatusDetailInjective(prefix, s1, t1, s2, t2);
  }

  const ApiErrorPrefix := "A" + "I" + " " + "A" + "P" + "I" + " " + "e" + "r" + "r" + "o" + "r" + ":" + " "

  /** The detail of the exception `_generate_text` raises for a status other
      than 200 (before its own handler re-wraps it). */
  function ApiErrorDetail(status: nat, text: string): string
  {
    StatusDetail(ApiErrorPrefix, status, text)
  }

  /** How `_generate_text` ends for a given transport outcome. A 200 reply
      gives its `response` field (default "") stripped. The exception raised
      for any other status is raised inside the `try`, so the catch-all
      handler re-raises it as a processing error. A timeout and a
      connection failure have messages of their own. Every failure is an
      HTTPException with status 500. */
  function ClassifyReply(reply: Transport): (r: Outcome<string>)
    ensures !r.Fault?
    ensures r.Http? ==> r.error.status == 500
    ensures r.Returned? <==> reply.Reply? && reply.status == 200 && reply.body.JsonObject?
  {
    match reply
    case Reply(status, text, body) =>
      if status == 200 then
        match body
        case JsonObject(response) => Returned(Strip(response.GetOr("")))
        case NotJson(error) => Http(HttpError(500, ProcessingPrefix + error))
      else
        Http(HttpError(500, ProcessingPrefix + Render(HttpError(500, ApiErrorDetail(status, text)))))
    case Timeout => Http(HttpError(500, TimeoutDetail))
    case ConnError => Http(HttpError(500, ConnectDetail))
    case OtherError(message) => Http(HttpError(500, ProcessingPrefix + message))
  }

  /** The reply text is kept exactly when it has no white space at either
      end, and it becomes "" exactly when it is all white space. */
  lemma OkReplyIsStripped(text: string, response: Option<string>)
    ensures ClassifyReply(Reply(200, text, JsonObject(response))).Returned?
    ensures var raw := response.GetOr("");
            ClassifyReply(Reply(200, text, JsonObject(response))).value == raw
            <==> raw == [] || (!IsSpace(raw[0]) && !IsSpace(raw[|raw| - 1]))
    ensures ClassifyReply(Reply(200, text, JsonObject(response))).value == ""
            <==> AllSpace(response.GetOr(""))
  {
    StripUnchangedIff(response.GetOr(""));
    StripEmptyIffAllSpace(response.GetOr(""));
  }

  /** A status other than 200 never reaches the caller as "AI API error"
      alone: the caller sees a processing error that carries the rendered
      original exception at its end, and that ends with the status digits,
      " - " and the reply body text. */
  lemma NonOkReplyIsRewrapped(status: nat, text: string, body: JsonBody)
    requires status != 200
    ensures ClassifyReply(Reply(status, text, body)).Http?
    ensures var d := ClassifyReply(Reply(status, text, body)).error.detail;
            ProcessingPrefix <= d
            && EndsWith(d, ApiErrorDetail(status, text))
            && EndsWith(d, Decimal(status) + " - " + text)
            && d != ApiErrorDetail(status, text)
  {
    WrappedStatusDetail(ProcessingPrefix, 500, ApiErrorPrefix, status, text);
  }

  /** Two replies with statuses other than 200 reach the caller as the same
      error exactly when they have the same status and the same body text. */
  lemma NonOkRepliesDistinguished(s1: nat, t1: string, b1: JsonBody, s2: nat, t2: string, b2: JsonBody)
    requires s1 != 200 && s2 != 200
    ensures ClassifyReply(Reply(s1, t1, b1)) == ClassifyReply(Reply(s2, t2, b2)) <==> s1 == s2 && t1 == t2
  {
    WrappedStatusDetailInjective(ProcessingPrefix, 500, ApiErrorPrefix, s1, t1, s2, t2);
  }

  /** The kind of failure a transport outcome stands for. */
  datatype FailureKind = TimedOut | Unreachable | Processing

  function KindOf(reply: Transport): FailureKind
  {
    match reply
    case Timeout => TimedOut
    case ConnError => Unreachable
    case _ => Processing
  }

  /** A caller can tell the three kinds of failure apart by the detail
      alone: failures of different kinds never share a detail. */
  lemma FailureKindsAreDistinguishable(a: Transport, b: Transport)
    requires ClassifyReply(a).Http? && ClassifyReply(b).Http?
    requires KindOf(a) != KindOf(b)
    ensures ClassifyReply(a).error.detail != ClassifyReply(b).error.detail
  {
    var da := ClassifyReply(a).error.detail;
    var db := ClassifyReply(b).error.detail;
    assert KindOf(a) == Processing ==> ProcessingPrefix <= da;
    assert KindOf(b) == Processing ==> ProcessingPrefix <= db;
    assert |TimeoutDetail| == 20 && |ConnectDetail| == 61 && |ProcessingPrefix| == 21;
    assert ConnectDetail[19] == 'o' && ProcessingPrefix[19] == ':';
  }

  /** `_generate_text(prompt)` as call number `k`: one request, classified. */
  function GenerateText(cfg: EngineConfig, server: Server, k: nat, prompt: string): (run: Run<string>)
    ensures run.sent == [GenerateRequest(GenerateUrl(cfg), cfg.model, prompt, false, GenerationParams)]
    ensures run.result == ClassifyReply(server(k, run.sent[0]))
    ensures !run.result.Fault? && (run.result.Http? ==> run.result.error.status == 500)
  {
    var request := Request(cfg, prompt);
    Run(ClassifyReply(server(k, request)), [request])
  }

  /* The fixed texts of the two prompts, character for character and line
     by line: each line of code spells one line of the prompt (long lines
     wrapped) as a concatenation of its characters. */

  /** The analysis prompt's introduction, ending in the heading
      "REFERENCE ARTICLES:". */
  const StyleIntro :=
    "\n"
    + "Y" + "o" + "u" + " " + "a" + "r" + "e" + " " + "a" + "n" + " " + "e" + "x" + "p" + "e" + "r" + "t" + " "
      + "w" + "r" + "i" + "t" + "i" + "n" + "g" + " " + "s" + "t" + "y" + "l" + "e" + " " + "a" + "n" + "a" + "l" + "y" + "s" + "t" + "." + " "
      + "A" + "n" + "a" + "l" + "y" + "z" + "e" + " " + "t" + "h" + "e" + " " + "f" + "o" + "l" + "l" + "o" + "w" + "i" + "n" + "g" + " "
      + "a" + "r" + "t" + "i" + "c" + "l" + "e" + "s" + " " + "a" + "n" + "d" + " " + "c" + "r" + "e" + "a" + "t" + "e" + " "
      + "a" + " " + "c" + "o" + "m" + "p" + "r" + "e" + "h" + "e" + "n" + "s" + "i" + "v" + "e" + " "
      + "s" + "t" + "y" + "l" + "e" + " " + "g" + "u" + "i" + "d" + "e" + "." + "\n"
    + "\n"
    + "R" + "E" + "F" + "E" + "R" + "E" + "N" + "C" + "E" + " " + "A" + "R" + "T" + "I" + "C" + "L" + "E" + "S" + ":" + "\n"

  /** The analysis prompt's closing request: five numbered aspects to
      cover (tone and voice, structure, language, content approach,
      distinctive elements), then a concise style guide. */
  const StyleInstructions :=
    "\n"
    + "\n"
    + "P" + "l" + "e" + "a" + "s" + "e" + " " + "p" + "r" + "o" + "v" + "i" + "d" + "e" + " " + "a" + " "
      + "d" + "e" + "t" + "a" + "i" + "l" + "e" + "d" + " " + "a" + "n" + "a" + "l" + "y" + "s" + "i" + "s" + " "
      + "c" + "o" + "v" + "e" + "r" + "i" + "n" + "g" + ":" + "\n"
    + "\n"
    + "1" + "." + " " + "T" + "O" + "N" + "E" + " " + "&" + " " + "V" + "O" + "I" + "C" + "E" + " "
      + "C" + "H" + "A" + "R" + "A" + "C" + "T" + "E" + "R" + "I" + "S" + "T" + "I" + "C" + "S" + ":" + "\n"
    + " " + " " + " " + "-" + " " + "O" + "v" + "e" + "r" + "a" + "l" + "l" + " " + "t" + "o" + "n" + "e" + " "
      + "(" + "p" + "r" + "o" + "f" + "e" + "s" + "s" + "i" + "o" + "n" + "a" + "l" + "," + " "
      + "c" + "a" + "s" + "u" + "a" + "l" + "," + " " + "a" + "u" + "t" + "h" + "o" + "r" + "i" + "t" + "a" + "t" + "i" + "v" + "e" + "," + " "
      + "e" + "t" + "c" + "." + ")" + "\n"
    + " " + " " + " " + "-" + " " + "V" + "o" + "i" + "c" + "e" + " " + "p" + "e" + "r" + "s" + "o" + "n" + "a" + "l" + "i" + "t" + "y" + " "
      + "t" + "r" + "a" + "i" + "t" + "s" + "\n"
    + " " + " " + " " + "-" + " " + "E" + "m" + "o" + "t" + "i" + "o" + "n" + "a" + "l" + " " + "u" + "n" + "d" + "e" + "r" + "t" + "o" + "n" + "e" + "s" + "\n"
    + "\n"
    + "2" + "." + " " + "S" + "T" + "R" + "U" + "C" + "T" + "U" + "R" + "A" + "L" + " " + "P" + "A" + "T" + "T" + "E" + "R" + "N" + "S" + ":" + "\n"
    + " " + " " + " " + "-" + " " + "T" + "y" + "p" + "i" + "c" + "a" + "l" + " " + "o" + "p" + "e" + "n" + "i" + "n" + "g" + " "
      + "s" + "t" + "r" + "a" + "t" + "e" + "g" + "i" + "e" + "s" + "\n"
    + " " + " " + " " + "-" + " " + "P" + "a" + "r" + "a" + "g" + "r" + "a" + "p" + "h" + " " + "o" + "r" + "g" + "a" + "n" + "i" + "z" + "a" + "t" + "i" + "o" + "n" + " "
      + "a" + "n" + "d" + " " + "f" + "l" + "o" + "w" + "\n"
    + " " + " " + " " + "-" + " " + "C" + "o" + "n" + "c" + "l" + "u" + "s" + "i" + "o" + "n" + " "
      + "s" + "t" + "y" + "l" + "e" + "s" + "\n"
    + " " + " " + " " + "-" + " " + "U" + "s" + "e" + " " + "o" + "f" + " " + "h" + "e" + "a" + "d" + "i" + "n" + "g" + "s" + " "
      + "a" + "n" + "d" + " " + "s" + "u" + "b" + "h" + "e" + "a" + "d" + "i" + "n" + "g" + "s" + "\n"
    + "\n"
    + "3" + "." + " " + "L" + "A" + "N" + "G" + "U" + "A" + "G" + "E" + " " + "P" + "R" + "E" + "F" + "E" + "R" + "E" + "N" + "C" + "E" + "S" + ":" + "\n"
    + " " + " " + " " + "-" + " " + "V" + "o" + "c" + "a" + "b" + "u" + "l" + "a" + "r" + "y" + " "
      + "s" + "o" + "p" + "h" + "i" + "s" + "t" + "i" + "c" + "a" + "t" + "i" + "o" + "n" + " "
      + "l" + "e" + "v" + "e" + "l" + "\n"
    + " " + " " + " " + "-" + " " + "I" + "n" + "d" + "u" + "s" + "t" + "r" + "y" + " " + "j" + "a" + "r" + "g" + "o" + "n" + " "
      + "v" + "s" + "." + " " + "a" + "c" + "c" + "e" + "s" + "s" + "i" + "b" + "l" + "e" + " "
      + "l" + "a" + "n" + "g" + "u" + "a" + "g" + "e" + "\n"
    + " " + " " + " " + "-" + " " + "S" + "e" + "n" + "t" + "e" + "n" + "c" + "e" + " " + "l" + "e" + "n" + "g" + "t" + "h" + " "
      + "a" + "n" + "d" + " " + "c" + "o" + "m" + "p" + "l" + "e" + "x" + "i" + "t" + "y" + "\n"
    + " " + " " + " " + "-" + " " + "A" + "c" + "t" + "i" + "v" + "e" + " " + "v" + "s" + "." + " "
      + "p" + "a" + "s" + "s" + "i" + "v" + "e" + " " + "v" + "o" + "i" + "c" + "e" + " " + "u" + "s" + "a" + "g" + "e" + "\n"
    + "\n"
    + "4" + "." + " " + "C" + "O" + "N" + "T" + "E" + "N" + "T" + " " + "A" + "P" + "P" + "R" + "O" + "A" + "C" + "H" + ":" + "\n"
    + " " + " " + " " + "-" + " " + "H" + "o" + "w" + " " + "e" + "x" + "a" + "m" + "p" + "l" + "e" + "s" + " "
      + "a" + "n" + "d" + " " + "e" + "v" + "i" + "d" + "e" + "n" + "c" + "e" + " " + "a" + "r" + "e" + " "
      + "p" + "r" + "e" + "s" + "e" + "n" + "t" + "e" + "d" + "\n"
    + " " + " " + " " + "-" + " " + "U" + "s" + "e" + " " + "o" + "f" + " " + "s" + "t" + "a" + "t" + "i" + "s" + "t" + "i" + "c" + "s" + "," + " "
      + "q" + "u" + "o" + "t" + "e" + "s" + "," + " " + "o" + "r" + " " + "c" + "a" + "s" + "e" + " "
      + "s" + "t" + "u" + "d" + "i" + "e" + "s" + "\n"
    + " " + " " + " " + "-" + " " + "S" + "t" + "o" + "r" + "y" + "t" + "e" + "l" + "l" + "i" + "n" + "g" + " "
      + "e" + "l" + "e" + "m" + "e" + "n" + "t" + "s" + "\n"
    + " " + " " + " " + "-" + " " + "C" + "a" + "l" + "l" + "-" + "t" + "o" + "-" + "a" + "c" + "t" + "i" + "o" + "n" + " "
      + "s" + "t" + "y" + "l" + "e" + "s" + "\n"
    + "\n"
    + "5" + "." + " " + "D" + "I" + "S" + "T" + "I" + "N" + "C" + "T" + "I" + "V" + "E" + " " + "E" + "L" + "E" + "M" + "E" + "N" + "T" + "S" + ":" + "\n"
    + " " + " " + " " + "-" + " " + "U" + "n" + "i" + "q" + "u" + "e" + " " + "p" + "h" + "r" + "a" + "s" + "e" + "s" + " "
      + "o" + "r" + " " + "e" + "x" + "p" + "r" + "e" + "s" + "s" + "i" + "o" + "n" + "s" + "\n"
    + " " + " " + " " + "-" + " " + "F" + "o" + "r" + "m" + "a" + "t" + "t" + "i" + "n" + "g" + " "
      + "p" + "r" + "e" + "f" + "e" + "r" + "e" + "n" + "c" + "e" + "s" + "\n"
    + " " + " " + " " + "-" + " " + "B" + "r" + "a" + "n" + "d" + " " + "v" + "o" + "i" + "c" + "e" + " "
      + "i" + "n" + "d" + "i" + "c" + "a" + "t" + "o" + "r" + "s" + "\n"
    + "\n"
    + "C" + "r" + "e" + "a" + "t" + "e" + " " + "a" + " " + "c" + "o" + "n" + "c" + "i" + "s" + "e" + " "
      + "b" + "u" + "t" + " " + "c" + "o" + "m" + "p" + "r" + "e" + "h" + "e" + "n" + "s" + "i" + "v" + "e" + " "
      + "s" + "t" + "y" + "l" + "e" + " " + "g" + "u" + "i" + "d" + "e" + " " + "t" + "h" + "a" + "t" + " "
      + "c" + "a" + "n" + " " + "b" + "e" + " " + "u" + "s" + "e" + "d" + " " + "t" + "o" + " "
      + "e" + "d" + "i" + "t" + " " + "f" + "u" + "t" + "u" + "r" + "e" + " " + "c" + "o" + "n" + "t" + "e" + "n" + "t" + " "
      + "t" + "o" + " " + "m" + "a" + "t" + "c" + "h" + " " + "t" + "h" + "i" + "s" + " " + "w" + "r" + "i" + "t" + "i" + "n" + "g" + " "
      + "s" + "t" + "y" + "l" + "e" + "." + "\n"

  /** The editing prompt's introduction, ending in the heading
      "STYLE GUIDE TO FOLLOW:". */
  const EditIntro :=
    "\n"
    + "Y" + "o" + "u" + " " + "a" + "r" + "e" + " " + "a" + "n" + " " + "e" + "x" + "p" + "e" + "r" + "t" + " "
      + "c" + "o" + "n" + "t" + "e" + "n" + "t" + " " + "e" + "d" + "i" + "t" + "o" + "r" + "." + " "
      + "Y" + "o" + "u" + "r" + " " + "t" + "a" + "s" + "k" + " " + "i" + "s" + " " + "t" + "o" + " "
      + "e" + "d" + "i" + "t" + " " + "t" + "h" + "e" + " " + "f" + "o" + "l" + "l" + "o" + "w" + "i" + "n" + "g" + " "
      + "d" + "r" + "a" + "f" + "t" + " " + "t" + "o" + " " + "m" + "a" + "t" + "c" + "h" + " "
      + "t" + "h" + "e" + " " + "p" + "r" + "o" + "v" + "i" + "d" + "e" + "d" + " " + "s" + "t" + "y" + "l" + "e" + " "
      + "g" + "u" + "i" + "d" + "e" + " " + "e" + "x" + "a" + "c" + "t" + "l" + "y" + "." + "\n"
    + "\n"
    + "S" + "T" + "Y" + "L" + "E" + " " + "G" + "U" + "I" + "D" + "E" + " " + "T" + "O" + " " + "F" + "O" + "L" + "L" + "O" + "W" + ":" + "\n"

  const DraftLabel := "\n\nDRAFT TO EDIT:\n"

  /** The editing prompt's closing: seven numbered editing instructions,
      then the request for the edited article alone. */
  const EditInstructions :=
    "\n"
    + "\n"
    + "E" + "D" + "I" + "T" + "I" + "N" + "G" + " " + "I" + "N" + "S" + "T" + "R" + "U" + "C" + "T" + "I" + "O" + "N" + "S" + ":" + "\n"
    + "1" + "." + " " + "M" + "a" + "i" + "n" + "t" + "a" + "i" + "n" + " " + "t" + "h" + "e" + " "
      + "c" + "o" + "r" + "e" + " " + "m" + "e" + "s" + "s" + "a" + "g" + "e" + " " + "a" + "n" + "d" + " "
      + "k" + "e" + "y" + " " + "i" + "n" + "f" + "o" + "r" + "m" + "a" + "t" + "i" + "o" + "n" + " "
      + "f" + "r" + "o" + "m" + " " + "t" + "h" + "e" + " " + "o" + "r" + "i" + "g" + "i" + "n" + "a" + "l" + " "
      + "d" + "r" + "a" + "f" + "t" + "\n"
    + "2" + "." + " " + "A" + "d" + "j" + "u" + "s" + "t" + " " + "t" + "o" + "n" + "e" + "," + " "
      + "v" + "o" + "i" + "c" + "e" + "," + " " + "a" + "n" + "d" + " " + "s" + "t" + "y" + "l" + "e" + " "
      + "t" + "o" + " " + "m" + "a" + "t" + "c" + "h" + " " + "t" + "h" + "e" + " " + "s" + "t" + "y" + "l" + "e" + " "
      + "g" + "u" + "i" + "d" + "e" + "\n"
    + "3" + "." + " " + "I" + "m" + "p" + "r" + "o" + "v" + "e" + " " + "s" + "e" + "n" + "t" + "e" + "n" + "c" + "e" + " "
      + "s" + "t" + "r" + "u" + "c" + "t" + "u" + "r" + "e" + " " + "a" + "n" + "d" + " " + "f" + "l" + "o" + "w" + " "
      + "a" + "c" + "c" + "o" + "r" + "d" + "i" + "n" + "g" + " " + "t" + "o" + " " + "t" + "h" + "e" + " "
      + "p" + "a" + "t" + "t" + "e" + "r" + "n" + "s" + " " + "i" + "d" + "e" + "n" + "t" + "i" + "f" + "i" + "e" + "d" + "\n"
    + "4" + "." + " " + "E" + "n" + "h" + "a" + "n" + "c" + "e" + " " + "v" + "o" + "c" + "a" + "b" + "u" + "l" + "a" + "r" + "y" + " "
      + "a" + "n" + "d" + " " + "w" + "o" + "r" + "d" + " " + "c" + "h" + "o" + "i" + "c" + "e" + " "
      + "t" + "o" + " " + "a" + "l" + "i" + "g" + "n" + " " + "w" + "i" + "t" + "h" + " " + "t" + "h" + "e" + " "
      + "r" + "e" + "f" + "e" + "r" + "e" + "n" + "c" + "e" + " " + "s" + "t" + "y" + "l" + "e" + "\n"
    + "5" + "." + " " + "R" + "e" + "o" + "r" + "g" + "a" + "n" + "i" + "z" + "e" + " " + "c" + "o" + "n" + "t" + "e" + "n" + "t" + " "
      + "s" + "t" + "r" + "u" + "c" + "t" + "u" + "r" + "e" + " " + "i" + "f" + " " + "n" + "e" + "e" + "d" + "e" + "d" + " "
      + "t" + "o" + " " + "m" + "a" + "t" + "c" + "h" + " " + "t" + "h" + "e" + " " + "t" + "y" + "p" + "i" + "c" + "a" + "l" + " "
      + "p" + "a" + "t" + "t" + "e" + "r" + "n" + "s" + "\n"
    + "6" + "." + " " + "A" + "d" + "d" + " " + "o" + "r" + " " + "m" + "o" + "d" + "i" + "f" + "y" + " "
      + "e" + "x" + "a" + "m" + "p" + "l" + "e" + "s" + " " + "t" + "o" + " " + "f" + "i" + "t" + " "
      + "t" + "h" + "e" + " " + "c" + "o" + "n" + "t" + "e" + "n" + "t" + " " + "a" + "p" + "p" + "r" + "o" + "a" + "c" + "h" + " "
      + "d" + "e" + "s" + "c" + "r" + "i" + "b" + "e" + "d" + " " + "i" + "n" + " " + "t" + "h" + "e" + " "
      + "s" + "t" + "y" + "l" + "e" + " " + "g" + "u" + "i" + "d" + "e" + "\n"
    + "7" + "." + " " + "E" + "n" + "s" + "u" + "r" + "e" + " " + "t" + "h" + "e" + " " + "f" + "i" + "n" + "a" + "l" + " "
      + "p" + "i" + "e" + "c" + "e" + " " + "f" + "e" + "e" + "l" + "s" + " " + "a" + "u" + "t" + "h" + "e" + "n" + "t" + "i" + "c" + " "
      + "t" + "o" + " " + "t" + "h" + "e" + " " + "o" + "r" + "i" + "g" + "i" + "n" + "a" + "l" + " "
      + "b" + "r" + "a" + "n" + "d" + " " + "v" + "o" + "i" + "c" + "e" + "\n"
    + "\n"
    + "P" + "l" + "e" + "a" + "s" + "e" + " " + "p" + "r" + "o" + "v" + "i" + "d" + "e" + " " + "o" + "n" + "l" + "y" + " "
      + "t" + "h" + "e" + " " + "e" + "d" + "i" + "t" + "e" + "d" + " " + "v" + "e" + "r" + "s" + "i" + "o" + "n" + " "
      + "o" + "f" + " " + "t" + "h" + "e" + " " + "a" + "r" + "t" + "i" + "c" + "l" + "e" + "." + " "
      + "D" + "o" + " " + "n" + "o" + "t" + " " + "i" + "n" + "c" + "l" + "u" + "d" + "e" + " "
      + "e" + "x" + "p" + "l" + "a" + "n" + "a" + "t" + "i" + "o" + "n" + "s" + " " + "o" + "r" + " "
      + "c" + "o" + "m" + "m" + "e" + "n" + "t" + "a" + "r" + "y" + " " + "a" + "b" + "o" + "u" + "t" + " "
      + "t" + "h" + "e" + " " + "c" + "h" + "a" + "n" + "g" + "e" + "s" + " " + "m" + "a" + "d" + "e" + "." + "\n"

  const ArticleSeparator := "\n\n---ARTICLE SEPARATOR---\n\n"

  /** `_create_style_analysis_prompt`: the reference articles, joined by the
      separator, between a fixed introduction and fixed instructions. */
  function StylePrompt(articles: seq<string>): string
  {
    Framed(StyleIntro, articles, ArticleSeparator, StyleInstructions)
  }

  /** Where article `i` starts in the style prompt. */
  function ArticlePosition(articles: seq<string>, i: nat): nat
    requires i <= |articles|
  {
    PartPosition(StyleIntro, articles, ArticleSeparator, i)
  }

  /** Where article `i` ends in the style prompt. */
  function ArticleEnd(articles: seq<string>, i: nat): nat
    requires i < |articles|
  {
    PartEnd(StyleIntro, articles, ArticleSeparator, i)
  }

  /** The style prompt starts with the introduction and ends with the
      instructions, whatever the articles. */
  lemma StylePromptFrame(articles: seq<string>)
    ensures StartsWith(StylePrompt(articles), StyleIntro)
    ensures EndsWith(StylePrompt(articles), StyleInstructions)
  {
    FramedStartsAndEnds(StyleIntro, articles, ArticleSeparator, StyleInstructions);
  }

  /** Every article stands verbatim in the style prompt at its position. */
  lemma StylePromptPlacesArticles(articles: seq<string>, i: nat)
    requires i < |articles|
    ensures OccursAt(StylePrompt(articles), articles[i], ArticlePosition(articles, i))
  {
    JoinedPartInFrame(StyleIntro, articles, ArticleSeparator, StyleInstructions, i);
  }

  /** Neighbouring articles keep their order and have exactly the separator
      between them. */
  lemma StylePromptSeparatesArticles(articles: seq<string>, i: nat)
    requires i + 1 < |articles|
    ensures ArticleEnd(articles, i) + |ArticleSeparator| == ArticlePosition(articles, i + 1)
    ensures OccursAt(StylePrompt(articles), ArticleSeparator, ArticleEnd(articles, i))
  {
    JoinedSeparatorInFrame(StyleIntro, articles, ArticleSeparator, StyleInstructions, i);
  }

  /** `_create_editing_prompt`: the style guide, then the draft, each under
      its heading, between a fixed introduction and fixed instructions. */
  function EditingPrompt(draft: string, styleGuide: string): string
  {
    EditIntro + styleGuide + DraftLabel + draft + EditInstructions
  }

  /** Where the draft starts in the editing prompt. */
  function DraftPosition(styleGuide: string): nat
  {
    |EditIntro| + |styleGuide| + |DraftLabel|
  }

  /** The prompt starts with the introduction; the style guide stands
      verbatim right after it, and the draft heading right after the guide. */
  lemma EditingPromptPlacesStyleGuide(draft: string, styleGuide: string)
    ensures StartsWith(EditingPrompt(draft, styleGuide), EditIntro)
    ensures OccursAt(EditingPrompt(draft, styleGuide), styleGuide, |EditIntro|)
    ensures OccursAt(EditingPrompt(draft, styleGuide), DraftLabel, |EditIntro| + |styleGuide|)
  {
    FivePartsAt(EditIntro, styleGuide, DraftLabel, draft, EditInstructions);
  }

  /** The draft stands verbatim after the style guide and its heading, and
      the prompt ends with the instructions. */
  lemma EditingPromptPlacesDraft(draft: string, styleGuide: string)
    ensures OccursAt(EditingPrompt(draft, styleGuide), draft, DraftPosition(styleGuide))
    ensures EndsWith(EditingPrompt(draft, styleGuide), EditInstructions)
  {
    FivePartsAt(EditIntro, styleGuide, DraftLabel, draft, EditInstructions);
  }

  /** `analyze_writing_style` as call number `k`: an empty list is rejected
      with 400 before any request; otherwise exactly one request, carrying
      the style prompt, whose classified reply is the result. */
  function AnalyzeWritingStyle(cfg: EngineConfig, server: Server, k: nat, articles: seq<string>): (run: Run<string>)
    ensures run.sent == [] <==> articles == []
    ensures articles == [] ==> run.result == Http(HttpError(400, NoArticlesDetail))
    ensures articles != [] ==> run.sent == [Request(cfg, StylePrompt(articles))]
                               && run.result == ClassifyReply(server(k, run.sent[0]))
    ensures !run.result.Fault?
  {
    if articles == [] then Run(Http(HttpError(400, NoArticlesDetail)), [])
    else GenerateText(cfg, server, k, StylePrompt(articles))
  }

  /** `edit_content` as call number `k`: an empty draft or an empty style
      guide is rejected with 400 before any request (white space alone
      passes); otherwise exactly one request, carrying the editing prompt. */
  function EditContent(cfg: EngineConfig, server: Server, k: nat, draft: string, styleGuide: string): (run: Run<string>)
    ensures run.sent == [] <==> draft == "" || styleGuide == ""
    ensures run.sent == [] ==> run.result == Http(HttpError(400, MissingInputDetail))
    ensures run.sent != [] ==> run.sent == [Request(cfg, EditingPrompt(draft, styleGuide))]
                               && run.result == ClassifyReply(server(k, run.sent[0]))
    ensures !run.result.Fault?
  {
    if draft == "" || styleGuide == "" then Run(Http(HttpError(400, MissingInputDetail)), [])
    else GenerateText(cfg, server, k, EditingPrompt(draft, styleGuide))
  }

  /** `process_complete_workflow`: style analysis as call 0, then editing
      with the analysis result as the style guide. A failure of the first
      step is the result and the second step does not run. */
  function ProcessCompleteWorkflow(cfg: EngineConfig, server: Server, articles: seq<string>, draft: string): (run: Run<string>)
    ensures |run.sent| <= 2
    ensures run.sent == [] <==> articles == []
    ensures !run.result.Fault?
  {
    var first := AnalyzeWritingStyle(cfg, server, 0, articles);
    if !first.result.Returned? then Run(first.result, first.sent)
    else
      var second := EditContent(cfg, server, |first.sent|, draft, first.result.value);
      Run(second.result, first.sent + second.sent)
  }

  /** The order of the workflow: the style prompt is always the first
      request; the editing request, when there is one, is the second and
      carries the reply to the first as its style guide; the result is then
      the reply to the second. A success takes exactly those two requests. */
  lemma {:induction false} WorkflowOrder(cfg: EngineConfig, server: Server, articles: seq<string>, draft: string)
    ensures var run := ProcessCompleteWorkflow(cfg, server, articles, draft);
            articles == [] ==> run == Run(Http(HttpError(400, NoArticlesDetail)), [])
    ensures var run := ProcessCompleteWorkflow(cfg, server, articles, draft);
            articles != [] ==>
              var style := ClassifyReply(server(0, Request(cfg, StylePrompt(articles))));
              && |run.sent| >= 1
              && run.sent[0] == Request(cfg, StylePrompt(articles))
              && (!style.Returned? ==> run == Run(style, run.sent[..1]))
              && (style.Returned? && draft != "" && style.value != "" ==>
                    |run.sent| == 2
                    && run.sent[1] == Request(cfg, EditingPrompt(draft, style.value))
                    && run.result == ClassifyReply(server(1, run.sent[1])))
              && (style.Returned? && (draft == "" || style.value == "") ==>
                    run == Run(Http(HttpError(400, MissingInputDetail)), run.sent[..1]))
    ensures ProcessCompleteWorkflow(cfg, server, articles, draft).result.Returned? ==>
              |ProcessCompleteWorkflow(cfg, server, articles, draft).sent| == 2
  {
    var first := AnalyzeWritingStyle(cfg, server, 0, articles);
    var run := ProcessCompleteWorkflow(cfg, server, articles, draft);
    if articles != [] {
      assert |first.sent| == 1;
      if first.result.Returned? {
        var second := EditContent(cfg, server, 1, draft, first.result.value);
        assert run.sent == first.sent + second.sent;
        assert run.sent[..1] == first.sent;
      } else {
        assert run.sent == first.sent == run.sent[..1];
      }
    }
  }

  /** A reply to the analysis request that is white space only (or has no
      `response` field) strips to "", so the editing step rejects it with
      400 and the second request is never sent. */
  lemma BlankStyleGuideStopsWorkflow(cfg: EngineConfig, server: Server, articles: seq<string>, draft: string,
                                     text: string, response: Option<string>)
    requires articles != []
    requires server(0, Request(cfg, StylePrompt(articles))) == Reply(200, text, JsonObject(response))
    requires AllSpace(response.GetOr(""))
    ensures ProcessCompleteWorkflow(cfg, server, articles, draft)
            == Run(Http(HttpError(400, MissingInputDetail)), [Request(cfg, StylePrompt(articles))])
  {
    OkReplyIsStripped(text, response);
  }

  const HelloPrompt := "Say hello in one sentence."
  const ConnectFailedDetails := "Failed to connect to AI service"

  /** The reply shown by the health check: at most 100 characters of it,
      followed by "..." when it was longer. */
  function TestOutput(reply: string): (r: string)
    ensures |reply| <= 100 ==> r == reply
    ensures |reply| > 100 ==> |r| == 103 && r[..100] == reply[..100] && EndsWith(r, "...")
    ensures |r| <= 103
  {
    if |reply| > 100 then reply[..100] + "..." else reply
  }

  /** Shortening is idempotent: a shortened reply is shown unchanged. */
  lemma TestOutputIdempotent(reply: string)
    ensures TestOutput(TestOutput(reply)) == TestOutput(reply)
  {
    if |reply| > 100 {
      var r := TestOutput(reply);
      assert r[..100] + "..." == r;
    }
  }

  /** What `GET /` on the server ends with: a status code, or an exception
      with its message. */
  datatype Ping = PingStatus(status: nat) | PingRaised(message: string)

  /** The dictionary `health_check` returns; `details` and `test_output` are
      present only on some paths. */
  datatype HealthReport = HealthReport(status: string, message: string, details: Option<string>, testOutput: Option<string>)

  /** `health_check`: a failed or non-200 ping reports an error without a
      generation request; otherwise one request with the fixed hello prompt,
      whose reply, shortened, is the test output. It never raises. */
  function HealthCheck(cfg: EngineConfig, server: Server, ping: Ping): (run: Run<HealthReport>)
    ensures run.result.Returned?
    ensures run.sent != [] <==> ping == PingStatus(200)
    ensures run.sent != [] ==> run.sent == [Request(cfg, HelloPrompt)]
    ensures run.result.value.status == "success" <==>
              ping == PingStatus(200) && ClassifyReply(server(0, Request(cfg, HelloPrompt))).Returned?
    ensures run.result.value.status == "success" ==>
              run.result.value.testOutput
              == Some(TestOutput(ClassifyReply(server(0, Request(cfg, HelloPrompt))).value))
  {
    match ping
    case PingRaised(message) =>
      Run(Returned(HealthReport("error", message, Some(ConnectFailedDetails), None)), [])
    case PingStatus(status) =>
      if status != 200 then
        Run(Returned(HealthReport("error", "Ollama server not responding", Some("HTTP " + Decimal(status)), None)), [])
      else
        var hello := GenerateText(cfg, server, 0, HelloPrompt);
        match hello.result
        case Returned(text) =>
          Run(Returned(HealthReport("success", "AI engine is operational", None, Some(TestOutput(text)))), hello.sent)
        case Http(e) =>
          Run(Returned(HealthReport("error", Render(e), Some(ConnectFailedDetails), None)), hello.sent)
        case Fault(message) =>
          Run(Returned(HealthReport("error", message, Some(ConnectFailedDetails), None)), hello.sent)
  }
}
