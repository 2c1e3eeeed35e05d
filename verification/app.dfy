/**
 * The request decisions of the web application: speech generation, file
 * download and the security headers added after every request. The speech
 * backend, the random file token and the audio directory are inputs: an
 * oracle from call to outcome, a token string and the set of file names
 * the directory holds.
 */
module App {
  import opened Wrappers

  /** One field of the JSON body as the handler reads it: missing, JSON null, or a string. */
  datatype Field = Absent | Null | Text(value: string)

  /**
   * The parsed request body: a JSON object with the two fields the handler
   * reads, or any other value, named by its Python type ("NoneType" when the
   * request is not JSON at all, "list", "str", "int", ...).
   */
  datatype Payload = Object(text: Field, voice: Field) | NonObject(typeName: string)

  /** One speech-synthesis request to the backend; a voice of `None` is Python's `None`. */
  datatype SpeechCall = SpeechCall(model: string, voice: Option<string>, input: string)

  /** What creating the speech and streaming it to the file did: finished, or raised. */
  datatype Outcome = Written | Raised(message: string)

  datatype Response =
    | SpeechCreated(audioUrl: string, filename: string)  // JSON success with the URL and the file name
    | FileSent(filename: string)                          // the file, sent as an attachment
    | Failure(status: int, error: string)                 // JSON error message with a status code

  /** A handled request: the response, the backend calls made, and the audio files afterwards. */
  datatype Handled = Handled(response: Response, calls: seq<SpeechCall>, files: set<string>)

  const DeploymentName := "TekstTilTale"
  const DefaultVoice := "alloy"
  const AudioPrefix := "/static/audio/"
  const NoText := "No text provided"
  const NotConfigured := "Azure OpenAI is not configured. Please set AZURE_OPENAI_API_KEY and AZURE_OPENAI_ENDPOINT in your .env file to enable text-to-speech functionality."
  const NotFound := "File not found"

  /** The message of the exception raised when a body that is not an object is asked for a field. */
  function NoGetMessage(typeName: string): string
  {
    "'" + typeName + "' object has no attribute 'get'"
  }

  /** The text counts as given only when it is a non-empty string: absent, null and "" are all falsy. */
  predicate HasText(f: Field)
  {
    f.Text? && f.value != ""
  }

  /** The voice handed to the backend: "alloy" when the key is missing, `None` for a JSON null. */
  function VoiceOf(f: Field): (v: Option<string>)
    ensures f.Absent? ==> v == Some(DefaultVoice)
    ensures f.Null? ==> v.None?
    ensures f.Text? ==> v == Some(f.value)
  {
    match f
    case Absent => Some(DefaultVoice)
    case Null => None
    case Text(v) => Some(v)
  }

  /** The HTTP status a response is sent with (a JSON body alone means 200). */
  function Status(r: Response): (code: int)
    ensures r.Failure? ==> code == r.status
    ensures !r.Failure? ==> code == 200
  {
    match r
    case Failure(status, _) => status
    case _ => 200
  }

  /**
   * `generate_speech`: `body` is the parsed request body, `configured` says
   * whether the client exists, `token` is the text of the random UUID,
   * `files` the audio directory before the call.
   */
  function GenerateSpeech(body: Payload, configured: bool, token: string, files: set<string>,
                          backend: SpeechCall -> Outcome): (h: Handled)
    ensures |h.calls| <= 1
    ensures h.calls != [] <==> body.Object? && HasText(body.text) && configured
    ensures h.response.SpeechCreated? ==> h.calls != [] && backend(h.calls[0]) == Written
    ensures h.files == if h.response.SpeechCreated? then files + {h.response.filename} else files
  {
    match body
    case NonObject(typeName) => Handled(Failure(500, NoGetMessage(typeName)), [], files)
    case Object(text, voice) =>
      if !HasText(text) then Handled(Failure(400, NoText), [], files)
      else if !configured then Handled(Failure(503, NotConfigured), [], files)
      else
        var filename := token + ".mp3";
        var call := SpeechCall(DeploymentName, VoiceOf(voice), text.value);
        match backend(call)
        case Written => Handled(SpeechCreated(AudioPrefix + filename, filename), [call], files + {filename})
        case Raised(message) => Handled(Failure(500, message), [call], files)
  }

  /**
   * `download_file`: the file when the audio directory holds it, 404
   * otherwise; `sendError` is the message of an exception raised while
   * sending the file, if any.
   */
  function DownloadFile(filename: string, files: set<string>, sendError: Option<string>): (r: Response)
    ensures filename !in files ==> r == Failure(404, NotFound)
    ensures filename in files && sendError.None? ==> r == FileSent(filename)
    ensures filename in files && sendError.Some? ==> r == Failure(500, sendError.value)
  {
    if filename in files then
      match sendError
      case None => FileSent(filename)
      case Some(message) => Failure(500, message)
    else Failure(404, NotFound)
  }

  // ---------------------------------------------------------------------------
  // Properties of the request decisions
  // ---------------------------------------------------------------------------

  /** A body that is not a JSON object fails on the first field read: 500 with Python's message. */
  lemma NonObjectIs500(typeName: string, configured: bool, token: string, files: set<string>,
                       backend: SpeechCall -> Outcome)
    ensures GenerateSpeech(NonObject(typeName), configured, token, files, backend)
      == Handled(Failure(500, "'" + typeName + "' object has no attribute 'get'"), [], files)
  {
  }

  /** Missing, null or empty text is refused with 400 before the configuration is looked at. */
  lemma MissingTextIs400(text: Field, voice: Field, configured: bool, token: string, files: set<string>,
                         backend: SpeechCall -> Outcome)
    requires text.Absent? || text.Null? || text == Text("")
    ensures GenerateSpeech(Object(text, voice), configured, token, files, backend)
      == Handled(Failure(400, NoText), [], files)
  {
  }

  /** With text but no client, the answer is 503 and the backend is never called. */
  lemma UnconfiguredIs503(text: string, voice: Field, token: string, files: set<string>,
                          backend: SpeechCall -> Outcome)
    requires text != ""
    ensures GenerateSpeech(Object(Text(text), voice), false, token, files, backend)
      == Handled(Failure(503, NotConfigured), [], files)
  {
  }

  /**
   * The backend is asked for the request's text, in the request's voice,
   * in "alloy" when the body has no voice, and with `None` when it is null.
   */
  lemma BackendCallArguments(text: string, voice: Field, token: string, files: set<string>,
                             backend: SpeechCall -> Outcome)
    requires text != ""
    ensures var calls := GenerateSpeech(Object(Text(text), voice), true, token, files, backend).calls;
      && |calls| == 1
      && calls[0].model == DeploymentName && calls[0].input == text
      && (voice.Absent? ==> calls[0].voice == Some("alloy"))
      && (voice.Null? ==> calls[0].voice.None?)
      && (voice.Text? ==> calls[0].voice == Some(voice.value))
  {
  }

  /** A success names the file `<token>.mp3` and points the URL at it under /static/audio/. */
  lemma SuccessNamesTheFile(body: Payload, configured: bool, token: string, files: set<string>,
                            backend: SpeechCall -> Outcome)
    ensures var h := GenerateSpeech(body, configured, token, files, backend);
      h.response.SpeechCreated? ==>
        && h.response.filename == token + ".mp3"
        && h.response.audioUrl == "/static/audio/" + h.response.filename
        && Status(h.response) == 200
  {
  }

  /** An exception from the backend call or from streaming to the file becomes 500 with its message. */
  lemma BackendErrorIs500(text: string, voice: Field, token: string, files: set<string>,
                          backend: SpeechCall -> Outcome)
    requires text != ""
    requires backend(SpeechCall(DeploymentName, VoiceOf(voice), text)).Raised?
    ensures var h := GenerateSpeech(Object(Text(text), voice), true, token, files, backend);
      && h.response == Failure(500, backend(h.calls[0]).message)
      && h.files == files
  {
  }

  /** Every outcome is one of the four statuses, in the order the handler checks them. */
  lemma StatusCases(body: Payload, configured: bool, token: string, files: set<string>,
                    backend: SpeechCall -> Outcome)
    ensures var code := Status(GenerateSpeech(body, configured, token, files, backend).response);
      && (code == 400 <==> body.Object? && !HasText(body.text))
      && (code == 503 <==> body.Object? && HasText(body.text) && !configured)
      && (code == 200 <==>
            && body.Object? && HasText(body.text) && configured
            && backend(SpeechCall(DeploymentName, VoiceOf(body.voice), body.text.value)) == Written)
      && (code == 400 || code == 503 || code == 200 || code == 500)
  {
  }

  /** The file a successful generation reports can then be downloaded. */
  lemma GeneratedFileIsDownloadable(body: Payload, configured: bool, token: string,
                                    files: set<string>, backend: SpeechCall -> Outcome)
    ensures var h := GenerateSpeech(body, configured, token, files, backend);
      h.response.SpeechCreated? ==> DownloadFile(h.response.filename, h.files, None) == FileSent(token + ".mp3")
  {
  }

  // ---------------------------------------------------------------------------
  // Security headers
  // ---------------------------------------------------------------------------

  /** The four headers every response gets, with their values. */
  function SecurityHeaders(): (h: map<string, string>)
    ensures |h.Keys| == 4
  {
    map[
      "X-Content-Type-Options" := "nosniff",
      "X-Frame-Options" := "DENY",
      "X-XSS-Protection" := "1; mode=block",
      "Strict-Transport-Security" := "max-age=31536000; includeSubDomains"]
  }

  /** The response object the after-request hook receives, changes and returns. */
  class HttpResponse {
    var status: int
    var body: string
    var headers: map<string, string>

    /** A response with the given status, body and headers, as the handler produced it. */
    constructor (status: int, body: string, headers: map<string, string>)
      ensures this.status == status && this.body == body && this.headers == headers
    {
      this.status := status;
      this.body := body;
      this.headers := headers;
    }

    /** `add_security_headers`: sets the four headers, overriding earlier values, and changes nothing else. */
    method AddSecurityHeaders()
      modifies this`headers
      ensures headers == WithSecurityHeaders(old(headers))
    {
      ghost var before := headers;
      headers := headers["X-Content-Type-Options" := "nosniff"];
      headers := headers["X-Frame-Options" := "DENY"];
      headers := headers["X-XSS-Protection" := "1; mode=block"];
      headers := headers["Strict-Transport-Security" := "max-age=31536000; includeSubDomains"];
      SetOneByOne(before);
    }
  }

  /** The header map after the hook: the given one with the four headers set on top. */
  function WithSecurityHeaders(h: map<string, string>): (h': map<string, string>)
    ensures forall k :: k in SecurityHeaders() ==> k in h' && h'[k] == SecurityHeaders()[k]
    ensures forall k :: k !in SecurityHeaders() ==> (k in h' <==> k in h)
    ensures forall k :: k !in SecurityHeaders() && k in h ==> h'[k] == h[k]
  {
    h + SecurityHeaders()
  }

  /** Setting the four headers one at a time, as the hook does, gives the same map. */
  lemma SetOneByOne(h: map<string, string>)
    ensures h["X-Content-Type-Options" := "nosniff"]["X-Frame-Options" := "DENY"]
             ["X-XSS-Protection" := "1; mode=block"]
             ["Strict-Transport-Security" := "max-age=31536000; includeSubDomains"]
            == WithSecurityHeaders(h)
  {
    var a := h["X-Content-Type-Options" := "nosniff"]["X-Frame-Options" := "DENY"]
              ["X-XSS-Protection" := "1; mode=block"]
              ["Strict-Transport-Security" := "max-age=31536000; includeSubDomains"];
    var b := WithSecurityHeaders(h);
    assert a.Keys == b.Keys;
    forall k | k in a ensures a[k] == b[k] {
      if k !in SecurityHeaders() {
        assert k != "X-Content-Type-Options" && k != "X-Frame-Options";
        assert k != "X-XSS-Protection" && k != "Strict-Transport-Security";
      }
    }
  }

  /** Adding the headers a second time changes nothing. */
  lemma SecurityHeadersIdempotent(h: map<string, string>)
    ensures WithSecurityHeaders(WithSecurityHeaders(h)) == WithSecurityHeaders(h)
  {
  }
}
