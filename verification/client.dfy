/** get_psi_accessibility_details as a whole: URL validation and clean-up, one
    request to the PageSpeed Insights API, and the mapping of every transport,
    HTTP and parsing outcome to the result dict. The network is an oracle
    `fetch` from the request to what the transport produced. */
module Client {
  import opened Options
  import opened Json
  import opened Py
  import Text
  import opened Normalizer

  /** The device profile the app sends as the `strategy` query parameter. */
  datatype Strategy = Mobile | Desktop {
    function Name(): string {
      match this
      case Mobile => "mobile"
      case Desktop => "desktop"
    }
  }

  /** The query of one API call; `category` is always ACCESSIBILITY. */
  datatype Request = Request(url: string, key: string, strategy: Strategy)

  /** A value of the `urls` column as pandas hands it over: missing (NaN), a
      string, or a number, which carries the text str() gives it. */
  datatype Cell = Missing | Text(text: string) | Number(shown: string)

  /** Which requests.get outcome the call met. */
  datatype Transport =
    | TimedOut                         // requests.exceptions.Timeout
    | RequestFailed(reason: string)    // any other RequestException, with str(e)
    | Crashed(reason: string)          // any other exception, with str(e)
    | Answered(response: Response)

  /** A response: its status code, its raw text, and what response.json() gives. */
  datatype Response = Response(status: int, text: string, body: Body)

  datatype Body = Parsed(json: Json) | NotJson(reason: string)

  // ---- the error messages, one form per handler (lines 54-147) ----

  const InvalidUrl: string := "Invalid URL provided"
  const TimeoutMessage: string := "Error: Timeout"
  const NetworkTag: string := "Error: Network Issue ("
  const StructureTag: string := "Error: Unexpected API Response Structure ("
  const UnexpectedTag: string := "Error: Unexpected ("
  const ApiStatusTag: string := "API Error "
  const HttpStatusTag: string := "HTTP Error "

  /** Which part of the client produced an error message. ApiReported is the
      normaliser's "API Error: " for a response without lighthouseResult. */
  datatype ErrorKind =
    | InvalidInput | Timeout | NetworkIssue | BadStructure | Unexpected
    | ApiReported | ApiStatus | HttpStatus

  /** Reads the kind back from a message by its fixed text or leading tag. */
  function KindOf(m: string): Option<ErrorKind> {
    if m == InvalidUrl then Some(InvalidInput)
    else if m == TimeoutMessage then Some(Timeout)
    else if Text.StartsWith(m, NetworkTag) then Some(NetworkIssue)
    else if Text.StartsWith(m, StructureTag) then Some(BadStructure)
    else if Text.StartsWith(m, UnexpectedTag) then Some(Unexpected)
    else if Text.StartsWith(m, ApiErrorTag) then Some(ApiReported)
    else if Text.StartsWith(m, ApiStatusTag) then Some(ApiStatus)
    else if Text.StartsWith(m, HttpStatusTag) then Some(HttpStatus)
    else None
  }

  /** A message starting with `tag` neither starts with nor equals a text that
      differs from `tag` at position i. */
  lemma Differ(m: string, tag: string, other: string, i: nat)
    requires Text.StartsWith(m, tag) && i < |tag| && i < |other| && tag[i] != other[i]
    ensures !Text.StartsWith(m, other) && m != other
  {
    assert m[i] == m[..|tag|][i] == tag[i];
  }

  /** tag + x + ")" starts with tag, and x can be read back from it. */
  lemma Wrapped(tag: string, x: string)
    ensures Text.StartsWith(tag + x + ")", tag)
    ensures var m := tag + x + ")"; |m| == |tag| + |x| + 1 && m[|tag|..|m| - 1] == x
  {
    Text.StartsWithAppend(tag, x);
    Text.StartsWithExtend(tag + x, tag, ")");
    assert (tag + x + ")")[|tag|..|tag| + |x|] == x;
  }

  lemma TimeoutKind()
    ensures KindOf(TimeoutMessage) == Some(Timeout)
  {
    assert TimeoutMessage[0] != InvalidUrl[0];
  }

  lemma NetworkKind(m: string)
    requires Text.StartsWith(m, NetworkTag)
    ensures KindOf(m) == Some(NetworkIssue)
  {
    Differ(m, NetworkTag, InvalidUrl, 0);
    Differ(m, NetworkTag, TimeoutMessage, 7);
  }

  lemma StructureKind(m: string)
    requires Text.StartsWith(m, StructureTag)
    ensures KindOf(m) == Some(BadStructure)
  {
    Differ(m, StructureTag, InvalidUrl, 0);
    Differ(m, StructureTag, TimeoutMessage, 7);
    Differ(m, StructureTag, NetworkTag, 7);
  }

  lemma UnexpectedKind(m: string)
    requires Text.StartsWith(m, UnexpectedTag)
    ensures KindOf(m) == Some(Unexpected)
  {
    Differ(m, UnexpectedTag, InvalidUrl, 0);
    Differ(m, UnexpectedTag, TimeoutMessage, 7);
    Differ(m, UnexpectedTag, NetworkTag, 7);
    Differ(m, UnexpectedTag, StructureTag, 18);
  }

  lemma ApiReportedKind(m: string)
    requires Text.StartsWith(m, ApiErrorTag)
    ensures KindOf(m) == Some(ApiReported)
  {
    Differ(m, ApiErrorTag, InvalidUrl, 0);
    Differ(m, ApiErrorTag, TimeoutMessage, 0);
    Differ(m, ApiErrorTag, NetworkTag, 0);
    Differ(m, ApiErrorTag, StructureTag, 0);
    Differ(m, ApiErrorTag, UnexpectedTag, 0);
  }

  lemma ApiStatusKind(m: string)
    requires Text.StartsWith(m, ApiStatusTag)
    ensures KindOf(m) == Some(ApiStatus)
  {
    Differ(m, ApiStatusTag, InvalidUrl, 0);
    Differ(m, ApiStatusTag, TimeoutMessage, 0);
    Differ(m, ApiStatusTag, NetworkTag, 0);
    Differ(m, ApiStatusTag, StructureTag, 0);
    Differ(m, ApiStatusTag, UnexpectedTag, 0);
    Differ(m, ApiStatusTag, ApiErrorTag, 9);
  }

  lemma HttpStatusKind(m: string)
    requires Text.StartsWith(m, HttpStatusTag)
    ensures KindOf(m) == Some(HttpStatus)
  {
    Differ(m, HttpStatusTag, InvalidUrl, 0);
    Differ(m, HttpStatusTag, TimeoutMessage, 0);
    Differ(m, HttpStatusTag, NetworkTag, 0);
    Differ(m, HttpStatusTag, StructureTag, 0);
    Differ(m, HttpStatusTag, UnexpectedTag, 0);
    Differ(m, HttpStatusTag, ApiErrorTag, 0);
    Differ(m, HttpStatusTag, ApiStatusTag, 0);
  }

  predicate HasScheme(url: string) {
    Text.StartsWith(url, "http://") || Text.StartsWith(url, "https://")
  }

  /** Line 57: a stripped, non-blank URL keeps an http or https scheme and
      otherwise gains "https://"; either way the result is still stripped. */
  function WithScheme(stripped: string): (r: string)
    requires |stripped| > 0 && !Text.IsSpace(stripped[0]) && !Text.IsSpace(stripped[|stripped| - 1])
    ensures HasScheme(r) && Text.Strip(r) == r
    ensures r == stripped <==> HasScheme(stripped)
    ensures r != stripped ==> r == "https://" + stripped
  {
    if HasScheme(stripped) then
      Text.StripFixed(stripped);
      stripped
    else
      SecureSchemeKeepsStripped(stripped);
      "https://" + stripped
  }

  /** Prefixing "https://" to a stripped URL gives a URL with a scheme that is
      still stripped. */
  lemma SecureSchemeKeepsStripped(s: string)
    requires |s| > 0 && !Text.IsSpace(s[|s| - 1])
    ensures HasScheme("https://" + s)
    ensures Text.Strip("https://" + s) == "https://" + s
  {
    var u := "https://" + s;
    Text.StartsWithAppend("https://", s);
    assert u[0] == 'h' && u[|u| - 1] == s[|s| - 1];
    Text.StripFixed(u);
  }

  /** Lines 54-58: a blank or non-string value is rejected; otherwise the URL is
      stripped and gains "https://" unless it already names http or https. */
  function CleanUrl(url: Cell): (r: Option<string>)
    ensures r.None? <==> !url.Text? || Text.AllSpace(url.text)
    ensures r.Some? ==> HasScheme(r.value) && Text.Strip(r.value) == r.value
    ensures r.Some? ==> (r.value == Text.Strip(url.text) <==> HasScheme(Text.Strip(url.text)))
    ensures r.Some? && r.value != Text.Strip(url.text) ==> r.value == "https://" + Text.Strip(url.text)
  {
    if !url.Text? || Text.Strip(url.text) == "" then None
    else Some(WithScheme(Text.Strip(url.text)))
  }

  /** Cleaning a cleaned URL changes nothing. */
  lemma CleanUrlIdempotent(url: Cell)
    requires CleanUrl(url).Some?
    ensures CleanUrl(Text(CleanUrl(url).value)) == CleanUrl(url)
  {
  }

  /** Lines 133 and 135: the text of an HTTP error built from the raw body, cut
      to its first 200 characters. */
  function RawHttpError(response: Response): (r: string)
    ensures Text.StartsWith(r, HttpStatusTag)
    ensures var header := HttpStatusTag + Text.IntText(response.status) + ": ";
            && Text.StartsWith(r, header)
            && |header| <= |r| <= |header| + 200
            && |r| - |header| <= |response.text|
            && r[|header|..] == response.text[..|r| - |header|]
            && (|response.text| >= 200 ==> |r| == |header| + 200)
            && (|response.text| < 200 ==> r == header + response.text)
  {
    var header := HttpStatusTag + Text.IntText(response.status) + ": ";
    var excerpt := Text.Take(response.text, 200);
    Text.StartsWithAppend(header, excerpt);
    Tagged(HttpStatusTag, Text.IntText(response.status), ": ", excerpt);
    assert (header + excerpt)[|header|..] == excerpt;
    header + excerpt
  }

  /** Lines 132-133: the code and message of the body's 'error' object; raises
      AttributeError when the body or its 'error' entry is not a dict. */
  function ApiErrorDetail(json: Json, status: int): (r: Raising<string>)
    ensures r.Returned? <==> json.Dict? && Field(json, "error", Dict([])).Dict?
    ensures r.Returned? ==> Text.StartsWith(r.value, ApiStatusTag)
  {
    var content :- Get(json, "error", Dict([]));
    var code :- Get(content, "code", Int(status));
    var message := Field(content, "message", Str("No details provided"));
    Text.StartsWithAppend(ApiStatusTag, Show(code) + ": " + Show(message));
    Returned(ApiStatusTag + (Show(code) + ": " + Show(message)))
  }

  /** Lines 129-137: the error detail of a 4xx or 5xx response. A body that is not
      JSON, or whose 'error' entry cannot be read, falls back to the raw text. */
  function HttpErrorDetail(response: Response): (r: string)
    ensures Text.StartsWith(r, ApiStatusTag) || Text.StartsWith(r, HttpStatusTag)
    ensures Text.StartsWith(r, ApiStatusTag) <==>
              response.body.Parsed? && response.body.json.Dict? && Field(response.body.json, "error", Dict([])).Dict?
    ensures response.body.NotJson? ==> r == RawHttpError(response)
    ensures response.body.Parsed? ==>
              var json := response.body.json;
              if json.Dict? && Field(json, "error", Dict([])).Dict? then
                var content := Field(json, "error", Dict([]));
                r == ApiStatusTag + Show(Field(content, "code", Int(response.status))) + ": "
                       + Show(Field(content, "message", Str("No details provided")))
              else r == RawHttpError(response)
  {
    Differ(RawHttpError(response), HttpStatusTag, ApiStatusTag, 0);
    match response.body
    case NotJson(_) => RawHttpError(response)
    case Parsed(json) =>
      match ApiErrorDetail(json, response.status)
      case Returned(detail) => detail
      case Raised(_) => RawHttpError(response)
  }

  /** Lines 141-147: str(e) wrapped by the handler that catches it. AttributeError
      means the response had an unexpected shape (KeyError, the other exception
      that handler names, cannot arise: every lookup uses `.get`). The message is
      tagged with its kind and str(e) can be read back from it. */
  function ExceptionMessage(e: Exception): (r: string)
    ensures KindOf(r) == Some(if e.AttributeError? then BadStructure else Unexpected)
    ensures var tag := if e.AttributeError? then StructureTag else UnexpectedTag;
            |r| == |tag| + |e.message| + 1 && r[|tag|..|r| - 1] == e.message
    ensures r[|r| - 1] == ')'
  {
    if e.AttributeError? then
      Wrapped(StructureTag, e.message);
      StructureKind(StructureTag + e.message + ")");
      StructureTag + e.message + ")"
    else
      Wrapped(UnexpectedTag, e.message);
      UnexpectedKind(UnexpectedTag + e.message + ")");
      UnexpectedTag + e.message + ")"
  }

  /** Lines 67-147 after validation: what the app makes of one transport outcome.
      raise_for_status() raises for 4xx and 5xx. With requests 2.27 and later, a
      body that is not JSON raises requests' JSONDecodeError, which is a
      RequestException and so reads as a network issue. */
  function Respond(t: Transport): (r: Outcome)
    ensures r.Scored? <==>
              && t.Answered? && !(400 <= t.response.status < 600) && t.response.body.Parsed?
              && WellShaped(t.response.body.json) && Normalize(t.response.body.json).value.Scored?
    ensures t.TimedOut? ==> r == Error(TimeoutMessage)
    ensures t.RequestFailed? ==> r == Error(NetworkTag + t.reason + ")")
    ensures t.Crashed? ==> r == Error(UnexpectedTag + t.reason + ")")
    ensures t.Answered? && 400 <= t.response.status < 600 ==> r == Error(HttpErrorDetail(t.response))
    ensures t.Answered? && !(400 <= t.response.status < 600) && t.response.body.NotJson? ==>
              r == Error(NetworkTag + t.response.body.reason + ")")
    ensures t.Answered? && !(400 <= t.response.status < 600) && t.response.body.Parsed? ==>
              match Normalize(t.response.body.json)
              case Returned(outcome) => r == outcome
              case Raised(e) => r == Error(ExceptionMessage(e))
  {
    match t
    case TimedOut => Error(TimeoutMessage)
    case RequestFailed(reason) => Error(NetworkTag + reason + ")")
    case Crashed(reason) => Error(UnexpectedTag + reason + ")")
    case Answered(response) =>
      if 400 <= response.status < 600 then Error(HttpErrorDetail(response))
      else
        match response.body
        case NotJson(reason) => Error(NetworkTag + reason + ")")
        case Parsed(json) =>
          NormalizeRaises(json);
          match Normalize(json)
          case Returned(outcome) => outcome
          case Raised(e) => Error(ExceptionMessage(e))
  }

  /** tag + a + b + c starts with tag. */
  lemma Tagged(tag: string, a: string, b: string, c: string)
    ensures Text.StartsWith(tag + a + b + c, tag)
  {
    Text.StartsWithAppend(tag, a);
    Text.StartsWithExtend(tag + a, tag, b);
    Text.StartsWithExtend(tag + a + b, tag, c);
  }

  /** Every failure of a request is reported with a message naming the handler
      that produced it: a timeout, a network issue (including a 2xx body that is
      not JSON), an HTTP status with or without the API's own error object, the
      API's message for a response without lighthouseResult, an unexpected
      response structure, or anything else. None reads as an invalid URL. */
  lemma RespondErrorKinds(t: Transport)
    ensures t.TimedOut? ==> KindOf(Respond(t).error) == Some(Timeout)
    ensures t.RequestFailed? ==> KindOf(Respond(t).error) == Some(NetworkIssue)
    ensures t.Crashed? ==> KindOf(Respond(t).error) == Some(Unexpected)
    ensures t.Answered? && 400 <= t.response.status < 600 ==>
              var body := t.response.body;
              KindOf(Respond(t).error)
                == Some(if body.Parsed? && body.json.Dict? && Field(body.json, "error", Dict([])).Dict?
                        then ApiStatus else HttpStatus)
    ensures t.Answered? && !(400 <= t.response.status < 600) && t.response.body.NotJson? ==>
              KindOf(Respond(t).error) == Some(NetworkIssue)
    ensures t.Answered? && !(400 <= t.response.status < 600) && t.response.body.Parsed? ==>
              match Normalize(t.response.body.json)
              case Returned(outcome) => outcome.Error? ==> KindOf(Respond(t).error) == Some(ApiReported)
              case Raised(e) =>
                KindOf(Respond(t).error) == Some(if e.AttributeError? then BadStructure else Unexpected)
    ensures Respond(t).Error? ==> KindOf(Respond(t).error).Some? && KindOf(Respond(t).error) != Some(InvalidInput)
  {
    match t
    case TimedOut =>
      TimeoutKind();
    case RequestFailed(reason) =>
      Wrapped(NetworkTag, reason);
      NetworkKind(NetworkTag + reason + ")");
    case Crashed(reason) =>
      Wrapped(UnexpectedTag, reason);
      UnexpectedKind(UnexpectedTag + reason + ")");
    case Answered(response) =>
      if 400 <= response.status < 600 {
        var d := HttpErrorDetail(response);
        if Text.StartsWith(d, ApiStatusTag) {
          ApiStatusKind(d);
        } else {
          HttpStatusKind(d);
        }
      } else if response.body.NotJson? {
        Wrapped(NetworkTag, response.body.reason);
        NetworkKind(NetworkTag + response.body.reason + ")");
      } else {
        var json := response.body.json;
        match Normalize(json)
        case Returned(outcome) =>
          if outcome.Error? {
            Text.StartsWithAppend(ApiErrorTag, Show(ApiMessage(json)));
            ApiReportedKind(outcome.error);
          }
        case Raised(e) =>
      }
  }

  /** The request made for a cell, if any. */
  function RequestFor(url: Cell, key: string, strategy: Strategy): (r: Option<Request>)
    ensures r.Some? ==> CleanUrl(url).Some? && r.value.url == CleanUrl(url).value && r.value.key == key && r.value.strategy == strategy
    ensures r.None? <==> CleanUrl(url).None?
  {
    match CleanUrl(url)
    case None => None
    case Some(cleaned) => Some(Request(cleaned, key, strategy))
  }

  /** get_psi_accessibility_details(url, api_key, strategy): an invalid URL is
      reported as such and nothing else is; a valid one is answered by the
      single request for the cleaned URL; every error names its kind. */
  function GetDetails(url: Cell, key: string, strategy: Strategy, fetch: Request -> Transport): (r: Outcome)
    ensures CleanUrl(url).None? ==> r == Error(InvalidUrl)
    ensures CleanUrl(url).Some? ==> r == Respond(fetch(Request(CleanUrl(url).value, key, strategy)))
    ensures r.Error? ==> KindOf(r.error).Some?
    ensures r.Error? ==> (KindOf(r.error) == Some(InvalidInput) <==> CleanUrl(url).None?)
  {
    match RequestFor(url, key, strategy)
    case None => Error(InvalidUrl)
    case Some(request) =>
      RespondErrorKinds(fetch(request));
      Respond(fetch(request))
  }

  /** A blank or non-string URL is rejected before any request: the outcome does
      not depend on the network. */
  lemma NoRequestForInvalidUrl(url: Cell, key: string, strategy: Strategy, f: Request -> Transport, g: Request -> Transport)
    requires CleanUrl(url).None?
    ensures GetDetails(url, key, strategy, f) == GetDetails(url, key, strategy, g)
  {
  }

  /** A valid URL leads to exactly one request, for the cleaned URL: networks that
      answer that request alike give the same outcome. */
  lemma OneRequestForValidUrl(url: Cell, key: string, strategy: Strategy, f: Request -> Transport, g: Request -> Transport)
    requires CleanUrl(url).Some?
    requires f(Request(CleanUrl(url).value, key, strategy)) == g(Request(CleanUrl(url).value, key, strategy))
    ensures GetDetails(url, key, strategy, f) == GetDetails(url, key, strategy, g)
  {
  }
}
