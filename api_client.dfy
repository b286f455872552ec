/**
 * The authenticated request helper (services/apiClient.ts): every request carries
 * a JSON content type and, when the session holds a token, a bearer credential.
 */
module ApiClient {
  import opened Wrappers
  import Text
  import opened Http

  /** A `fetch` options object (`verb` is its `method` property); an absent property is `None`. */
  datatype RequestInit = RequestInit(verb: Option<string>, body: Option<string>, headers: Option<map<string, string>>)

  /** The options a bare `get` passes: none at all. */
  const NoOptions: RequestInit := RequestInit(None, None, None)

  /** What is handed to `fetch`. */
  datatype Request = Request(url: string, init: RequestInit)

  /** A response whose `ok` is true, handed back to the caller unread. */
  datatype Response = Response(status: int)

  /** A token is used when it is truthy: present and non-empty. */
  predicate HasToken(token: Option<string>) {
    token.Some? && token.value != ""
  }

  /**
   * The headers of an authenticated request: always the JSON content type, and an
   * `Authorization: Bearer <token>` header exactly when there is a token.
   */
  predicate IsAuthHeaders(h: map<string, string>, token: Option<string>) {
    && h.Keys == {"Content-Type"} + (if HasToken(token) then {"Authorization"} else {})
    && h["Content-Type"] == "application/json"
    && (HasToken(token) ==> h["Authorization"] == "Bearer " + token.value)
  }

  /** Only one header record meets the description, so it pins the headers down completely. */
  lemma AuthHeadersDetermined(h1: map<string, string>, h2: map<string, string>, token: Option<string>)
    requires IsAuthHeaders(h1, token) && IsAuthHeaders(h2, token)
    ensures h1 == h2
  {
  }

  /** The header record `fetchWithAuth` builds, adding the credential when there is a token. */
  method BuildHeaders(token: Option<string>) returns (headers: map<string, string>)
    ensures IsAuthHeaders(headers, token)
  {
    headers := map["Content-Type" := "application/json"];
    if HasToken(token) {
      headers := headers["Authorization" := "Bearer " + token.value];
    }
  }

  /** The message a failed request rejects with: the response text, or `HTTP <status>` when it is empty. */
  function ErrorMessage(status: int, text: string): (m: string)
    ensures m != ""
    ensures text != "" ==> m == text
    ensures text == "" ==> Text.StartsWith(m, "HTTP ")
  {
    if text != "" then text else "HTTP " + Text.IntToDecimal(status)
  }

  /** When the server sends no text, the status can be read back from the message. */
  lemma ErrorMessageCarriesStatus(status: int)
    ensures Text.ParseInteger(ErrorMessage(status, "")[5..]) == Some(status)
  {
    assert ErrorMessage(status, "")[5..] == Text.IntToDecimal(status);
    Text.DecimalRoundTrip(status);
  }

  /**
   * `fetchWithAuth`: the caller's options are kept except `headers`, which are
   * replaced by the authenticated ones; an ok response is returned, anything
   * else rejects.
   */
  method FetchWithAuth(url: string, options: RequestInit, token: Option<string>, reply: Reply<Response>)
    returns (request: Request, result: Result<Response, string>)
    ensures request.url == url
    ensures request.init.verb == options.verb && request.init.body == options.body
    ensures request.init.headers.Some? && IsAuthHeaders(request.init.headers.value, token)
    ensures reply.Success? ==> result == Ok(reply.body)
    ensures reply.HttpError? ==> result == Err(ErrorMessage(reply.status, reply.text))
    ensures reply.Threw? ==> result == Err(reply.reason)
  {
    var headers := BuildHeaders(token);
    request := Request(url, options.(headers := Some(headers)));
    match reply {
      case Success(response) =>
        result := Ok(response);
      case HttpError(status, text) =>
        result := Err(ErrorMessage(status, text));
      case Threw(reason) =>
        result := Err(reason);
    }
  }

  /** `get`: no method and no body, so `fetch` issues a GET. */
  method Get(url: string, token: Option<string>, reply: Reply<Response>)
    returns (request: Request, result: Result<Response, string>)
    ensures request.url == url && request.init.verb == None && request.init.body == None
    ensures request.init.headers.Some? && IsAuthHeaders(request.init.headers.value, token)
    ensures reply.Success? ==> result == Ok(reply.body)
    ensures reply.HttpError? ==> result == Err(ErrorMessage(reply.status, reply.text))
    ensures reply.Threw? ==> result == Err(reply.reason)
  {
    request, result := FetchWithAuth(url, NoOptions, token, reply);
  }

  /** `post`: the serialised `data` as the body. */
  method Post(url: string, json: string, token: Option<string>, reply: Reply<Response>)
    returns (request: Request, result: Result<Response, string>)
    ensures request.url == url && request.init.verb == Some("POST") && request.init.body == Some(json)
    ensures request.init.headers.Some? && IsAuthHeaders(request.init.headers.value, token)
    ensures reply.Success? ==> result == Ok(reply.body)
    ensures reply.HttpError? ==> result == Err(ErrorMessage(reply.status, reply.text))
    ensures reply.Threw? ==> result == Err(reply.reason)
  {
    request, result := FetchWithAuth(url, RequestInit(Some("POST"), Some(json), None), token, reply);
  }

  /** `put`: the serialised `data` as the body. */
  method Put(url: string, json: string, token: Option<string>, reply: Reply<Response>)
    returns (request: Request, result: Result<Response, string>)
    ensures request.url == url && request.init.verb == Some("PUT") && request.init.body == Some(json)
    ensures request.init.headers.Some? && IsAuthHeaders(request.init.headers.value, token)
    ensures reply.Success? ==> result == Ok(reply.body)
    ensures reply.HttpError? ==> result == Err(ErrorMessage(reply.status, reply.text))
    ensures reply.Threw? ==> result == Err(reply.reason)
  {
    request, result := FetchWithAuth(url, RequestInit(Some("PUT"), Some(json), None), token, reply);
  }

  /** `delete`: no body. */
  method Delete(url: string, token: Option<string>, reply: Reply<Response>)
    returns (request: Request, result: Result<Response, string>)
    ensures request.url == url && request.init.verb == Some("DELETE") && request.init.body == None
    ensures request.init.headers.Some? && IsAuthHeaders(request.init.headers.value, token)
    ensures reply.Success? ==> result == Ok(reply.body)
    ensures reply.HttpError? ==> result == Err(ErrorMessage(reply.status, reply.text))
    ensures reply.Threw? ==> result == Err(reply.reason)
  {
    request, result := FetchWithAuth(url, RequestInit(Some("DELETE"), None, None), token, reply);
  }
}
