/**
 * The macOS API client: the endpoint table (path, HTTP method, JSON body,
 * query items), the error type and its descriptions, the classification
 * of a reply into a decoded envelope or an error, the key lookup, and the
 * multipart/form-data body of a file upload (RFC 7578, with delimiters as
 * section 5.1.1 of RFC 2046 writes them). The transport itself is a
 * parameter: a reply that did or did not arrive.
 */
module ApiClient {
  import opened Wrappers
  import opened Utf8
  import Text

  // ------------------------------------------------------------------ models

  datatype CreateShortURLRequest = CreateShortURLRequest(
    targetURL: string,
    domain: string,
    customSlug: Option<string>,
    title: Option<string>,
    password: Option<string>,
    expireAt: Option<int>,
    expirationRedirectURL: Option<string>,
    tagIDs: Option<seq<int>>)

  datatype UpdateShortURLRequest = UpdateShortURLRequest(domain: string, slug: string, targetURL: string, title: string)

  datatype DeleteShortURLRequest = DeleteShortURLRequest(domain: string, slug: string)

  datatype CreateTextRequest = CreateTextRequest(
    content: string,
    title: string,
    domain: Option<string>,
    customSlug: Option<string>,
    textType: Option<string>,
    password: Option<string>,
    expireAt: Option<int>,
    tagIDs: Option<seq<int>>)

  datatype UpdateTextRequest = UpdateTextRequest(domain: string, slug: string, content: string, title: string)

  datatype DeleteTextRequest = DeleteTextRequest(domain: string, slug: string)

  /** `APIResponse<T>`: the envelope every reply is decoded into. */
  datatype APIResponse<T> = APIResponse(code: int, message: Option<string>, data: Option<T>)

  datatype DomainsResponse = DomainsResponse(domains: seq<string>)

  datatype ShortURLResponse = ShortURLResponse(shortURL: string, slug: string, customSlug: Option<string>)

  datatype TextResponse = TextResponse(shortURL: string, slug: string, customSlug: Option<string>)

  datatype VisitStatResponse = VisitStatResponse(visitCount: int)

  datatype UploadFileResponse = UploadFileResponse(
    fileID: int, filename: string, storename: string, size: int,
    width: Option<int>, height: Option<int>, url: string, page: string, path: string,
    hash: string, deleteURL: string)

  /** `EmptyData`: any `data` value, ignored. */
  datatype EmptyData = EmptyData

  // ------------------------------------------------------------------ errors

  datatype APIError =
    | Unauthorized
    | BadRequest(message: string)
    | ServerError
    | NetworkError(message: string)
    | DecodingError(message: string)
    | InvalidBaseURL
    | NoAPIKey
    | UnexpectedStatusCode(code: int, detail: Option<string>)
  {
    /** `errorDescription`: the carried message where there is one, a fixed sentence otherwise. */
    function ErrorDescription(): (r: string)
    {
      match this
      case Unauthorized => "Unauthorized. Please check your API key."
      case BadRequest(message) => message
      case ServerError => "Server error. Please try again later."
      case NetworkError(message) => message
      case DecodingError(message) => "Failed to parse response: " + message
      case InvalidBaseURL => "Invalid Base URL. Please check your settings."
      case NoAPIKey => "No API key configured. Please add your API key in Settings."
      case UnexpectedStatusCode(code, detail) =>
        if detail.Some? then detail.value else "Unexpected response (code: " + Text.IntToString(code) + ")"
    }
  }

  /** The description shows the server's or the transport's own message unchanged, and otherwise never an empty text. */
  lemma DescriptionCarriesMessage(e: APIError)
    ensures e.BadRequest? || e.NetworkError? ==> e.ErrorDescription() == e.message
    ensures e.UnexpectedStatusCode? && e.detail.Some? ==> e.ErrorDescription() == e.detail.value
    ensures e.DecodingError? ==> e.message <= e.ErrorDescription()[|"Failed to parse response: "|..]
    ensures !(e.BadRequest? || e.NetworkError? || (e.UnexpectedStatusCode? && e.detail.Some?)) ==>
      |e.ErrorDescription()| > 0
  {
  }

  /** What a throwing call produces: its value, or the error it threw. */
  datatype Outcome<T> = Returned(value: T) | Threw(error: APIError)

  // ---------------------------------------------------------------- endpoints

  datatype HTTPMethod = GET | POST | PUT | DELETE
  {
    function RawValue(): string
    {
      match this
      case GET => "GET"
      case POST => "POST"
      case PUT => "PUT"
      case DELETE => "DELETE"
    }
  }

  /** The JSON bodies an endpoint can carry. */
  datatype Body =
    | CreateShortURLBody(createShortURL: CreateShortURLRequest)
    | UpdateShortURLBody(updateShortURL: UpdateShortURLRequest)
    | DeleteShortURLBody(deleteShortURL: DeleteShortURLRequest)
    | CreateTextBody(createText: CreateTextRequest)
    | UpdateTextBody(updateText: UpdateTextRequest)
    | DeleteTextBody(deleteText: DeleteTextRequest)

  datatype Endpoint =
    | GetDomains
    | CreateShortURL(createShortURL: CreateShortURLRequest)
    | UpdateShortURL(updateShortURL: UpdateShortURLRequest)
    | DeleteShortURL(deleteShortURL: DeleteShortURLRequest)
    | GetLinkVisitStat(domain: string, slug: string, period: string)
    | GetTextDomains
    | CreateText(createText: CreateTextRequest)
    | UpdateText(updateText: UpdateTextRequest)
    | DeleteText(deleteText: DeleteTextRequest)
    | GetFileDomains
    | UploadFile
    | DeleteFile(hash: string)
    | GetTags
    | GetUsage
  {
    /** `path`, relative to the base URL. */
    function Path(): string
    {
      match this
      case GetDomains => "domains"
      case CreateShortURL(_) => "shorten"
      case UpdateShortURL(_) => "shorten"
      case DeleteShortURL(_) => "shorten"
      case GetLinkVisitStat(_, _, _) => "link/visit-stat"
      case GetTextDomains => "text/domains"
      case CreateText(_) => "text"
      case UpdateText(_) => "text"
      case DeleteText(_) => "text"
      case GetFileDomains => "file/domains"
      case UploadFile => "file/upload"
      case DeleteFile(hash) => "file/delete/" + hash
      case GetTags => "tags"
      case GetUsage => "usage"
    }

    function Method(): HTTPMethod
    {
      match this
      case GetDomains | GetLinkVisitStat(_, _, _) | GetTextDomains | GetFileDomains | DeleteFile(_)
        | GetTags | GetUsage => GET
      case CreateShortURL(_) | CreateText(_) | UploadFile => POST
      case UpdateShortURL(_) | UpdateText(_) => PUT
      case DeleteShortURL(_) | DeleteText(_) => DELETE
    }

    /** `body`: the request the case carries, for the six JSON cases. */
    function JsonBody(): Option<Body>
    {
      match this
      case CreateShortURL(req) => Some(CreateShortURLBody(req))
      case UpdateShortURL(req) => Some(UpdateShortURLBody(req))
      case DeleteShortURL(req) => Some(DeleteShortURLBody(req))
      case CreateText(req) => Some(CreateTextBody(req))
      case UpdateText(req) => Some(UpdateTextBody(req))
      case DeleteText(req) => Some(DeleteTextBody(req))
      case _ => None
    }

    /** `queryItems`: only the visit-stat request has any. */
    function QueryItems(): Option<seq<(string, string)>>
    {
      match this
      case GetLinkVisitStat(domain, slug, period) => Some([("domain", domain), ("slug", slug), ("period", period)])
      case _ => None
    }
  }

  /**
   * The three tables agree: a JSON body goes with exactly the writing
   * methods except the multipart upload, query items only with GET, and
   * the visit-stat query lists domain, slug and period in that order.
   */
  lemma EndpointTablesAgree(e: Endpoint)
    ensures e.JsonBody().Some? <==> e.Method() != GET && !e.UploadFile?
    ensures e.QueryItems().Some? ==> e.Method() == GET && e.JsonBody().None?
    ensures e.QueryItems().Some? ==>
      && |e.QueryItems().value| == 3
      && e.QueryItems().value[0] == ("domain", e.domain)
      && e.QueryItems().value[1] == ("slug", e.slug)
      && e.QueryItems().value[2] == ("period", e.period)
  {
  }

  /** The body an endpoint sends is the request it was built from. */
  lemma BodyIsTheRequest(e: Endpoint)
    ensures e.CreateShortURL? ==> e.JsonBody() == Some(CreateShortURLBody(e.createShortURL))
    ensures e.UpdateText? ==> e.JsonBody() == Some(UpdateTextBody(e.updateText))
    ensures e.DeleteShortURL? ==> e.JsonBody().value.deleteShortURL == e.deleteShortURL
    ensures e.DeleteText? ==> e.JsonBody().value.deleteText == e.deleteText
  {
  }

  /**
   * Requests to the same path are told apart by their method: the short
   * URL and text operations share one path each, with a different method
   * per operation; and a file-delete path names its hash.
   */
  lemma SharedPathsDifferInMethod(e1: Endpoint, e2: Endpoint)
    requires e1.Path() == e2.Path() == "shorten" || e1.Path() == e2.Path() == "text"
    requires e1.Method() == e2.Method()
    ensures e1.CreateShortURL? <==> e2.CreateShortURL?
    ensures e1.UpdateShortURL? <==> e2.UpdateShortURL?
    ensures e1.DeleteShortURL? <==> e2.DeleteShortURL?
    ensures e1.CreateText? <==> e2.CreateText?
    ensures e1.UpdateText? <==> e2.UpdateText?
    ensures e1.DeleteText? <==> e2.DeleteText?
  {
  }

  /** The file-delete path reads back the hash after its fixed prefix. */
  lemma DeletePathNamesHash(hash: string)
    ensures DeleteFile(hash).Path()[..|"file/delete/"|] == "file/delete/"
    ensures DeleteFile(hash).Path()[|"file/delete/"|..] == hash
  {
  }

  // ------------------------------------------------------------------ replies

  /** How the body of a reply decoded into an envelope. */
  datatype Decoding<T> = Decoded(response: APIResponse<T>) | Undecodable(reason: string)

  /** What the transport handed back: a non-HTTP response, or an HTTP status with the decoded body. */
  datatype Reply<T> = NotHTTP | HTTP(statusCode: int, body: Decoding<T>)

  /** `handleResponse`: the envelope when the server's own code is 200, its classified error otherwise. */
  function HandleResponse<T>(reply: Reply<T>): (r: Outcome<APIResponse<T>>)
  {
    match reply
    case NotHTTP => Threw(NetworkError("Invalid response"))
    case HTTP(status, body) =>
      if status == 401 then Threw(Unauthorized)
      else
        match body
        case Undecodable(reason) => Threw(DecodingError(reason))
        case Decoded(response) =>
          if response.code == 200 then Returned(response)
          else if response.code == 400 then Threw(BadRequest(response.message.GetOr("Bad request")))
          else if response.code == 401 then Threw(Unauthorized)
          else if response.code == 500 then Threw(ServerError)
          else Threw(UnexpectedStatusCode(response.code, response.message))
  }

  /**
   * A reply is accepted exactly when it is HTTP, not a 401, and decodes to
   * an envelope whose code is 200, whatever the HTTP status otherwise is;
   * the accepted envelope is passed on unchanged.
   */
  lemma HandleResponseAccepts<T>(reply: Reply<T>)
    ensures HandleResponse(reply).Returned? <==>
      reply.HTTP? && reply.statusCode != 401 && reply.body.Decoded? && reply.body.response.code == 200
    ensures HandleResponse(reply).Returned? ==> HandleResponse(reply).value == reply.body.response
  {
  }

  /** A 401, as HTTP status or as the envelope's code, always reads as `unauthorized`. */
  lemma HandleResponseUnauthorized<T>(reply: Reply<T>)
    requires reply.HTTP?
    requires reply.statusCode == 401 || (reply.body.Decoded? && reply.body.response.code == 401)
    ensures HandleResponse(reply) == Threw(Unauthorized)
  {
  }

  /** The error codes 400, 500 and the rest keep the server's message where the error carries one. */
  lemma HandleResponseErrors<T>(reply: Reply<T>)
    requires reply.HTTP? && reply.statusCode != 401 && reply.body.Decoded?
    ensures reply.body.response.code == 400 ==>
      HandleResponse(reply) == Threw(BadRequest(reply.body.response.message.GetOr("Bad request")))
    ensures reply.body.response.code == 500 ==> HandleResponse(reply) == Threw(ServerError)
    ensures reply.body.response.code !in {200, 400, 401, 500} ==>
      HandleResponse(reply) == Threw(UnexpectedStatusCode(reply.body.response.code, reply.body.response.message))
  {
  }

  /**
   * `requestNoBody`'s check: a decodable envelope decides (200 succeeds,
   * 401 is `unauthorized`, any other code unexpected), and an undecodable
   * body fails only for an HTTP status of 400 or more.
   */
  function NoBodyOutcome(reply: Reply<EmptyData>): (r: Outcome<()>)
  {
    match reply
    case NotHTTP => Threw(NetworkError("Invalid response"))
    case HTTP(status, body) =>
      if status == 401 then Threw(Unauthorized)
      else
        match body
        case Decoded(response) =>
          if response.code == 401 then Threw(Unauthorized)
          else if response.code != 200 then Threw(UnexpectedStatusCode(response.code, response.message))
          else Returned(())
        case Undecodable(_) =>
          if status >= 400 then Threw(UnexpectedStatusCode(status, None)) else Returned(())
  }

  /** When a body-less request succeeds: the envelope says 200, or there is none and the status is below 400. */
  lemma NoBodyAccepts(reply: Reply<EmptyData>)
    ensures NoBodyOutcome(reply).Returned? <==>
      reply.HTTP? && reply.statusCode != 401 &&
      (if reply.body.Decoded? then reply.body.response.code == 200 else reply.statusCode < 400)
  {
  }

  /**
   * The two classifications part ways: an envelope coded 400 or 500 is a
   * bad request or server error for a request that decodes its reply, but
   * an unexpected status code for a body-less request; and an undecodable
   * body under a 2xx status fails the one and satisfies the other.
   */
  lemma ClassificationsDiffer(status: int, message: Option<string>, reason: string)
    requires status != 401
    ensures HandleResponse<EmptyData>(HTTP(status, Decoded(APIResponse(400, message, None))))
      == Threw(BadRequest(message.GetOr("Bad request")))
    ensures NoBodyOutcome(HTTP(status, Decoded(APIResponse(400, message, None))))
      == Threw(UnexpectedStatusCode(400, message))
    ensures NoBodyOutcome(HTTP(status, Decoded(APIResponse(500, message, None))))
      == Threw(UnexpectedStatusCode(500, message))
    ensures status < 400 ==> HandleResponse<EmptyData>(HTTP(status, Undecodable(reason))).Threw?
    ensures status < 400 ==> NoBodyOutcome(HTTP(status, Undecodable(reason))) == Returned(())
  {
  }

  // --------------------------------------------------------------- the request

  /** `apiKey()`: the stored key, unless it is missing or empty. */
  function ApiKey(stored: Option<string>): (r: Outcome<string>)
    ensures r.Returned? <==> stored.Some? && stored.value != ""
    ensures r.Returned? ==> r.value == stored.value
    ensures r.Threw? ==> r.error == NoAPIKey
  {
    if stored.Some? && stored.value != "" then Returned(stored.value) else Threw(NoAPIKey)
  }

  /** The parts of a `URLRequest` the client sets. */
  datatype Request = Request(
    path: string,
    queryItems: Option<seq<(string, string)>>,
    httpMethod: string,
    headers: seq<(string, string)>,
    body: Option<Body>)

  /** The request built for an endpoint with a key: authorization always, a JSON content type with a body. */
  function Prepared(e: Endpoint, key: string): (r: Request)
    ensures r.path == e.Path() && r.queryItems == e.QueryItems() && r.httpMethod == e.Method().RawValue()
    ensures r.body == e.JsonBody()
    ensures |r.headers| >= 1 && r.headers[0] == ("Authorization", key)
    ensures ("Content-Type", "application/json") in r.headers <==> r.body.Some?
  {
    var auth := [("Authorization", key)];
    var headers := if e.JsonBody().Some? then auth + [("Content-Type", "application/json")] else auth;
    Request(e.Path(), e.QueryItems(), e.Method().RawValue(), headers, e.JsonBody())
  }

  /** What the transport did: threw with a message, or returned a reply. */
  datatype Transport<T> = Failed(message: string) | Received(reply: Reply<T>)

  /**
   * `request(endpoint)`: a base URL that does not parse, then a missing key,
   * then a transport failure, stop the request in that order; otherwise the
   * reply is classified. `sent` is the request handed to the transport.
   */
  function Send<T>(e: Endpoint, baseURLParses: bool, storedKey: Option<string>, transport: Transport<T>)
    : (r: (Option<Request>, Outcome<APIResponse<T>>))
    ensures r.0.Some? <==> baseURLParses && ApiKey(storedKey).Returned?
    ensures r.0.Some? ==> r.0.value == Prepared(e, storedKey.value)
    ensures !baseURLParses ==> r.1 == Threw(InvalidBaseURL)
    ensures baseURLParses && ApiKey(storedKey).Threw? ==> r.1 == Threw(NoAPIKey)
    ensures r.0.Some? && transport.Failed? ==> r.1 == Threw(NetworkError(transport.message))
    ensures r.0.Some? && transport.Received? ==> r.1 == HandleResponse(transport.reply)
  {
    if !baseURLParses then (None, Threw(InvalidBaseURL))
    else
      match ApiKey(storedKey)
      case Threw(error) => (None, Threw(error))
      case Returned(key) =>
        var request := Prepared(e, key);
        match transport
        case Failed(message) => (Some(request), Threw(NetworkError(message)))
        case Received(reply) => (Some(request), HandleResponse(reply))
  }

  /** `validateAPIKey`: the domain list of a successful domains request, or none when the data is missing. */
  function ValidatedDomains(outcome: Outcome<APIResponse<DomainsResponse>>): (r: Outcome<seq<string>>)
    ensures r.Returned? <==> outcome.Returned?
    ensures r.Returned? && outcome.value.data.Some? ==> r.value == outcome.value.data.value.domains
    ensures r.Returned? && outcome.value.data.None? ==> r.value == []
    ensures r.Threw? ==> r.error == outcome.error
  {
    match outcome
    case Threw(error) => Threw(error)
    case Returned(response) => Returned(if response.data.Some? then response.data.value.domains else [])
  }

  /** The upload's result: the file in the envelope, or a decoding error when the envelope has none. */
  function UploadOutcome(outcome: Outcome<APIResponse<UploadFileResponse>>): (r: Outcome<UploadFileResponse>)
    ensures r.Returned? <==> outcome.Returned? && outcome.value.data.Some?
    ensures r.Returned? ==> r.value == outcome.value.data.value
    ensures outcome.Returned? && outcome.value.data.None? ==> r == Threw(DecodingError("Missing response data"))
    ensures outcome.Threw? ==> r == Threw(outcome.error)
  {
    match outcome
    case Threw(error) => Threw(error)
    case Returned(response) =>
      if response.data.Some? then Returned(response.data.value) else Threw(DecodingError("Missing response data"))
  }

  // ---------------------------------------------------------------- multipart

  const CRLF := "\r\n"

  /** The dash-boundary line that opens each part. */
  function Delimiter(boundary: string): string { "--" + boundary + CRLF }

  /** The close-delimiter line that ends the body. */
  function CloseDelimiter(boundary: string): string { "--" + boundary + "--" + CRLF }

  function FileDisposition(filename: string): string
  {
    "Content-Disposition: form-data; name=\"file\"; filename=\"" + filename + "\"" + CRLF
  }

  const OctetStream := "Content-Type: application/octet-stream" + CRLF + CRLF

  const DomainDisposition := "Content-Disposition: form-data; name=\"domain\"" + CRLF + CRLF

  /** What precedes the file's bytes: the delimiter, the two headers and the blank line. */
  function FileHeaders(boundary: string, filename: string): seq<byte>
  {
    Encode(Delimiter(boundary)) + Encode(FileDisposition(filename)) + Encode(OctetStream)
  }

  /** The file part: delimiter, headers and blank line, the file's bytes, and the line break that ends it. */
  function FilePart(boundary: string, filename: string, fileData: seq<byte>): seq<byte>
  {
    FileHeaders(boundary, filename) + fileData + Encode(CRLF)
  }

  /** The domain part, laid out the same way around the domain's text. */
  function DomainPart(boundary: string, domain: string): seq<byte>
  {
    Encode(Delimiter(boundary)) + Encode(DomainDisposition) + Encode(domain) + Encode(CRLF)
  }

  /** The form: the file part, the domain part when there is a domain, and the close delimiter. */
  function Multipart(boundary: string, filename: string, fileData: seq<byte>, domain: Option<string>): seq<byte>
  {
    FilePart(boundary, filename, fileData)
      + (if domain.Some? then DomainPart(boundary, domain.value) else [])
      + Encode(CloseDelimiter(boundary))
  }

  /** The body `uploadFile` builds by appending to a buffer in turn; it is the form above. */
  method MultipartBody(boundary: string, filename: string, fileData: seq<byte>, domain: Option<string>)
    returns (body: seq<byte>)
    ensures body == Multipart(boundary, filename, fileData, domain)
  {
    body := AppendFilePart([], boundary, filename, fileData);
    assert body == FilePart(boundary, filename, fileData);
    if domain.Some? {
      body := AppendDomainPart(body, boundary, domain.value);
    }
    body := body + Encode(CloseDelimiter(boundary));
  }

  /** The file part's appends: delimiter, disposition, content type, the bytes and a line break. */
  method AppendFilePart(buffer: seq<byte>, boundary: string, filename: string, fileData: seq<byte>)
    returns (body: seq<byte>)
    ensures body == buffer + FilePart(boundary, filename, fileData)
  {
    body := buffer;
    body := body + Encode(Delimiter(boundary));
    body := body + Encode(FileDisposition(filename));
    body := body + Encode(OctetStream);
    body := body + fileData;
    body := body + Encode(CRLF);
  }

  /** The domain part's appends: delimiter, disposition, the domain and a line break. */
  method AppendDomainPart(buffer: seq<byte>, boundary: string, domain: string) returns (body: seq<byte>)
    ensures body == buffer + DomainPart(boundary, domain)
  {
    body := buffer;
    body := body + Encode(Delimiter(boundary));
    body := body + Encode(DomainDisposition);
    body := body + Encode(domain);
    body := body + Encode(CRLF);
  }

  /** The body opens with the first delimiter and ends with the close delimiter. */
  lemma MultipartFraming(boundary: string, filename: string, fileData: seq<byte>, domain: Option<string>)
    ensures Encode(Delimiter(boundary)) <= Multipart(boundary, filename, fileData, domain)
    ensures var body := Multipart(boundary, filename, fileData, domain);
      var close := Encode(CloseDelimiter(boundary));
      |close| <= |body| && body[|body| - |close|..] == close
  {
    var headers := FileHeaders(boundary, filename);
    var domainPart := if domain.Some? then DomainPart(boundary, domain.value) else [];
    FivePieces(headers, fileData, Encode(CRLF), domainPart, Encode(CloseDelimiter(boundary)));
    PrefixOfPrefix(Encode(Delimiter(boundary)), headers, Multipart(boundary, filename, fileData, domain));
  }

  /** The file's bytes sit unchanged right after the file part's delimiter and headers. */
  lemma MultipartCarriesFile(boundary: string, filename: string, fileData: seq<byte>, domain: Option<string>)
    ensures var start := |FileHeaders(boundary, filename)|;
      var body := Multipart(boundary, filename, fileData, domain);
      start + |fileData| <= |body| && body[start..start + |fileData|] == fileData
  {
    var domainPart := if domain.Some? then DomainPart(boundary, domain.value) else [];
    FivePieces(FileHeaders(boundary, filename), fileData, Encode(CRLF), domainPart, Encode(CloseDelimiter(boundary)));
  }

  /**
   * The domain part is there exactly when a domain is given, holds the
   * domain's bytes after its delimiter and headers, and is all the
   * difference it makes.
   */
  lemma MultipartDomainPart(boundary: string, filename: string, fileData: seq<byte>, domain: string)
    ensures var withDomain := Multipart(boundary, filename, fileData, Some(domain));
      var without := Multipart(boundary, filename, fileData, None);
      var file := FilePart(boundary, filename, fileData);
      && |withDomain| == |without| + |DomainPart(boundary, domain)|
      && withDomain[..|file|] == without[..|file|] == file
      && withDomain[|file|..|file| + |DomainPart(boundary, domain)|] == DomainPart(boundary, domain)
  {
    var headers, crlf, close := FileHeaders(boundary, filename), Encode(CRLF), Encode(CloseDelimiter(boundary));
    FivePieces(headers, fileData, crlf, DomainPart(boundary, domain), close);
    FivePieces(headers, fileData, crlf, [], close);
  }

  /**
   * Where each piece of a five-piece concatenation sits: the first opens
   * it, the last closes it, the second follows the first, and the fourth
   * follows the first three.
   */
  lemma FivePieces<T>(h: seq<T>, d: seq<T>, e: seq<T>, m: seq<T>, z: seq<T>)
    ensures var all := h + d + e + m + z;
      var head := h + d + e;
      && h <= all
      && |all| == |h| + |d| + |e| + |m| + |z|
      && all[|all| - |z|..] == z
      && all[|h|..|h| + |d|] == d
      && all[..|head|] == head && all[|head|..|head| + |m|] == m
  {
    var all := h + d + e + m + z;
    var head := h + d + e;
    assert all == head + (m + z);
    assert all == h + (d + e + m + z);
  }

  /** Being a prefix is transitive. */
  lemma PrefixOfPrefix<T>(a: seq<T>, b: seq<T>, c: seq<T>)
    requires a <= b && b <= c
    ensures a <= c
  {
    assert c[..|a|] == c[..|b|][..|a|];
  }
}
