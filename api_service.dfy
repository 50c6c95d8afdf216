/**
 * The browser's API adapter (frontend/services/apiService.ts): the shape of
 * the three requests it sends, and the response interceptor of the
 * configured client, which passes answers through and turns every transport
 * failure into an ApiError. What the network answered is an input
 * (`Transport`), since the model does not run HTTP.
 */
module ApiService {
  import opened Types
  import opened Text

  datatype Verb = Get | Post | Put

  /**
   * The axios instance that sends a request: the configured client (base
   * URL, JSON content type, 30 s timeout, error interceptor) or axios's bare
   * default instance, which has none of these.
   */
  datatype Client = ApiClient | BareAxios

  datatype Payload = NoPayload | JsonObject(fields: map<string, string>) | FileBody(file: File)

  datatype Request = Request(verb: Verb, client: Client, url: string, contentType: string, payload: Payload)

  /** A resolved exchange; `data` is the parsed body. */
  datatype Response<+T> = Response(status: int, data: T)

  /** The response attached to an axios failure; `data` is the parsed JSON object, if any. */
  datatype ErrorResponse = ErrorResponse(status: int, data: Option<map<string, string>>)

  /** An axios failure: its own message, and the server's response when there was one. */
  datatype AxiosError = AxiosError(message: string, response: Option<ErrorResponse>)

  /** What the transport did with one request. */
  datatype Transport<+T> = Resolved(response: Response<T>) | Rejected(error: AxiosError)

  /** The value a rejected promise carries. */
  datatype Rejection =
    | Mapped(apiError: ApiError)        // from the configured client, through the interceptor
    | Unmapped(axiosError: AxiosError)  // from the bare axios instance, untouched
    | Thrown(text: string)              // `new Error(text)`

  /** The `.message` property of a rejection value. */
  function Message(r: Rejection): string {
    match r
    case Mapped(e) => e.message
    case Unmapped(e) => e.message
    case Thrown(text) => text
  }

  const JsonContentType := "application/json"
  const PdfContentType := "application/pdf"
  const UploadUrlPath := "/generate-upload-url"
  const StatusPathPrefix := "/check-status/"
  const DefaultErrorMessage := "An error occurred"
  const NoResponseStatus := 500

  /**
   * `error.response?.data?.message`; a missing response, body or field reads
   * as the empty string, which JavaScript's `||` treats the same way.
   */
  function ServerMessage(e: AxiosError): string {
    if e.response.Some? && e.response.value.data.Some? && "message" in e.response.value.data.value
    then e.response.value.data.value["message"]
    else ""
  }

  /** The interceptor's error branch: the `{message, status}` it rejects with. */
  function ToApiError(e: AxiosError): (r: ApiError)
    ensures r.message != ""
    ensures r.message in {ServerMessage(e), e.message, DefaultErrorMessage}
    ensures ServerMessage(e) != "" ==> r.message == ServerMessage(e)
    ensures ServerMessage(e) == "" && e.message != "" ==> r.message == e.message
    ensures ServerMessage(e) == "" && e.message == "" ==> r.message == DefaultErrorMessage
    ensures r.status != 0
    ensures e.response.None? ==> r.status == NoResponseStatus
    ensures e.response.Some? && e.response.value.status == 0 ==> r.status == NoResponseStatus
    ensures e.response.Some? && e.response.value.status != 0 ==> r.status == e.response.value.status
  {
    var message :=
      if ServerMessage(e) != "" then ServerMessage(e)
      else if e.message != "" then e.message
      else DefaultErrorMessage;
    var status :=
      if e.response.Some? && e.response.value.status != 0 then e.response.value.status
      else NoResponseStatus;
    ApiError(message, status)
  }

  /** The configured client's interceptor pair: responses unchanged, failures mapped. */
  function Intercept<T>(answer: Transport<T>): (r: Result<Response<T>, Rejection>)
    ensures r.Ok? <==> answer.Resolved?
    ensures answer.Resolved? ==> r.value == answer.response
    ensures answer.Rejected? ==> r.error == Mapped(ToApiError(answer.error))
  {
    match answer
    case Resolved(response) => Ok(response)
    case Rejected(e) => Err(Mapped(ToApiError(e)))
  }

  /** `getUploadUrl(fileName)` sends this request. */
  function GetUploadUrlRequest(fileName: string): (r: Request)
    ensures r.verb == Post && r.client == ApiClient && r.url == UploadUrlPath
    ensures r.payload.JsonObject? && r.payload.fields.Keys == {"file_name"}
    ensures r.payload.fields["file_name"] == fileName
  {
    Request(Post, ApiClient, UploadUrlPath, JsonContentType, JsonObject(map["file_name" := fileName]))
  }

  /** `getUploadUrl` given the answer to its request: the body unchanged, or a mapped rejection. */
  function GetUploadUrl(answer: Transport<UploadResponse>): (r: Result<UploadResponse, Rejection>)
    ensures r.Ok? <==> answer.Resolved?
    ensures r.Ok? ==> r.value == answer.response.data
    ensures r.Err? ==> r.error.Mapped? && r.error.apiError == ToApiError(answer.error)
  {
    match Intercept(answer)
    case Ok(response) => Ok(response.data)
    case Err(rejection) => Err(rejection)
  }

  /** `uploadFile(uploadUrl, file)` sends this request, through the bare axios instance. */
  function UploadFileRequest(uploadUrl: string, file: File): (r: Request)
    ensures r.verb == Put && r.client == BareAxios && r.url == uploadUrl
    ensures r.contentType == PdfContentType && r.payload == FileBody(file)
  {
    Request(Put, BareAxios, uploadUrl, PdfContentType, FileBody(file))
  }

  /**
   * `uploadFile` given the answer to its request. The bare instance has no
   * interceptor, so a failure is rejected with the axios error itself.
   */
  function UploadFile(answer: Transport<()>): (r: Result<(), Rejection>)
    ensures r.Ok? <==> answer.Resolved?
    ensures r.Err? ==> r.error == Unmapped(answer.error) && Message(r.error) == answer.error.message
  {
    match answer
    case Resolved(_) => Ok(())
    case Rejected(e) => Err(Unmapped(e))
  }

  /** `checkStatus(fileName)` sends this request: the name is the last path segment. */
  function CheckStatusRequest(fileName: string): (r: Request)
    ensures r.verb == Get && r.client == ApiClient && r.payload == NoPayload
    ensures StartsWith(r.url, StatusPathPrefix) && r.url[|StatusPathPrefix|..] == fileName
  {
    Request(Get, ApiClient, StatusPathPrefix + fileName, JsonContentType, NoPayload)
  }

  /** `checkStatus` given the answer to its request: the body unchanged, or a mapped rejection. */
  function CheckStatus(answer: Transport<ConversionResult>): (r: Result<ConversionResult, Rejection>)
    ensures r.Ok? <==> answer.Resolved?
    ensures r.Ok? ==> r.value == answer.response.data
    ensures r.Err? ==> r.error.Mapped? && r.error.apiError == ToApiError(answer.error)
  {
    match Intercept(answer)
    case Ok(response) => Ok(response.data)
    case Err(rejection) => Err(rejection)
  }
}
