/**
 * The FastAPI backend (app.py): the Pub/Sub conversion handler, the
 * upload-slot generator and the status lookup.
 *
 * Firestore's `processed_files` collection is a map from document id to
 * record, and the two Cloud Storage buckets are sets of object names.
 * Ghostscript and URL signing are oracles passed in as parameters; the
 * 8-character id cut from a random UUID is a parameter too.
 */
module Backend {
  import opened Types
  import opened Text

  // ---------------------------------------------------------------------
  // Constants

  /** The bucket names when BUCKET_INPUT and BUCKET_OUTPUT are not set. */
  const InputBucket := "pdf-input-bucket-cmyk-convertor"
  const OutputBucket := "pdf-output-bucket-cmyk-convertor"

  const PdfSuffix := ".pdf"
  const ConvertedSuffix := "-cmyk.pdf"
  const ConvertedMarker := "-cmyk."

  const AlreadyConverted := "Already converted"
  const AlreadyProcessed := "Already processed"
  const FileNotFound := "File not found"

  const MissingNameDetail := "Missing PDF file name in Pub/Sub message"
  const NotPdfDetail := "Only PDF files are supported"
  const GhostscriptFailedDetail := "Ghostscript conversion failed."
  const InternalPrefix := "Internal error: "
  const InvalidUploadNameDetail := "Invalid or missing 'file_name'. Must be a .pdf"
  const UploadPrefix := "Failed to generate upload URL: "
  const NotProcessedDetail := "File not processed yet or does not exist."
  const MissingConvertedDetail := "Missing converted file name in Firestore document."
  const StatusPrefix := "Failed to check status: "

  /** Lifetimes of signed URLs, in minutes: the download link the handler records, the upload slot, a refreshed download link. */
  const DownloadLinkMinutes: nat := 15
  const UploadLinkMinutes: nat := 10
  const RefreshedLinkMinutes: nat := 10

  // ---------------------------------------------------------------------
  // Exceptions

  datatype HttpException = HttpException(status: nat, detail: string)

  /** Starlette's `str()` of an HTTPException: "<status>: <detail>". */
  function Describe(e: HttpException): (r: string)
    ensures EndsWith(r, ": " + e.detail)
  {
    var r := DecimalString(e.status) + ": " + e.detail;
    assert r[|r| - |": " + e.detail|..] == ": " + e.detail;
    r
  }

  /** FastAPI's JSON body for a raised HTTPException. */
  function ErrorBody(e: HttpException): map<string, string> {
    map["detail" := e.detail]
  }

  /** What the body of a `try` block can raise. */
  datatype Raised =
    | Http(exception: HttpException)
    | GhostscriptFailed    // subprocess.CalledProcessError
    | Other(text: string)  // any other exception, by its `str()`

  /** `str(e)` of a raised exception caught by `except Exception as e`. */
  function RaisedText(r: Raised): string
    requires !r.GhostscriptFailed?
  {
    match r
    case Http(e) => Describe(e)
    case Other(text) => text
  }

  /** An `except Exception as e` clause that re-raises as 500 with `prefix + str(e)`. */
  function Reraise(prefix: string, r: Raised): (e: HttpException)
    requires !r.GhostscriptFailed?
    ensures e.status == 500 && StartsWith(e.detail, prefix)
  {
    HttpException(500, prefix + RaisedText(r))
  }

  // ---------------------------------------------------------------------
  // URL signing

  /** The arguments of one v4 signing call; a PUT URL is bound to the PDF content type. */
  datatype SignRequest = SignRequest(bucket: string, blob: string, expirationMinutes: nat, httpMethod: string,
                                     contentType: Option<string>)

  /** Signing a URL: the signed URL, or the text of the exception the client library raised. */
  type Signer = SignRequest -> Result<string, string>

  /** `generate_signed_url(bucket, blob, minutes, method)`: the request it hands to the signer. */
  function SignedUrlRequest(bucket: string, blob: string, minutes: nat, httpMethod: string): (r: SignRequest)
    ensures r.bucket == bucket && r.blob == blob && r.expirationMinutes == minutes && r.httpMethod == httpMethod
    ensures r.contentType.Some? <==> httpMethod == "PUT"
    ensures r.contentType.Some? ==> r.contentType.value == "application/pdf"
  {
    SignRequest(bucket, blob, minutes, httpMethod, if httpMethod == "PUT" then Some("application/pdf") else None)
  }

  // ---------------------------------------------------------------------
  // File names

  /** A message attribute, with a missing key read as the empty string (both are falsy to Python's `or`). */
  function Attribute(attributes: map<string, string>, key: string): string {
    if key in attributes then attributes[key] else ""
  }

  /**
   * The message's `data` after base64 and JSON decoding: absent (missing or
   * empty), decoded with the `file_name` field it holds (None when it is
   * missing or falsy), or failing with the text of the decoder's exception.
   */
  datatype Payload = NoData | Decoded(fileName: Option<string>) | Undecodable(reason: string)

  datatype PubsubMessage = PubsubMessage(attributes: map<string, string>, data: Payload)

  datatype NameSource = Found(name: string) | Missing | DecodeFailed(reason: string)

  /** The name: the `name` attribute, else `objectId`, else `file_name` from the decoded data; empty counts as absent. */
  function ResolveFileName(m: PubsubMessage): NameSource {
    if Attribute(m.attributes, "name") != "" then Found(Attribute(m.attributes, "name"))
    else if Attribute(m.attributes, "objectId") != "" then Found(Attribute(m.attributes, "objectId"))
    else
      match m.data
      case NoData => Missing
      case Undecodable(reason) => DecodeFailed(reason)
      case Decoded(fileName) => if fileName.Some? && fileName.value != "" then Found(fileName.value) else Missing
  }

  /** The skip rule: the name ends with "-cmyk.pdf" or contains "-cmyk." anywhere. */
  predicate LooksConverted(name: string) {
    EndsWith(name, ConvertedSuffix) || Contains(name, ConvertedMarker)
  }

  /** Some character of `p[lo..hi]` is not a dot. */
  predicate HasNonDot(p: string, lo: int, hi: int)
    requires 0 <= lo && hi <= |p|
  {
    exists k | lo <= k < hi :: p[k] != '.'
  }

  /**
   * `os.path.splitext(p)[0]` on POSIX: cut at the last dot if it follows the
   * last slash and the base name has a non-dot character before it (so
   * leading dots of a hidden file do not start an extension); else `p`.
   */
  function SplitextRoot(p: string): (root: string)
    ensures StartsWith(p, root)
    ensures root != p ==> p[|root|] == '.' && forall k | |root| < k < |p| :: p[k] != '.' && p[k] != '/'
  {
    var sep := LastIndexOf(p, '/');
    var dot := LastIndexOf(p, '.');
    if dot > sep && HasNonDot(p, sep + 1, dot) then p[..dot] else p
  }

  /** `f"{os.path.splitext(file_name)[0]}-cmyk.pdf"`. */
  function OutputName(fileName: string): (r: string)
    ensures EndsWith(r, ConvertedSuffix)
    ensures StartsWith(r, SplitextRoot(fileName))
    ensures |r| == |SplitextRoot(fileName)| + |ConvertedSuffix|
  {
    var r := SplitextRoot(fileName) + ConvertedSuffix;
    assert r[|r| - |ConvertedSuffix|..] == ConvertedSuffix;
    assert r[..|SplitextRoot(fileName)|] == SplitextRoot(fileName);
    r
  }

  predicate IsHexDigit(c: char) {
    '0' <= c <= '9' || 'a' <= c <= 'f'
  }

  /** `str(uuid.uuid4())[:8]`: eight lowercase hexadecimal digits. */
  predicate IsUuidPrefix(id: string) {
    |id| == 8 && forall i | 0 <= i < |id| :: IsHexDigit(id[i])
  }

  /** `f"{unique_id}_{original_name}"`. */
  function SafeName(uniqueId: string, originalName: string): (r: string)
    ensures StartsWith(r, uniqueId + "_") && EndsWith(r, originalName)
    ensures |r| == |uniqueId| + 1 + |originalName|
  {
    var r := uniqueId + "_" + originalName;
    assert r[..|uniqueId + "_"|] == uniqueId + "_";
    assert r[|r| - |originalName|..] == originalName;
    r
  }

  // ---------------------------------------------------------------------
  // The stores

  /** A `processed_files` document (its `ttl` field is not modelled). */
  datatype Record = Record(originalFile: string, convertedFile: string, downloadUrl: string)

  datatype Store = Store(processedFiles: map<string, Record>, inputBucket: set<string>, outputBucket: set<string>)

  // ---------------------------------------------------------------------
  // pubsub_entrypoint

  datatype PubsubReply =
    | Skipped(reason: string)                          // {"status": "skipped", "reason": ...}
    | Converted(convertedFile: string, downloadUrl: string)  // {"status": "success", ...}

  /** The `try` block of the handler: how it ends, and the stores as it leaves them. */
  datatype Step = Replied(reply: PubsubReply, store: Store) | Raise(raised: Raised, store: Store)

  /** The handler's `try` block, given whether Ghostscript succeeds and how signing behaves. */
  function PubsubSteps(st: Store, m: PubsubMessage, ghostscriptOk: bool, sign: Signer): Step {
    match ResolveFileName(m)
    case Missing => Raise(Http(HttpException(400, MissingNameDetail)), st)
    case DecodeFailed(reason) => Raise(Other(reason), st)
    case Found(fileName) =>
      if LooksConverted(fileName) then Replied(Skipped(AlreadyConverted), st)
      else if !EndsWith(fileName, PdfSuffix) then Raise(Http(HttpException(400, NotPdfDetail)), st)
      else if fileName in st.processedFiles then Replied(Skipped(AlreadyProcessed), st)
      else
        var output := OutputName(fileName);
        if fileName !in st.inputBucket then Replied(Skipped(FileNotFound), st)
        else if !ghostscriptOk then Raise(GhostscriptFailed, st)
        else
          var uploaded := st.(outputBucket := st.outputBucket + {output});
          match sign(SignedUrlRequest(OutputBucket, output, DownloadLinkMinutes, "GET"))
          case Err(reason) => Raise(Other(reason), uploaded)
          case Ok(url) =>
            Replied(Converted(output, url),
                    uploaded.(processedFiles := st.processedFiles[fileName := Record(fileName, output, url)]))
  }

  /** The handler's two `except` clauses. */
  function PubsubFailure(r: Raised): (e: HttpException)
    ensures e.status == 500
    ensures r.GhostscriptFailed? ==> e.detail == GhostscriptFailedDetail
    ensures !r.GhostscriptFailed? ==> e.detail == InternalPrefix + RaisedText(r)
  {
    if r.GhostscriptFailed? then HttpException(500, GhostscriptFailedDetail) else Reraise(InternalPrefix, r)
  }

  /** What a delivery returns, and the stores after it. */
  datatype Handled = Handled(response: Result<PubsubReply, HttpException>, store: Store)

  function HandlePubsub(st: Store, m: PubsubMessage, ghostscriptOk: bool, sign: Signer): Handled {
    match PubsubSteps(st, m, ghostscriptOk, sign)
    case Replied(reply, after) => Handled(Ok(reply), after)
    case Raise(raised, after) => Handled(Err(PubsubFailure(raised)), after)
  }

  /** The Firestore collection and the two buckets, changed in place by the Pub/Sub handler. */
  class CloudStores {
    var processedFiles: map<string, Record>
    var inputBucket: set<string>
    var outputBucket: set<string>

    function Contents(): Store
      reads this
    {
      Store(processedFiles, inputBucket, outputBucket)
    }

    constructor (st: Store)
      ensures Contents() == st
    {
      processedFiles, inputBucket, outputBucket := st.processedFiles, st.inputBucket, st.outputBucket;
    }

    /** `pubsub_entrypoint`: one delivery of a storage notification. */
    method PubsubEntrypoint(m: PubsubMessage, ghostscriptOk: bool, sign: Signer)
      returns (response: Result<PubsubReply, HttpException>)
      modifies this
      ensures Handled(response, Contents()) == HandlePubsub(old(Contents()), m, ghostscriptOk, sign)
      ensures inputBucket == old(inputBucket)
    {
      var source := ResolveFileName(m);
      if source.Missing? {
        return Err(PubsubFailure(Http(HttpException(400, MissingNameDetail))));
      }
      if source.DecodeFailed? {
        return Err(PubsubFailure(Other(source.reason)));
      }
      var fileName := source.name;
      if LooksConverted(fileName) {
        return Ok(Skipped(AlreadyConverted));
      }
      if !EndsWith(fileName, PdfSuffix) {
        return Err(PubsubFailure(Http(HttpException(400, NotPdfDetail))));
      }
      if fileName in processedFiles {
        return Ok(Skipped(AlreadyProcessed));
      }
      var output := OutputName(fileName);
      if fileName !in inputBucket {
        return Ok(Skipped(FileNotFound));
      }
      if !ghostscriptOk {
        return Err(PubsubFailure(GhostscriptFailed));
      }
      outputBucket := outputBucket + {output};
      var signed := sign(SignedUrlRequest(OutputBucket, output, DownloadLinkMinutes, "GET"));
      if signed.Err? {
        return Err(PubsubFailure(Other(signed.error)));
      }
      processedFiles := processedFiles[fileName := Record(fileName, output, signed.value)];
      response := Ok(Converted(output, signed.value));
    }
  }

  // ---------------------------------------------------------------------
  // generate_upload_url

  /** The JSON reply of `/generate-upload-url`. */
  datatype UploadSlot = UploadSlot(uploadUrl: string, fileName: string, originalName: string, expiresInMinutes: nat)

  /**
   * `generate_upload_url` for a JSON object body and the id cut from the
   * request's UUID: a PUT slot in the input bucket under the safe name.
   */
  function GenerateUploadUrl(body: map<string, string>, uniqueId: string, sign: Signer): (r: Result<UploadSlot, HttpException>)
    ensures r.Err? ==> r.error.status == 500 && StartsWith(r.error.detail, UploadPrefix)
    ensures r.Ok? ==>
      && r.value.originalName == Attribute(body, "file_name")
      && r.value.fileName == SafeName(uniqueId, r.value.originalName)
      && EndsWith(r.value.fileName, PdfSuffix)
      && r.value.expiresInMinutes == UploadLinkMinutes
      && sign(SignedUrlRequest(InputBucket, r.value.fileName, UploadLinkMinutes, "PUT")) == Ok(r.value.uploadUrl)
  {
    var originalName := Attribute(body, "file_name");
    if originalName == "" || !EndsWith(originalName, PdfSuffix) then
      Err(Reraise(UploadPrefix, Http(HttpException(400, InvalidUploadNameDetail))))
    else
      var safeName := SafeName(uniqueId, originalName);
      EndsWithTransitive(safeName, originalName, PdfSuffix);
      match sign(SignedUrlRequest(InputBucket, safeName, UploadLinkMinutes, "PUT"))
      case Err(reason) => Err(Reraise(UploadPrefix, Other(reason)))
      case Ok(url) => Ok(UploadSlot(url, safeName, originalName, UploadLinkMinutes))
  }

  lemma EndsWithTransitive(s: string, t: string, suffix: string)
    requires EndsWith(s, t) && EndsWith(t, suffix)
    ensures EndsWith(s, suffix)
  {
    assert s[|s| - |suffix|..] == t[|t| - |suffix|..];
  }

  // ---------------------------------------------------------------------
  // check_conversion_status

  /** The JSON reply of `/check-status/{file_name}`: {"status": "completed", ...}. */
  datatype StatusReply = Completed(convertedFile: string, downloadUrl: string)

  /** `check_conversion_status(file_name)`: a read-only lookup in `processed_files`, with a freshly signed link. */
  function CheckConversionStatus(processedFiles: map<string, Record>, fileName: string, sign: Signer)
    : (r: Result<StatusReply, HttpException>)
    ensures r.Err? ==> r.error.status == 500 && StartsWith(r.error.detail, StatusPrefix)
    ensures r.Ok? <==>
      && fileName in processedFiles
      && processedFiles[fileName].convertedFile != ""
      && sign(SignedUrlRequest(OutputBucket, processedFiles[fileName].convertedFile, RefreshedLinkMinutes, "GET")).Ok?
    ensures r.Ok? ==>
      && r.value.convertedFile == processedFiles[fileName].convertedFile
      && Ok(r.value.downloadUrl) == sign(SignedUrlRequest(OutputBucket, r.value.convertedFile, RefreshedLinkMinutes, "GET"))
  {
    if fileName !in processedFiles then
      Err(Reraise(StatusPrefix, Http(HttpException(404, NotProcessedDetail))))
    else
      var convertedFile := processedFiles[fileName].convertedFile;
      if convertedFile == "" then
        Err(Reraise(StatusPrefix, Http(HttpException(500, MissingConvertedDetail))))
      else
        match sign(SignedUrlRequest(OutputBucket, convertedFile, RefreshedLinkMinutes, "GET"))
        case Err(reason) => Err(Reraise(StatusPrefix, Other(reason)))
        case Ok(url) => Ok(Completed(convertedFile, url))
  }

  /**
   * FastAPI's match of a request path against "/check-status/{file_name}":
   * the parameter is the rest of the path when that is one non-empty
   * segment. Paths with a query, a fragment or a percent escape are outside
   * the model.
   */
  function StatusRouteParam(path: string): (r: Option<string>)
    ensures r.Some? ==> path == "/check-status/" + r.value
  {
    var prefix := "/check-status/";
    if StartsWith(path, prefix) && PlainSegment(path[|prefix|..]) then
      assert path == prefix + path[|prefix|..];
      Some(path[|prefix|..])
    else None
  }

  /**
   * A non-empty path segment that reaches the server as written: no
   * character that would end it or need decoding, none that the browser's
   * URL parser rewrites (a backslash becomes '/', tab, LF and CR are
   * dropped), not a dot segment, which the parser collapses, and not
   * ending in a space or control character, which the parser strips from
   * the end of the URL.
   */
  predicate PlainSegment(s: string) {
    && s != [] && s != "." && s != ".." && s[|s| - 1] > ' '
    && forall i | 0 <= i < |s| ::
         && s[i] != '/' && s[i] != '?' && s[i] != '#' && s[i] != '%'
         && s[i] != '\\' && s[i] != '\t' && s[i] != '\n' && s[i] != '\r'
  }

  // ---------------------------------------------------------------------
  // Properties of name resolution and naming

  /**
   * The name comes from the first non-empty source in the order `name`,
   * `objectId`, decoded `file_name`; the data is decoded only when both
   * attributes are empty, so a broken payload does not matter otherwise.
   */
  lemma NameResolutionOrder(m: PubsubMessage, otherData: Payload)
    ensures var r := ResolveFileName(m);
      var name := Attribute(m.attributes, "name");
      var objectId := Attribute(m.attributes, "objectId");
      && (r.Found? ==> r.name != "" && (r.name == name || r.name == objectId || m.data == Decoded(Some(r.name))))
      && (name != "" ==> r == Found(name))
      && (name == "" && objectId != "" ==> r == Found(objectId))
      && (name == "" && objectId == "" && m.data.Decoded? && m.data.fileName.Some? && m.data.fileName.value != ""
          ==> r == Found(m.data.fileName.value))
      && (r.Missing? <==> name == "" && objectId == ""
                          && (m.data.NoData? || (m.data.Decoded? && (m.data.fileName.None? || m.data.fileName.value == ""))))
      && (r.DecodeFailed? <==> name == "" && objectId == "" && m.data.Undecodable?)
      && (name != "" || objectId != "" ==> ResolveFileName(m.(data := otherData)) == r)
  {
  }

  /** The `endswith("-cmyk.pdf")` test adds nothing to the `"-cmyk." in name` test. */
  lemma MarkerSubsumesSuffix(name: string)
    ensures LooksConverted(name) <==> Contains(name, ConvertedMarker)
  {
    if EndsWith(name, ConvertedSuffix) {
      var i := |name| - |ConvertedSuffix|;
      assert name[i..] == ConvertedSuffix;
      assert name[i..i + |ConvertedMarker|] == name[i..][..|ConvertedMarker|];
      assert ConvertedSuffix[..|ConvertedMarker|] == ConvertedMarker;
      assert OccursAt(name, ConvertedMarker, i);
    }
  }

  /** Every output name contains "-cmyk.", so the handler would skip it if it were delivered. */
  lemma OutputNameLooksConverted(fileName: string)
    ensures LooksConverted(OutputName(fileName))
    ensures Contains(OutputName(fileName), ConvertedMarker)
  {
    MarkerSubsumesSuffix(OutputName(fileName));
  }

  /**
   * For a ".pdf" name the output name replaces the extension with
   * "-cmyk.pdf", unless the base name is nothing but dots before ".pdf"
   * (".pdf", "dir/..pdf"), where `splitext` finds no extension and the
   * suffix is appended to the whole name.
   */
  lemma OutputNameOfPdf(fileName: string)
    requires EndsWith(fileName, PdfSuffix)
    ensures HasNonDot(fileName, LastIndexOf(fileName, '/') + 1, |fileName| - 4) ==>
      OutputName(fileName) == fileName[..|fileName| - 4] + ConvertedSuffix
    ensures !HasNonDot(fileName, LastIndexOf(fileName, '/') + 1, |fileName| - 4) ==>
      OutputName(fileName) == fileName + ConvertedSuffix
  {
    PdfExtensionIsLast(fileName);
    var n := |fileName|;
    var sep := LastIndexOf(fileName, '/');
    assert LastIndexOf(fileName, '.') == n - 4;
    if HasNonDot(fileName, sep + 1, n - 4) {
      assert SplitextRoot(fileName) == fileName[..n - 4];
    } else {
      assert SplitextRoot(fileName) == fileName;
    }
  }

  /** In a ".pdf" name the last dot is the extension's and every slash comes before it. */
  lemma PdfExtensionIsLast(fileName: string)
    requires EndsWith(fileName, PdfSuffix)
    ensures LastIndexOf(fileName, '.') == |fileName| - 4
    ensures LastIndexOf(fileName, '/') < |fileName| - 4
  {
    var n := |fileName|;
    assert fileName[n - 4..] == PdfSuffix;
    forall j | 0 <= j < 4
      ensures fileName[n - 4 + j] == PdfSuffix[j]
    {
      assert fileName[n - 4..][j] == fileName[n - 4 + j];
    }
    var dot := LastIndexOf(fileName, '.');
    assert fileName[n - 4] == '.';
    assert dot == n - 4;
  }

  /**
   * A file name without a directory whose stem has a non-dot character
   * ("report.pdf") has its ".pdf" replaced: "report-cmyk.pdf".
   */
  lemma OutputNameReplacesExtension(stem: string)
    requires forall i | 0 <= i < |stem| :: stem[i] != '/'
    requires exists i | 0 <= i < |stem| :: stem[i] != '.'
    ensures OutputName(stem + PdfSuffix) == stem + ConvertedSuffix
  {
    var fileName := stem + PdfSuffix;
    PdfExtensionIsLast(fileName);
    var sep := LastIndexOf(fileName, '/');
    var k :| 0 <= k < |stem| && stem[k] != '.';
    assert fileName[k] == stem[k];
    assert HasNonDot(fileName, sep + 1, |fileName| - 4);
    OutputNameOfPdf(fileName);
    assert fileName[..|fileName| - 4] == stem;
  }

  /**
   * A file name whose stem is dots alone (".pdf", "...pdf") has no
   * extension for `splitext`, so the suffix goes after the whole name:
   * ".pdf-cmyk.pdf".
   */
  lemma OutputNameOfDotsOnly(stem: string)
    requires forall i | 0 <= i < |stem| :: stem[i] == '.'
    ensures OutputName(stem + PdfSuffix) == stem + PdfSuffix + ConvertedSuffix
  {
    var fileName := stem + PdfSuffix;
    PdfExtensionIsLast(fileName);
    var sep := LastIndexOf(fileName, '/');
    assert !HasNonDot(fileName, sep + 1, |fileName| - 4) by {
      forall k | sep + 1 <= k < |fileName| - 4
        ensures fileName[k] == '.'
      {
        assert fileName[k] == stem[k];
      }
    }
    OutputNameOfPdf(fileName);
  }

  /**
   * The hexadecimal id and the underscore cannot start "-cmyk.", so the
   * upload name contains the marker exactly when the original name does.
   */
  lemma SafeNameMarker(uniqueId: string, originalName: string)
    requires IsUuidPrefix(uniqueId)
    ensures Contains(SafeName(uniqueId, originalName), ConvertedMarker) <==> Contains(originalName, ConvertedMarker)
  {
    var s := SafeName(uniqueId, originalName);
    var w := |ConvertedMarker|;
    assert s == uniqueId + "_" + originalName;
    if Contains(originalName, ConvertedMarker) {
      var i :| 0 <= i <= |originalName| - w && OccursAt(originalName, ConvertedMarker, i);
      assert s[i + 9..i + 9 + w] == originalName[i..i + w];
      assert OccursAt(s, ConvertedMarker, i + 9);
    }
    if Contains(s, ConvertedMarker) {
      var i :| 0 <= i <= |s| - w && OccursAt(s, ConvertedMarker, i);
      assert s[i] == '-' by {
        assert s[i..i + w][0] == s[i];
      }
      if i < 9 {
        SafeNameHead(uniqueId, originalName, i);
      }
      assert 9 <= i;
      assert originalName[i - 9..i - 9 + w] == s[i..i + w];
      assert OccursAt(originalName, ConvertedMarker, i - 9);
    }
  }

  /** A 400, 404 or 500 raised inside a `try` and re-raised as a 500 with `prefix + str(e)`. */
  lemma ReraisedCodes(prefix: string, detail: string)
    ensures Reraise(prefix, Http(HttpException(400, detail))) == HttpException(500, prefix + "400: " + detail)
    ensures Reraise(prefix, Http(HttpException(404, detail))) == HttpException(500, prefix + "404: " + detail)
    ensures Reraise(prefix, Http(HttpException(500, detail))) == HttpException(500, prefix + "500: " + detail)
  {
    StatusCodeDigits();
    ReraisedStatus(prefix, 400, "400: ", detail);
    ReraisedStatus(prefix, 404, "404: ", detail);
    ReraisedStatus(prefix, 500, "500: ", detail);
  }

  lemma ReraisedStatus(prefix: string, status: nat, head: string, detail: string)
    requires DecimalString(status) + ": " == head
    ensures Reraise(prefix, Http(HttpException(status, detail))) == HttpException(500, prefix + head + detail)
  {
    assert prefix + (head + detail) == prefix + head + detail;
  }

  /** The first nine characters of a safe name are hexadecimal digits and the underscore, never a dash. */
  lemma SafeNameHead(uniqueId: string, originalName: string, i: nat)
    requires IsUuidPrefix(uniqueId) && i < 9
    ensures SafeName(uniqueId, originalName)[i] != '-'
  {
    assert SafeName(uniqueId, originalName) == uniqueId + "_" + originalName;
  }

  // ---------------------------------------------------------------------
  // Properties of the Pub/Sub handler

  /** A missing name is a 400 raised inside the `try`, so the caller sees it re-raised as a 500. */
  lemma MissingNameIs500(st: Store, m: PubsubMessage, ghostscriptOk: bool, sign: Signer)
    requires ResolveFileName(m).Missing?
    ensures HandlePubsub(st, m, ghostscriptOk, sign)
            == Handled(Err(HttpException(500, InternalPrefix + "400: " + MissingNameDetail)), st)
  {
    ReraisedCodes(InternalPrefix, MissingNameDetail);
  }

  /**
   * A name containing "-cmyk." is skipped before the ".pdf" check runs,
   * whatever it ends with, and nothing is touched.
   */
  lemma ConvertedNamesSkipped(st: Store, m: PubsubMessage, ghostscriptOk: bool, sign: Signer)
    requires ResolveFileName(m).Found? && Contains(ResolveFileName(m).name, ConvertedMarker)
    ensures HandlePubsub(st, m, ghostscriptOk, sign) == Handled(Ok(Skipped(AlreadyConverted)), st)
  {
  }

  /** Any other name not ending in ".pdf" is a 400 re-raised as a 500. */
  lemma NonPdfIs500(st: Store, m: PubsubMessage, ghostscriptOk: bool, sign: Signer)
    requires ResolveFileName(m).Found? && !Contains(ResolveFileName(m).name, ConvertedMarker)
    requires !EndsWith(ResolveFileName(m).name, PdfSuffix)
    ensures HandlePubsub(st, m, ghostscriptOk, sign)
            == Handled(Err(HttpException(500, InternalPrefix + "400: " + NotPdfDetail)), st)
  {
    ReraisedCodes(InternalPrefix, NotPdfDetail);
    MarkerSubsumesSuffix(ResolveFileName(m).name);
  }

  /** A name that already has a `processed_files` record is skipped and nothing is converted or written. */
  lemma ProcessedNamesSkipped(st: Store, m: PubsubMessage, ghostscriptOk: bool, sign: Signer)
    requires ResolveFileName(m).Found? && ResolveFileName(m).name in st.processedFiles
    requires !LooksConverted(ResolveFileName(m).name) && EndsWith(ResolveFileName(m).name, PdfSuffix)
    ensures HandlePubsub(st, m, ghostscriptOk, sign) == Handled(Ok(Skipped(AlreadyProcessed)), st)
  {
  }

  /** A blob missing from the input bucket is skipped: no output, no record. */
  lemma MissingInputWritesNothing(st: Store, m: PubsubMessage, ghostscriptOk: bool, sign: Signer)
    requires ResolveFileName(m).Found? && ResolveFileName(m).name !in st.processedFiles
    requires !LooksConverted(ResolveFileName(m).name) && EndsWith(ResolveFileName(m).name, PdfSuffix)
    requires ResolveFileName(m).name !in st.inputBucket
    ensures HandlePubsub(st, m, ghostscriptOk, sign) == Handled(Ok(Skipped(FileNotFound)), st)
  {
  }

  /** A failed Ghostscript run is a 500 "Ghostscript conversion failed." that writes no output and no record. */
  lemma GhostscriptFailureIs500(st: Store, m: PubsubMessage, sign: Signer)
    requires ResolveFileName(m).Found? && ResolveFileName(m).name !in st.processedFiles
    requires !LooksConverted(ResolveFileName(m).name) && EndsWith(ResolveFileName(m).name, PdfSuffix)
    requires ResolveFileName(m).name in st.inputBucket
    ensures HandlePubsub(st, m, false, sign) == Handled(Err(HttpException(500, GhostscriptFailedDetail)), st)
  {
  }

  /**
   * A successful delivery passed every check, and it changes exactly two
   * things: the output blob is added, and the one record keyed by the
   * input name is written, whose `converted_file` and `download_url` are
   * the reply's, and the output name is the one derived from the input.
   */
  lemma SuccessWritesExactlyTheRecord(st: Store, m: PubsubMessage, ghostscriptOk: bool, sign: Signer)
    requires HandlePubsub(st, m, ghostscriptOk, sign).response.Ok?
    requires HandlePubsub(st, m, ghostscriptOk, sign).response.value.Converted?
    ensures ResolveFileName(m).Found?
    ensures var h := HandlePubsub(st, m, ghostscriptOk, sign);
      var n := ResolveFileName(m).name;
      var reply := h.response.value;
      && !LooksConverted(n) && EndsWith(n, PdfSuffix) && n !in st.processedFiles && n in st.inputBucket && ghostscriptOk
      && reply.convertedFile == OutputName(n)
      && sign(SignedUrlRequest(OutputBucket, reply.convertedFile, DownloadLinkMinutes, "GET")) == Ok(reply.downloadUrl)
      && h.store == Store(st.processedFiles[n := Record(n, reply.convertedFile, reply.downloadUrl)],
                          st.inputBucket, st.outputBucket + {reply.convertedFile})
  {
  }

  /**
   * What any delivery may change: never the input bucket; the output
   * bucket only by the derived output name; `processed_files` only on a
   * successful conversion. Skips change nothing, and failures write no
   * record.
   */
  lemma DeliveryEffects(st: Store, m: PubsubMessage, ghostscriptOk: bool, sign: Signer)
    ensures var h := HandlePubsub(st, m, ghostscriptOk, sign);
      && h.store.inputBucket == st.inputBucket
      && (h.store.outputBucket == st.outputBucket
          || (ResolveFileName(m).Found? && h.store.outputBucket == st.outputBucket + {OutputName(ResolveFileName(m).name)}))
      && (h.store.processedFiles != st.processedFiles ==> h.response.Ok? && h.response.value.Converted?)
      && (h.response.Ok? && h.response.value.Skipped? ==> h.store == st)
      && (h.response.Err? ==> h.response.error.status == 500 && h.store.processedFiles == st.processedFiles)
  {
    var h := HandlePubsub(st, m, ghostscriptOk, sign);
    if ResolveFileName(m).Found? {
      var n := ResolveFileName(m).name;
      if LooksConverted(n) || !EndsWith(n, PdfSuffix) || n in st.processedFiles || n !in st.inputBucket || !ghostscriptOk {
        assert h.store == st;
      } else if sign(SignedUrlRequest(OutputBucket, OutputName(n), DownloadLinkMinutes, "GET")).Err? {
        assert h.store == st.(outputBucket := st.outputBucket + {OutputName(n)});
      } else {
        assert h.response.Ok? && h.response.value.Converted?;
      }
    } else {
      assert h.store == st;
    }
  }

  /**
   * Redelivering a message (same Ghostscript and signing behaviour) leaves
   * the stores as one delivery left them; after a conversion the
   * redelivery is skipped as already processed.
   */
  lemma RedeliveryIsIdempotent(st: Store, m: PubsubMessage, ghostscriptOk: bool, sign: Signer)
    ensures var first := HandlePubsub(st, m, ghostscriptOk, sign);
      var again := HandlePubsub(first.store, m, ghostscriptOk, sign);
      && again.store == first.store
      && (first.response.Ok? && first.response.value.Converted? ==> again.response == Ok(Skipped(AlreadyProcessed)))
  {
    var first := HandlePubsub(st, m, ghostscriptOk, sign);
    if ResolveFileName(m).Found? {
      var n := ResolveFileName(m).name;
      if !LooksConverted(n) && EndsWith(n, PdfSuffix) && n !in st.processedFiles && n in st.inputBucket && ghostscriptOk {
        var output := OutputName(n);
        assert st.outputBucket + {output} + {output} == st.outputBucket + {output};
      }
    }
  }

  /**
   * The output blob is uploaded before its URL is signed, so a signing
   * failure leaves the output in place without a record, and a
   * redelivery, once signing works again, converts the input again.
   */
  lemma SigningFailureLeavesUnrecordedOutput(st: Store, m: PubsubMessage, sign: Signer, retry: Signer)
    requires ResolveFileName(m).Found? && ResolveFileName(m).name !in st.processedFiles
    requires !LooksConverted(ResolveFileName(m).name) && EndsWith(ResolveFileName(m).name, PdfSuffix)
    requires ResolveFileName(m).name in st.inputBucket
    requires sign(SignedUrlRequest(OutputBucket, OutputName(ResolveFileName(m).name), DownloadLinkMinutes, "GET")).Err?
    ensures var h := HandlePubsub(st, m, true, sign);
      var reason := sign(SignedUrlRequest(OutputBucket, OutputName(ResolveFileName(m).name), DownloadLinkMinutes, "GET")).error;
      && h.response == Err(HttpException(500, InternalPrefix + reason))
      && h.store == st.(outputBucket := st.outputBucket + {OutputName(ResolveFileName(m).name)})
      && ResolveFileName(m).name !in h.store.processedFiles
    ensures var h := HandlePubsub(st, m, true, sign);
      var output := OutputName(ResolveFileName(m).name);
      retry(SignedUrlRequest(OutputBucket, output, DownloadLinkMinutes, "GET")).Ok? ==>
        HandlePubsub(h.store, m, true, retry).response
        == Ok(Converted(output, retry(SignedUrlRequest(OutputBucket, output, DownloadLinkMinutes, "GET")).value))
  {
  }

  // ---------------------------------------------------------------------
  // Properties of the two HTTP endpoints

  /**
   * An upload slot is granted exactly for a ".pdf" name the signer accepts;
   * any other name is a 400 re-raised as a 500.
   */
  lemma UploadUrlValidation(body: map<string, string>, uniqueId: string, sign: Signer)
    ensures var name := Attribute(body, "file_name");
      var r := GenerateUploadUrl(body, uniqueId, sign);
      && (r.Ok? <==> EndsWith(name, PdfSuffix)
                     && sign(SignedUrlRequest(InputBucket, SafeName(uniqueId, name), UploadLinkMinutes, "PUT")).Ok?)
      && (!EndsWith(name, PdfSuffix) ==>
            r == Err(HttpException(500, UploadPrefix + "400: " + InvalidUploadNameDetail)))
  {
    ReraisedCodes(UploadPrefix, InvalidUploadNameDetail);
  }

  /** The status endpoint's failures, as the caller sees them: the 404 and the 500 both come back as 500. */
  lemma StatusLookupFailures(processedFiles: map<string, Record>, fileName: string, sign: Signer)
    ensures fileName !in processedFiles ==>
      CheckConversionStatus(processedFiles, fileName, sign)
        == Err(HttpException(500, StatusPrefix + "404: " + NotProcessedDetail))
    ensures fileName in processedFiles && processedFiles[fileName].convertedFile == "" ==>
      CheckConversionStatus(processedFiles, fileName, sign)
        == Err(HttpException(500, StatusPrefix + "500: " + MissingConvertedDetail))
  {
    ReraisedCodes(StatusPrefix, NotProcessedDetail);
    ReraisedCodes(StatusPrefix, MissingConvertedDetail);
  }
}
