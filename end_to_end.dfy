/**
 * How the browser side and the backend meet: the slot request body the
 * backend reads, the status path it routes, the key under which the
 * handler records a conversion and the browser polls, and what the browser
 * makes of the backend's error bodies.
 */
module EndToEnd {
  import opened Types
  import opened Text
  import Api = ApiService
  import opened Backend

  /** The two fields of the `/generate-upload-url` reply that the browser's `UploadResponse` declares. */
  function SlotResponse(slot: UploadSlot): (r: UploadResponse)
    ensures r.uploadUrl == slot.uploadUrl && r.fileName == slot.fileName
  {
    UploadResponse(slot.uploadUrl, slot.fileName)
  }

  /**
   * The body `getUploadUrl(name)` posts is read back as `name`, so the
   * backend grants a slot exactly for a ".pdf" name it can sign, under the
   * safe name built from that same name.
   */
  lemma SlotRequestAccepted(name: string, uniqueId: string, sign: Signer)
    ensures var body := Api.GetUploadUrlRequest(name).payload.fields;
      var r := GenerateUploadUrl(body, uniqueId, sign);
      && Attribute(body, "file_name") == name
      && (r.Ok? <==> EndsWith(name, PdfSuffix)
                     && sign(SignedUrlRequest(InputBucket, SafeName(uniqueId, name), UploadLinkMinutes, "PUT")).Ok?)
      && (r.Ok? ==> SlotResponse(r.value).fileName == SafeName(uniqueId, name))
  {
    var body := Api.GetUploadUrlRequest(name).payload.fields;
    assert Attribute(body, "file_name") == name;
    UploadUrlValidation(body, uniqueId, sign);
  }

  /**
   * The path `checkStatus(key)` requests is routed to the status endpoint
   * with `key` as its parameter exactly when `key` is a plain path segment.
   */
  lemma StatusPathRoundTrip(key: string)
    ensures StatusRouteParam(Api.CheckStatusRequest(key).url) == Some(key) <==> PlainSegment(key)
    ensures !PlainSegment(key) ==> StatusRouteParam(Api.CheckStatusRequest(key).url).None?
  {
    var url := Api.CheckStatusRequest(key).url;
    assert StartsWith(url, "/check-status/") && url[|"/check-status/"|..] == key;
  }

  /** An upload name built from a plain original name is a plain path segment too. */
  lemma SafeNameIsPlain(uniqueId: string, originalName: string)
    requires IsUuidPrefix(uniqueId) && PlainSegment(originalName)
    ensures PlainSegment(SafeName(uniqueId, originalName))
  {
    var s := SafeName(uniqueId, originalName);
    assert s == uniqueId + "_" + originalName;
    forall i | 0 <= i < |s|
      ensures s[i] != '/' && s[i] != '?' && s[i] != '#' && s[i] != '%'
    {
      if i < 8 {
        assert s[i] == uniqueId[i] && IsHexDigit(uniqueId[i]);
      } else if i > 8 {
        assert s[i] == originalName[i - 9];
      }
    }
  }

  /**
   * The key link. The browser polls with the server-generated upload name.
   * When the storage notification names that object, the handler converts
   * it and records it under that same name, and the status lookup for the
   * name then finds the derived output with a fresh link.
   */
  lemma PollKeyFindsRecord(st: Store, body: map<string, string>, uniqueId: string, m: PubsubMessage, sign: Signer)
    requires IsUuidPrefix(uniqueId)
    requires GenerateUploadUrl(body, uniqueId, sign).Ok?
    requires !Contains(Attribute(body, "file_name"), ConvertedMarker)
    requires ResolveFileName(m) == Found(GenerateUploadUrl(body, uniqueId, sign).value.fileName)
    requires var key := GenerateUploadUrl(body, uniqueId, sign).value.fileName;
      && key in st.inputBucket && key !in st.processedFiles
      && sign(SignedUrlRequest(OutputBucket, OutputName(key), DownloadLinkMinutes, "GET")).Ok?
      && sign(SignedUrlRequest(OutputBucket, OutputName(key), RefreshedLinkMinutes, "GET")).Ok?
    ensures var key := GenerateUploadUrl(body, uniqueId, sign).value.fileName;
      var h := HandlePubsub(st, m, true, sign);
      && h.response == Ok(Converted(OutputName(key),
                                    sign(SignedUrlRequest(OutputBucket, OutputName(key), DownloadLinkMinutes, "GET")).value))
      && CheckConversionStatus(h.store.processedFiles, key, sign)
         == Ok(Completed(OutputName(key),
                         sign(SignedUrlRequest(OutputBucket, OutputName(key), RefreshedLinkMinutes, "GET")).value))
  {
    var slot := GenerateUploadUrl(body, uniqueId, sign).value;
    var key := slot.fileName;
    assert key == SafeName(uniqueId, Attribute(body, "file_name"));
    SafeNameMarker(uniqueId, Attribute(body, "file_name"));
    MarkerSubsumesSuffix(key);
  }

  /**
   * A picked file whose name contains "-cmyk." is uploaded, but the
   * handler skips its notification as already converted: nothing is
   * recorded, so the status lookup for its key answers as before.
   */
  lemma MarkedUploadNeverRecorded(st: Store, body: map<string, string>, uniqueId: string, m: PubsubMessage,
                                  ghostscriptOk: bool, sign: Signer)
    requires IsUuidPrefix(uniqueId)
    requires GenerateUploadUrl(body, uniqueId, sign).Ok?
    requires Contains(Attribute(body, "file_name"), ConvertedMarker)
    requires ResolveFileName(m) == Found(GenerateUploadUrl(body, uniqueId, sign).value.fileName)
    ensures var key := GenerateUploadUrl(body, uniqueId, sign).value.fileName;
      var h := HandlePubsub(st, m, ghostscriptOk, sign);
      && h == Handled(Ok(Skipped(AlreadyConverted)), st)
      && (key !in st.processedFiles ==> CheckConversionStatus(h.store.processedFiles, key, sign).Err?)
  {
    var key := GenerateUploadUrl(body, uniqueId, sign).value.fileName;
    SafeNameMarker(uniqueId, Attribute(body, "file_name"));
    ConvertedNamesSkipped(st, m, ghostscriptOk, sign);
  }

  /**
   * FastAPI puts an error's text under "detail" while the interceptor reads
   * "message", so the browser never shows the backend's detail: it shows
   * axios's own message, or the default, with the backend's status.
   */
  lemma BackendDetailNeverShown(e: HttpException, transportMessage: string)
    requires e.status != 0
    ensures var failure := Api.AxiosError(transportMessage, Some(Api.ErrorResponse(e.status, Some(ErrorBody(e)))));
      Api.ToApiError(failure)
        == ApiError(if transportMessage != "" then transportMessage else Api.DefaultErrorMessage, e.status)
  {
    var failure := Api.AxiosError(transportMessage, Some(Api.ErrorResponse(e.status, Some(ErrorBody(e)))));
    assert "message" !in ErrorBody(e);
    assert Api.ServerMessage(failure) == "";
  }
}
