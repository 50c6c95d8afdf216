# PDF to CMYK converter: a Dafny model of its core

The converter lets a browser upload a PDF to Cloud Storage. The upload fires a
Pub/Sub notification, and a FastAPI backend converts the file to CMYK with
Ghostscript. It stores the result in an output bucket and records it in the
Firestore collection `processed_files`. The browser polls a status endpoint
until that record exists and then shows a download link.

This project models the three pieces of logic behind that flow and proves
what they promise.

- `UploadHook` (`upload_hook.dfy`) models the browser hook `useFileUpload`.
  - The class `FileUploadHook` holds the hook's four state fields.
  - `UploadFile` runs the three phases and the 20-attempt polling loop. It
    updates the fields in place and logs every state update, wait and
    request as an `Event`.
  - `UploadFile` and its loop `Poll` are proved equal to the
    specification functions `UploadRun` and `PollRun`. The properties of a
    run are lemmas about those functions.
  - The backend's answers are inputs: one for the slot request, one for
    the PUT, and one per status check.
- `ApiService` (`api_service.dfy`) models the request adapter.
  - It fixes the shape of the three requests.
  - Its response interceptor maps a transport failure to the
    `{message, status}` error.
- `Backend` (`backend.dfy`) models `app.py`.
  - Pure functions cover name resolution, the skip and `.pdf` rules, the
    `splitext`-based output name, the upload slot and the status lookup.
  - The class `CloudStores` holds Firestore's `processed_files` as a map
    and the two buckets as sets of object names.
  - Its method `PubsubEntrypoint` makes the handler's changes step by step
    and is proved equal to the function `HandlePubsub`.
  - Ghostscript is a success flag. URL signing is a `Signer` oracle that
    returns a URL or the text of the exception it raised.
  - Every `except` clause is modelled: a 400 or 404 raised inside a `try`
    reaches the caller as a 500 whose detail is the prefix plus
    Starlette's `"<status>: <detail>"` rendering of the original exception.
- `EndToEnd` (`end_to_end.dfy`) states how the two sides meet.
  - The browser's slot request body is what the backend validates.
  - The status path it requests for a plain key is routed back to that key.
  - That key is the name under which the handler records a conversion.
  - The backend's error `detail` never reaches the browser's error message.
- `Text` and `Types` hold the string operations and the shared datatypes
  of `frontend/types/index.ts`.

Three facts about the hook shape the model:

- `uploadFile` calls `resetState` itself, so a new run needs no explicit
  reset beforehand.
- `uploadFile` does not report a call made while a run is in flight. The
  page disables the upload button while `isUploading` holds
  (`frontend/components/FileUpload.tsx:85`), so `UploadFile` requires
  `!isUploading`.
- When polling gives up, the run rejects with the message
  `"Timed out waiting for conversion"`.

## Model

| member | source | states |
|---|---|---|
| UploadHook.FileUploadHook.constructor | frontend/hooks/useFileUpload.ts:13-18 | The hook starts idle: not uploading, empty progress, no download URL, no error. |
| UploadHook.FileUploadHook.ResetState | frontend/hooks/useFileUpload.ts:20-27 | `resetState` restores exactly the initial state, whatever the state was. |
| UploadHook.FileUploadHook.Settle | frontend/hooks/useFileUpload.ts:71-78 | The catch block clears `isUploading` and the progress, stores the error text and keeps the download URL. |
| UploadHook.ErrorText | frontend/hooks/useFileUpload.ts:77 | The stored error is the rejection's message, or "Upload failed. Please try again." when that is empty; it is never empty. |
| UploadHook.FileUploadHook.UploadFile | frontend/hooks/useFileUpload.ts:29-81 | A run's outcome, event log and final state are those of `UploadRun`. It ends not uploading, with exactly one of download URL and error set. It resolves with the result whose URL is shown, or rejects with the rejection whose text is shown. |
| UploadHook.FileUploadHook.Transfer | frontend/hooks/useFileUpload.ts:39-70 | Started in the "Requesting upload URL..." state, the PUT phase and the polling behind it give the outcome, log and final state of `TransferRun`. |
| UploadHook.FileUploadHook.Poll | frontend/hooks/useFileUpload.ts:44-70 | The polling loop keeps `retries` in 0..20, and its outcome, log and final state are those of `PollRun` from the state before it. |
| UploadHook.PollTerminal | frontend/hooks/useFileUpload.ts:56-70 | The loop ends either complete (not uploading, "Conversion complete!", the result's URL, no error) or rejected with the fixed timeout message and that message as the error. |
| UploadHook.UploadTerminal | frontend/hooks/useFileUpload.ts:56-79 | Every run ends not uploading. It resolves iff a download URL is set and rejects iff an error is set. The final state is exactly the completed one or the failed one. |
| UploadHook.PollLog | frontend/hooks/useFileUpload.ts:48-56 | The loop sends one status check per attempt, always for the same key, and waits once before each, for as many attempts as the first answered check (or all 20). |
| UploadHook.PollLayout | frontend/hooks/useFileUpload.ts:48-56 | Entered with `retries` attempts done, the loop logs three events per check it makes, plus one closing event. Attempt k (from 0) is a wait, then the label "Checking status... (n/20)" with n = retries + k + 1, then a status check for the same key. |
| UploadHook.UploadEffects | frontend/hooks/useFileUpload.ts:35-56 | The phases run in order, none repeated: the slot request for the picked file's name, then one PUT to the returned upload URL, then status checks keyed by the server's `file_name`. Checks and waits are equal in number and at most 20, and a run that fails before polling waits for nothing. |
| UploadHook.UploadLayout | frontend/hooks/useFileUpload.ts:48-56 | After the seven opening and transfer events, a run that polls logs exactly one block per check: a wait, the label "Checking status... (k/20)" for check k, then the check for the server's `file_name`. One more event closes the log. |
| UploadHook.SlotFailureIsFatal | frontend/hooks/useFileUpload.ts:36 | A failed slot request is not retried. Nothing else is sent, nothing is waited for, the call rejects with the mapped error, and its message is shown. |
| UploadHook.TransferFailureIsFatal | frontend/hooks/useFileUpload.ts:40 | A failed PUT is not retried and no status check is made. The call rejects with the raw axios error, and the error shown is its message or the fallback. |
| UploadHook.PollFirstSuccess | frontend/hooks/useFileUpload.ts:55-63 | The first answered check ends the loop with its body, after exactly that many checks. |
| UploadHook.PollAllFail | frontend/hooks/useFileUpload.ts:64-70 | When every check fails, the loop makes all 20 checks and rejects with the timeout message. |
| UploadHook.FirstSuccessEndsPolling | frontend/hooks/useFileUpload.ts:56-63 | A run whose j-th check is the first answered one resolves with that body and shows its download URL with no error, after j + 1 checks and waits. |
| UploadHook.TimeoutAfterAllFailures | frontend/hooks/useFileUpload.ts:64-79 | Twenty failed checks end the run not uploading, with empty progress, no URL, the error "Timed out waiting for conversion" and a rejection, after 20 checks and 20 waits. |
| ApiService.ToApiError | frontend/services/apiService.ts:17-22 | The mapped message is the server's `message`, else the transport message, else "An error occurred". The status is the response's when it is non-zero, and 500 when there is no response or its status is 0; it is never 0. |
| ApiService.Intercept | frontend/services/apiService.ts:15-24 | Responses pass through unchanged, and every failure becomes a rejection carrying the mapped `ApiError`, never a resolved value. |
| ApiService.GetUploadUrlRequest | frontend/services/apiService.ts:28-31 | `getUploadUrl` POSTs `{file_name: fileName}` and nothing else to "/generate-upload-url" through the configured client. |
| ApiService.GetUploadUrl | frontend/services/apiService.ts:28-33 | It returns the response body unchanged, or rejects with the mapped error. |
| ApiService.UploadFileRequest | frontend/services/apiService.ts:36-41 | `uploadFile` PUTs the file to the given URL with Content-Type application/pdf through bare axios. |
| ApiService.UploadFile | frontend/services/apiService.ts:36-42 | Its failures skip the interceptor: the rejection is the axios error itself, with the transport's message. |
| ApiService.CheckStatusRequest | frontend/services/apiService.ts:45-46 | `checkStatus` GETs "/check-status/" followed by the file name, which is the rest of the path. |
| ApiService.CheckStatus | frontend/services/apiService.ts:45-48 | It returns the body unchanged, or rejects with the mapped error. |
| Backend.Describe | app.py:144-146 | Starlette's text of an HTTPException ends with ": " and its detail. |
| Backend.Reraise | app.py:144-146 | An `except Exception` clause re-raises anything as a 500 whose detail starts with its prefix. |
| Backend.PubsubFailure | app.py:141-146 | Every failure of the handler is a 500. A failed Ghostscript run gives exactly "Ghostscript conversion failed.", and any other exception gives "Internal error: " followed by its text. |
| Backend.ReraisedCodes | app.py:96 | A 400, 404 or 500 raised inside a `try` comes out as a 500 whose detail is the prefix, the original code, ": " and the original detail. |
| Backend.SignedUrlRequest | app.py:67-78 | Signing uses the given bucket, blob, lifetime and method, and binds a PUT URL, and only a PUT URL, to application/pdf. |
| Backend.NameResolutionOrder | app.py:89-93 | The name is the first non-empty one of the `name` attribute, `objectId` and the decoded `file_name`. The decoded name is used when both attributes are empty. The name is missing exactly when all three are absent or empty, and decoding fails the handler only when both attributes are empty. Otherwise the payload does not matter. |
| Backend.MarkerSubsumesSuffix | app.py:98 | A name passes the skip test exactly when it contains "-cmyk.", so the `endswith("-cmyk.pdf")` test adds nothing. |
| Backend.SplitextRoot | app.py:112 | Python's `splitext` root is a prefix of the name. When it is shorter, it stops at a dot followed by no dot and no slash. |
| Backend.OutputName | app.py:112 | The output name is the `splitext` root followed by "-cmyk.pdf". |
| Backend.OutputNameLooksConverted | app.py:98-112 | Every output name contains "-cmyk.", so a delivered output would be skipped. |
| Backend.OutputNameOfPdf | app.py:112 | For a ".pdf" name the output replaces ".pdf" with "-cmyk.pdf". When the base name is only dots before ".pdf", the suffix is appended to the whole name. |
| Backend.OutputNameReplacesExtension | app.py:112 | A ".pdf" name without a directory whose stem has a character other than a dot loses its ".pdf" for "-cmyk.pdf", so "report.pdf" becomes "report-cmyk.pdf". |
| Backend.OutputNameOfDotsOnly | app.py:112 | When the stem is only dots, `splitext` finds no extension and "-cmyk.pdf" is appended to the whole name, so ".pdf" becomes ".pdf-cmyk.pdf". |
| Backend.SafeName | app.py:158-159 | The upload name is the id, "_" and the original name, so it keeps the original as a suffix. |
| Backend.SafeNameMarker | app.py:158-159 | With a hexadecimal id, the upload name contains "-cmyk." exactly when the original name does. |
| Backend.CloudStores.constructor | app.py:29-30 | The stores start with the given collection and buckets. |
| Backend.CloudStores.PubsubEntrypoint | app.py:82-146 | One delivery's response and the stores it leaves are those of `HandlePubsub`, and the input bucket is never changed. |
| Backend.MissingNameIs500 | app.py:95-96 | A message with no usable name gets a 500 with detail "Internal error: 400: Missing PDF file name in Pub/Sub message", and nothing changes. |
| Backend.ConvertedNamesSkipped | app.py:98-100 | A name containing "-cmyk." is skipped as "Already converted" before the ".pdf" check runs, and nothing changes. |
| Backend.NonPdfIs500 | app.py:102-103 | Any other name not ending in ".pdf" gets a 500 with detail "Internal error: 400: Only PDF files are supported". |
| Backend.ProcessedNamesSkipped | app.py:107-110 | A name with a `processed_files` record is skipped as "Already processed", and nothing is converted or written. |
| Backend.MissingInputWritesNothing | app.py:116-121 | A missing input blob is skipped as "File not found", with no output and no record. |
| Backend.GhostscriptFailureIs500 | app.py:123-143 | A conversion that fails in Ghostscript gives a 500 with detail "Ghostscript conversion failed." and leaves the stores unchanged. |
| Backend.SuccessWritesExactlyTheRecord | app.py:107-139 | A successful conversion passed every check. It adds the derived output name to the output bucket and writes exactly one record under the input name. The record's `converted_file` and `download_url` equal the reply's, signed for 15 minutes. |
| Backend.DeliveryEffects | app.py:82-146 | No delivery changes the input bucket. The output bucket gains at most the derived output name, and records change only on success. Skips change nothing, and failures are 500s that write no record. |
| Backend.RedeliveryIsIdempotent | app.py:107-133 | Redelivering a message, with the same Ghostscript and signing outcomes, leaves the stores as one delivery left them, and after a conversion the redelivery is skipped as already processed. |
| Backend.SigningFailureLeavesUnrecordedOutput | app.py:124-125 | The output is uploaded before its URL is signed, so a signing failure is a 500 that leaves the output blob without a record. A redelivery after signing works again converts the input and replies with the new link. |
| Backend.GenerateUploadUrl | app.py:150-172 | Every failure is a 500 with the "Failed to generate upload URL: " prefix. A granted slot names the original file and the safe name, which ends in ".pdf". Its URL was signed as a 10-minute PUT in the input bucket for that name, and it expires in 10 minutes. |
| Backend.UploadUrlValidation | app.py:154-172 | A slot is granted exactly for a ".pdf" name the signer accepts. Any other name gets a 500 with detail "Failed to generate upload URL: 400: Invalid or missing 'file_name'. Must be a .pdf". |
| Backend.CheckConversionStatus | app.py:176-203 | The lookup succeeds exactly when a record exists for the name, has a converted file and signing succeeds. It then returns that converted file with a fresh 10-minute link, and every failure is a 500 with the "Failed to check status: " prefix. |
| Backend.StatusLookupFailures | app.py:183-203 | An unknown name gets a 500 whose detail carries the 404, and a record without a converted file gets a 500 whose detail carries the inner 500. |
| Backend.StatusRouteParam | app.py:176 | The route parameter is the rest of the path after "/check-status/". |
| EndToEnd.SlotResponse | frontend/types/index.ts:1-4 | The browser reads the slot reply's `upload_url` and `file_name`. |
| EndToEnd.SlotRequestAccepted | app.py:154-159 | The body `getUploadUrl(name)` posts is read back as `name`, so a slot is granted exactly for a ".pdf" name the signer accepts, under the safe name of that name. |
| EndToEnd.StatusPathRoundTrip | frontend/services/apiService.ts:46 | The path `checkStatus(key)` requests is routed with parameter `key` exactly when `key` is a plain path segment: non-empty, not "." or "..", and free of `/ ? # %`, backslash, tab, LF and CR, and not ending in a space or control character. These would end the segment, need decoding, or be rewritten or stripped by the browser's URL parser. |
| EndToEnd.SafeNameIsPlain | app.py:158-159 | An upload name built from a plain original name is itself a plain path segment. |
| EndToEnd.PollKeyFindsRecord | frontend/hooks/useFileUpload.ts:56 | When the notification names the uploaded object, through its `name` or `objectId` attribute or its data, the handler records the conversion under the server-generated name. The status lookup the browser makes with that name then finds the derived output with a fresh link. |
| EndToEnd.MarkedUploadNeverRecorded | app.py:98-100 | An upload whose original name contains "-cmyk." is skipped as already converted and never recorded, so its status lookup keeps failing. |
| EndToEnd.BackendDetailNeverShown | frontend/services/apiService.ts:19-20 | The backend's error body carries "detail" while the interceptor reads "message", so the browser shows axios's own message (or the default) with the backend's status. |

## Left out

- Cloud Storage and Firestore client calls are replaced by a map and two
  sets. A download failure other than a missing blob, an upload failure
  and a Firestore failure are not modelled.
- The document's `ttl` field and `datetime.utcnow()` are not modelled.
  They are a clock.
- The bucket names are the defaults used when `BUCKET_INPUT` and
  `BUCKET_OUTPUT` are unset. Reading the environment is not modelled.
- v4 URL signing with service-account credentials is the `Signer` oracle.
- The Ghostscript subprocess is a success flag. The local `/tmp` paths it
  reads and writes are not modelled, so a name whose `/tmp` path cannot be
  written counts as a Ghostscript failure.
- Base64 and JSON decoding of the Pub/Sub data is the `Payload` input.
  - A `file_name` field that is missing or falsy is `Decoded(None)`.
  - A decoding failure, or a value of the wrong type, is `Undecodable` with
    its text.
  - Bodies that are not JSON objects are not modelled.
- The request body of `/generate-upload-url` is a map from string keys to
  string values. Non-object bodies and non-string `file_name` values,
  which fail inside the `try` and become 500s, are not modelled.
- `uuid.uuid4()` is not modelled: the 8-character id is a parameter. The
  lemmas that depend on its form require eight lowercase hexadecimal
  digits.
- Logging, CORS setup and the health-check routes `GET /` and `POST /` are
  not modelled.
- FastAPI routing is not modelled beyond `StatusRouteParam`. The browser's
  URL normalisation (backslashes, tab, LF and CR, dot segments, a
  trailing space or control character) and percent-decoding are not
  modelled; keys they would change, and paths with a query or fragment,
  are outside `PlainSegment`.
- StatusPathRoundTrip: its "only when" direction is about the modelled
  router, which rejects every `%`. The real server also routes back a key
  whose `%` is not followed by two hexadecimal digits (such as
  "100%.pdf"), since decoding leaves that `%` as it is; the model does
  not capture that.
- The 5-second `setTimeout` waits are `Wait` events, and the 30-second axios
  timeout is one more way a request can be `Rejected`.
- React rendering (`frontend/components/FileUpload.tsx`,
  `frontend/app/layout.tsx`, `frontend/app/page.tsx`) is not part of this
  model. Only the disabled upload button is kept, as the requirement
  `!isUploading` on `UploadFile`.
- Async interleaving is not modelled, for example `resetState` called while
  a request is in flight. `uploadFile` is one sequential run.
- `ConversionStatus` (`frontend/types/index.ts:6-10`) is declared but
  unused, so it is not modelled.
- The backend's status reply carries `converted_file`, but the browser's
  `ConversionResult` has no such field: the browser reads only
  `download_url`.
- The bytes of the file are not modelled: a `File` is its name.
