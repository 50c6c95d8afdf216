/**
 * Value types of the browser client (frontend/types/index.ts), plus the
 * Option and Result wrappers the model uses for `null` and for rejected
 * promises.
 */
module Types {
  datatype Option<+T> = None | Some(value: T)

  datatype Result<+T, +E> = Ok(value: T) | Err(error: E)

  /** The file the user picked. Its bytes go to storage untouched and are not modelled. */
  datatype File = File(name: string)

  /** Body of a successful POST /generate-upload-url, as the client declares it. */
  datatype UploadResponse = UploadResponse(uploadUrl: string, fileName: string)

  /** Body of a successful GET /check-status/{file_name}, as the client declares it. */
  datatype ConversionResult = ConversionResult(downloadUrl: string, fileName: string)

  /** The uniform error shape the API client's interceptor rejects with. */
  datatype ApiError = ApiError(message: string, status: int)
}
