/**
 * The outcome of a request, kept as the status code and what the body
 * carries; headers, JSON layout and message texts are not modelled.
 */
module Responses {
  import opened Types

  const StatusOk: nat := 200
  const StatusNotFound: nat := 404
  const StatusUnprocessableEntity: nat := 422
  const StatusInternalServerError: nat := 500

  /** Why a request failed; each one stands for one message of the routes. */
  datatype ErrorReason =
    | BodyUnreadable    // the request body could not be read
    | MalformedUpload   // the body is not a valid upload envelope
    | InvalidBase64     // the envelope's data is not correct base64
    | ProcessingFailed  // the image could not be processed and stored
    | DeleteFailed      // the image store refused the delete

  datatype Body =
    | Empty
      /** The raw image, sent with the content type of its format. */
    | Image(format: ImageFormat, data: Bytes)
      /** A JSON object whose "image" member is the base64 text of `data`. */
    | EncodedImage(data: Bytes)
      /** The identifier and the formats produced for a new upload. */
    | Uploaded(fileId: FileId, formats: set<ImageFormat>)
      /** The acknowledgement "file deleted if exists" with the identifier. */
    | DeletedIfExists(fileId: FileId)
    | Message(reason: ErrorReason)

  datatype Response = Response(status: nat, body: Body)

  /** The image bytes a body carries, in raw or encoded form. */
  function Payload(body: Body): (data: Option<Bytes>)
    ensures data.Some? <==> body.Image? || body.EncodedImage?
  {
    match body
    case Image(_, d) => Some(d)
    case EncodedImage(d) => Some(d)
    case _ => None
  }
}
