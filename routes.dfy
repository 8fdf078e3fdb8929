/**
 * The three request flows of the image server: serving a rendition through
 * the cache (`get_file`), ingesting an upload (`add_file`) and deleting an
 * image (`remove_file`). The storage backend is reached only through the
 * oracles passed in.
 */
module Routes {
  import opened Types
  import opened Presets
  import opened ImageCache
  import opened Responses

  /**
   * What the backend yields for a rendition (`get_image`). A backend error and
   * an absent image both come back as `None`.
   */
  type Origin = CacheKey -> Option<Bytes>

  /** The path and query of a GET request. */
  datatype GetRequest = GetRequest(
    fileId: FileId,
    format: Option<ImageFormat>,
    preset: Option<string>,
    encode: Option<bool>)

  /** The cache key a request is served under, after the fallbacks. */
  function RequestKey(req: GetRequest, config: ServingConfig): CacheKey
  {
    CacheKey(req.fileId,
             ResolvePreset(req.preset, config.defaultServingPreset, config.sizePresets),
             ResolveFormat(req.format, config))
  }

  /** One cache-aside lookup: the image found, the cache after it, whether the backend was asked. */
  datatype Lookup = Lookup(image: Option<Bytes>, entries: map<CacheKey, Bytes>, consultedOrigin: bool)

  /**
   * Cache-aside: a hit is served from the cache without asking the backend;
   * a miss asks the backend and stores what it yields under the same key.
   * Nothing is stored when the backend yields nothing.
   */
  function CacheAside(entries: map<CacheKey, Bytes>, key: CacheKey, origin: Origin): (r: Lookup)
    ensures r.consultedOrigin <==> key !in entries
    ensures key in entries ==> r.image == Some(entries[key]) && r.entries == entries
    ensures key !in entries ==> r.image == origin(key)
    ensures r.entries.Keys == if r.image.Some? then entries.Keys + {key} else entries.Keys
    ensures r.image.Some? ==> r.entries[key] == r.image.value
    ensures forall k :: k in entries ==> r.entries[k] == entries[k]
  {
    if key in entries then
      Lookup(Some(entries[key]), entries, false)
    else
      match origin(key)
      case Some(data) => Lookup(Some(data), entries[key := data], true)
      case None => Lookup(None, entries, true)
  }

  /**
   * The response for a looked-up image: 404 with no body when there is none;
   * otherwise 200 with the raw image, or with its base64 text in JSON when
   * `encode` is set.
   */
  function Render(image: Option<Bytes>, format: ImageFormat, encode: bool): (r: Response)
    ensures r.status == StatusNotFound <==> image.None?
    ensures image.None? ==> r.body == Empty
    ensures image.Some? ==> r.status == StatusOk && Payload(r.body) == image
    ensures image.Some? ==> (r.body.EncodedImage? <==> encode)
    ensures r.body.Image? ==> r.body.format == format
  {
    match image
    case None => Response(StatusNotFound, Empty)
    case Some(data) =>
      if encode then Response(StatusOk, EncodedImage(data))
      else Response(StatusOk, Image(format, data))
  }

  /**
   * Serves a GET request through `cache`. The cache changes only when the key
   * is missing and the backend yields data; `consultedOrigin` records whether
   * the backend was asked.
   */
  method GetFile(cache: Cache, config: ServingConfig, req: GetRequest, origin: Origin)
    returns (response: Response, ghost consultedOrigin: bool)
    modifies cache
    ensures var key := RequestKey(req, config);
      var lookup := CacheAside(old(cache.entries), key, origin);
      && response == Render(lookup.image, key.format, req.encode.GetOr(false))
      && cache.entries == lookup.entries
      && consultedOrigin == lookup.consultedOrigin
    ensures RequestKey(req, config) in old(cache.entries) ==>
      && !consultedOrigin
      && response.status == StatusOk
      && Payload(response.body) == Some(old(cache.entries)[RequestKey(req, config)])
      && cache.entries == old(cache.entries)
    ensures response.status == StatusNotFound ==> cache.entries == old(cache.entries)
  {
    var format := req.format.GetOr(config.defaultServingFormat);
    var preset := req.preset.GetOr(config.defaultServingPreset);
    if preset != Original {
      if preset !in config.sizePresets {
        preset := Original;
      }
    }

    var image: Option<Bytes>;
    var cached := cache.Get(req.fileId, preset, format);
    if cached.Some? {
      image := cached;
      consultedOrigin := false;
    } else {
      consultedOrigin := true;
      var fetched := origin(CacheKey(req.fileId, preset, format));
      if fetched.Some? {
        cache.Set(req.fileId, preset, format, fetched.value);
        image := fetched;
      } else {
        image := None;
      }
    }

    match image {
      case None =>
        response := Response(StatusNotFound, Empty);
      case Some(data) =>
        if req.encode.GetOr(false) {
          response := Response(StatusOk, EncodedImage(data));
          return;
        }
        response := Response(StatusOk, Image(format, data));
    }
  }

  /** The JSON envelope of an upload: the declared format and base64 text of the image. */
  datatype ImageUpload = ImageUpload(format: ImageFormat, data: string)

  /** What `process_new_image` reports for a stored upload. */
  datatype ImageUploaded = ImageUploaded(fileId: FileId, formats: set<ImageFormat>)

  /** A call `add_file` makes into a collaborator, with its argument. */
  datatype Call =
    | ParseJson(body: Bytes)
    | DecodeBase64(text: string)
    | ProcessImage(format: ImageFormat, data: Bytes)

  /** The response of an upload and the calls made on the way, in order. */
  datatype AddOutcome = AddOutcome(response: Response, calls: seq<Call>)

  /**
   * The upload pipeline. `body` is what reading the request body gave; the
   * next steps are JSON parsing, base64 decoding and processing, each run
   * only if every step before it succeeded. Failing to read the body or to
   * process the image is a server error (500); a malformed envelope or bad
   * base64 is a client error (422); success is 200 with what processing
   * returned.
   */
  function AddFile(
    body: Option<Bytes>,
    parse: Bytes -> Option<ImageUpload>,
    decode: string -> Option<Bytes>,
    process: (ImageFormat, Bytes) -> Option<ImageUploaded>): (r: AddOutcome)
    ensures r.response.status in {StatusOk, StatusUnprocessableEntity, StatusInternalServerError}
    // the steps run in pipeline order, each only after the previous one succeeded
    ensures |r.calls| <= 3
    ensures |r.calls| >= 1 <==> body.Some?
    ensures |r.calls| >= 1 ==> r.calls[0] == ParseJson(body.value)
    ensures |r.calls| >= 2 <==> body.Some? && parse(body.value).Some?
    ensures |r.calls| >= 2 ==> r.calls[1] == DecodeBase64(parse(body.value).value.data)
    ensures |r.calls| == 3 <==>
      body.Some? && parse(body.value).Some? && decode(parse(body.value).value.data).Some?
    ensures |r.calls| == 3 ==>
      r.calls[2] == ProcessImage(parse(body.value).value.format, decode(parse(body.value).value.data).value)
    // which step failed decides the response
    ensures body.None? ==> r.response == Response(StatusInternalServerError, Message(BodyUnreadable))
    ensures |r.calls| == 1 ==> r.response == Response(StatusUnprocessableEntity, Message(MalformedUpload))
    ensures |r.calls| == 2 ==> r.response == Response(StatusUnprocessableEntity, Message(InvalidBase64))
    ensures |r.calls| == 3 ==>
      var processed := process(r.calls[2].format, r.calls[2].data);
      r.response == if processed.Some?
        then Response(StatusOk, Uploaded(processed.value.fileId, processed.value.formats))
        else Response(StatusInternalServerError, Message(ProcessingFailed))
    // client errors are exactly the rejected envelopes, and they never reach processing
    ensures r.response.status == StatusUnprocessableEntity <==> |r.calls| in {1, 2}
    ensures r.response.status == StatusOk ==> |r.calls| == 3
  {
    match body
    case None => AddOutcome(Response(StatusInternalServerError, Message(BodyUnreadable)), [])
    case Some(bytes) =>
      match parse(bytes)
      case None => AddOutcome(Response(StatusUnprocessableEntity, Message(MalformedUpload)), [ParseJson(bytes)])
      case Some(upload) =>
        match decode(upload.data)
        case None =>
          AddOutcome(Response(StatusUnprocessableEntity, Message(InvalidBase64)),
                     [ParseJson(bytes), DecodeBase64(upload.data)])
        case Some(data) =>
          var calls := [ParseJson(bytes), DecodeBase64(upload.data), ProcessImage(upload.format, data)];
          match process(upload.format, data)
          case None => AddOutcome(Response(StatusInternalServerError, Message(ProcessingFailed)), calls)
          case Some(uploaded) => AddOutcome(Response(StatusOk, Uploaded(uploaded.fileId, uploaded.formats)), calls)
  }

  /**
   * A delete: `deleteImage` reports whether the backend delete succeeded. On
   * success the answer is the same acknowledgement whether or not the image
   * existed; on failure it is a server error. The cache is not consulted.
   */
  function RemoveFile(fileId: FileId, deleteImage: FileId -> bool): (r: Response)
    ensures r.status == StatusOk <==> deleteImage(fileId)
    ensures r.status == StatusOk ==> r.body == DeletedIfExists(fileId)
    ensures r.status != StatusOk ==> r == Response(StatusInternalServerError, Message(DeleteFailed))
  {
    if !deleteImage(fileId) then
      Response(StatusInternalServerError, Message(DeleteFailed))
    else
      Response(StatusOk, DeletedIfExists(fileId))
  }
}
