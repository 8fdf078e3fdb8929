# Request orchestration of the lust image server, in Dafny

This project models the decision rules of `src/routes.rs`, the three HTTP
handlers of the image server:

- `get_file` serves one rendition of an image. It picks the format and the
  preset, falling back to the configured defaults; a preset that is neither
  `"original"` nor a configured size preset becomes `"original"`. It then does
  a cache-aside lookup in the shared rendition cache. A hit is served from the
  cache. On a miss it asks the storage backend (`get_image`) and stores what
  that yields. If nothing comes back the answer is 404. The `encode` flag only
  chooses between the raw image and a JSON object holding its base64 text.
- `add_file` is a chain of early exits: read the body (500 on failure), parse
  the JSON envelope (422), decode the base64 data (422), process the image
  (500). On success it answers 200 with the new file id and its formats.
- `remove_file` asks the backend to delete the image. It answers 500 if that
  fails and otherwise 200 "file deleted if exists" with the id.

Layout:

- `types.dfy` (module `Types`): `Option`, bytes, file ids, image formats.
- `presets.dfy` (module `Presets`): the serving configuration and the
  preset/format fallback rules.
- `cache.dfy` (module `ImageCache`): the cache key and the `Cache` class, one
  `map` field updated in place by `Set`.
- `responses.dfy` (module `Responses`): status codes and what a response body
  carries.
- `routes.dfy` (module `Routes`):
  - the cache-aside rule `CacheAside` and `Render`;
  - `GetFile`, an imperative method over a `Cache` that is proved against them;
  - `AddFile` and `RemoveFile`, pure functions over the results of their
    collaborators.
- `replay.dfy` (module `CacheAsideProperties`): `Replay` runs a sequence of
  GET requests against one cache. The lemmas about such runs cover:
  - transparency of the cache;
  - no entry keyed by an invalid preset;
  - at most one backend call per key that has data;
  - no negative caching;
  - the encode flag not mattering to caching;
  - the missing invalidation on delete.

Collaborators are inputs:

- the backend read `get_image` is a total function `Origin` from cache key
  to optional bytes;
- the JSON parser, the base64 decoder and `process_new_image` are function
  parameters of `AddFile`;
- `delete_image` is a function parameter of `RemoveFile`;
- the result of reading the request body is a parameter.

`AddFile` returns, beside the response, the calls it made, in order, so that
"later steps are skipped" is part of its contract.

Three behaviours of the code that a reader might not expect, all kept by the
model:

- `remove_file` does not invalidate cached renditions. `RemoveFile` takes no
  cache, and `DeleteLeavesRenditionsServed` proves that a rendition cached
  before a successful delete is still served with its old bytes.
- `get_image` returns an `Option`, so a backend error and an absent image are
  the same to `get_file`: both give 404 and neither is cached.
- `add_file` parses the JSON envelope first and only then base64-decodes its
  `data` field.

## Model

| member | source | states |
|---|---|---|
| `Presets.ResolveFormat` | src/routes.rs:24-26 | a supplied format is used as given; a missing one is the configured default serving format |
| `Presets.ResolvePreset` | src/routes.rs:28-39 | the result is always `"original"` or a size preset; the asked name (the requested preset, or the default when none is given) is kept exactly when it is `"original"` or a size preset, and any other asked name, a configured default included, becomes `"original"` |
| `Presets.OriginalIsKept` | src/routes.rs:32 | `"original"` is returned unchanged whatever the size preset table holds |
| `Presets.UnknownPresetActsAsOriginal` | src/routes.rs:32-39 | an unknown preset resolves to the same preset as `"original"` |
| `Presets.ResolvePresetIdempotent` | src/routes.rs:32-39 | resolving an already resolved preset gives it back |
| `ImageCache.Cache.Get` | src/routes.rs:42 | `cache.get` yields bytes exactly when the key (id, preset, format) is cached, and then the cached bytes |
| `ImageCache.Cache.Set` | src/routes.rs:58 | `cache.set` maps the key to the data and leaves every other entry as it was |
| `Routes.CacheAside` | src/routes.rs:42-63 | the backend is consulted iff the key is not cached; a hit yields the cached bytes and leaves the cache as it was; a miss yields what the backend yields; the key is added iff the backend yields data, with exactly that data; existing entries never change |
| `Routes.Render` | src/routes.rs:65-81 | status 404 with an empty body iff no image; otherwise 200 carrying exactly the image bytes, base64-wrapped in JSON iff encode is set, raw with the served format otherwise |
| `Routes.GetFile` | src/routes.rs:18-83 | the response and the new cache are those of the cache-aside lookup under the resolved key, rendered with the encode flag (default false); on a hit the backend is not consulted and the cache is unchanged; a 404 leaves the cache unchanged |
| `Routes.AddFile` | src/routes.rs:85-159 | body read failure gives 500 with no further call; JSON failure gives 422 after one call; base64 failure gives 422 after two calls; processing runs only when all three earlier steps succeed, on the envelope's format and the decoded bytes; its failure gives 500; success gives 200 with exactly the returned id and formats; 422 never reaches processing |
| `Routes.RemoveFile` | src/routes.rs:161-191 | status 200 iff the delete succeeds, with body "file deleted if exists" and the given id; otherwise 500 with the delete failure; the cache is not an input |
| `CacheAsideProperties.Replay` | src/routes.rs:42-63 | a run of GET requests gives one response per request, consults the backend at most once per request, and never drops or alters an entry already cached |
| `CacheAsideProperties.ReplayIsTransparent` | src/routes.rs:42-63 | from a cache that agrees with the backend, every response of a run is the one the backend alone would give, and the cache still agrees with the backend afterwards |
| `CacheAsideProperties.ReplayKeepsPresetsValid` | src/routes.rs:32-39 | since presets are normalised before any lookup or store, no run adds an entry keyed by a preset that is neither `"original"` nor a size preset |
| `CacheAsideProperties.OriginConsultedAtMostOnce` | src/routes.rs:42-59 | in any run, the backend is asked at most once for a key it has data for, and never for a key already cached |
| `CacheAsideProperties.NoNegativeCaching` | src/routes.rs:57-62 | a key the backend has nothing for is never cached, and the backend is asked for it once per request that names it |
| `CacheAsideProperties.EncodeOnlyChangesRendering` | src/routes.rs:65-81 | runs that differ only in the encode flags end with the same cache, consult the backend for the same keys, and give the same statuses and payloads |
| `CacheAsideProperties.SecondFetchHits` | src/routes.rs:42-59 | after a fetch that found an image, the next fetch of the key is a hit with the same bytes and no backend call, whatever the backend yields by then |
| `CacheAsideProperties.DeleteLeavesRenditionsServed` | src/routes.rs:161-190 | after a successful delete that empties the backend for an id, a rendition of it cached before is still served with its old bytes |

## Left out

- HTTP plumbing is not modelled: Gotham `State` extraction, hyper bodies, headers, `HandlerResult` and the JSON layout of responses. A response is a status code and a body datatype.
- Message texts and logging (`debug!`, `error!`) are not modelled; an error body only says which step failed.
- Base64 encoding on the read path is not modelled: `EncodedImage` carries the bytes whose base64 text the JSON holds, because the codec is a foreign library.
- The JSON parser and the base64 decoder on the upload path are abstract partial functions, because they are foreign library calls.
- `get_image`, `process_new_image` and `delete_image` are oracles given as parameters. The `image` module is not part of this model, and neither are its storage and transcoding.
- The run lemmas assume the backend read is a function that does not change during the run; the real backend may change between requests.
- `ImageCache.Cache.constructor` starts the cache with no entries. That is an assumption about the cache module, which is not part of this model; `src/routes.rs` only fetches the already initialised global cache.
- The cache module is not part of this model. The cache is a single-threaded map with no capacity bound and no eviction; concurrency, `OnceCell` initialisation and thread-safety are out of scope.
- The panics of `CACHE_STATE.get().expect(...)` (line 41) and of serialising the upload result (line 156) are not modelled: an initialised cache and a serialisable result are assumed.
- File ids and image formats are defined outside `src/routes.rs`; an id is an opaque natural number, and the format variants are Png, Jpeg, Gif and WebP. Only equality of either matters to the routes.
