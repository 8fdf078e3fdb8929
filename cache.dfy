/**
 * The process-wide rendition cache, reduced to a single-threaded keyed store
 * with no eviction: `get` reads an entry, `set` inserts or replaces one.
 */
module ImageCache {
  import opened Types

  /** Identifies one rendition: the image, the resolved preset and the format. */
  datatype CacheKey = CacheKey(fileId: FileId, preset: string, format: ImageFormat)

  class Cache {
    /** The cached renditions; a map, so no key is held twice. */
    var entries: map<CacheKey, Bytes>

    /** A cache that holds nothing. */
    constructor ()
      ensures entries == map[]
    {
      entries := map[];
    }

    /** The bytes cached for the rendition, if there are any. */
    function Get(fileId: FileId, preset: string, format: ImageFormat): (cached: Option<Bytes>)
      reads this
      ensures cached.Some? <==> CacheKey(fileId, preset, format) in entries
      ensures cached.Some? ==> cached.value == entries[CacheKey(fileId, preset, format)]
    {
      var key := CacheKey(fileId, preset, format);
      if key in entries then Some(entries[key]) else None
    }

    /** Stores `data` for the rendition, replacing what was there; other keys keep their entries. */
    method Set(fileId: FileId, preset: string, format: ImageFormat, data: Bytes)
      modifies this
      ensures entries == old(entries)[CacheKey(fileId, preset, format) := data]
    {
      entries := entries[CacheKey(fileId, preset, format) := data];
    }
  }
}
