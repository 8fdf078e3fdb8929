/** Values shared by every part of the image server model. */
module Types {

  /** An optional value, as Rust's `Option`. */
  datatype Option<+T> = None | Some(value: T) {

    /** The value, or `default` when there is none (Rust's `unwrap_or`). */
    function GetOr(default: T): (r: T)
      ensures Some? ==> r == value
      ensures None? ==> r == default
    {
      match this
      case Some(v) => v
      case None => default
    }
  }

  /** One octet of an image payload. */
  newtype byte = b: int | 0 <= b < 256

  /** An image payload, as the canonical binary form held by the cache. */
  type Bytes = seq<byte>

  /** The identifier of a stored image; only equality matters to the routes. */
  type FileId = nat

  /** The image encodings the server can produce. */
  datatype ImageFormat = Png | Jpeg | Gif | WebP
}
