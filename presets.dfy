/** Serving configuration and the preset/format fallback rules of `get_file`. */
module Presets {
  import opened Types

  /** The reserved preset that names the untransformed image; it is always valid. */
  const Original: string := "original"

  /**
   * The part of the server configuration the routes read: the defaults used
   * when a request names no format or preset, and the names of the size
   * presets (only their membership matters here).
   */
  datatype ServingConfig = ServingConfig(
    defaultServingFormat: ImageFormat,
    defaultServingPreset: string,
    sizePresets: set<string>)

  /** A preset name the cache may be keyed by. */
  predicate ValidPreset(preset: string, sizePresets: set<string>)
  {
    preset == Original || preset in sizePresets
  }

  /** The format served: the requested one, else the configured default. */
  function ResolveFormat(requested: Option<ImageFormat>, config: ServingConfig): (format: ImageFormat)
    ensures requested.Some? ==> format == requested.value
    ensures requested.None? ==> format == config.defaultServingFormat
  {
    requested.GetOr(config.defaultServingFormat)
  }

  /**
   * The preset served. A missing preset falls back to the default; then any
   * name other than "original" that is not a size preset becomes "original".
   * The fallback check is applied to the default as well.
   */
  function ResolvePreset(requested: Option<string>, defaultPreset: string, sizePresets: set<string>): (preset: string)
    ensures ValidPreset(preset, sizePresets)
    ensures var asked := requested.GetOr(defaultPreset);
      preset == asked <==> ValidPreset(asked, sizePresets)
    ensures !ValidPreset(requested.GetOr(defaultPreset), sizePresets) ==> preset == Original
  {
    var asked := requested.GetOr(defaultPreset);
    if asked != Original && asked !in sizePresets then Original else asked
  }

  /** "original" is never rewritten, whatever the table holds. */
  lemma OriginalIsKept(defaultPreset: string, sizePresets: set<string>)
    ensures ResolvePreset(Some(Original), defaultPreset, sizePresets) == Original
  {
  }

  /** An unknown preset is served exactly as "original" would be. */
  lemma UnknownPresetActsAsOriginal(preset: string, defaultPreset: string, sizePresets: set<string>)
    requires preset != Original && preset !in sizePresets
    ensures ResolvePreset(Some(preset), defaultPreset, sizePresets)
         == ResolvePreset(Some(Original), defaultPreset, sizePresets)
         == Original
  {
  }

  /** Resolving an already resolved preset changes nothing. */
  lemma ResolvePresetIdempotent(requested: Option<string>, defaultPreset: string, otherDefault: string, sizePresets: set<string>)
    ensures var preset := ResolvePreset(requested, defaultPreset, sizePresets);
      ResolvePreset(Some(preset), otherDefault, sizePresets) == preset
  {
  }
}
