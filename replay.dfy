/**
 * Properties of `get_file` over a run of GET requests served one after the
 * other against one shared cache and a backend that does not change during
 * the run.
 */
module CacheAsideProperties {
  import opened Types
  import opened Presets
  import opened ImageCache
  import opened Responses
  import opened Routes

  /** The responses of a run, the cache after it, and the keys the backend was asked for, in order. */
  datatype Served = Served(responses: seq<Response>, entries: map<CacheKey, Bytes>, consulted: seq<CacheKey>)

  /** Serves `reqs` in order, each one as `GetFile` does, threading the cache through. */
  function Replay(entries: map<CacheKey, Bytes>, config: ServingConfig, reqs: seq<GetRequest>, origin: Origin): (r: Served)
    ensures |r.responses| == |reqs|
    ensures |r.consulted| <= |reqs|
    ensures forall k :: k in entries ==> k in r.entries && r.entries[k] == entries[k]
    decreases |reqs|
  {
    if reqs == [] then
      Served([], entries, [])
    else
      var key := RequestKey(reqs[0], config);
      var lookup := CacheAside(entries, key, origin);
      var rest := Replay(lookup.entries, config, reqs[1..], origin);
      Served([Render(lookup.image, key.format, reqs[0].encode.GetOr(false))] + rest.responses,
             rest.entries,
             (if lookup.consultedOrigin then [key] else []) + rest.consulted)
  }

  /** The keys the requests are served under. */
  function RequestKeys(config: ServingConfig, reqs: seq<GetRequest>): (keys: seq<CacheKey>)
    ensures |keys| == |reqs|
    ensures forall i :: 0 <= i < |reqs| ==> keys[i] == RequestKey(reqs[i], config)
  {
    seq(|reqs|, i requires 0 <= i < |reqs| => RequestKey(reqs[i], config))
  }

  /** Every cached rendition is exactly what the backend yields for its key. */
  ghost predicate Coherent(entries: map<CacheKey, Bytes>, origin: Origin)
  {
    forall k :: k in entries ==> origin(k) == Some(entries[k])
  }

  /** No cache entry is keyed by a preset that is neither "original" nor a size preset. */
  ghost predicate WellKeyed(entries: map<CacheKey, Bytes>, sizePresets: set<string>)
  {
    forall k :: k in entries ==> ValidPreset(k.preset, sizePresets)
  }

  /**
   * The cache is a pure performance layer: starting from a coherent cache,
   * every response is the one the backend alone would give, and the cache
   * stays coherent.
   */
  lemma {:induction false} ReplayIsTransparent(entries: map<CacheKey, Bytes>, config: ServingConfig, reqs: seq<GetRequest>, origin: Origin)
    requires Coherent(entries, origin)
    ensures Coherent(Replay(entries, config, reqs, origin).entries, origin)
    ensures forall i :: 0 <= i < |reqs| ==>
      Replay(entries, config, reqs, origin).responses[i]
        == Render(origin(RequestKey(reqs[i], config)), RequestKey(reqs[i], config).format, reqs[i].encode.GetOr(false))
    decreases |reqs|
  {
    if reqs != [] {
      var key := RequestKey(reqs[0], config);
      var lookup := CacheAside(entries, key, origin);
      assert Coherent(lookup.entries, origin);
      ReplayIsTransparent(lookup.entries, config, reqs[1..], origin);
      var r := Replay(entries, config, reqs, origin);
      forall i | 0 <= i < |reqs|
        ensures r.responses[i]
          == Render(origin(RequestKey(reqs[i], config)), RequestKey(reqs[i], config).format, reqs[i].encode.GetOr(false))
      {
        if i > 0 {
          assert reqs[i] == reqs[1..][i - 1];
        }
      }
    }
  }

  /** Presets are normalised before any store, so a well-keyed cache stays well keyed. */
  lemma {:induction false} ReplayKeepsPresetsValid(entries: map<CacheKey, Bytes>, config: ServingConfig, reqs: seq<GetRequest>, origin: Origin)
    requires WellKeyed(entries, config.sizePresets)
    ensures WellKeyed(Replay(entries, config, reqs, origin).entries, config.sizePresets)
    decreases |reqs|
  {
    if reqs != [] {
      var key := RequestKey(reqs[0], config);
      var lookup := CacheAside(entries, key, origin);
      assert WellKeyed(lookup.entries, config.sizePresets);
      ReplayKeepsPresetsValid(lookup.entries, config, reqs[1..], origin);
    }
  }

  /**
   * Population happens once: a key the backend has data for is asked for at
   * most once in a run, and never when it is already cached.
   */
  lemma {:induction false} OriginConsultedAtMostOnce(entries: map<CacheKey, Bytes>, config: ServingConfig, reqs: seq<GetRequest>, origin: Origin, key: CacheKey)
    requires origin(key).Some? || key in entries
    ensures multiset(Replay(entries, config, reqs, origin).consulted)[key] <= 1
    ensures key in entries ==> multiset(Replay(entries, config, reqs, origin).consulted)[key] == 0
    decreases |reqs|
  {
    if reqs != [] {
      var first := RequestKey(reqs[0], config);
      var lookup := CacheAside(entries, first, origin);
      var rest := Replay(lookup.entries, config, reqs[1..], origin);
      var prefix := if lookup.consultedOrigin then [first] else [];
      assert Replay(entries, config, reqs, origin).consulted == prefix + rest.consulted;
      OriginConsultedAtMostOnce(lookup.entries, config, reqs[1..], origin, key);
      if first == key && key !in entries {
        assert key in lookup.entries;
      }
    }
  }

  /**
   * No negative caching: a key the backend has nothing for is never cached,
   * and the backend is asked for it on every request that names it.
   */
  lemma {:induction false} NoNegativeCaching(entries: map<CacheKey, Bytes>, config: ServingConfig, reqs: seq<GetRequest>, origin: Origin, key: CacheKey)
    requires origin(key).None? && key !in entries
    ensures key !in Replay(entries, config, reqs, origin).entries
    ensures multiset(Replay(entries, config, reqs, origin).consulted)[key]
         == multiset(RequestKeys(config, reqs))[key]
    decreases |reqs|
  {
    if reqs != [] {
      var first := RequestKey(reqs[0], config);
      var lookup := CacheAside(entries, first, origin);
      var rest := Replay(lookup.entries, config, reqs[1..], origin);
      NoNegativeCaching(lookup.entries, config, reqs[1..], origin, key);
      assert RequestKeys(config, reqs) == [first] + RequestKeys(config, reqs[1..]);
      var prefix := if lookup.consultedOrigin then [first] else [];
      assert Replay(entries, config, reqs, origin).consulted == prefix + rest.consulted;
      assert first == key ==> prefix == [key];
    }
  }

  /**
   * The encode flag only changes how a found image is rendered: runs that
   * differ only in it leave the same cache, ask the backend for the same
   * keys, and give the same statuses and payloads.
   */
  lemma {:induction false} EncodeOnlyChangesRendering(entries: map<CacheKey, Bytes>, config: ServingConfig, reqs: seq<GetRequest>, reqs': seq<GetRequest>, origin: Origin)
    requires |reqs| == |reqs'|
    requires forall i :: 0 <= i < |reqs| ==> reqs'[i] == reqs[i].(encode := reqs'[i].encode)
    ensures Replay(entries, config, reqs, origin).entries == Replay(entries, config, reqs', origin).entries
    ensures Replay(entries, config, reqs, origin).consulted == Replay(entries, config, reqs', origin).consulted
    ensures forall i :: 0 <= i < |reqs| ==>
      && Replay(entries, config, reqs, origin).responses[i].status == Replay(entries, config, reqs', origin).responses[i].status
      && Payload(Replay(entries, config, reqs, origin).responses[i].body) == Payload(Replay(entries, config, reqs', origin).responses[i].body)
    decreases |reqs|
  {
    if reqs != [] {
      var key := RequestKey(reqs[0], config);
      assert RequestKey(reqs'[0], config) == key;
      var lookup := CacheAside(entries, key, origin);
      EncodeOnlyChangesRendering(lookup.entries, config, reqs[1..], reqs'[1..], origin);
      var r, r' := Replay(entries, config, reqs, origin), Replay(entries, config, reqs', origin);
      forall i | 0 <= i < |reqs|
        ensures r.responses[i].status == r'.responses[i].status
        ensures Payload(r.responses[i].body) == Payload(r'.responses[i].body)
      {
        if i > 0 {
          assert r.responses[i] == Replay(lookup.entries, config, reqs[1..], origin).responses[i - 1];
          assert r'.responses[i] == Replay(lookup.entries, config, reqs'[1..], origin).responses[i - 1];
        }
      }
    }
  }

  /**
   * Once a fetch has found an image, the next fetch of the same key is a hit
   * with the same bytes, whatever the backend yields by then.
   */
  lemma SecondFetchHits(entries: map<CacheKey, Bytes>, key: CacheKey, origin: Origin, laterOrigin: Origin)
    requires CacheAside(entries, key, origin).image.Some?
    ensures var first := CacheAside(entries, key, origin);
      CacheAside(first.entries, key, laterOrigin) == Lookup(first.image, first.entries, false)
  {
  }

  /**
   * A delete does not invalidate the cache: after the backend has deleted an
   * image, a rendition of it that was cached is still served, with the old
   * bytes, although the backend has nothing for it any more.
   */
  lemma DeleteLeavesRenditionsServed(entries: map<CacheKey, Bytes>, config: ServingConfig, req: GetRequest, deleteImage: FileId -> bool, originAfterDelete: Origin)
    requires RequestKey(req, config) in entries
    requires deleteImage(req.fileId)
    requires forall k: CacheKey :: k.fileId == req.fileId ==> originAfterDelete(k).None?
    ensures RemoveFile(req.fileId, deleteImage).status == StatusOk
    ensures !Coherent(entries, originAfterDelete)
    ensures Replay(entries, config, [req], originAfterDelete).responses[0]
      == Render(Some(entries[RequestKey(req, config)]), RequestKey(req, config).format, req.encode.GetOr(false))
  {
    var key := RequestKey(req, config);
    assert originAfterDelete(key).None?;
  }
}
