/** store/upload_strategy.go: whether and how an upload is split. */
module Strategy {
  import opened ByteStrings

  datatype MediaType = Document | Photo | Video | Audio | Animation

  /** UploadConfig. A type without an entry in `typeLimits` reads as 0, like a missing key of a Go map. */
  datatype UploadConfig = UploadConfig(
    auto: bool, enableChunking: bool, maxFileSize: int, chunkSize: int, typeLimits: map<MediaType, int>)
  {
    function Limit(t: MediaType): int {
      if t in typeLimits then typeLimits[t] else 0
    }
  }

  const DEFAULT_CHUNK_SIZE := 20 * 1024 * 1024

  datatype UploadStrategy = UploadStrategy(mediaType: MediaType, chunked: bool, chunkSize: int)

  predicate WithinLimit(size: int, limit: int) {
    limit <= 0 || size <= limit
  }

  /** UploadStrategyResolver.Resolve, for a file whose inferred type is `inferred`; None is ErrEntityTooLarge. */
  function Resolve(config: UploadConfig, inferred: MediaType, size: int): Option<UploadStrategy> {
    if config.maxFileSize > 0 && size > config.maxFileSize then None
    else if config.auto && inferred != Document && WithinLimit(size, config.Limit(inferred)) then
      Some(UploadStrategy(inferred, false, 0))
    else ResolveDocument(config, size)
  }

  function ResolveDocument(config: UploadConfig, size: int): Option<UploadStrategy> {
    if WithinLimit(size, config.Limit(Document)) then Some(UploadStrategy(Document, false, 0))
    else if config.enableChunking then
      Some(UploadStrategy(Document, true, if config.chunkSize <= 0 then DEFAULT_CHUNK_SIZE else config.chunkSize))
    else None
  }

  /** A file that is not too large goes out under its own type when that is allowed and fits, else as one document when
      that fits, else in chunks of the configured size. */
  lemma ResolveMeaning(config: UploadConfig, inferred: MediaType, size: int)
    ensures var r := Resolve(config, inferred, size);
            var own := if inferred in config.typeLimits then config.typeLimits[inferred] else 0;
            var document := if Document in config.typeLimits then config.typeLimits[Document] else 0;
            var typed := config.auto && inferred != Document && !(0 < own < size);
            var single := !(0 < document < size);
            && (r.Some? <==> !(0 < config.maxFileSize < size) && (typed || single || config.enableChunking))
            && (r.Some? ==>
                 && (r.value.mediaType == if typed then inferred else Document)
                 && (r.value.chunked <==> !typed && !single)
                 && (r.value.chunked && config.chunkSize > 0 ==> r.value.chunkSize == config.chunkSize)
                 && (r.value.chunked && config.chunkSize <= 0 ==> r.value.chunkSize == 20971520))
  {
  }

  /** A chunked strategy has a positive chunk size, and PutObject's later limit check never rejects an unchunked one. */
  lemma ResolvedStrategiesAreUsable(config: UploadConfig, inferred: MediaType, size: int)
    ensures var s := Resolve(config, inferred, size);
            && (s.Some? && s.value.chunked ==> s.value.chunkSize > 0 && s.value.mediaType == Document)
            && (s.Some? && !s.value.chunked ==>
                 !(config.Limit(s.value.mediaType) > 0 && size > config.Limit(s.value.mediaType)))
            && (s.None? <==>
                 || (config.maxFileSize > 0 && size > config.maxFileSize)
                 || (!(config.auto && inferred != Document && WithinLimit(size, config.Limit(inferred)))
                     && !WithinLimit(size, config.Limit(Document)) && !config.enableChunking))
  {
  }
}
