/** The result cache (`try_use_cache` and `cache_search_results`,
    src/search.rs:79-143): two records in the program directory, the
    fingerprint (`search_cache_options.json`) and the payload
    (`search_cache.json`). Serialisation is taken to round-trip, so a file
    holds either a record or something that does not parse. */
module Cache {
  import opened Wrappers
  import opened Results

  /** One cache file as the next probe finds it. */
  datatype Stored<T> =
    | Unreadable      // missing, or `File::open` fails
    | Unparsable      // truncated or partly written
    | Record(value: T)

  datatype CacheFiles = CacheFiles(options: Stored<SearchOptions>, payload: Stored<SearchCache>)

  /** `get_program_directory()`: the directory holding the cache, or its error. */
  datatype ProgramDir = NoProgramDir(error: string) | ProgramDir(files: CacheFiles)

  /** How writing one cache file goes. A `BufWriter` flushes when dropped and
      ignores a failure there, so a write can be lost without an error. */
  datatype WriteFault =
    | Complete
    | CreateFails(error: string)
    | WriteFails(error: string)
    | FlushLost

  datatype CacheWriteError =
    | ProgramDirError(error: string)
    | CreateOptionsError(error: string)
    | WriteOptionsError(error: string)
    | CreatePayloadError(error: string)
    | WritePayloadError(error: string)

  /** `try_use_cache`: the payload, only when the stored fingerprint equals
      the probe in query, docset and every flag; anything else is a miss. */
  function TryUseCache(dir: ProgramDir, probe: SearchOptions): (r: Option<SearchCache>)
    ensures r.Some? <==> dir.ProgramDir? && dir.files.options == Record(probe) && dir.files.payload.Record?
    ensures r.Some? ==> r.value == dir.files.payload.value
  {
    if dir.NoProgramDir? then None
    else
      match dir.files.options
      case Record(stored) =>
        if stored != probe then None
        else
          (match dir.files.payload
           case Record(cache) => Some(cache)
           case _ => None)
      case _ => None
  }

  /** One `File::create` then `serde_json::to_writer`: a created file is
      truncated, so anything but a complete write leaves it unparsable. */
  function WriteFile<T>(prior: Stored<T>, value: T, fault: WriteFault): (r: Stored<T>)
    ensures fault.Complete? ==> r == Record(value)
    ensures fault.CreateFails? ==> r == prior
    ensures fault.WriteFails? || fault.FlushLost? ==> r == Unparsable
  {
    match fault
    case Complete => Record(value)
    case CreateFails(_) => prior
    case _ => Unparsable
  }

  /** `cache_search_results`: the fingerprint first, then the payload; the
      first reported failure stops it. */
  function CacheSearchResults(dir: ProgramDir, options: SearchOptions, cache: SearchCache, optionsFault: WriteFault, payloadFault: WriteFault)
    : (r: (ProgramDir, Result<(), CacheWriteError>))
    ensures dir.NoProgramDir? ==> r == (dir, Failure(ProgramDirError(dir.error)))
    ensures r.1.Success? <==> dir.ProgramDir? && !optionsFault.CreateFails? && !optionsFault.WriteFails?
                                && !payloadFault.CreateFails? && !payloadFault.WriteFails?
    ensures dir.ProgramDir? ==> r.0.ProgramDir? && r.0.files.options == WriteFile(dir.files.options, options, optionsFault)
    ensures dir.ProgramDir? && (optionsFault.CreateFails? || optionsFault.WriteFails?) ==> r.0.files.payload == dir.files.payload
    ensures dir.ProgramDir? && !(optionsFault.CreateFails? || optionsFault.WriteFails?) ==>
      r.0.files.payload == WriteFile(dir.files.payload, cache, payloadFault)
  {
    match dir
    case NoProgramDir(e) => (dir, Failure(ProgramDirError(e)))
    case ProgramDir(files) =>
      var afterOptions := files.(options := WriteFile(files.options, options, optionsFault));
      match optionsFault
      case CreateFails(e) => (ProgramDir(afterOptions), Failure(CreateOptionsError(e)))
      case WriteFails(e) => (ProgramDir(afterOptions), Failure(WriteOptionsError(e)))
      case _ =>
        var afterPayload := afterOptions.(payload := WriteFile(files.payload, cache, payloadFault));
        match payloadFault
        case CreateFails(e) => (ProgramDir(afterPayload), Failure(CreatePayloadError(e)))
        case WriteFails(e) => (ProgramDir(afterPayload), Failure(WritePayloadError(e)))
        case _ => (ProgramDir(afterPayload), Success(()))
  }

  /** Store then probe with the same fingerprint: the stored results come back. */
  lemma StoreThenProbeHits(files: CacheFiles, options: SearchOptions, cache: SearchCache)
    ensures var (dir', outcome) := CacheSearchResults(ProgramDir(files), options, cache, Complete, Complete);
      outcome == Success(()) && TryUseCache(dir', options) == Some(cache)
  {
  }

  /** After a store, a probe with any other fingerprint misses. */
  lemma OtherFingerprintMisses(files: CacheFiles, options: SearchOptions, cache: SearchCache, probe: SearchOptions)
    requires probe != options
    ensures TryUseCache(CacheSearchResults(ProgramDir(files), options, cache, Complete, Complete).0, probe).None?
  {
  }

  /** Toggling any one of the four flags, with query and docset fixed, misses. */
  lemma EachFlagInvalidates(files: CacheFiles, options: SearchOptions, cache: SearchCache)
    ensures var f := options.flags;
      var dir' := CacheSearchResults(ProgramDir(files), options, cache, Complete, Complete).0;
      && TryUseCache(dir', options.(flags := f.(caseInsensitive := !f.caseInsensitive))).None?
      && TryUseCache(dir', options.(flags := f.(precise := !f.precise))).None?
      && TryUseCache(dir', options.(flags := f.(whole := !f.whole))).None?
      && TryUseCache(dir', options.(flags := f.(ignoreFragment := !f.ignoreFragment))).None?
  {
  }

  /** Whatever goes wrong while storing, once both files could be created a
      later probe hits only for the stored fingerprint, and then returns the
      new results: a partial write is a miss, never a wrong payload. */
  lemma HitAfterStoreIsFresh(files: CacheFiles, options: SearchOptions, cache: SearchCache,
                             optionsFault: WriteFault, payloadFault: WriteFault, probe: SearchOptions)
    requires !optionsFault.CreateFails? && !payloadFault.CreateFails?
    ensures var hit := TryUseCache(CacheSearchResults(ProgramDir(files), options, cache, optionsFault, payloadFault).0, probe);
      hit.Some? ==> probe == options && hit.value == cache
  {
  }

  /** What the write order leaves open: the fingerprint is written, the
      payload file cannot be created, and the next probe with the new
      fingerprint is a hit on the previous search's results. */
  lemma StalePayloadAfterFailedPayloadCreate(files: CacheFiles, options: SearchOptions, previous: SearchCache, cache: SearchCache, e: string)
    requires files.payload == Record(previous)
    ensures var (dir', outcome) := CacheSearchResults(ProgramDir(files), options, cache, Complete, CreateFails(e));
      outcome == Failure(CreatePayloadError(e)) && TryUseCache(dir', options) == Some(previous)
  {
  }

  /** A write lost on drop reports success, yet the next probe misses and
      recomputes: never a wrong payload. */
  lemma LostFlushIsAMiss(files: CacheFiles, options: SearchOptions, cache: SearchCache)
    ensures var (dir', outcome) := CacheSearchResults(ProgramDir(files), options, cache, Complete, FlushLost);
      outcome == Success(()) && TryUseCache(dir', options).None?
  {
  }
}
