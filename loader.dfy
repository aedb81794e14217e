/**
 * `DataLoaderService` of src/utils/dataLoader.ts: the loading state, the
 * listeners, and the sequential steps of `initialize`, `forceUpdate`,
 * the download, the save and the queries. Every method that changes the
 * service or the cache is proved to end in the world its reference
 * function in `LoaderSpec` computes.
 */
module DataLoader {
  import opened Wrappers
  import opened Strings
  import opened Records
  import opened LoaderSpec
  import opened Database

  /** A subscribed callback, known here only by its identity. */
  type ListenerId = nat

  const NOT_INITIALIZED: string := "데이터가 초기화되지 않았습니다"

  /** `allChunks.set(chunk, offset)`. */
  method CopyChunk(all: array<byte>, chunk: seq<byte>, offset: nat)
    requires offset + |chunk| <= all.Length
    modifies all
    ensures forall t :: 0 <= t < all.Length ==>
      all[t] == if offset <= t < offset + |chunk| then chunk[t - offset] else old(all[t])
  {
    var k := 0;
    while k < |chunk|
      invariant 0 <= k <= |chunk|
      invariant forall t :: 0 <= t < all.Length ==>
        all[t] == if offset <= t < offset + k then chunk[t - offset] else old(all[t])
    {
      all[offset + k] := chunk[k];
      k := k + 1;
    }
  }

  /** The chunks copied one after another into one buffer of exactly `loaded` bytes. */
  method ConcatChunks(chunks: seq<seq<byte>>, loaded: nat) returns (all: array<byte>)
    requires loaded == TotalLength(chunks)
    ensures fresh(all) && all[..] == Flatten(chunks)
  {
    all := new byte[loaded];
    var offset := 0;
    for j := 0 to |chunks|
      invariant offset == TotalLength(chunks[..j]) && offset <= loaded
      invariant all[..offset] == Flatten(chunks[..j])
    {
      var next := chunks[..j + 1];
      assert next[..j] == chunks[..j] && next[j] == chunks[j];
      TotalLengthPrefix(chunks, j + 1);
      ghost var before := all[..];
      CopyChunk(all, chunks[j], offset);
      assert all[..offset + |chunks[j]|] == before[..offset] + chunks[j] by {
        forall t | 0 <= t < offset + |chunks[j]|
          ensures all[..offset + |chunks[j]|][t] == (before[..offset] + chunks[j])[t]
        {
          if t < offset {
            assert all[t] == before[t];
          }
        }
      }
      offset := offset + |chunks[j]|;
    }
    assert chunks[..|chunks|] == chunks;
  }

  class DataLoaderService {
    var loadingState: LoadingState
    var listeners: set<ListenerId>
    /** Every state handed to the listeners, oldest first. */
    var notified: seq<LoadingState>
    /** The global `db`. */
    const db: CacheDb

    constructor(db: CacheDb)
      ensures this.db == db
      ensures loadingState == INITIAL_STATE && listeners == {} && notified == []
    {
      this.db := db;
      loadingState := INITIAL_STATE;
      listeners := {};
      notified := [];
    }

    /** The part of the world an operation changes. */
    function Snapshot(): World
      reads this, db
    {
      World(loadingState, notified, db.Contents())
    }

    /** `notifyStateChange`. */
    method NotifyStateChange()
      modifies this
      ensures Snapshot() == Notify(old(Snapshot())) && listeners == old(listeners)
    {
      notified := notified + [loadingState];
    }

    /** `subscribe`: the listener receives every later notification. */
    method Subscribe(listener: ListenerId)
      modifies this
      ensures listeners == old(listeners) + {listener}
      ensures loadingState == old(loadingState) && notified == old(notified)
    {
      listeners := listeners + {listener};
    }

    /** The function `subscribe` returns: `listeners.delete(listener)`, true when it was subscribed. */
    method Unsubscribe(listener: ListenerId) returns (removed: bool)
      modifies this
      ensures removed == (listener in old(listeners))
      ensures listeners == old(listeners) - {listener}
      ensures loadingState == old(loadingState) && notified == old(notified)
    {
      removed := listener in listeners;
      listeners := listeners - {listener};
    }

    /** `getState`: a copy, which a caller cannot use to change the service. */
    function GetState(): (s: LoadingState)
      reads this
      ensures s == loadingState
    {
      loadingState
    }

    /** `getLocalMetadata`. */
    method GetLocalMetadata(env: Env) returns (m: Option<DatasetMetadata>)
      ensures m == LocalMetadata(db.Contents(), env)
      ensures m.Some? ==> m.value in db.metadata
    {
      if env.readFails {
        return None;
      }
      m := db.Last();
    }

    /** `validateLocalData`. */
    method ValidateLocalData(metadata: DatasetMetadata, env: Env) returns (ok: bool)
      ensures ok == LocalDataValid(metadata, env.now, env.isDev, RecordCount(db.Contents(), env))
    {
      var localDbVersion := if Truthy(metadata.dbVersion) then metadata.dbVersion.value else LEGACY_DB_VERSION;
      if localDbVersion != CURRENT_DB_VERSION {
        return false;
      }
      var metadataAge := env.now - metadata.lastUpdated;
      var maxValidationAge := if env.isDev then 10 * MINUTE else HOUR;
      if metadataAge < maxValidationAge {
        return true;
      }
      if env.countFails {
        return false;
      }
      var actualCount := |db.records|;
      if actualCount != metadata.totalRecords {
        return false;
      }
      return true;
    }

    /** `downloadCompleteDataset`: read the stream with progress, join the chunks, parse. */
    method DownloadCompleteDataset(env: Env) returns (r: Result<CompleteDataset, string>)
      modifies this
      ensures (Snapshot(), r) == DownloadRun(old(Snapshot()), env)
      ensures listeners == old(listeners)
    {
      match env.download
      case NetworkError(e) =>
        return Failure(e);
      case Reply(ok, status, statusText, contentLength, body) =>
        if !ok {
          return Failure(DOWNLOAD_FAILED + NatToString(status) + " " + statusText);
        }
        var total := ContentTotal(contentLength);
        if body.None? {
          return Failure(NO_BODY);
        }
        var stream := body.value;
        ghost var start := Snapshot();
        var chunks: seq<seq<byte>> := [];
        var loaded := 0;
        while |chunks| < |stream|
          invariant |chunks| <= |stream| && chunks == stream[..|chunks|]
          invariant loaded == TotalLength(chunks)
          invariant Snapshot() == ReadChunks(start, chunks, total)
          invariant listeners == old(listeners)
          decreases |stream| - |chunks|
        {
          var value := stream[|chunks|];
          var next := chunks + [value];
          assert next[..|chunks|] == chunks;
          chunks := next;
          loaded := loaded + |value|;
          if total > 0 {
            var progress := DownloadProgress(loaded, total);
            loadingState := loadingState.(progress := Some(progress));
            NotifyStateChange();
          }
        }
        assert chunks == stream;
        var allChunks := ConcatChunks(chunks, loaded);
        return env.parse(allChunks[..]);
    }

    /**
     * `saveToIndexedDB`: in one transaction, clear both tables, add the
     * records in batches of 1000 with progress, add the metadata row. A
     * failing transaction is rolled back.
     */
    method SaveToIndexedDB(dataset: CompleteDataset, env: Env) returns (r: Result<(), string>)
      modifies this, db
      ensures (Snapshot(), r) == SaveRun(old(Snapshot()), dataset, env)
      ensures listeners == old(listeners)
    {
      ghost var start := Snapshot();
      var before := db.Contents();
      db.ClearRecords();
      db.ClearMetadata();
      var data := dataset.data;
      var i := 0;
      ghost var n := 0;
      while i < |data|
        invariant i == BATCH_SIZE * n && n <= BatchCount(|data|)
        invariant i < |data| <==> n < BatchCount(|data|)
        invariant db.records == data[..if i < |data| then i else |data|] && db.metadata == []
        invariant World(loadingState, notified, start.db) == SaveBatches(start, |data|, n)
        invariant listeners == old(listeners)
        decreases |data| - i
      {
        var end := if i + BATCH_SIZE < |data| then i + BATCH_SIZE else |data|;
        var batch := data[i..end];
        assert data[..end] == data[..i] + batch;
        db.BulkAdd(batch);
        var progress := SaveProgress(i, |data|);
        loadingState := loadingState.(progress := Some(progress));
        NotifyStateChange();
        i := i + BATCH_SIZE;
        n := n + 1;
      }
      assert db.records == data;
      var metadata := MetadataRow(dataset, env.now);
      db.AddMetadata(metadata);
      assert n == BatchCount(|data|);
      assert db.Contents() == Db(dataset.data, [metadata]);
      if env.saveError.Some? {
        db.Rollback(before);
        return Failure(env.saveError.value);
      }
      return Success(());
    }

    /** `performFullUpdate`. */
    method PerformFullUpdate(env: Env) returns (r: Result<(), string>)
      modifies this, db
      ensures (Snapshot(), r) == FullUpdateRun(old(Snapshot()), env)
      ensures listeners == old(listeners)
    {
      var dataset := DownloadCompleteDataset(env);
      if dataset.Failure? {
        return Failure(dataset.error);
      }
      r := SaveToIndexedDB(dataset.value, env);
    }

    /** `performIncrementalUpdate`: for now a full update; the row read back afterwards only feeds a log line. */
    method PerformIncrementalUpdate(localMetadata: DatasetMetadata, serverInfo: ServerInfo, env: Env) returns (r: Result<(), string>)
      modifies this, db
      ensures (Snapshot(), r) == FullUpdateRun(old(Snapshot()), env)
      ensures listeners == old(listeners)
    {
      r := PerformFullUpdate(env);
      if r.Success? {
        var newMetadata := GetLocalMetadata(env);
      }
    }

    /** `performDatabaseReset`. */
    method PerformDatabaseReset(env: Env) returns (r: Result<(), string>)
      modifies db
      ensures (Snapshot(), r) == ResetRun(old(Snapshot()), env)
    {
      if env.resetError.Some? {
        return Failure(RESET_FAILED + env.resetError.value);
      }
      db.DeleteAndOpen();
      return Success(());
    }

    /**
     * The branch of `initialize` for cached metadata, with its inner `try`,
     * which swallows every failure. `returnAfterRepair` selects the source's
     * `return` after a successful repair download (true) or its removal (false).
     */
    method InitializeCached(localMetadata: DatasetMetadata, env: Env, returnAfterRepair: bool) returns (exit: Exit)
      modifies this, db
      ensures (Snapshot(), exit) == CachedRun(old(Snapshot()), localMetadata, env, returnAfterRepair)
      ensures listeners == old(listeners)
    {
      var localAge := env.now - localMetadata.lastUpdated;
      var maxAge := if env.isDev then 5 * MINUTE else HOUR;
      if localAge < maxAge {
        loadingState := ReadyState(Some(localMetadata));
        NotifyStateChange();
        return ReturnedEarly;
      }
      var isDataValid := ValidateLocalData(localMetadata, env);
      if !isDataValid {
        if LocalDbVersion(localMetadata) != CURRENT_DB_VERSION {
          var reset := PerformDatabaseReset(env);
          if reset.Failure? {
            return Completed;
          }
        }
        var update := PerformFullUpdate(env);
        if update.Success? && returnAfterRepair {
          return ReturnedEarly;
        }
        return Completed;
      }
      var serverInfo := ServerVersion(env.probe);
      if serverInfo.Failure? {
        return Completed;
      }
      if localMetadata.version != serverInfo.value.version {
        var update := PerformIncrementalUpdate(localMetadata, serverInfo.value, env);
      }
      return Completed;
    }

    /**
     * `initialize`: as written when `returnAfterRepair` holds (a successful
     * repair skips the final assignment), corrected otherwise.
     */
    method Initialize(env: Env, returnAfterRepair: bool)
      modifies this, db
      ensures Snapshot() == InitializeWith(old(Snapshot()), env, returnAfterRepair)
      ensures listeners == old(listeners)
    {
      if loadingState.isInitialized {
        return;
      }
      loadingState := loadingState.(isLoading := true, hasError := false, progress := Some(0));
      NotifyStateChange();
      var outcome: Result<Exit, string>;
      var localMetadata := GetLocalMetadata(env);
      if localMetadata.None? {
        var update := PerformFullUpdate(env);
        outcome := if update.Failure? then Failure(update.error) else Success(Completed);
      } else {
        var exit := InitializeCached(localMetadata.value, env, returnAfterRepair);
        outcome := Success(exit);
      }
      match outcome {
        case Success(Completed) =>
          var finalMetadata := GetLocalMetadata(env);
          loadingState := ReadyState(finalMetadata);
        case Success(ReturnedEarly) =>
        case Failure(e) =>
          loadingState := loadingState.(isLoading := false, hasError := true, error := Some(e));
      }
      // the `finally` block
      NotifyStateChange();
    }

    /** `forceUpdate`: the failure is recorded and then returned to the caller. */
    method ForceUpdate(env: Env) returns (r: Result<(), string>)
      modifies this, db
      ensures (Snapshot(), r) == ForceUpdateRun(old(Snapshot()), env)
      ensures listeners == old(listeners)
    {
      loadingState := loadingState.(isInitialized := false, isLoading := true);
      NotifyStateChange();
      r := PerformDatabaseReset(env);
      if r.Success? {
        r := PerformFullUpdate(env);
      }
      if r.Failure? {
        loadingState := loadingState.(isLoading := false, hasError := true, error := Some(r.error));
        NotifyStateChange();
        return;
      }
      var metadata := GetLocalMetadata(env);
      loadingState := ReadyState(metadata);
      NotifyStateChange();
    }

    /** `queryByDateRange`: refused before initialization, otherwise the matching records in date order. */
    method QueryByDateRange(filters: QueryFilters) returns (r: Result<seq<AuctionRecord>, string>)
      ensures r.Failure? <==> !loadingState.isInitialized
      ensures r.Failure? ==> r.error == NOT_INITIALIZED
      ensures r.Success? ==> r.value == QueryResult(db.records, filters)
    {
      if !loadingState.isInitialized {
        return Failure(NOT_INITIALIZED);
      }
      return Success(QueryResult(db.records, filters));
    }

    /** `getAggregatedData`: the query, then the per-region sums and the two grade averages. */
    method GetAggregatedData(filters: QueryFilters) returns (r: Result<Aggregated, string>)
      ensures r.Failure? <==> !loadingState.isInitialized
      ensures r.Success? ==> r.value == Aggregate(QueryResult(db.records, filters))
      ensures r.Success? ==> CountSum(r.value.byRegion) == r.value.totalRecords
    {
      var records := QueryByDateRange(filters);
      if records.Failure? {
        return Failure(records.error);
      }
      AggregateCounts(records.value);
      return Success(Aggregate(records.value));
    }
  }
}
