/**
 * The reference behaviour of `DataLoaderService` (src/utils/dataLoader.ts)
 * as functions on values. The browser is an explicit environment `Env`:
 * the clock, `NODE_ENV`, the replies of the server and the faults of
 * IndexedDB. A `World` is everything an operation changes: the
 * loading state, the notifications sent to the listeners so far, and the
 * two cached tables. Each operation maps a world to the next world, and
 * an exception is a `Failure` carrying its message.
 */
module LoaderSpec {
  import opened Wrappers
  import opened Strings
  import opened Sorting
  import opened Assoc
  import opened Records
  import opened Arith

  // ---------------------------------------------------------------
  // Loading state
  // ---------------------------------------------------------------

  datatype LoadingState = LoadingState(
    isLoading: bool,
    isInitialized: bool,
    hasError: bool,
    error: Option<string>,
    progress: Option<int>,
    lastUpdated: Option<int>,
    totalRecords: Option<int>)

  const INITIAL_STATE: LoadingState := LoadingState(false, false, false, None, None, None, None)

  /** The state `initialize` announces before doing any work. */
  function Loading(s: LoadingState): LoadingState {
    s.(isLoading := true, hasError := false, progress := Some(0))
  }

  /** The state after a completed load, taken from the metadata row read back, if any. */
  function ReadyState(m: Option<DatasetMetadata>): (s: LoadingState)
    ensures !s.isLoading && s.isInitialized && !s.hasError && s.error.None? && s.progress == Some(100)
    ensures m.Some? ==> s.lastUpdated == Some(m.value.lastUpdated) && s.totalRecords == Some(m.value.totalRecords)
    ensures m.None? ==> s.lastUpdated.None? && s.totalRecords.None?
  {
    match m
    case Some(row) => LoadingState(false, true, false, None, Some(100), Some(row.lastUpdated), Some(row.totalRecords))
    case None => LoadingState(false, true, false, None, Some(100), None, None)
  }

  /** The state after a caught failure: everything else is kept. */
  function Failed(s: LoadingState, message: string): (r: LoadingState)
    ensures !r.isLoading && r.hasError && r.error == Some(message)
    ensures r.isInitialized == s.isInitialized && r.progress == s.progress && r.totalRecords == s.totalRecords
  {
    s.(isLoading := false, hasError := true, error := Some(message))
  }

  // ---------------------------------------------------------------
  // Version probe
  // ---------------------------------------------------------------

  datatype HeadInfo = HeadInfo(etag: Option<string>, lastModified: Option<string>, contentLength: Option<string>)

  datatype RangeReply = RangeReply(status: nat, text: string)

  /** The fully downloaded dataset: its `version` and the length of its re-serialisation. */
  datatype FullBody = FullBody(version: string, size: nat)

  /** The server's replies to the HEAD request, the 1 KB range request and the full GET; a Failure is a rejected request. */
  datatype Probe = Probe(head: Result<HeadInfo, string>, range: Result<RangeReply, string>, full: Result<FullBody, string>)

  datatype ServerInfo = ServerInfo(version: string, size: Option<nat>, lastModified: Option<string>)

  const PROBE_FAILED: string := "서버 버전 확인 실패: "

  /** `etag.replace(/"/g, "")`. */
  function EtagVersion(etag: string): (r: string)
    ensures '"' !in r
    ensures forall c :: c in r ==> c in etag
  {
    RemoveAll(etag, '"')
  }

  /** Removing `c` from `p`, then `c`, `v`, `c` leaves `p + v` when neither holds `c`. */
  lemma RemoveQuotes(p: string, v: string, c: char)
    requires c !in p && c !in v
    ensures RemoveAll(p + [c] + v + [c], c) == p + v
  {
    RemoveAllAppend(p + [c] + v, [c], c);
    RemoveAllAppend(p + [c], v, c);
    RemoveAllAppend(p, [c], c);
    RemoveAllIdentity(p, c);
    RemoveAllIdentity(v, c);
    assert [c][1..] == [];
  }

  /** A strong ETag `"v"` gives `v`; a weak one `W/"v"` gives `W/v`. */
  lemma EtagStripsQuotes(v: string)
    requires '"' !in v
    ensures EtagVersion("\"" + v + "\"") == v
    ensures EtagVersion("W/\"" + v + "\"") == "W/" + v
  {
    RemoveQuotes("", v, '"');
    assert "\"" + v + "\"" == "" + ['"'] + v + ['"'];
    assert "" + v == v;
    RemoveQuotes("W/", v, '"');
    assert "W/\"" + v + "\"" == "W/" + ['"'] + v + ['"'];
  }

  /** `contentLength ? parseInt(contentLength, 10) : undefined`; None also stands for NaN. */
  function ContentSize(h: HeadInfo): Option<nat> {
    if Truthy(h.contentLength) then ParseInt(h.contentLength.value) else None
  }

  /** The number of leading characters matched by `\s*`. */
  function LeadingWhitespace(s: string): (n: nat)
    ensures n <= |s|
    ensures forall k :: 0 <= k < n ==> IsJsWhitespace(s[k])
    ensures n < |s| ==> !IsJsWhitespace(s[n])
  {
    if |s| == 0 || !IsJsWhitespace(s[0]) then 0 else 1 + LeadingWhitespace(s[1..])
  }

  /** The number of leading characters matched by `[^"]*`. */
  function NonQuoteRun(s: string): (n: nat)
    ensures n <= |s|
    ensures forall k :: 0 <= k < n ==> s[k] != '"'
    ensures n < |s| ==> s[n] == '"'
  {
    if |s| == 0 || s[0] == '"' then 0 else 1 + NonQuoteRun(s[1..])
  }

  /** `"([^"]+)"` at the start of `s`, giving the group. */
  function QuotedValue(s: string): (r: Option<string>)
    ensures r.Some? ==> |r.value| > 0 && '"' !in r.value
    ensures r.Some? ==> |s| >= |r.value| + 2 && s[0] == '"' && s[1..|r.value| + 1] == r.value && s[|r.value| + 1] == '"'
  {
    if |s| == 0 || s[0] != '"' then None
    else
      var n := NonQuoteRun(s[1..]);
      if n == 0 || n == |s| - 1 then None else Some(s[1..n + 1])
  }

  const VERSION_KEY: string := "\"version\":"

  /** The pattern `"version":\s*"([^"]+)"` matched at position `i`. */
  function MatchAt(text: string, i: nat): (r: Option<string>)
    ensures r.Some? ==> |r.value| > 0 && '"' !in r.value
  {
    if i + |VERSION_KEY| <= |text| && text[i..i + |VERSION_KEY|] == VERSION_KEY then
      var rest := text[i + |VERSION_KEY|..];
      QuotedValue(rest[LeadingWhitespace(rest)..])
    else None
  }

  function FindVersionFrom(text: string, i: nat): (r: Option<string>)
    requires i <= |text|
    ensures r.Some? ==> |r.value| > 0 && '"' !in r.value
    decreases |text| - i
  {
    if i == |text| then None
    else match MatchAt(text, i)
      case Some(v) => Some(v)
      case None => FindVersionFrom(text, i + 1)
  }

  /** `text.match(/"version":\s*"([^"]+)"/)?.[1]`: the group of the leftmost match. */
  function FindVersion(text: string): (r: Option<string>)
    ensures r.Some? ==> |r.value| > 0 && '"' !in r.value
  {
    FindVersionFrom(text, 0)
  }

  lemma {:induction false} NonQuoteRunOf(v: string, t: string)
    requires '"' !in v
    ensures NonQuoteRun(v + "\"" + t) == |v|
  {
    if |v| > 0 {
      assert (v + "\"" + t)[1..] == v[1..] + "\"" + t;
      NonQuoteRunOf(v[1..], t);
    }
  }

  lemma {:induction false} LeadingWhitespaceOf(ws: string, t: string)
    requires forall k :: 0 <= k < |ws| ==> IsJsWhitespace(ws[k])
    requires |t| > 0 && !IsJsWhitespace(t[0])
    ensures LeadingWhitespace(ws + t) == |ws|
  {
    if |ws| > 0 {
      assert (ws + t)[1..] == ws[1..] + t;
      LeadingWhitespaceOf(ws[1..], t);
    }
  }

  lemma {:induction false} NoMatchBefore(text: string, pre: string, i: nat)
    requires i <= |pre| <= |text| && text[..|pre|] == pre && '"' !in pre
    ensures FindVersionFrom(text, i) == FindVersionFrom(text, |pre|)
    decreases |pre| - i
  {
    if i < |pre| {
      assert text[i] == pre[i];
      assert MatchAt(text, i).None? by {
        if i + |VERSION_KEY| <= |text| {
          assert text[i..i + |VERSION_KEY|][0] == text[i];
        }
      }
      NoMatchBefore(text, pre, i + 1);
    }
  }

  /**
   * A quote-free prefix, the key, some whitespace and a quoted value: the
   * match takes that value. The dataset the build script writes starts
   * this way (`{` and an indent, then `"version": "…"`), so the first
   * kilobyte yields its version.
   */
  lemma FindVersionAfterPrefix(pre: string, ws: string, v: string, rest: string)
    requires '"' !in pre && '"' !in v && |v| > 0
    requires forall k :: 0 <= k < |ws| ==> IsJsWhitespace(ws[k])
    ensures FindVersion(pre + VERSION_KEY + ws + "\"" + v + "\"" + rest) == Some(v)
  {
    var quoted := "\"" + v + "\"" + rest;
    var text := pre + VERSION_KEY + ws + "\"" + v + "\"" + rest;
    assert text == pre + (VERSION_KEY + (ws + quoted));
    var i := |pre|;
    assert text[..i] == pre;
    assert text[i..] == VERSION_KEY + (ws + quoted);
    assert text[i..i + |VERSION_KEY|] == VERSION_KEY;
    assert text[i + |VERSION_KEY|..] == ws + quoted;
    NoMatchBefore(text, pre, 0);
    QuotedValueOf(v, rest);
    MatchAtSplit(text, i, ws, quoted);
  }

  lemma MatchAtSplit(text: string, i: nat, ws: string, quoted: string)
    requires i + |VERSION_KEY| <= |text| && text[i..i + |VERSION_KEY|] == VERSION_KEY
    requires text[i + |VERSION_KEY|..] == ws + quoted
    requires forall k :: 0 <= k < |ws| ==> IsJsWhitespace(ws[k])
    requires |quoted| > 0 && quoted[0] == '"'
    ensures MatchAt(text, i) == QuotedValue(quoted)
  {
    LeadingWhitespaceOf(ws, quoted);
    assert (ws + quoted)[|ws|..] == quoted;
  }

  lemma QuotedValueOf(v: string, rest: string)
    requires '"' !in v && |v| > 0
    ensures QuotedValue("\"" + v + "\"" + rest) == Some(v)
  {
    var quoted := "\"" + v + "\"" + rest;
    assert quoted[1..] == v + "\"" + rest;
    NonQuoteRunOf(v, rest);
    assert quoted[1..|v| + 1] == v;
  }

  /** The version a 206 reply to the range request yields, if any. */
  function RangeVersion(range: Result<RangeReply, string>): Option<string> {
    if range.Success? && range.value.status == 206 then FindVersion(range.value.text) else None
  }

  /** `fetchServerVersion`: ETag, else Last-Modified, else the range fragment, else the full body. */
  function ServerVersion(p: Probe): Result<ServerInfo, string> {
    match p.head
    case Failure(e) => Failure(PROBE_FAILED + e)
    case Success(h) =>
      if Truthy(h.etag) then
        Success(ServerInfo(EtagVersion(h.etag.value), ContentSize(h), if Truthy(h.lastModified) then h.lastModified else None))
      else if Truthy(h.lastModified) then
        Success(ServerInfo(h.lastModified.value, ContentSize(h), h.lastModified))
      else match RangeVersion(p.range)
        case Some(v) => Success(ServerInfo(v, ContentSize(h), None))
        case None =>
          match p.full
          case Failure(e) => Failure(PROBE_FAILED + e)
          case Success(body) => Success(ServerInfo(body.version, Some(body.size), None))
  }

  /**
   * The probe order: the first source present decides the version, and
   * the probe fails only when the HEAD request fails or every fallback
   * before the full body is absent and the full body fails too.
   */
  lemma ServerVersionOrder(p: Probe)
    ensures ServerVersion(p).Failure? <==>
      p.head.Failure? ||
      (!Truthy(p.head.value.etag) && !Truthy(p.head.value.lastModified) && RangeVersion(p.range).None? && p.full.Failure?)
    ensures p.head.Success? && Truthy(p.head.value.etag) ==>
      ServerVersion(p).Success? && ServerVersion(p).value.version == EtagVersion(p.head.value.etag.value) &&
      '"' !in ServerVersion(p).value.version
    ensures p.head.Success? && !Truthy(p.head.value.etag) && Truthy(p.head.value.lastModified) ==>
      ServerVersion(p).Success? && ServerVersion(p).value.version == p.head.value.lastModified.value
    ensures p.head.Success? && !Truthy(p.head.value.etag) && !Truthy(p.head.value.lastModified) && RangeVersion(p.range).Some? ==>
      ServerVersion(p).Success? && ServerVersion(p).value.version == RangeVersion(p.range).value &&
      ServerVersion(p).value.version != ""
    ensures ServerVersion(p).Failure? ==> |ServerVersion(p).error| >= |PROBE_FAILED| && ServerVersion(p).error[..|PROBE_FAILED|] == PROBE_FAILED
  {
  }

  /** Only a 206 reply is searched: a server that ignores the range and answers 200 falls through to the full body. */
  lemma RangeNeedsPartialContent(p: Probe)
    requires p.head.Success? && !Truthy(p.head.value.etag) && !Truthy(p.head.value.lastModified)
    requires p.range.Success? && p.range.value.status != 206
    ensures ServerVersion(p) == match p.full
      case Failure(e) => Failure(PROBE_FAILED + e)
      case Success(body) => Success(ServerInfo(body.version, Some(body.size), None))
  {
  }

  // ---------------------------------------------------------------
  // Validation of the cached copy
  // ---------------------------------------------------------------

  /** `metadata.dbVersion || "1.0.0"`. */
  function LocalDbVersion(m: DatasetMetadata): string {
    if Truthy(m.dbVersion) then m.dbVersion.value else LEGACY_DB_VERSION
  }

  const MINUTE: int := 60 * 1000
  const HOUR: int := 60 * MINUTE

  /** How old the metadata may be for `initialize` to skip every check. */
  function MaxAge(isDev: bool): int {
    if isDev then 5 * MINUTE else HOUR
  }

  /** How old the metadata may be for `validateLocalData` to skip the count. */
  function MaxValidationAge(isDev: bool): int {
    if isDev then 10 * MINUTE else HOUR
  }

  /**
   * `validateLocalData`, given the record count (None when counting
   * throws): the schema version must match, then a recent row is trusted,
   * and an older one only if the count agrees with it.
   */
  function LocalDataValid(m: DatasetMetadata, now: int, isDev: bool, count: Option<nat>): (ok: bool)
    ensures ok ==> LocalDbVersion(m) == CURRENT_DB_VERSION
    ensures ok && now - m.lastUpdated >= MaxValidationAge(isDev) ==> count == Some(m.totalRecords)
    ensures LocalDbVersion(m) == CURRENT_DB_VERSION && now - m.lastUpdated < MaxValidationAge(isDev) ==> ok
    ensures LocalDbVersion(m) == CURRENT_DB_VERSION && count == Some(m.totalRecords) ==> ok
  {
    if LocalDbVersion(m) != CURRENT_DB_VERSION then false
    else if now - m.lastUpdated < MaxValidationAge(isDev) then true
    else count.Some? && count.value == m.totalRecords
  }

  /** Rows written before the schema version existed are never valid. */
  lemma LegacyRowsInvalid(m: DatasetMetadata, now: int, isDev: bool, count: Option<nat>)
    requires !Truthy(m.dbVersion)
    ensures !LocalDataValid(m, now, isDev, count)
  {
  }

  // ---------------------------------------------------------------
  // Progress
  // ---------------------------------------------------------------

  /** `Math.round(num / den)` for non-negative operands (halves round up). */
  function RoundRatio(num: nat, den: nat): nat
    requires den > 0
  {
    (2 * num + den) / (2 * den)
  }

  lemma RoundRatioBound(num: nat, den: nat, k: nat)
    requires den > 0 && num <= k * den
    ensures RoundRatio(num, den) <= k
  {
    var a := 2 * num + den;
    var b := 2 * den;
    assert a < b * (k + 1);
    var q := a / b;
    assert b * q <= a;
    if q > k {
      MulMonotone(k + 1, q, b);
    }
  }

  /** `Math.round((loaded / total) * 50)`. */
  function DownloadProgress(loaded: nat, total: nat): nat
    requires total > 0
  {
    RoundRatio(50 * loaded, total)
  }

  /** While no more bytes arrive than announced, the download stays within its half. */
  lemma DownloadProgressBound(loaded: nat, total: nat)
    requires 0 < total && loaded <= total
    ensures DownloadProgress(loaded, total) <= 50
  {
    assert 50 * loaded <= 50 * total;
    RoundRatioBound(50 * loaded, total, 50);
  }

  /** When the body is longer than its `content-length` (as with a compressed transfer), the bar overshoots. */
  lemma DownloadProgressOvershoot()
    ensures DownloadProgress(2, 1) == 100 && DownloadProgress(10, 1) == 500
  {
  }

  const BATCH_SIZE: nat := 1000

  /** The number of iterations of `for (i = 0; i < len; i += 1000)`. */
  function BatchCount(len: nat): nat {
    (len + BATCH_SIZE - 1) / BATCH_SIZE
  }

  lemma BatchStartInRange(len: nat, n: nat)
    requires 1 <= n <= BatchCount(len)
    ensures BATCH_SIZE * (n - 1) < len
  {
    var q := BatchCount(len);
    assert BATCH_SIZE * q <= len + BATCH_SIZE - 1;
    assert BATCH_SIZE * (n - 1) <= BATCH_SIZE * (q - 1);
  }

  /** `50 + Math.round((i / data.length) * 50)`. */
  function SaveProgress(i: nat, len: nat): nat
    requires len > 0
  {
    50 + RoundRatio(50 * i, len)
  }

  lemma SaveProgressRange(i: nat, len: nat)
    requires i < len
    ensures 50 <= SaveProgress(i, len) <= 100
  {
    assert 50 * i <= 50 * len;
    RoundRatioBound(50 * i, len, 50);
  }

  /** The last batch can already report 100: 100001 records, the batch starting at 100000. */
  lemma SaveProgressReaches100()
    ensures BATCH_SIZE * 100 < 100001 && BatchCount(100001) == 101
    ensures SaveProgress(BATCH_SIZE * 100, 100001) == 100
  {
  }

  // ---------------------------------------------------------------
  // The world an operation changes, and the environment
  // ---------------------------------------------------------------

  newtype byte = b: int | 0 <= b < 256

  /** The two IndexedDB tables: records, and metadata rows in id order. */
  datatype Db = Db(records: seq<AuctionRecord>, metadata: seq<DatasetMetadata>)

  /** The loading state, every state handed to the listeners so far, and the cache. */
  datatype World = World(state: LoadingState, notified: seq<LoadingState>, db: Db)

  /** The reply to the dataset download; its body is the list of chunks the stream reader yields. */
  datatype DownloadReply =
    | NetworkError(message: string)
    | Reply(ok: bool, status: nat, statusText: string, contentLength: Option<string>, body: Option<seq<seq<byte>>>)

  /**
   * Everything the service asks of the outside: the clock, `NODE_ENV`,
   * whether reading the metadata or counting the records throws, the
   * messages of a failing reset or save, the server's replies, and
   * `JSON.parse` of the decoded bytes.
   */
  datatype Env = Env(
    now: int,
    isDev: bool,
    readFails: bool,
    countFails: bool,
    resetError: Option<string>,
    saveError: Option<string>,
    probe: Probe,
    download: DownloadReply,
    parse: seq<byte> -> Result<CompleteDataset, string>)

  /** `notifyStateChange`: every listener receives the current state. */
  function Notify(w: World): World {
    w.(notified := w.notified + [w.state])
  }

  /** `getLocalMetadata`: the row with the highest id, or null (also when reading throws). */
  function LocalMetadata(db: Db, env: Env): (m: Option<DatasetMetadata>)
    ensures m.Some? ==> m.value in db.metadata
  {
    if env.readFails || |db.metadata| == 0 then None else Some(db.metadata[|db.metadata| - 1])
  }

  /** `db.auctionData.count()`, or None when it throws. */
  function RecordCount(db: Db, env: Env): Option<nat> {
    if env.countFails then None else Some(|db.records|)
  }

  // ---------------------------------------------------------------
  // Download
  // ---------------------------------------------------------------

  function TotalLength(chunks: seq<seq<byte>>): nat {
    if |chunks| == 0 then 0 else TotalLength(chunks[..|chunks| - 1]) + |chunks[|chunks| - 1]|
  }

  /** The chunks laid end to end. */
  function Flatten(chunks: seq<seq<byte>>): (r: seq<byte>)
    ensures |r| == TotalLength(chunks)
  {
    if |chunks| == 0 then [] else Flatten(chunks[..|chunks| - 1]) + chunks[|chunks| - 1]
  }

  /** `contentLength ? parseInt(contentLength, 10) : 0`; NaN behaves as 0 in `total > 0`. */
  function ContentTotal(contentLength: Option<string>): nat {
    if Truthy(contentLength) then ParseInt(contentLength.value).GetOr(0) else 0
  }

  /** The reader loop: after each chunk, with a known total, the progress is updated and announced. */
  function ReadChunks(w: World, chunks: seq<seq<byte>>, total: nat): World {
    if |chunks| == 0 then w
    else
      var before := ReadChunks(w, chunks[..|chunks| - 1], total);
      if total > 0 then Notify(before.(state := before.state.(progress := Some(DownloadProgress(TotalLength(chunks), total)))))
      else before
  }

  const DOWNLOAD_FAILED: string := "데이터 다운로드 실패: "
  const NO_BODY: string := "응답 본문이 없습니다"

  /** `downloadCompleteDataset`. */
  function DownloadRun(w: World, env: Env): (World, Result<CompleteDataset, string>) {
    match env.download
    case NetworkError(e) => (w, Failure(e))
    case Reply(ok, status, statusText, contentLength, body) =>
      if !ok then (w, Failure(DOWNLOAD_FAILED + NatToString(status) + " " + statusText))
      else if body.None? then (w, Failure(NO_BODY))
      else (ReadChunks(w, body.value, ContentTotal(contentLength)), env.parse(Flatten(body.value)))
  }

  lemma {:induction false} ReadChunksFrame(w: World, chunks: seq<seq<byte>>, total: nat)
    ensures ReadChunks(w, chunks, total).db == w.db
    ensures ReadChunks(w, chunks, total).state == w.state.(progress := ReadChunks(w, chunks, total).state.progress)
    ensures |ReadChunks(w, chunks, total).notified| == |w.notified| + (if total > 0 then |chunks| else 0)
    ensures ReadChunks(w, chunks, total).notified[..|w.notified|] == w.notified
  {
    if |chunks| > 0 {
      ReadChunksFrame(w, chunks[..|chunks| - 1], total);
    }
  }

  lemma {:induction false} TotalLengthPrefix(chunks: seq<seq<byte>>, j: nat)
    requires j <= |chunks|
    ensures TotalLength(chunks[..j]) <= TotalLength(chunks)
    decreases |chunks|
  {
    if j < |chunks| {
      var pre := chunks[..|chunks| - 1];
      assert pre[..j] == chunks[..j];
      TotalLengthPrefix(pre, j);
      assert TotalLength(chunks) == TotalLength(pre) + |chunks[|chunks| - 1]|;
    } else {
      assert chunks[..j] == chunks;
    }
  }

  /** Every progress the download announces is at most 50 when the body is no longer than announced. */
  lemma {:induction false} DownloadNotificationsBounded(w: World, chunks: seq<seq<byte>>, total: nat)
    requires 0 < total && TotalLength(chunks) <= total
    ensures forall k :: |w.notified| <= k < |ReadChunks(w, chunks, total).notified| ==>
      ReadChunks(w, chunks, total).notified[k].progress.Some? && ReadChunks(w, chunks, total).notified[k].progress.value <= 50
  {
    if |chunks| > 0 {
      var pre := chunks[..|chunks| - 1];
      assert TotalLength(pre) <= TotalLength(chunks);
      DownloadNotificationsBounded(w, pre, total);
      ReadChunksFrame(w, pre, total);
      DownloadProgressBound(TotalLength(chunks), total);
    }
  }

  // ---------------------------------------------------------------
  // Save
  // ---------------------------------------------------------------

  /** The metadata row `saveToIndexedDB` writes: header fields, the current schema, and the save instant. */
  function MetadataRow(ds: CompleteDataset, now: int): (m: DatasetMetadata)
    ensures m.version == ds.version && m.totalRecords == ds.totalRecords
    ensures m.dbVersion == Some(CURRENT_DB_VERSION) && m.lastUpdated == now
    ensures m.dateRangeEarliest == ds.earliest && m.dateRangeLatest == ds.latest
    ensures m.regions == ds.regions && m.unions == ds.unions
  {
    DatasetMetadata(ds.version, Some(CURRENT_DB_VERSION), ds.totalRecords, ds.earliest, ds.latest, ds.regions, ds.unions, now)
  }

  /** The progress announcements of the first `n` batches. */
  function SaveBatches(w: World, len: nat, n: nat): World
    requires n <= BatchCount(len)
  {
    if n == 0 then w
    else
      var before := SaveBatches(w, len, n - 1);
      Notify(before.(state := before.state.(progress := Some(SaveProgress(BATCH_SIZE * (n - 1), len)))))
  }

  /**
   * `saveToIndexedDB`: inside one transaction both tables are cleared, the
   * records are added batch by batch with progress, and one metadata row
   * is added; a failing transaction leaves both tables as they were.
   */
  function SaveRun(w: World, ds: CompleteDataset, env: Env): (World, Result<(), string>) {
    var announced := SaveBatches(w, |ds.data|, BatchCount(|ds.data|));
    match env.saveError
    case Some(e) => (announced, Failure(e))
    case None => (announced.(db := Db(ds.data, [MetadataRow(ds, env.now)])), Success(()))
  }

  lemma {:induction false} SaveBatchesFrame(w: World, len: nat, n: nat)
    requires n <= BatchCount(len)
    ensures SaveBatches(w, len, n).db == w.db
    ensures |SaveBatches(w, len, n).notified| == |w.notified| + n
    ensures SaveBatches(w, len, n).notified[..|w.notified|] == w.notified
    ensures n == 0 ==> SaveBatches(w, len, n).state == w.state
    ensures n > 0 ==> SaveBatches(w, len, n).state == w.state.(progress := Some(SaveProgress(BATCH_SIZE * (n - 1), len)))
  {
    if n > 0 {
      SaveBatchesFrame(w, len, n - 1);
    }
  }

  /** Every progress the save announces lies in [50, 100]. */
  lemma {:induction false} SaveNotificationsInRange(w: World, len: nat, n: nat)
    requires n <= BatchCount(len)
    ensures forall k :: |w.notified| <= k < |SaveBatches(w, len, n).notified| ==>
      SaveBatches(w, len, n).notified[k].progress.Some? &&
      50 <= SaveBatches(w, len, n).notified[k].progress.value <= 100
  {
    if n > 0 {
      SaveNotificationsInRange(w, len, n - 1);
      SaveBatchesFrame(w, len, n - 1);
      BatchStartInRange(len, n);
      SaveProgressRange(BATCH_SIZE * (n - 1), len);
    }
  }

  /**
   * A successful save holds exactly the dataset's records, in order, and
   * one metadata row whose count is the header's, not the number of
   * records written; there is one announcement per batch.
   */
  lemma SaveRunStore(w: World, ds: CompleteDataset, env: Env)
    ensures SaveRun(w, ds, env).1.Success? <==> env.saveError.None?
    ensures env.saveError.None? ==> SaveRun(w, ds, env).0.db == Db(ds.data, [MetadataRow(ds, env.now)])
    ensures env.saveError.Some? ==> SaveRun(w, ds, env).0.db == w.db
    ensures |SaveRun(w, ds, env).0.notified| == |w.notified| + BatchCount(|ds.data|)
  {
    SaveBatchesFrame(w, |ds.data|, BatchCount(|ds.data|));
  }

  /**
   * A header whose count disagrees with its records is trusted for an
   * hour and then fails validation on every later start.
   */
  lemma MismatchedHeaderFailsLater(ds: CompleteDataset, saved: int, now: int, isDev: bool)
    requires ds.totalRecords != |ds.data| && now - saved >= MaxValidationAge(isDev)
    ensures !LocalDataValid(MetadataRow(ds, saved), now, isDev, Some(|ds.data|))
  {
  }

  // ---------------------------------------------------------------
  // Full update and reset
  // ---------------------------------------------------------------

  /** `performFullUpdate`: download, then save. */
  function FullUpdateRun(w: World, env: Env): (World, Result<(), string>) {
    var download := DownloadRun(w, env);
    match download.1
    case Failure(e) => (download.0, Failure(e))
    case Success(ds) => SaveRun(download.0, ds, env)
  }

  const RESET_FAILED: string := "데이터베이스 초기화 실패: "

  /** `performDatabaseReset`: the database is deleted and opened empty. */
  function ResetRun(w: World, env: Env): (World, Result<(), string>) {
    match env.resetError
    case Some(e) => (w, Failure(RESET_FAILED + e))
    case None => (w.(db := Db([], [])), Success(()))
  }

  /** A failed update leaves the cache as it was; a successful one holds the downloaded dataset. */
  lemma FullUpdateStore(w: World, env: Env)
    ensures FullUpdateRun(w, env).1.Failure? ==> FullUpdateRun(w, env).0.db == w.db
    ensures FullUpdateRun(w, env).1.Success? ==>
      DownloadRun(w, env).1.Success? &&
      FullUpdateRun(w, env).0.db == Db(DownloadRun(w, env).1.value.data, [MetadataRow(DownloadRun(w, env).1.value, env.now)])
  {
    var download := DownloadRun(w, env);
    if env.download.Reply? && env.download.ok && env.download.body.Some? {
      ReadChunksFrame(w, env.download.body.value, ContentTotal(env.download.contentLength));
    }
    if download.1.Success? {
      SaveRunStore(download.0, download.1.value, env);
    }
  }

  /** The state an update leaves differs from the one before it in the progress at most. */
  lemma FullUpdateKeepsState(w: World, env: Env)
    ensures FullUpdateRun(w, env).0.state == w.state.(progress := FullUpdateRun(w, env).0.state.progress)
    ensures |FullUpdateRun(w, env).0.notified| >= |w.notified|
    ensures FullUpdateRun(w, env).0.notified[..|w.notified|] == w.notified
  {
    var download := DownloadRun(w, env);
    if env.download.Reply? && env.download.ok && env.download.body.Some? {
      ReadChunksFrame(w, env.download.body.value, ContentTotal(env.download.contentLength));
    }
    if download.1.Success? {
      var len := |download.1.value.data|;
      SaveBatchesFrame(download.0, len, BatchCount(len));
    }
  }

  // ---------------------------------------------------------------
  // initialize and forceUpdate
  // ---------------------------------------------------------------

  /** How the body of `initialize`'s `try` ended: by falling through to the final read, or by `return`. */
  datatype Exit = Completed | ReturnedEarly

  /**
   * The stale-cache branch. Every exception inside it is caught and
   * ignored (the inner `try`). `returnAfterRepair` is the `return` that
   * follows the repair download.
   */
  function StaleRun(w: World, m: DatasetMetadata, env: Env, returnAfterRepair: bool): (World, Exit) {
    if !LocalDataValid(m, env.now, env.isDev, RecordCount(w.db, env)) then
      var reset := if LocalDbVersion(m) != CURRENT_DB_VERSION then ResetRun(w, env) else (w, Success(()));
      if reset.1.Failure? then (reset.0, Completed)
      else
        var update := FullUpdateRun(reset.0, env);
        if update.1.Success? && returnAfterRepair then (update.0, ReturnedEarly) else (update.0, Completed)
    else
      match ServerVersion(env.probe)
      case Failure(_) => (w, Completed)
      case Success(info) =>
        if m.version != info.version then (FullUpdateRun(w, env).0, Completed) else (w, Completed)
  }

  /** With cached metadata: the fast path when it is recent, the stale branch otherwise. */
  function CachedRun(w: World, m: DatasetMetadata, env: Env, returnAfterRepair: bool): (World, Exit) {
    if env.now - m.lastUpdated < MaxAge(env.isDev) then (Notify(w.(state := ReadyState(Some(m)))), ReturnedEarly)
    else StaleRun(w, m, env, returnAfterRepair)
  }

  /** The outer `try` body; a Failure is an exception that reaches the outer `catch`. */
  function InitializeBody(w: World, env: Env, returnAfterRepair: bool): (World, Result<Exit, string>) {
    match LocalMetadata(w.db, env)
    case None =>
      var update := FullUpdateRun(w, env);
      (update.0, if update.1.Failure? then Failure(update.1.error) else Success(Completed))
    case Some(m) =>
      var cached := CachedRun(w, m, env, returnAfterRepair);
      (cached.0, Success(cached.1))
  }

  function InitializeWith(w: World, env: Env, returnAfterRepair: bool): World {
    if w.state.isInitialized then w
    else
      var started := Notify(w.(state := Loading(w.state)));
      var body := InitializeBody(started, env, returnAfterRepair);
      var ended := match body.1
        case Success(Completed) => body.0.(state := ReadyState(LocalMetadata(body.0.db, env)))
        case Success(ReturnedEarly) => body.0
        case Failure(e) => body.0.(state := Failed(body.0.state, e));
      Notify(ended)
  }

  /** `initialize` as written, with the `return` after the repair download. */
  function InitializeAsWritten(w: World, env: Env): World {
    InitializeWith(w, env, true)
  }

  /** `initialize` with that `return` removed, so a repaired cache ends ready like every other path. */
  function InitializeRun(w: World, env: Env): World {
    InitializeWith(w, env, false)
  }

  /** `forceUpdate`: reset, download and save; a failure is recorded in the state and rethrown. */
  function ForceUpdateRun(w: World, env: Env): (World, Result<(), string>) {
    var started := Notify(w.(state := w.state.(isInitialized := false, isLoading := true)));
    var reset := ResetRun(started, env);
    var update := if reset.1.Failure? then reset else FullUpdateRun(reset.0, env);
    match update.1
    case Failure(e) => (Notify(update.0.(state := Failed(update.0.state, e))), Failure(e))
    case Success(_) => (Notify(update.0.(state := ReadyState(LocalMetadata(update.0.db, env)))), Success(()))
  }

  // ---------------------------------------------------------------
  // Properties of initialize and forceUpdate
  // ---------------------------------------------------------------

  /** A second call changes nothing and notifies no one. */
  lemma InitializeIdempotent(w: World, env: Env, returnAfterRepair: bool)
    requires w.state.isInitialized
    ensures InitializeWith(w, env, returnAfterRepair) == w
  {
  }

  /** Once started, the listeners receive the loading state first and the final state last. */
  lemma InitializeNotifies(w: World, env: Env, returnAfterRepair: bool)
    requires !w.state.isInitialized
    ensures var r := InitializeWith(w, env, returnAfterRepair);
      |r.notified| >= |w.notified| + 2 &&
      r.notified[..|w.notified|] == w.notified &&
      r.notified[|w.notified|] == Loading(w.state) &&
      r.notified[|r.notified| - 1] == r.state
  {
    var started := Notify(w.(state := Loading(w.state)));
    BodyKeepsNotified(started, env, returnAfterRepair);
    var body := InitializeBody(started, env, returnAfterRepair);
    var r := InitializeWith(w, env, returnAfterRepair);
    assert r.notified == body.0.notified + [r.state];
    PrefixKept(w.notified, started.notified, body.0.notified, r.notified);
  }

  /** Two growing histories: a prefix of the first stays a prefix of the last. */
  lemma PrefixKept<T>(a: seq<T>, b: seq<T>, c: seq<T>, d: seq<T>)
    requires |b| >= |a| && b[..|a|] == a
    requires |c| >= |b| && c[..|b|] == b
    requires |d| > |c| && d[..|c|] == c
    ensures d[..|a|] == a
    ensures |b| > |a| ==> d[|a|] == b[|a|]
  {
    assert d[..|a|] == c[..|b|][..|a|];
    if |b| > |a| {
      assert d[|a|] == c[|a|] == b[|a|];
    }
  }

  lemma StaleKeepsNotified(w: World, m: DatasetMetadata, env: Env, returnAfterRepair: bool)
    ensures |StaleRun(w, m, env, returnAfterRepair).0.notified| >= |w.notified|
    ensures StaleRun(w, m, env, returnAfterRepair).0.notified[..|w.notified|] == w.notified
  {
    FullUpdateKeepsState(w, env);
    FullUpdateKeepsState(w.(db := Db([], [])), env);
  }

  lemma BodyKeepsNotified(w: World, env: Env, returnAfterRepair: bool)
    ensures |InitializeBody(w, env, returnAfterRepair).0.notified| >= |w.notified|
    ensures InitializeBody(w, env, returnAfterRepair).0.notified[..|w.notified|] == w.notified
  {
    FullUpdateKeepsState(w, env);
    match LocalMetadata(w.db, env)
    case None =>
    case Some(m) => StaleKeepsNotified(w, m, env, returnAfterRepair);
  }

  /** Without the `return`, the stale branch always falls through to the final read. */
  lemma StaleCompletes(w: World, m: DatasetMetadata, env: Env)
    ensures StaleRun(w, m, env, false).1 == Completed
  {
  }

  /**
   * The corrected `initialize` always settles: it ends not loading, and
   * either initialized or in error, never both.
   */
  lemma InitializeSettles(w: World, env: Env)
    requires !w.state.isInitialized
    ensures !InitializeRun(w, env).state.isLoading
    ensures InitializeRun(w, env).state.isInitialized != InitializeRun(w, env).state.hasError
  {
    var started := Notify(w.(state := Loading(w.state)));
    match LocalMetadata(started.db, env)
    case None => FullUpdateKeepsState(started, env);
    case Some(m) =>
      if env.now - m.lastUpdated >= MaxAge(env.isDev) {
        StaleCompletes(started, m, env);
      }
  }

  /**
   * First visit: with no cached metadata the dataset is downloaded and
   * saved; the state ends ready with the saved row's count, or in error
   * with the cache untouched. The exception is not rethrown.
   */
  lemma FirstVisit(w: World, env: Env, returnAfterRepair: bool)
    requires !w.state.isInitialized && LocalMetadata(w.db, env).None?
    ensures var started := Notify(w.(state := Loading(w.state)));
      var update := FullUpdateRun(started, env);
      var r := InitializeWith(w, env, returnAfterRepair);
      r.db == update.0.db &&
      (update.1.Success? ==> !env.readFails ==> r.state == ReadyState(Some(MetadataRow(DownloadRun(started, env).1.value, env.now)))) &&
      (update.1.Failure? ==> r.db == w.db && r.state.hasError && !r.state.isLoading && !r.state.isInitialized && r.state.error == Some(update.1.error))
  {
    var started := Notify(w.(state := Loading(w.state)));
    FullUpdateStore(started, env);
    FullUpdateKeepsState(started, env);
  }

  /**
   * Fast path: recent metadata is trusted without probing, validating or
   * downloading, even when its schema version is out of date. The cache
   * is untouched and the state is ready from that row.
   */
  lemma FastPath(w: World, env: Env, returnAfterRepair: bool)
    requires !w.state.isInitialized
    requires LocalMetadata(w.db, env).Some? && env.now - LocalMetadata(w.db, env).value.lastUpdated < MaxAge(env.isDev)
    ensures var r := InitializeWith(w, env, returnAfterRepair);
      r.db == w.db && r.state == ReadyState(LocalMetadata(w.db, env)) &&
      r.notified == w.notified + [Loading(w.state), r.state, r.state]
  {
  }

  /** A stale cache that passes validation and matches the server version is kept as it is. */
  lemma StaleSameVersion(w: World, env: Env, returnAfterRepair: bool)
    requires !w.state.isInitialized
    requires LocalMetadata(w.db, env).Some?
    requires var m := LocalMetadata(w.db, env).value;
      env.now - m.lastUpdated >= MaxAge(env.isDev) &&
      LocalDataValid(m, env.now, env.isDev, RecordCount(w.db, env)) &&
      ServerVersion(env.probe).Success? && ServerVersion(env.probe).value.version == m.version
    ensures var r := InitializeWith(w, env, returnAfterRepair);
      r.db == w.db && r.state == ReadyState(LocalMetadata(w.db, env))
  {
  }

  /** Offline: when the probe fails, a valid stale cache is kept and the state still ends ready. */
  lemma StaleProbeFails(w: World, env: Env, returnAfterRepair: bool)
    requires !w.state.isInitialized
    requires LocalMetadata(w.db, env).Some?
    requires var m := LocalMetadata(w.db, env).value;
      env.now - m.lastUpdated >= MaxAge(env.isDev) &&
      LocalDataValid(m, env.now, env.isDev, RecordCount(w.db, env)) &&
      ServerVersion(env.probe).Failure?
    ensures var r := InitializeWith(w, env, returnAfterRepair);
      r.db == w.db && r.state == ReadyState(LocalMetadata(w.db, env))
  {
  }

  /**
   * A new server version triggers one full update. Its failure is
   * swallowed: the cache stays as it was and the state still ends ready.
   */
  lemma StaleNewVersion(w: World, env: Env, returnAfterRepair: bool)
    requires !w.state.isInitialized
    requires LocalMetadata(w.db, env).Some?
    requires var m := LocalMetadata(w.db, env).value;
      env.now - m.lastUpdated >= MaxAge(env.isDev) &&
      LocalDataValid(m, env.now, env.isDev, RecordCount(w.db, env)) &&
      ServerVersion(env.probe).Success? && ServerVersion(env.probe).value.version != m.version
    ensures var started := Notify(w.(state := Loading(w.state)));
      var r := InitializeWith(w, env, returnAfterRepair);
      r.db == FullUpdateRun(started, env).0.db &&
      r.state == ReadyState(LocalMetadata(r.db, env)) &&
      (FullUpdateRun(started, env).1.Failure? ==> r.db == w.db)
  {
    var started := Notify(w.(state := Loading(w.state)));
    FullUpdateStore(started, env);
  }

  /**
   * The repair path as written: a stale cache that fails validation is
   * re-downloaded (after a reset when the schema differs), and when that
   * succeeds the early `return` skips the final assignment, so the state
   * stays loading and uninitialized although the cache is now complete.
   */
  lemma RepairLeavesLoading(w: World, env: Env)
    requires !w.state.isInitialized
    requires LocalMetadata(w.db, env).Some?
    requires var m := LocalMetadata(w.db, env).value;
      env.now - m.lastUpdated >= MaxAge(env.isDev) &&
      !LocalDataValid(m, env.now, env.isDev, RecordCount(w.db, env)) &&
      env.resetError.None?
    ensures var started := Notify(w.(state := Loading(w.state)));
      var db := if LocalDbVersion(LocalMetadata(w.db, env).value) != CURRENT_DB_VERSION then Db([], []) else w.db;
      var update := FullUpdateRun(started.(db := db), env);
      var r := InitializeAsWritten(w, env);
      update.1.Success? ==> r.state.isLoading && !r.state.isInitialized && !r.state.hasError && r.db == update.0.db
  {
    var started := Notify(w.(state := Loading(w.state)));
    var m := LocalMetadata(w.db, env).value;
    var db := if LocalDbVersion(m) != CURRENT_DB_VERSION then Db([], []) else w.db;
    FullUpdateKeepsState(started.(db := db), env);
  }

  /** The same repair, corrected: the state ends ready from the freshly saved row. */
  lemma RepairEndsReady(w: World, env: Env)
    requires !w.state.isInitialized
    requires LocalMetadata(w.db, env).Some?
    requires var m := LocalMetadata(w.db, env).value;
      env.now - m.lastUpdated >= MaxAge(env.isDev) &&
      !LocalDataValid(m, env.now, env.isDev, RecordCount(w.db, env)) &&
      env.resetError.None?
    ensures var started := Notify(w.(state := Loading(w.state)));
      var db := if LocalDbVersion(LocalMetadata(w.db, env).value) != CURRENT_DB_VERSION then Db([], []) else w.db;
      var update := FullUpdateRun(started.(db := db), env);
      var r := InitializeRun(w, env);
      r.db == update.0.db && r.state == ReadyState(LocalMetadata(r.db, env))
  {
  }

  /** A failing reset inside the stale branch is swallowed too: the state ends ready from the old row. */
  lemma RepairResetFails(w: World, env: Env, returnAfterRepair: bool)
    requires !w.state.isInitialized
    requires LocalMetadata(w.db, env).Some?
    requires var m := LocalMetadata(w.db, env).value;
      env.now - m.lastUpdated >= MaxAge(env.isDev) &&
      !LocalDataValid(m, env.now, env.isDev, RecordCount(w.db, env)) &&
      LocalDbVersion(m) != CURRENT_DB_VERSION && env.resetError.Some?
    ensures var r := InitializeWith(w, env, returnAfterRepair);
      r.db == w.db && r.state == ReadyState(LocalMetadata(w.db, env))
  {
  }

  /**
   * `forceUpdate` always resets, then downloads. On success the cache holds
   * the new dataset and the state is ready; on failure the state ends in
   * error, uninitialized and not loading, and the error is passed on.
   */
  lemma ForceUpdateOutcome(w: World, env: Env)
    ensures var r := ForceUpdateRun(w, env);
      !r.0.state.isLoading && r.0.notified[|r.0.notified| - 1] == r.0.state &&
      (r.1.Failure? ==> r.0.state.hasError && !r.0.state.isInitialized && r.0.state.error == Some(r.1.error)) &&
      (r.1.Success? ==> r.0.state == ReadyState(LocalMetadata(r.0.db, env)) && env.resetError.None?)
  {
    var started := Notify(w.(state := w.state.(isInitialized := false, isLoading := true)));
    FullUpdateKeepsState(started.(db := Db([], [])), env);
  }

  /** A failing reset deletes nothing, and the download is never attempted. */
  lemma ForceUpdateResetFails(w: World, env: Env)
    requires env.resetError.Some?
    ensures ForceUpdateRun(w, env).0.db == w.db
    ensures ForceUpdateRun(w, env).1 == Failure(RESET_FAILED + env.resetError.value)
  {
  }

  /** After a successful forced update the cache holds exactly the downloaded records and one fresh row. */
  lemma ForceUpdateStore(w: World, env: Env)
    requires ForceUpdateRun(w, env).1.Success?
    ensures var started := Notify(w.(state := w.state.(isInitialized := false, isLoading := true)));
      var download := DownloadRun(started.(db := Db([], [])), env);
      download.1.Success? &&
      ForceUpdateRun(w, env).0.db == Db(download.1.value.data, [MetadataRow(download.1.value, env.now)])
  {
    var started := Notify(w.(state := w.state.(isInitialized := false, isLoading := true)));
    FullUpdateStore(started.(db := Db([], [])), env);
  }

  // ---------------------------------------------------------------
  // Queries
  // ---------------------------------------------------------------

  datatype QueryFilters = QueryFilters(
    startDate: string,
    endDate: string,
    region: Option<string>,
    union: Option<string>,
    regions: Option<seq<string>>,
    unions: Option<seq<string>>)

  /** A single value, when given, takes precedence over a list; an absent or empty list filters nothing. */
  predicate FieldMatches(value: string, single: Option<string>, list: Option<seq<string>>) {
    if Truthy(single) then value == single.value
    else if list.Some? && |list.value| > 0 then value in list.value
    else true
  }

  /** `where("date").between(startDate, endDate, true, true)` plus both `.and` filters. */
  predicate MatchesQuery(r: AuctionRecord, f: QueryFilters) {
    && LessEq(f.startDate, r.date)
    && LessEq(r.date, f.endDate)
    && FieldMatches(r.region, f.region, f.regions)
    && FieldMatches(r.union, f.union, f.unions)
  }

  /** Index order on `date`; records with equal dates stay in primary-key (insertion) order. */
  predicate DateLe(a: AuctionRecord, b: AuctionRecord) {
    LessEq(a.date, b.date)
  }

  lemma DateLeIsTotalPreorder()
    ensures IsTotalPreorder(DateLe)
  {
    forall a: AuctionRecord, b: AuctionRecord ensures DateLe(a, b) || DateLe(b, a) {
      LessEqTotalOrder(a.date, b.date, b.date);
    }
    forall a: AuctionRecord, b: AuctionRecord, c: AuctionRecord | DateLe(a, b) && DateLe(b, c) ensures DateLe(a, c) {
      LessEqTotalOrder(a.date, b.date, c.date);
    }
  }

  /** The records of `queryByDateRange`, in index order. */
  function QueryResult(records: seq<AuctionRecord>, f: QueryFilters): seq<AuctionRecord> {
    SortBy(Filter(records, (r: AuctionRecord) => MatchesQuery(r, f)), DateLe)
  }

  /** A record is returned exactly when it is cached and matches every filter; the result is in date order. */
  lemma QueryMembership(records: seq<AuctionRecord>, f: QueryFilters, r: AuctionRecord)
    ensures r in QueryResult(records, f) <==> r in records && MatchesQuery(r, f)
    ensures SortedBy(QueryResult(records, f), DateLe)
  {
    var kept := Filter(records, (x: AuctionRecord) => MatchesQuery(x, f));
    InMultiset(kept, r);
    InMultiset(QueryResult(records, f), r);
    if r in records && MatchesQuery(r, f) {
      var i :| 0 <= i < |records| && records[i] == r;
      assert r in kept;
    }
    DateLeIsTotalPreorder();
    SortBySorted(kept, DateLe);
  }

  /** Both date bounds are inclusive. */
  lemma QueryBoundsInclusive(r: AuctionRecord, f: QueryFilters)
    requires r.date == f.startDate || r.date == f.endDate
    requires LessEq(f.startDate, f.endDate)
    requires FieldMatches(r.region, f.region, f.regions) && FieldMatches(r.union, f.union, f.unions)
    ensures MatchesQuery(r, f)
  {
    LessEqTotalOrder(f.startDate, f.startDate, f.startDate);
    LessEqTotalOrder(f.endDate, f.endDate, f.endDate);
  }

  /** With a single region given, the list of regions is ignored. */
  lemma SingleRegionWins(r: AuctionRecord, f: QueryFilters, regions: Option<seq<string>>)
    requires Truthy(f.region)
    ensures MatchesQuery(r, f) == MatchesQuery(r, f.(regions := regions))
    ensures MatchesQuery(r, f) ==> r.region == f.region.value
  {
  }

  /** An empty list of regions filters no more than no list at all. */
  lemma EmptyRegionListIgnored(r: AuctionRecord, f: QueryFilters)
    ensures MatchesQuery(r, f.(regions := Some([]))) == MatchesQuery(r, f.(regions := None))
  {
  }

  // ---------------------------------------------------------------
  // Aggregation
  // ---------------------------------------------------------------

  datatype RegionTotals = RegionTotals(totalQuantity: real, totalAmount: real, recordCount: nat)

  const NO_TOTALS: RegionTotals := RegionTotals(0.0, 0.0, 0)

  /** One `reduce` step: add the record's totals to its region's entry, creating it at zero. */
  function AddToRegion(acc: Dict<string, RegionTotals>, r: AuctionRecord): Dict<string, RegionTotals> {
    Put(acc, r.region, AddRecord(Get(acc, r.region).GetOr(NO_TOTALS), r))
  }

  /** The three `+=` of one step. */
  function AddRecord(t: RegionTotals, r: AuctionRecord): RegionTotals {
    RegionTotals(t.totalQuantity + r.auctionQuantity.total, t.totalAmount + r.auctionAmount.total, t.recordCount + 1)
  }

  function ByRegion(records: seq<AuctionRecord>): Dict<string, RegionTotals> {
    if |records| == 0 then [] else AddToRegion(ByRegion(records[..|records| - 1]), records[|records| - 1])
  }

  /** The totals of one region, summed independently of the dictionary. */
  function RegionTotalsOf(records: seq<AuctionRecord>, region: string): RegionTotals {
    if |records| == 0 then NO_TOTALS
    else
      var t := RegionTotalsOf(records[..|records| - 1], region);
      var r := records[|records| - 1];
      if r.region == region then AddRecord(t, r) else t
  }

  function CountSum(m: Dict<string, RegionTotals>): nat {
    if |m| == 0 then 0 else m[0].1.recordCount + CountSum(m[1..])
  }

  lemma {:induction false} PutCountSum(m: Dict<string, RegionTotals>, k: string, v: RegionTotals)
    ensures CountSum(Put(m, k, v)) + Get(m, k).GetOr(NO_TOTALS).recordCount == CountSum(m) + v.recordCount
  {
    if |m| > 0 && m[0].0 != k {
      PutCountSum(m[1..], k, v);
    }
  }

  lemma AddToRegionGet(acc: Dict<string, RegionTotals>, r: AuctionRecord, region: string)
    ensures Get(AddToRegion(acc, r), region) ==
      if r.region == region then Some(AddRecord(Get(acc, region).GetOr(NO_TOTALS), r)) else Get(acc, region)
  {
    PutGet(acc, r.region, AddRecord(Get(acc, r.region).GetOr(NO_TOTALS), r), region);
  }

  /** Each region's entry holds exactly the sums over that region's records, and exists once it has one. */
  lemma {:induction false} ByRegionGet(records: seq<AuctionRecord>, region: string)
    ensures Get(ByRegion(records), region).GetOr(NO_TOTALS) == RegionTotalsOf(records, region)
    ensures Get(ByRegion(records), region).Some? <==> RegionTotalsOf(records, region).recordCount > 0
  {
    if |records| > 0 {
      var pre := records[..|records| - 1];
      ByRegionGet(pre, region);
      AddToRegionGet(ByRegion(pre), records[|records| - 1], region);
    }
  }

  /** The per-region record counts add up to the number of records. */
  lemma {:induction false} ByRegionCounts(records: seq<AuctionRecord>)
    ensures CountSum(ByRegion(records)) == |records|
  {
    if |records| > 0 {
      var pre := records[..|records| - 1];
      var r := records[|records| - 1];
      ByRegionCounts(pre);
      PutCountSum(ByRegion(pre), r.region, AddRecord(Get(ByRegion(pre), r.region).GetOr(NO_TOTALS), r));
    }
  }

  /** The unit prices of the records with a positive quantity in grade `g`, and how many there are. */
  function PricedSum(records: seq<AuctionRecord>, g: Grade): real {
    if |records| == 0 then 0.0
    else
      var r := records[|records| - 1];
      PricedSum(records[..|records| - 1], g) + (if r.grades.At(g).quantity > 0.0 then r.grades.At(g).unitPrice else 0.0)
  }

  function PricedCount(records: seq<AuctionRecord>, g: Grade): nat {
    if |records| == 0 then 0
    else PricedCount(records[..|records| - 1], g) + (if records[|records| - 1].grades.At(g).quantity > 0.0 then 1 else 0)
  }

  /** `sum / count || 0`: the mean unit price over records that sold in the grade, 0 when there are none. */
  function GradeAverage(records: seq<AuctionRecord>, g: Grade): (avg: real)
    ensures PricedCount(records, g) == 0 ==> avg == 0.0
    ensures PricedCount(records, g) > 0 ==> avg * PricedCount(records, g) as real == PricedSum(records, g)
  {
    var n := PricedCount(records, g);
    if n == 0 then 0.0 else PricedSum(records, g) / n as real
  }

  datatype Aggregated = Aggregated(byRegion: Dict<string, RegionTotals>, grade1: real, grade2: real, totalRecords: nat)

  /** `getAggregatedData` after its query. */
  function Aggregate(records: seq<AuctionRecord>): (a: Aggregated)
    ensures a.totalRecords == |records|
  {
    Aggregated(ByRegion(records), GradeAverage(records, Grade1), GradeAverage(records, Grade2), |records|)
  }

  /** The region counts of an aggregate add up to its record total. */
  lemma AggregateCounts(records: seq<AuctionRecord>)
    ensures CountSum(Aggregate(records).byRegion) == Aggregate(records).totalRecords
  {
    ByRegionCounts(records);
  }
}
