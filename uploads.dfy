/**
 * Values of the upload worker (main/static/js/tasks/upload-worker.js):
 * upload records, progress messages, the progress buffer keyed by
 * (project, token) and then by upload uid, the batching of the periodic
 * flush, and the chunk arithmetic of the MD5 pass.
 */
module Uploads {
  import opened Wrappers
  import opened Assoc
  import JsArray

  /** `maxUploads`: at most this many uploads are active at once. */
  const MaxUploads: nat := 1
  /** An upload is re-queued after a transfer error while its retry count stays at or below this. */
  const MaxRetries: nat := 2
  /** `startUpload` does nothing until more than this many milliseconds passed since the last add. */
  const DebounceMs: int := 250
  /** `maxMessages`: the largest batch one progress POST carries. */
  const MaxMessages: nat := 1000
  /** The slice size of the MD5 pass (2 MiB). */
  const Md5ChunkSize: nat := 2097152
  /** Hashing progress is reported every this many chunks. */
  const HashReportEvery: nat := 20

  type Uid = string

  datatype FileInfo = FileInfo(name: string, mimeType: string, size: nat)

  /** The fields of an `addUpload` control message. */
  datatype AddRequest = AddRequest(
    file: FileInfo, projectId: int, gid: string, section: string,
    mediaTypeId: int, username: string, token: string, isImage: bool)

  /** An entry of `uploadBuffer`: the add message plus `uid` and `retries`. */
  datatype UploadRecord = UploadRecord(
    file: FileInfo, projectId: int, gid: string, section: string,
    mediaTypeId: int, username: string, token: string, isImage: bool,
    uid: Uid, retries: nat)

  /** The decimal digits JavaScript prints for a non-negative integer. */
  function DecimalString(n: nat): (s: string)
    ensures |s| > 0
    ensures forall i | 0 <= i < |s| :: '0' <= s[i] <= '9'
  {
    var d := ['0' + (n % 10) as char];
    if n < 10 then d else DecimalString(n / 10) + d
  }

  /** The string `name + type + username + size` that the uid is the hash of. */
  function FingerprintInput(file: FileInfo, username: string): string
  {
    file.name + file.mimeType + username + DecimalString(file.size)
  }

  /** The record `addUpload` pushes: the request, the given uid and no retries yet. */
  function NewRecord(req: AddRequest, uid: Uid): (r: UploadRecord)
    ensures r.uid == uid && r.retries == 0
    ensures r.file == req.file && r.projectId == req.projectId && r.gid == req.gid
    ensures r.section == req.section && r.mediaTypeId == req.mediaTypeId
    ensures r.username == req.username && r.token == req.token && r.isImage == req.isImage
  {
    UploadRecord(req.file, req.projectId, req.gid, req.section, req.mediaTypeId,
                 req.username, req.token, req.isImage, uid, 0)
  }

  /** One progress message as buffered for the backend. */
  datatype ProgressMsg = ProgressMsg(
    jobType: string, gid: string, uid: Uid, swid: string, section: string,
    name: string, state: string, message: string, progress: real)

  /** The message every producer builds for record `r` (job type "upload", the record's ids, section and file name). */
  function Progress(swid: string, r: UploadRecord, state: string, message: string, pct: real): ProgressMsg
  {
    ProgressMsg("upload", r.gid, r.uid, swid, r.section, r.file.name, state, message, pct)
  }

  /** The pair `[projectId, token]` the progress buffer is keyed by. */
  datatype BufferKey = BufferKey(projectId: int, token: string)

  function KeyOf(r: UploadRecord): BufferKey
  {
    BufferKey(r.projectId, r.token)
  }

  /** `progressBuffer`: per key, the latest message per uid, both levels in insertion order. */
  type ProgressBuffer = seq<Pair<BufferKey, seq<Pair<Uid, ProgressMsg>>>>

  ghost predicate WellFormedBuffer(pb: ProgressBuffer)
  {
    DistinctKeys(pb) && forall i | 0 <= i < |pb| :: DistinctKeys(pb[i].val)
  }

  /** `progressBuffer[key][uid]`, if any. */
  function Buffered(pb: ProgressBuffer, key: BufferKey, uid: Uid): Option<ProgressMsg>
  {
    match Get(pb, key)
    case None => None
    case Some(msgs) => Get(msgs, uid)
  }

  /** The buffer after `bufferMessage(key, uid, msg)`: last write wins for (key, uid), every other entry is kept. */
  function WithMessage(pb: ProgressBuffer, key: BufferKey, uid: Uid, msg: ProgressMsg): (r: ProgressBuffer)
    requires WellFormedBuffer(pb)
    ensures WellFormedBuffer(r)
    ensures Buffered(r, key, uid) == Some(msg)
    ensures forall k, u | k != key || u != uid :: Buffered(r, k, u) == Buffered(pb, k, u)
    ensures Keys(r) == Keys(pb) + {key}
  {
    var inner := match Get(pb, key) case None => [] case Some(m) => m;
    assert DistinctKeys(inner) by {
      if Get(pb, key).Some? { assert inner == pb[Find(pb, key).value].val; }
    }
    PutGet(inner, uid, msg);
    var r := Put(pb, key, Put(inner, uid, msg));
    PutGet(pb, key, Put(inner, uid, msg));
    assert WellFormedBuffer(r) by {
      forall i | 0 <= i < |r| ensures DistinctKeys(r[i].val) {
        if r[i].key != key {
          assert r[i] == pb[i];
        }
      }
    }
    r
  }

  /** The buffer after a message about record `r` was buffered under the record's key and uid. */
  function Reported(pb: ProgressBuffer, swid: string, r: UploadRecord, state: string, message: string, pct: real): (res: ProgressBuffer)
    requires WellFormedBuffer(pb)
    ensures WellFormedBuffer(res)
  {
    WithMessage(pb, KeyOf(r), r.uid, Progress(swid, r, state, message, pct))
  }

  /** The buffer after `removeQueued` ran, in order, on each record of `rs`: each got "failed"/"Aborted!"/100. */
  function AbortAll(swid: string, pb: ProgressBuffer, rs: seq<UploadRecord>): (r: ProgressBuffer)
    requires WellFormedBuffer(pb)
    ensures WellFormedBuffer(r)
  {
    if rs == [] then pb
    else Reported(AbortAll(swid, pb, rs[..|rs| - 1]), swid, rs[|rs| - 1], "failed", "Aborted!", 100.0)
  }

  /** Aborting one more record buffers its message after all the earlier ones. */
  lemma AbortAllSnoc(swid: string, pb: ProgressBuffer, rs: seq<UploadRecord>, x: UploadRecord)
    requires WellFormedBuffer(pb)
    ensures AbortAll(swid, pb, rs + [x]) == Reported(AbortAll(swid, pb, rs), swid, x, "failed", "Aborted!", 100.0)
  {
    assert (rs + [x])[..|rs|] == rs;
  }

  /** The records of `s` whose group is not `gid`, in order. */
  function Keep(gid: string, s: seq<UploadRecord>): (r: seq<UploadRecord>)
    ensures |r| <= |s|
    ensures forall i | 0 <= i < |r| :: r[i].gid != gid && r[i] in s
  {
    if s == [] then []
    else Keep(gid, s[..|s| - 1]) + (if s[|s| - 1].gid != gid then [s[|s| - 1]] else [])
  }

  /** The records of `s` whose group is `gid`, in order. */
  function Drop(gid: string, s: seq<UploadRecord>): (r: seq<UploadRecord>)
    ensures |r| <= |s|
    ensures forall i | 0 <= i < |r| :: r[i].gid == gid && r[i] in s
  {
    if s == [] then []
    else Drop(gid, s[..|s| - 1]) + (if s[|s| - 1].gid == gid then [s[|s| - 1]] else [])
  }

  /** Filtering distributes over concatenation. */
  lemma {:induction false} KeepDropAppend(gid: string, s: seq<UploadRecord>, t: seq<UploadRecord>)
    ensures Keep(gid, s + t) == Keep(gid, s) + Keep(gid, t)
    ensures Drop(gid, s + t) == Drop(gid, s) + Drop(gid, t)
    decreases |t|
  {
    if t == [] {
      assert s + t == s;
    } else {
      var t' := t[..|t| - 1];
      assert (s + t)[..|s + t| - 1] == s + t';
      KeepDropAppend(gid, s, t');
    }
  }

  /** A stretch with no record of group `gid` is kept whole and drops nothing. */
  lemma {:induction false} KeepNone(gid: string, s: seq<UploadRecord>)
    requires forall i | 0 <= i < |s| :: s[i].gid != gid
    ensures Keep(gid, s) == s && Drop(gid, s) == []
  {
    if s != [] {
      KeepNone(gid, s[..|s| - 1]);
      assert s == s[..|s| - 1] + [s[|s| - 1]];
    }
  }

  /** The JSON body of the ingestion request sent after a successful transfer. */
  datatype IngestBody = IngestBody(
    mediaTypeId: int, gid: string, uid: Uid, url: string, section: string, name: string, md5: string)

  /** Every request the worker makes of the backend, the transfer client or its clients. */
  datatype Effect =
    | ProgressPost(projectId: int, token: string, batch: seq<ProgressMsg>)  // POST /rest/Progress/<projectId>
    | NumUploads(count: nat)                                                // broadcast to every client
    | DuplicateQuery(projectId: int, mediaTypeId: int, md5: string)       // GET /rest/EntityMedias/...&md5=
    | TransferStart(uid: Uid)                                              // tus.start()
    | TransferAbort(uid: Uid)                                              // tus.abort()
    | Ingest(endpoint: string, projectId: int, token: string, body: IngestBody)  // POST /rest/<SaveImage|Transcode>/

  /** The slices `messages.slice(start, start + maxMessages)` the flush loop sends, from `start` on. */
  function Batches<T>(ms: seq<T>, start: nat): seq<seq<T>>
    decreases |ms| - start
  {
    if start >= |ms| then []
    else [JsArray.Slice(ms, start, start + MaxMessages)] + Batches(ms, start + MaxMessages)
  }

  function Flatten<T>(ss: seq<seq<T>>): seq<T>
  {
    if ss == [] then [] else ss[0] + Flatten(ss[1..])
  }

  /**
   * The flush sends every message of a key exactly once and in order: the
   * batches concatenate to the whole list, there are ceil(n / 1000) of them
   * and each holds between 1 and 1000 messages.
   */
  lemma {:induction false} BatchesPartition<T>(ms: seq<T>, start: nat)
    requires start <= |ms|
    ensures Flatten(Batches(ms, start)) == ms[start..]
    ensures |Batches(ms, start)| == (|ms| - start + MaxMessages - 1) / MaxMessages
    ensures forall b | b in Batches(ms, start) :: 0 < |b| <= MaxMessages
    decreases |ms| - start
  {
    var bs := Batches(ms, start);
    if start < |ms| {
      var first := JsArray.Slice(ms, start, start + MaxMessages);
      if start + MaxMessages <= |ms| {
        assert first == ms[start..start + MaxMessages];
        BatchesPartition(ms, start + MaxMessages);
        assert bs[1..] == Batches(ms, start + MaxMessages);
        assert ms[start..] == first + ms[start + MaxMessages..];
      } else {
        assert first == ms[start..];
        assert Batches(ms, start + MaxMessages) == [];
        assert bs == [first];
        assert bs[1..] == [];
      }
    }
  }

  /** The progress POSTs for `key`, one per batch. */
  function Posts(key: BufferKey, bs: seq<seq<ProgressMsg>>): (r: seq<Effect>)
    ensures |r| == |bs|
    ensures forall i | 0 <= i < |bs| :: r[i] == ProgressPost(key.projectId, key.token, bs[i])
  {
    if bs == [] then [] else [ProgressPost(key.projectId, key.token, bs[0])] + Posts(key, bs[1..])
  }

  /** The posts one key of the buffer gets: its messages, in insertion order, in batches. */
  function KeyPosts(entry: Pair<BufferKey, seq<Pair<Uid, ProgressMsg>>>): seq<Effect>
  {
    Posts(entry.key, Batches(Values(entry.val), 0))
  }

  /** Everything one flush tick sends for the first `n` keys of `pb`, key by key. */
  function FlushPosts(pb: ProgressBuffer, n: nat): seq<Effect>
    requires n <= |pb|
  {
    if n == 0 then [] else FlushPosts(pb, n - 1) + KeyPosts(pb[n - 1])
  }

  /** One more batch: the posts from `start` are the batch at `start` followed by the posts from the next one. */
  lemma PostsStep(key: BufferKey, ms: seq<ProgressMsg>, start: nat)
    requires start < |ms|
    ensures Posts(key, Batches(ms, start))
         == [ProgressPost(key.projectId, key.token, JsArray.Slice(ms, start, start + MaxMessages))]
            + Posts(key, Batches(ms, start + MaxMessages))
  {
    var bs := Batches(ms, start);
    assert bs[1..] == Batches(ms, start + MaxMessages);
  }

  /** The slice `[start, end)` of the file that MD5 read `i` covers. */
  datatype Range = Range(start: nat, end: nat)

  /** `Math.ceil(size / chunkSize)`. */
  function ChunkCount(size: nat): nat
  {
    (size + Md5ChunkSize - 1) / Md5ChunkSize
  }

  /** The number of reads the MD5 pass makes: an empty file is still read once, as the empty slice. */
  function ReadCount(size: nat): (n: nat)
    ensures n >= 1
  {
    if ChunkCount(size) == 0 then 1 else ChunkCount(size)
  }

  /** The slice `loadNext` requests for chunk `i`: from `i * chunkSize` up to the next chunk or the end of the file. */
  function ChunkRange(i: nat, size: nat): Range
  {
    var start := i * Md5ChunkSize;
    Range(start, if start + Md5ChunkSize >= size then size else start + Md5ChunkSize)
  }

  /** All the slices of one complete MD5 pass, in order. */
  function ChunkRanges(size: nat): (rs: seq<Range>)
    ensures |rs| == ReadCount(size)
    ensures forall i | 0 <= i < |rs| :: rs[i] == ChunkRange(i, size)
  {
    seq(ReadCount(size), i requires 0 <= i => ChunkRange(i, size))
  }

  /**
   * The MD5 pass reads the whole file once, in order: its slices start at 0,
   * each starts where the previous one ended, the last ends at the file size,
   * each is at most one chunk long, and for a non-empty file there are
   * ceil(size / 2 MiB) of them, none empty.
   */
  lemma ChunkRangesTile(size: nat)
    ensures ChunkRanges(size)[0].start == 0
    ensures ChunkRanges(size)[|ChunkRanges(size)| - 1].end == size
    ensures forall i | 0 <= i < |ChunkRanges(size)| - 1 :: ChunkRanges(size)[i].end == ChunkRanges(size)[i + 1].start
    ensures forall i | 0 <= i < |ChunkRanges(size)| ::
      ChunkRanges(size)[i].start <= ChunkRanges(size)[i].end <= ChunkRanges(size)[i].start + Md5ChunkSize
    ensures size > 0 ==> |ChunkRanges(size)| == ChunkCount(size)
    ensures size > 0 ==> forall i | 0 <= i < |ChunkRanges(size)| :: ChunkRanges(size)[i].start < ChunkRanges(size)[i].end
  {
    var rs := ChunkRanges(size);
    var n := |rs|;
    if size > 0 {
      var k := ChunkCount(size);
      assert (k - 1) * Md5ChunkSize < size <= k * Md5ChunkSize;
      forall i | 0 <= i < n ensures rs[i].start < rs[i].end {
        assert i * Md5ChunkSize <= (k - 1) * Md5ChunkSize;
      }
      forall i | 0 <= i < n - 1 ensures rs[i].end == rs[i + 1].start {
        assert (i + 1) * Md5ChunkSize <= (k - 1) * Md5ChunkSize;
      }
    }
  }

  /** The hashing progress `currentChunk / chunks * 10` reported while chunks remain: within [0, 10). */
  function HashPercentage(current: nat, chunks: nat): (p: real)
    requires current < chunks
    ensures 0.0 <= p < 10.0
  {
    current as real / chunks as real * 10.0
  }

  /** The transfer progress `10 + 0.4 * percent` reported while the transfer is under 100%: within [10, 50). */
  function TransferPercentage(sent: nat, total: nat): (p: real)
    requires 0 < total && sent < total
    ensures 10.0 <= p < 50.0
  {
    10.0 + 0.4 * (100.0 * sent as real / total as real)
  }

  /** Multiplying by a positive factor keeps a strict order. */
  lemma MulStrict(x: real, y: real, c: real)
    requires x < y && 0.0 < c
    ensures x * c < y * c
  {
    assert y * c - x * c == (y - x) * c;
  }

  /** `percent < 100` exactly when fewer bytes were sent than there are. */
  lemma BelowComplete(sent: nat, total: nat)
    requires 0 < total
    ensures 100.0 * sent as real / total as real < 100.0 <==> sent < total
  {
    var t := total as real;
    var q := 100.0 * sent as real / t;
    assert q * t == 100.0 * sent as real;
    if q < 100.0 {
      MulStrict(q, 100.0, t);
    } else if sent < total {
      MulStrict(sent as real, total as real, 100.0);
      if q > 100.0 {
        MulStrict(100.0, q, t);
      }
    }
  }
}
