/**
 * The upload scheduler of main/static/js/tasks/upload-worker.js: the FIFO
 * `uploadBuffer`, the `activeUploads` map with its ceiling of one, the
 * last-write-wins `progressBuffer`, the control-message handlers and the
 * callbacks of one `Upload`. Each handler or callback is one atomic step;
 * the current time is a parameter, and every request the worker makes is
 * appended to `outbox`.
 */
module UploadWorker {
  import opened Wrappers
  import opened Assoc
  import opened Uploads
  import JsArray

  /** One `Upload` object: a record being hashed and transferred. */
  class Upload {
    /** `uploadData`, as it was when the upload was started. */
    const data: UploadRecord
    /** `Math.ceil(file.size / chunkSize)`. */
    const chunks: nat := ChunkCount(data.file.size)
    /** `uploadData.retries`, which `onError` increments. */
    var retries: nat
    var aborted: bool
    var md5: string
    /** `currentChunk` of the MD5 pass: the number of slices loaded so far. */
    var currentChunk: nat
    /** The slices requested from the `FileReader`, in order. */
    var requested: seq<Range>
    /** Whether `tus.start()` was called (the transfer client then has a source to abort). */
    var transferStarted: bool

    /** The MD5 pass so far: slice `i` was requested as chunk `i`, and every requested slice but the last has loaded. */
    ghost predicate Valid()
      reads this
    {
      && currentChunk <= |requested| <= currentChunk + 1
      && |requested| <= ReadCount(data.file.size)
      && PassPrefix(requested, data.file.size)
    }

    /** `new Upload(uploadData)`. */
    constructor (data: UploadRecord)
      ensures this.data == data && chunks == ChunkCount(data.file.size)
      ensures retries == data.retries && !aborted && md5 == ""
      ensures currentChunk == 0 && requested == [] && !transferStarted
    {
      this.data := data;
      retries := data.retries;
      aborted := false;
      md5 := "";
      currentChunk := 0;
      requested := [];
      transferStarted := false;
    }

    /** `computeMd5`: a fresh pass whose first slice is requested at once. */
    method ComputeMd5()
      modifies this`currentChunk, this`requested
      ensures Valid()
      ensures currentChunk == 0
      ensures requested == if aborted then [] else [ChunkRange(0, data.file.size)]
    {
      currentChunk := 0;
      requested := [];
      LoadNext();
    }

    /** `loadNext`: requests slice `currentChunk`, unless the upload was aborted. */
    method LoadNext()
      modifies this`requested
      ensures requested == if aborted then old(requested) else old(requested) + [ChunkRange(currentChunk, data.file.size)]
    {
      if !aborted {
        requested := requested + [ChunkRange(currentChunk, data.file.size)];
      }
    }

    /**
     * The upload's side of `reader.onload`: the chunk counter advances; while
     * chunks remain the next slice is requested (unless aborted), otherwise the
     * digest of the whole file is kept, every slice having been read.
     */
    method ChunkLoaded(digest: string) returns (more: bool)
      requires Valid() && currentChunk < |requested|
      modifies this`currentChunk, this`requested, this`md5
      ensures Valid()
      ensures currentChunk == old(currentChunk) + 1
      ensures more <==> currentChunk < chunks
      ensures more ==> md5 == old(md5)
      ensures more ==> requested == old(requested) + (if aborted then [] else [ChunkRange(currentChunk, data.file.size)])
      ensures !more ==> md5 == digest
      ensures !more ==> requested == old(requested) == ChunkRanges(data.file.size)
    {
      currentChunk := currentChunk + 1;
      more := currentChunk < chunks;
      if more {
        PassPrefixSnoc(requested, data.file.size);
        LoadNext();
      } else {
        md5 := digest;
        AllChunksRead(requested, data.file.size);
      }
    }
  }

  /** Slice `i` of `rs` is chunk `i` of a file of `size` bytes. */
  ghost predicate PassPrefix(rs: seq<Range>, size: nat)
  {
    forall i | 0 <= i < |rs| :: rs[i] == ChunkRange(i, size)
  }

  lemma PassPrefixSnoc(rs: seq<Range>, size: nat)
    requires PassPrefix(rs, size)
    ensures PassPrefix(rs + [ChunkRange(|rs|, size)], size)
  {
  }

  /** A pass whose slices are chunks 0, 1, ... and as many as `ReadCount` is the whole pass. */
  lemma AllChunksRead(rs: seq<Range>, size: nat)
    requires |rs| == ReadCount(size) && PassPrefix(rs, size)
    ensures rs == ChunkRanges(size)
  {
  }

  /** A freshly started upload: nothing read back yet, the first slice requested. */
  ghost predicate Started(u: Upload)
    reads u
  {
    u.Valid() && !u.aborted && u.retries == u.data.retries && u.md5 == ""
    && u.currentChunk == 0 && u.requested == [ChunkRange(0, u.data.file.size)] && !u.transferStarted
  }

  /** Every upload of `a` not under a uid of `before` has just been started. */
  ghost predicate NewlyStarted(a: map<Uid, Upload>, before: set<Uid>)
    reads a.Values
  {
    forall uid | uid in a && uid !in before :: Started(a[uid])
  }

  ghost predicate IsSuffix<T>(s: seq<T>, t: seq<T>)
  {
    |s| <= |t| && s == t[|t| - |s|..]
  }

  /**
   * What `startUpload` does to (active, buffer) = (a0, b0) at time `now`
   * when the last add was at `last`: nothing unless more than 250 ms passed,
   * a slot is free and the buffer is non-empty; otherwise the head leaves the
   * buffer and becomes active under its uid, unless that uid is already
   * active, in which case it is dropped.
   */
  ghost predicate Promotion(now: int, last: int,
                            a0: map<Uid, Upload>, b0: seq<UploadRecord>,
                            a1: map<Uid, Upload>, b1: seq<UploadRecord>)
  {
    if now - last > DebounceMs && |a0| < MaxUploads && |b0| > 0 then
      && b1 == b0[1..]
      && (b0[0].uid in a0 ==> a1 == a0)
      && (b0[0].uid !in a0 ==>
            b0[0].uid in a1 && a1 == a0[b0[0].uid := a1[b0[0].uid]] && a1[b0[0].uid].data == b0[0])
    else
      a1 == a0 && b1 == b0
  }

  /** A scheduling step as `Promotion` says, whose newly active upload, if any, has just been started. */
  ghost predicate Rescheduled(now: int, last: int,
                              a0: map<Uid, Upload>, b0: seq<UploadRecord>,
                              a1: map<Uid, Upload>, b1: seq<UploadRecord>)
    reads a1.Values
  {
    Promotion(now, last, a0, b0, a1, b1) && NewlyStarted(a1, a0.Keys)
  }

  /** A scheduling step only drops the head of the queue, keeps every active upload, and adds at most the head's record. */
  lemma PromotionShape(now: int, last: int,
                       a0: map<Uid, Upload>, b0: seq<UploadRecord>,
                       a1: map<Uid, Upload>, b1: seq<UploadRecord>)
    requires Promotion(now, last, a0, b0, a1, b1)
    ensures IsSuffix(b1, b0)
    ensures forall uid | uid in a0 :: uid in a1 && a1[uid] == a0[uid]
    ensures forall uid | uid in a1 && uid !in a0 :: |b0| > 0 && a1[uid].data == b0[0]
  {
    if now - last > DebounceMs && |a0| < MaxUploads && |b0| > 0 {
      assert b1 == b0[|b0| - |b1|..];
    }
  }

  lemma IsSuffixTrans<T>(s: seq<T>, t: seq<T>, u: seq<T>)
    requires IsSuffix(s, t) && IsSuffix(t, u)
    ensures IsSuffix(s, u)
  {
    assert t[|t| - |s|..] == u[|u| - |s|..];
  }

  /**
   * In a queue made of `kept`, where no record has group `gid`, followed by
   * `rest`, the first record of group `gid` is in `rest`, at `index - |kept|`.
   */
  lemma FirstInRest(gid: string, kept: seq<UploadRecord>, rest: seq<UploadRecord>, index: nat)
    requires forall i | 0 <= i < |kept| :: kept[i].gid != gid
    requires index < |kept + rest| && (kept + rest)[index].gid == gid
    requires forall i | 0 <= i < index :: (kept + rest)[i].gid != gid
    ensures |kept| <= index && (kept + rest)[index] == rest[index - |kept|]
    ensures forall i | 0 <= i < index - |kept| :: rest[i].gid != gid
  {
    forall i | 0 <= i < |kept| ensures (kept + rest)[i].gid != gid {
      assert (kept + rest)[i] == kept[i];
    }
    forall i | 0 <= i < index - |kept| ensures rest[i].gid != gid {
      assert rest[i] == (kept + rest)[|kept| + i];
    }
  }

  /** Removing the record at `|kept| + (j - k)` of `kept + b0[k..]` removes `b0[j]`. */
  lemma RemoveFromRest<T>(kept: seq<T>, b0: seq<T>, k: nat, j: nat)
    requires k <= j < |b0|
    ensures JsArray.RemoveAt(kept + b0[k..], |kept| + (j - k)) == (kept + b0[k..j]) + b0[j + 1..]
  {
    var buf := kept + b0[k..];
    assert buf[..|kept| + (j - k)] == kept + b0[k..j];
    assert buf[|kept| + (j - k) + 1..] == b0[j + 1..];
  }

  /** Filtering `s + t + [x]` where no record of `t` and only `x` has group `gid`. */
  lemma FilterPastGap(gid: string, s: seq<UploadRecord>, t: seq<UploadRecord>, x: UploadRecord)
    requires forall i | 0 <= i < |t| :: t[i].gid != gid
    requires x.gid == gid
    ensures Keep(gid, s + t + [x]) == Keep(gid, s) + t
    ensures Drop(gid, s + t + [x]) == Drop(gid, s) + [x]
  {
    KeepNone(gid, t);
    KeepDropAppend(gid, s, t);
    assert (s + t + [x])[..|s + t|] == s + t;
  }

  /** Filtering `b0[..j + 1]`, where `b0[j]` is the first record of group `gid` from `k` on. */
  lemma FilterThroughFirst(gid: string, b0: seq<UploadRecord>, k: nat, j: nat)
    requires k <= j < |b0| && b0[j].gid == gid
    requires forall i | k <= i < j :: b0[i].gid != gid
    ensures Keep(gid, b0[..j + 1]) == Keep(gid, b0[..k]) + b0[k..j]
    ensures Drop(gid, b0[..j + 1]) == Drop(gid, b0[..k]) + [b0[j]]
  {
    var t := b0[k..j];
    forall i | 0 <= i < |t| ensures t[i].gid != gid {
      assert t[i] == b0[k + i];
    }
    assert b0[..j] == b0[..k] + t;
    assert b0[..j + 1] == b0[..k] + t + [b0[j]];
    FilterPastGap(gid, b0[..k], t, b0[j]);
  }

  /**
   * The first record of group `gid` in a queue that is the kept part of
   * `b0[..k]` followed by `b0[k..]` is some `b0[j]` with `j >= k`, and
   * removing it gives the same shape at `j + 1`.
   */
  lemma FirstOfGroup(gid: string, b0: seq<UploadRecord>, k: nat, index: nat) returns (j: nat)
    requires k <= |b0|
    requires index < |Keep(gid, b0[..k]) + b0[k..]|
    requires (Keep(gid, b0[..k]) + b0[k..])[index].gid == gid
    requires forall i | 0 <= i < index :: (Keep(gid, b0[..k]) + b0[k..])[i].gid != gid
    ensures k <= j < |b0| && (Keep(gid, b0[..k]) + b0[k..])[index] == b0[j]
    ensures JsArray.RemoveAt(Keep(gid, b0[..k]) + b0[k..], index) == Keep(gid, b0[..j + 1]) + b0[j + 1..]
    ensures Drop(gid, b0[..j + 1]) == Drop(gid, b0[..k]) + [b0[j]]
  {
    var kept, rest := Keep(gid, b0[..k]), b0[k..];
    FirstInRest(gid, kept, rest, index);
    j := k + (index - |kept|);
    forall i | k <= i < j ensures b0[i].gid != gid {
      assert b0[i] == rest[i - k];
    }
    FilterThroughFirst(gid, b0, k, j);
    RemoveFromRest(kept, b0, k, j);
  }

  /** Once no record of group `gid` is left in the queue, it is the kept part of the whole original queue, and the dropped part is complete. */
  lemma NoGroupLeft(gid: string, b0: seq<UploadRecord>, k: nat)
    requires k <= |b0|
    requires forall i | 0 <= i < |Keep(gid, b0[..k]) + b0[k..]| :: (Keep(gid, b0[..k]) + b0[k..])[i].gid != gid
    ensures Keep(gid, b0) == Keep(gid, b0[..k]) + b0[k..]
    ensures Drop(gid, b0) == Drop(gid, b0[..k])
  {
    var kept := Keep(gid, b0[..k]);
    forall i | 0 <= i < |b0[k..]| ensures b0[k..][i].gid != gid {
      assert b0[k..][i] == (kept + b0[k..])[|kept| + i];
    }
    KeepNone(gid, b0[k..]);
    assert b0 == b0[..k] + b0[k..];
    KeepDropAppend(gid, b0[..k], b0[k..]);
  }

  /** The uids of the active uploads of group `gid`. */
  function GroupActive(a: map<Uid, Upload>, gid: string): (r: set<Uid>)
    ensures forall uid :: uid in r <==> uid in a && a[uid].data.gid == gid
  {
    set uid | uid in a && a[uid].data.gid == gid
  }

  /**
   * Progress of the second loop of `cancelGroupUpload` from the active map
   * `a0` to `a`: an active upload of the group is one of the original ones,
   * every original one of the group was cancelled or is still active, and
   * every original one of another group is still active.
   */
  ghost predicate GroupCancelled(gid: string, a0: map<Uid, Upload>, a: map<Uid, Upload>, cancelled: set<Upload>)
  {
    && (forall uid | uid in a && a[uid].data.gid == gid :: uid in a0 && a[uid] == a0[uid])
    && (forall uid | uid in a0 && a0[uid].data.gid == gid :: a0[uid] in cancelled || (uid in a && a[uid] == a0[uid]))
    && (forall uid | uid in a0 && a0[uid].data.gid != gid :: uid in a && a[uid] == a0[uid])
  }

  /** A subset that misses an element of the larger set is smaller. */
  lemma SmallerSubset<T>(s: set<T>, t: set<T>, x: T)
    requires s <= t && x in t && x !in s
    ensures |s| < |t|
  {
    assert t == s + (t - s) && s * (t - s) == {};
    assert x in t - s;
  }

  /** A tail of a queue with no record of group `gid` has none either. */
  lemma SuffixAvoidsGroup(gid: string, b: seq<UploadRecord>, b1: seq<UploadRecord>)
    requires forall i | 0 <= i < |b| :: b[i].gid != gid
    requires IsSuffix(b1, b)
    ensures forall i | 0 <= i < |b1| :: b1[i].gid != gid
  {
    forall i | 0 <= i < |b1| ensures b1[i].gid != gid {
      assert b1[i] == b[|b| - |b1| + i];
    }
  }

  /** While no queued record belongs to group `gid`, a scheduling step adds no active upload of the group. */
  lemma PromotionAvoidsGroup(gid: string, now: int, last: int,
                             a: map<Uid, Upload>, b: seq<UploadRecord>, a1: map<Uid, Upload>, b1: seq<UploadRecord>)
    requires forall i | 0 <= i < |b| :: b[i].gid != gid
    requires Promotion(now, last, a, b, a1, b1)
    ensures forall k | k in a1 && a1[k].data.gid == gid :: k in a && a1[k] == a[k]
  {
    PromotionShape(now, last, a, b, a1, b1);
    forall k | k in a1 && a1[k].data.gid == gid ensures k in a {
      if k !in a {
        assert false;
      }
    }
  }

  /**
   * Cancelling one active upload `uid` of group `gid` while no queued record
   * belongs to it keeps the loop's progress and leaves strictly fewer active
   * uploads of the group.
   */
  lemma GroupCancelStep(gid: string, uid: Uid, a0: map<Uid, Upload>, a: map<Uid, Upload>,
                        a1: map<Uid, Upload>, cancelled: set<Upload>)
    requires GroupCancelled(gid, a0, a, cancelled)
    requires uid in a && a[uid].data.gid == gid
    requires forall k | k in a1 && a1[k].data.gid == gid :: k in a - {uid} && a1[k] == a[k]
    requires forall k | k in a - {uid} :: k in a1 && a1[k] == a[k]
    ensures GroupCancelled(gid, a0, a1, cancelled + {a[uid]})
    ensures |GroupActive(a1, gid)| < |GroupActive(a, gid)|
  {
    assert uid !in GroupActive(a1, gid);
    SmallerSubset(GroupActive(a1, gid), GroupActive(a, gid), uid);
  }

  /**
   * One turn of the second loop of `cancelGroupUpload`, from (active, queue)
   * = (a, b) to (a1, b1): once upload `uid` of group `gid` is cancelled and a
   * scheduling step has run, the loop's progress from (a0, b0) is kept, no
   * queued record belongs to the group, and fewer active uploads do.
   */
  lemma GroupLoopStep(gid: string, uid: Uid, now: int, last: int,
                      a0: map<Uid, Upload>, b0: seq<UploadRecord>, a: map<Uid, Upload>, b: seq<UploadRecord>,
                      a1: map<Uid, Upload>, b1: seq<UploadRecord>, cancelled: set<Upload>)
    requires GroupCancelled(gid, a0, a, cancelled)
    requires forall i | 0 <= i < |b| :: b[i].gid != gid
    requires IsSuffix(b, b0)
    requires uid in a && a[uid].data.gid == gid
    requires Promotion(now, last, a - {uid}, b, a1, b1)
    ensures GroupCancelled(gid, a0, a1, cancelled + {a[uid]})
    ensures forall i | 0 <= i < |b1| :: b1[i].gid != gid
    ensures IsSuffix(b1, b0)
    ensures |GroupActive(a1, gid)| < |GroupActive(a, gid)|
  {
    PromotionShape(now, last, a - {uid}, b, a1, b1);
    PromotionAvoidsGroup(gid, now, last, a - {uid}, b, a1, b1);
    GroupCancelStep(gid, uid, a0, a, a1, cancelled);
    SuffixAvoidsGroup(gid, b, b1);
    IsSuffixTrans(b1, b, b0);
  }

  /** Once no active upload of group `gid` is left, every original one of the group was cancelled and every other one is still active. */
  lemma GroupLoopDone(gid: string, a0: map<Uid, Upload>, a: map<Uid, Upload>, cancelled: set<Upload>)
    requires GroupCancelled(gid, a0, a, cancelled)
    requires forall uid | uid in a :: a[uid].data.gid != gid
    ensures forall uid | uid in a0 && a0[uid].data.gid == gid :: a0[uid] in cancelled
    ensures forall uid | uid in a0 && a0[uid].data.gid != gid :: uid in a && a[uid] == a0[uid]
  {
  }

  /**
   * The state of the second loop of `cancelGroupUpload` on (active, queue) =
   * (a, b), started from (a0, b0): no queued record belongs to group `gid`,
   * the queue is a tail of the original one, the cancellations so far are
   * `cancelled`, and there were some only if the group had active uploads.
   */
  ghost predicate GroupLoop(gid: string, a0: map<Uid, Upload>, b0: seq<UploadRecord>,
                            a: map<Uid, Upload>, b: seq<UploadRecord>, cancelled: set<Upload>)
  {
    && (forall i | 0 <= i < |b| :: b[i].gid != gid)
    && IsSuffix(b, b0)
    && GroupCancelled(gid, a0, a, cancelled)
    && (cancelled != {} ==> GroupActive(a0, gid) != {})
  }

  /**
   * The scheduler's invariant: at most `maxUploads` active uploads, each
   * under its own uid; no queued record has used up its retries; the
   * progress buffer has one entry per key and per uid.
   */
  ghost predicate SchedulerInvariant(active: map<Uid, Upload>, queue: seq<UploadRecord>, pb: ProgressBuffer)
  {
    && |active| <= MaxUploads
    && (forall uid | uid in active :: active[uid].data.uid == uid)
    && (forall i | 0 <= i < |queue| :: queue[i].retries <= MaxRetries)
    && WellFormedBuffer(pb)
  }

  /** The worker's global state. */
  class UploadWorker {
    /** `serviceWorkerId`, drawn once with `uuidv1()`. */
    const swid: string
    /** `SparkMD5.hash`. */
    const hash: string -> string
    var activeUploads: map<Uid, Upload>
    var uploadBuffer: seq<UploadRecord>
    var progressBuffer: ProgressBuffer
    var lastUploadAdded: int
    /** Every request made to the backend, the transfer client or the clients, in order. */
    var outbox: seq<Effect>

    /** The scheduler's invariant, on the current state. */
    ghost predicate Valid()
      reads this`activeUploads, this`uploadBuffer, this`progressBuffer
    {
      SchedulerInvariant(activeUploads, uploadBuffer, progressBuffer)
    }

    /** The worker's start-up: empty buffers, `lastUploadAdded = Date.now()`. */
    constructor (swid: string, hash: string -> string, now: int)
      ensures Valid()
      ensures this.swid == swid && this.hash == hash
      ensures activeUploads == map[] && uploadBuffer == [] && progressBuffer == []
      ensures lastUploadAdded == now && outbox == []
    {
      this.swid := swid;
      this.hash := hash;
      activeUploads := map[];
      uploadBuffer := [];
      progressBuffer := [];
      lastUploadAdded := now;
      outbox := [];
    }

    /** `bufferMessage`: the latest message per key and uid wins. */
    method BufferMessage(key: BufferKey, uid: Uid, msg: ProgressMsg)
      requires Valid()
      modifies this`progressBuffer
      ensures Valid()
      ensures progressBuffer == WithMessage(old(progressBuffer), key, uid, msg)
    {
      progressBuffer := WithMessage(progressBuffer, key, uid, msg);
    }

    /** `Upload.progress`: a message about upload `u`, under its project, token and uid. */
    method Report(u: Upload, state: string, message: string, pct: real)
      requires Valid()
      modifies this`progressBuffer
      ensures Valid()
      ensures progressBuffer == Reported(old(progressBuffer), swid, u.data, state, message, pct)
    {
      BufferMessage(KeyOf(u.data), u.data.uid, Progress(swid, u.data, state, message, pct));
    }

    /** `tus.start()`: the transfer of `u` begins. */
    method StartTransfer(u: Upload)
      modifies this`outbox, u`transferStarted
      ensures u.transferStarted
      ensures outbox == old(outbox) + [TransferStart(u.data.uid)]
    {
      u.transferStarted := true;
      outbox := outbox + [TransferStart(u.data.uid)];
    }

    /** `if (tus._source) tus.abort()`: a transfer is aborted only if it was started. */
    method AbortTransfer(u: Upload)
      modifies this`outbox
      ensures outbox == old(outbox) + (if u.transferStarted then [TransferAbort(u.data.uid)] else [])
    {
      if u.transferStarted {
        outbox := outbox + [TransferAbort(u.data.uid)];
      }
    }

    /** The inner loop of the flush: the messages of one key, posted as `slice(start, start + 1000)` for start = 0, 1000, ... */
    method PostBatches(key: BufferKey, messages: seq<ProgressMsg>)
      modifies this`outbox
      ensures outbox == old(outbox) + Posts(key, Batches(messages, 0))
    {
      var start := 0;
      while start < |messages|
        invariant outbox + Posts(key, Batches(messages, start)) == old(outbox) + Posts(key, Batches(messages, 0))
        decreases |messages| - start
      {
        PostsStep(key, messages, start);
        var post := ProgressPost(key.projectId, key.token, JsArray.Slice(messages, start, start + MaxMessages));
        ghost var rest := Posts(key, Batches(messages, start + MaxMessages));
        JsArray.AppendAssoc(outbox, [post], rest);
        outbox := outbox + [post];
        start := start + MaxMessages;
      }
    }

    /** The outer loop of the flush: the messages of every key of `pb`, key by key. */
    method PostBuffer(pb: ProgressBuffer)
      modifies this`outbox
      ensures outbox == old(outbox) + FlushPosts(pb, |pb|)
    {
      var i := 0;
      while i < |pb|
        invariant 0 <= i <= |pb|
        invariant outbox == old(outbox) + FlushPosts(pb, i)
      {
        JsArray.AppendAssoc(old(outbox), FlushPosts(pb, i), KeyPosts(pb[i]));
        PostBatches(pb[i].key, Values(pb[i].val));
        i := i + 1;
      }
    }

    /** The flush interval body: every buffered message is posted, key by key in batches of at most 1000, then the buffer is emptied. */
    method Flush()
      requires Valid()
      modifies this`outbox, this`progressBuffer
      ensures Valid()
      ensures outbox == old(outbox) + FlushPosts(old(progressBuffer), |old(progressBuffer)|)
      ensures progressBuffer == []
    {
      PostBuffer(progressBuffer);
      progressBuffer := [];
    }

    /** `removeQueued(index)`: the record leaves the queue and "failed"/"Aborted!"/100 is buffered for it. */
    method RemoveQueued(index: nat)
      requires Valid() && index < |uploadBuffer|
      modifies this`uploadBuffer, this`progressBuffer
      ensures Valid()
      ensures uploadBuffer == JsArray.RemoveAt(old(uploadBuffer), index)
      ensures progressBuffer == Reported(old(progressBuffer), swid, old(uploadBuffer[index]), "failed", "Aborted!", 100.0)
    {
      var record := uploadBuffer[index];
      uploadBuffer := JsArray.RemoveAt(uploadBuffer, index);
      BufferMessage(KeyOf(record), record.uid, Progress(swid, record, "failed", "Aborted!", 100.0));
    }

    /** The `addUpload` command: the record goes to the tail of the queue and "queued"/"Queued..."/0 is buffered for it. */
    method AddUpload(req: AddRequest, now: int)
      requires Valid()
      modifies this`lastUploadAdded, this`uploadBuffer, this`progressBuffer
      ensures Valid()
      ensures lastUploadAdded == now
      ensures uploadBuffer == old(uploadBuffer) + [NewRecord(req, hash(FingerprintInput(req.file, req.username)))]
      ensures progressBuffer == Reported(old(progressBuffer), swid, NewRecord(req, hash(FingerprintInput(req.file, req.username))),
                                         "queued", "Queued...", 0.0)
    {
      lastUploadAdded := now;
      var uid := hash(FingerprintInput(req.file, req.username));
      var rec := NewRecord(req, uid);
      uploadBuffer := uploadBuffer + [rec];
      BufferMessage(KeyOf(rec), uid, Progress(swid, rec, "queued", "Queued...", 0.0));
    }

    /** The `getNumUploads` command: the count of active plus queued uploads is broadcast. */
    method GetNumUploads()
      requires Valid()
      modifies this`outbox
      ensures Valid()
      ensures outbox == old(outbox) + [NumUploads(|activeUploads| + |uploadBuffer|)]
    {
      var numActive := |activeUploads|;
      var numBuffered := |uploadBuffer|;
      outbox := outbox + [NumUploads(numActive + numBuffered)];
    }

    /** `startUpload`, also the `wake` command; a started upload is a new object. */
    method StartUpload(now: int)
      requires Valid()
      modifies this`activeUploads, this`uploadBuffer
      ensures Valid()
      ensures Rescheduled(now, lastUploadAdded, old(activeUploads), old(uploadBuffer), activeUploads, uploadBuffer)
      ensures forall uid | uid in activeUploads && uid !in old(activeUploads) :: fresh(activeUploads[uid])
    {
      if now - lastUploadAdded > DebounceMs {
        var belowMax := |activeUploads| < MaxUploads;
        var haveUploads := |uploadBuffer| > 0;
        if belowMax && haveUploads {
          var upload := uploadBuffer[0];
          uploadBuffer := uploadBuffer[1..];
          if upload.uid !in activeUploads {
            var u := new Upload(upload);
            activeUploads := activeUploads[upload.uid := u];
            u.ComputeMd5();
          }
        }
      }
    }

    /** `removeFromActive(uid)`: the uid's slot is freed, then `startUpload` runs. */
    method RemoveFromActive(uid: Uid, now: int)
      requires Valid()
      modifies this`activeUploads, this`uploadBuffer
      ensures Valid()
      ensures Rescheduled(now, lastUploadAdded, old(activeUploads) - {uid}, old(uploadBuffer), activeUploads, uploadBuffer)
    {
      if uid in activeUploads {
        activeUploads := activeUploads - {uid};
      }
      StartUpload(now);
    }

    /** `removeFromActive(uid)` followed by `progress(...)`: the upload's slot goes to the next queued record, then its message is buffered. */
    method Release(u: Upload, state: string, message: string, pct: real, now: int)
      requires Valid()
      modifies this`activeUploads, this`uploadBuffer, this`progressBuffer
      ensures Valid()
      ensures Rescheduled(now, lastUploadAdded, old(activeUploads) - {u.data.uid}, old(uploadBuffer), activeUploads, uploadBuffer)
      ensures progressBuffer == Reported(old(progressBuffer), swid, u.data, state, message, pct)
    {
      RemoveFromActive(u.data.uid, now);
      Report(u, state, message, pct);
    }

    /** `Upload.cancel`: the abort flag is set, a started transfer is aborted, the slot is freed and "failed"/"Upload was aborted!"/0 is buffered. */
    method Cancel(u: Upload, now: int)
      requires Valid()
      modifies this`activeUploads, this`uploadBuffer, this`progressBuffer, this`outbox, u`aborted
      ensures Valid()
      ensures u.aborted
      ensures outbox == old(outbox) + (if u.transferStarted then [TransferAbort(u.data.uid)] else [])
      ensures Rescheduled(now, lastUploadAdded, old(activeUploads) - {u.data.uid}, old(uploadBuffer), activeUploads, uploadBuffer)
      ensures progressBuffer == Reported(old(progressBuffer), swid, u.data, "failed", "Upload was aborted!", 0.0)
    {
      u.aborted := true;
      AbortTransfer(u);
      Release(u, "failed", "Upload was aborted!", 0.0, now);
    }

    /**
     * The `cancelUpload` command: an active upload is cancelled; otherwise the
     * first queued record with that uid is removed; otherwise nothing changes.
     */
    method CancelUpload(uid: Uid, now: int)
      requires Valid()
      modifies this`activeUploads, this`uploadBuffer, this`progressBuffer, this`outbox, activeUploads.Values`aborted
      ensures Valid()
      ensures uid in old(activeUploads) ==>
        && old(activeUploads[uid]).aborted
        && outbox == old(outbox) + (if old(activeUploads[uid]).transferStarted then [TransferAbort(uid)] else [])
        && Rescheduled(now, lastUploadAdded, old(activeUploads) - {uid}, old(uploadBuffer), activeUploads, uploadBuffer)
        && progressBuffer == Reported(old(progressBuffer), swid, old(activeUploads[uid]).data, "failed", "Upload was aborted!", 0.0)
      ensures uid !in old(activeUploads) ==>
        var index := JsArray.FindIndex(old(uploadBuffer), (r: UploadRecord) => r.uid == uid);
        && activeUploads == old(activeUploads) && outbox == old(outbox)
        && (index == -1 ==> uploadBuffer == old(uploadBuffer) && progressBuffer == old(progressBuffer))
        && (index >= 0 ==>
              && uploadBuffer == JsArray.RemoveAt(old(uploadBuffer), index)
              && progressBuffer == Reported(old(progressBuffer), swid, old(uploadBuffer[index]), "failed", "Aborted!", 100.0))
    {
      if uid in activeUploads {
        Cancel(activeUploads[uid], now);
      } else {
        var index := JsArray.FindIndex(uploadBuffer, (r: UploadRecord) => r.uid == uid);
        if index != -1 {
          RemoveQueued(index);
        }
      }
    }

    /**
     * The first loop of `cancelGroupUpload`: queued records of group `gid`
     * are removed one at a time, each with an "Aborted!" message, until none
     * is left; the other records keep their order.
     */
    method CancelQueuedGroup(gid: string)
      requires Valid()
      modifies this`uploadBuffer, this`progressBuffer
      ensures Valid()
      ensures uploadBuffer == Keep(gid, old(uploadBuffer))
      ensures progressBuffer == AbortAll(swid, old(progressBuffer), Drop(gid, old(uploadBuffer)))
    {
      ghost var b0 := uploadBuffer;
      ghost var k: nat := 0;
      while true
        invariant Valid()
        invariant k <= |b0|
        invariant uploadBuffer == Keep(gid, b0[..k]) + b0[k..]
        invariant progressBuffer == AbortAll(swid, old(progressBuffer), Drop(gid, b0[..k]))
        decreases |uploadBuffer|
      {
        var index := JsArray.FindIndex(uploadBuffer, (r: UploadRecord) => r.gid == gid);
        if index == -1 {
          break;
        }
        ghost var j := FirstOfGroup(gid, b0, k, index);
        AbortAllSnoc(swid, old(progressBuffer), Drop(gid, b0[..k]), b0[j]);
        RemoveQueued(index);
        k := j + 1;
      }
      NoGroupLeft(gid, b0, k);
    }

    /** `upload.cancel()` inside the second loop of `cancelGroupUpload`: `u` joins the uploads already cancelled, which stay aborted. */
    method CancelGroupMember(u: Upload, now: int, ghost cancelled: set<Upload>)
      requires Valid()
      requires forall o | o in cancelled :: o.aborted
      modifies this`activeUploads, this`uploadBuffer, this`progressBuffer, this`outbox, u`aborted
      ensures Valid()
      ensures Promotion(now, lastUploadAdded, old(activeUploads) - {u.data.uid}, old(uploadBuffer), activeUploads, uploadBuffer)
      ensures forall o | o in cancelled + {u} :: o.aborted
    {
      Cancel(u, now);
      forall o | o in cancelled + {u} ensures o.aborted {
        if o != u {
          assert o in cancelled && old(o.aborted);
        }
      }
    }

    /** One turn of the second loop of `cancelGroupUpload`: the active upload `uid` of group `gid` is cancelled. */
    method CancelNextOfGroup(gid: string, uid: Uid, u: Upload, now: int,
                             ghost a0: map<Uid, Upload>, ghost b0: seq<UploadRecord>, ghost cancelled: set<Upload>)
      returns (ghost cancelled': set<Upload>)
      requires Valid() && GroupLoop(gid, a0, b0, activeUploads, uploadBuffer, cancelled)
      requires forall o | o in cancelled :: o.aborted
      requires uid in activeUploads && activeUploads[uid] == u && u.data.gid == gid
      modifies this`activeUploads, this`uploadBuffer, this`progressBuffer, this`outbox, u`aborted
      ensures Valid() && GroupLoop(gid, a0, b0, activeUploads, uploadBuffer, cancelled')
      ensures forall o | o in cancelled' :: o.aborted
      ensures cancelled' != {}
      ensures |GroupActive(activeUploads, gid)| < old(|GroupActive(activeUploads, gid)|)
    {
      assert uid in GroupActive(a0, gid);
      ghost var a, b := activeUploads, uploadBuffer;
      CancelGroupMember(u, now, cancelled);
      GroupLoopStep(gid, uid, now, lastUploadAdded, a0, b0, a, b, activeUploads, uploadBuffer, cancelled);
      cancelled' := cancelled + {u};
    }

    /**
     * The second loop of `cancelGroupUpload`: an active upload of group
     * `gid` is cancelled, one at a time, until none is left. Uploads of other
     * groups stay active, and the queue only loses records from its head.
     */
    method CancelActiveGroup(gid: string, now: int)
      requires Valid()
      requires forall i | 0 <= i < |uploadBuffer| :: uploadBuffer[i].gid != gid
      modifies this`activeUploads, this`uploadBuffer, this`progressBuffer, this`outbox, activeUploads.Values`aborted
      ensures Valid()
      ensures forall uid | uid in activeUploads :: activeUploads[uid].data.gid != gid
      ensures forall i | 0 <= i < |uploadBuffer| :: uploadBuffer[i].gid != gid
      ensures IsSuffix(uploadBuffer, old(uploadBuffer))
      ensures forall uid | uid in old(activeUploads) && old(activeUploads[uid]).data.gid == gid :: old(activeUploads[uid]).aborted
      ensures forall uid | uid in old(activeUploads) && old(activeUploads[uid]).data.gid != gid ::
                uid in activeUploads && activeUploads[uid] == old(activeUploads[uid])
      ensures GroupActive(old(activeUploads), gid) == {} ==>
        && activeUploads == old(activeUploads) && uploadBuffer == old(uploadBuffer)
        && progressBuffer == old(progressBuffer) && outbox == old(outbox)
    {
      ghost var a0 := activeUploads;
      ghost var b0 := uploadBuffer;
      ghost var cancelled: set<Upload> := {};
      while true
        invariant Valid() && GroupLoop(gid, a0, b0, activeUploads, uploadBuffer, cancelled)
        invariant forall o | o in cancelled :: o.aborted
        invariant cancelled == {} ==>
          activeUploads == a0 && uploadBuffer == b0 && progressBuffer == old(progressBuffer) && outbox == old(outbox)
        decreases |GroupActive(activeUploads, gid)|
      {
        if uid :| uid in activeUploads && activeUploads[uid].data.gid == gid {
          var upload := activeUploads[uid];
          assert upload in a0.Values;
          cancelled := CancelNextOfGroup(gid, uid, upload, now, a0, b0, cancelled);
        } else {
          break;
        }
      }
      GroupLoopDone(gid, a0, activeUploads, cancelled);
    }

    /**
     * The `cancelGroupUpload` command: every queued record of the group is
     * removed (in queue order, each with an "Aborted!" message), then active
     * uploads of the group are cancelled until none is left.
     */
    method CancelGroupUpload(gid: string, now: int)
      requires Valid()
      modifies this`activeUploads, this`uploadBuffer, this`progressBuffer, this`outbox, activeUploads.Values`aborted
      ensures Valid()
      ensures forall i | 0 <= i < |uploadBuffer| :: uploadBuffer[i].gid != gid
      ensures forall uid | uid in activeUploads :: activeUploads[uid].data.gid != gid
      ensures IsSuffix(uploadBuffer, Keep(gid, old(uploadBuffer)))
      ensures forall uid | uid in old(activeUploads) && old(activeUploads[uid]).data.gid == gid :: old(activeUploads[uid]).aborted
      ensures forall uid | uid in old(activeUploads) && old(activeUploads[uid]).data.gid != gid ::
                uid in activeUploads && activeUploads[uid] == old(activeUploads[uid])
      ensures GroupActive(old(activeUploads), gid) == {} ==>
        && activeUploads == old(activeUploads) && outbox == old(outbox)
        && uploadBuffer == Keep(gid, old(uploadBuffer))
        && progressBuffer == AbortAll(swid, old(progressBuffer), Drop(gid, old(uploadBuffer)))
    {
      CancelQueuedGroup(gid);
      CancelActiveGroup(gid, now);
    }

    /**
     * `reader.onload`: the slice `currentChunk` has loaded. While chunks
     * remain the next slice is requested (unless aborted) and every 20th
     * chunk reports hashing progress; after the last one the digest is kept
     * and the duplicate query is sent, the whole file having been read.
     */
    method OnChunkLoaded(u: Upload, digest: string)
      requires Valid() && u.Valid()
      requires u.currentChunk < |u.requested|
      modifies this`progressBuffer, this`outbox, u`currentChunk, u`requested, u`md5
      ensures Valid() && u.Valid()
      ensures u.currentChunk == old(u.currentChunk) + 1
      ensures u.currentChunk < u.chunks ==>
        && u.requested == old(u.requested) + (if u.aborted then [] else [ChunkRange(u.currentChunk, u.data.file.size)])
        && outbox == old(outbox) && u.md5 == old(u.md5)
        && progressBuffer == if u.currentChunk % HashReportEvery == 0
             then Reported(old(progressBuffer), swid, u.data, "started", "Checking...", HashPercentage(u.currentChunk, u.chunks))
             else old(progressBuffer)
      ensures u.currentChunk >= u.chunks ==>
        && u.requested == old(u.requested) == ChunkRanges(u.data.file.size)
        && u.md5 == digest && progressBuffer == old(progressBuffer)
        && outbox == old(outbox) + [DuplicateQuery(u.data.projectId, u.data.mediaTypeId, digest)]
    {
      var more := u.ChunkLoaded(digest);
      if more {
        if u.currentChunk % HashReportEvery == 0 {
          Report(u, "started", "Checking...", HashPercentage(u.currentChunk, u.chunks));
        }
      } else {
        outbox := outbox + [DuplicateQuery(u.data.projectId, u.data.mediaTypeId, digest)];
      }
    }

    /** `reader.onerror`: the slot is freed and "failed"/error/0 is buffered. */
    method OnReadError(u: Upload, error: string, now: int)
      requires Valid()
      modifies this`activeUploads, this`uploadBuffer, this`progressBuffer
      ensures Valid()
      ensures Rescheduled(now, lastUploadAdded, old(activeUploads) - {u.data.uid}, old(uploadBuffer), activeUploads, uploadBuffer)
      ensures progressBuffer == Reported(old(progressBuffer), swid, u.data, "failed", error, 0.0)
    {
      Release(u, "failed", error, 0.0, now);
    }

    /** The answer to the duplicate query: no match starts the transfer; a match frees the slot with "failed"/"Already uploaded!"/0. */
    method OnDuplicateCheck(u: Upload, matches: nat, now: int)
      requires Valid()
      modifies this`activeUploads, this`uploadBuffer, this`progressBuffer, this`outbox, u`transferStarted
      ensures Valid()
      ensures matches == 0 ==>
        && u.transferStarted && outbox == old(outbox) + [TransferStart(u.data.uid)]
        && activeUploads == old(activeUploads) && uploadBuffer == old(uploadBuffer)
        && progressBuffer == old(progressBuffer)
      ensures matches > 0 ==>
        && u.transferStarted == old(u.transferStarted) && outbox == old(outbox)
        && Rescheduled(now, lastUploadAdded, old(activeUploads) - {u.data.uid}, old(uploadBuffer), activeUploads, uploadBuffer)
        && progressBuffer == Reported(old(progressBuffer), swid, u.data, "failed", "Already uploaded!", 0.0)
    {
      if matches == 0 {
        StartTransfer(u);
      } else {
        Release(u, "failed", "Already uploaded!", 0.0, now);
      }
    }

    /** The transfer client's `onProgress`: below 100% it buffers "started"/"Uploading..."/(10 + 0.4 * percent). */
    method OnTransferProgress(u: Upload, bytesSent: nat, bytesTotal: nat)
      requires Valid()
      modifies this`progressBuffer
      ensures Valid()
      ensures progressBuffer == if 0 < bytesTotal && bytesSent < bytesTotal
        then Reported(old(progressBuffer), swid, u.data, "started", "Uploading...", TransferPercentage(bytesSent, bytesTotal))
        else old(progressBuffer)
    {
      // With no bytes in total the percentage is NaN or Infinity, never below 100.
      if bytesTotal > 0 {
        var percent := 100.0 * bytesSent as real / bytesTotal as real;
        BelowComplete(bytesSent, bytesTotal);
        if percent < 100.0 {
          Report(u, "started", "Uploading...", TransferPercentage(bytesSent, bytesTotal));
        }
      }
    }

    /** The retry branch of `onError`: the record rejoins the tail of the queue, then `startUpload` runs. */
    method Requeue(record: UploadRecord, now: int)
      requires Valid() && record.retries <= MaxRetries
      modifies this`activeUploads, this`uploadBuffer
      ensures Valid()
      ensures Rescheduled(now, lastUploadAdded, old(activeUploads), old(uploadBuffer) + [record], activeUploads, uploadBuffer)
    {
      uploadBuffer := uploadBuffer + [record];
      StartUpload(now);
    }

    /**
     * The transfer client's `onError`: the slot is freed, the retry count
     * goes up by one, and the record either fails terminally with
     * "failed"/error/100 (count above 2) or rejoins the tail of the queue,
     * after which `startUpload` runs once more. The state between the two
     * scheduling steps is returned as `(freed, rest)`.
     */
    method OnTransferError(u: Upload, error: string, now: int)
      returns (ghost freed: map<Uid, Upload>, ghost rest: seq<UploadRecord>)
      requires Valid()
      modifies this`activeUploads, this`uploadBuffer, this`progressBuffer, u`retries
      ensures Valid()
      ensures u.retries == old(u.retries) + 1
      ensures Promotion(now, lastUploadAdded, old(activeUploads) - {u.data.uid}, old(uploadBuffer), freed, rest)
      ensures u.retries > MaxRetries ==>
        && activeUploads == freed && uploadBuffer == rest
        && progressBuffer == Reported(old(progressBuffer), swid, u.data, "failed", error, 100.0)
      ensures u.retries <= MaxRetries ==>
        && Promotion(now, lastUploadAdded, freed, rest + [u.data.(retries := u.retries)], activeUploads, uploadBuffer)
        && progressBuffer == old(progressBuffer)
    {
      RemoveFromActive(u.data.uid, now);
      freed, rest := activeUploads, uploadBuffer;
      u.retries := u.retries + 1;
      if u.retries > MaxRetries {
        Report(u, "failed", error, 100.0);
      } else {
        Requeue(u.data.(retries := u.retries), now);
      }
    }

    /** The transfer client's `onSuccess`: the ingestion request (SaveImage for images, else Transcode) is sent, then the slot is freed. */
    method OnTransferSuccess(u: Upload, url: string, now: int)
      requires Valid()
      modifies this`activeUploads, this`uploadBuffer, this`outbox
      ensures Valid()
      ensures outbox == old(outbox) + [Ingest(if u.data.isImage then "SaveImage" else "Transcode",
                                              u.data.projectId, u.data.token,
                                              IngestBody(u.data.mediaTypeId, u.data.gid, u.data.uid, url,
                                                         u.data.section, u.data.file.name, u.md5))]
      ensures Rescheduled(now, lastUploadAdded, old(activeUploads) - {u.data.uid}, old(uploadBuffer), activeUploads, uploadBuffer)
    {
      var endpoint := if u.data.isImage then "SaveImage" else "Transcode";
      outbox := outbox + [Ingest(endpoint, u.data.projectId, u.data.token,
                                 IngestBody(u.data.mediaTypeId, u.data.gid, u.data.uid, url,
                                            u.data.section, u.data.file.name, u.md5))];
      RemoveFromActive(u.data.uid, now);
    }
  }
}
