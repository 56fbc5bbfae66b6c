# Tator browser workers, modelled in Dafny

This project models four pieces of the Tator web front end. Each one keeps
state in the browser, and the model proves what each does to that state.

- **The upload service worker** (`main/static/js/tasks/upload-worker.js`).
  - It keeps a FIFO queue of upload records (`uploadBuffer`) and a map of active uploads (`activeUploads`), with at most one active upload.
  - It keeps a last-write-wins progress buffer keyed by (project, token) and then by upload uid. A 50 ms flush posts that buffer in batches of at most 1000 messages.
  - It handles the control messages `addUpload`, `getNumUploads`, `wake`, `cancelUpload` and `cancelGroupUpload`.
  - It runs the callbacks of one `Upload`: the chunked MD5 pass, the duplicate query, and the transfer client's progress, error and success callbacks.
- **The section media worker** (`main/static/js/project-detail/media-worker.js`).
  - Each section keeps its processes in two parallel lists ordered by progress. `updateProcess` re-splices a process into those lists with a binary search.
  - `_emitUpdate` posts the current page. `setupSections` builds one section per name.
- **The local annotation store** (`main/static/js/annotation/annotation-data.js`).
  - The `dataTypes` setter classifies annotation types into tracks and localizations, then registers and fetches tracks before localizations.
  - `updateType` stores a fetched list.
  - `updateTypeLocal` applies a POST, PATCH or DELETE to a stored list without a server round trip.
- **The draw-buffer bookkeeping of the WebGL annotator** (`main/static/js/annotator/drawGL.js`).
  - `beginDraw` and `dumpDraw` manage the buffer.
  - `drawLine` appends one clamped quad with its colours, texture coordinates and indices. `drawPolygon` draws one line per side.
  - `computeBounds` and `computeQuad` compute boxes and quads.

## How the model is built

- **Objects the source mutates are Dafny classes**, whose methods carry `modifies` clauses:
  - the worker, an `Upload`, a `SectionData`, the media worker's sections, the annotation store, the draw context.
- **JavaScript objects with insertion-ordered keys** are association lists (module `Assoc`):
  - the progress buffer, annotation bodies and elements, and the section counts.
- **Array built-ins** are functions in module `JsArray`, with JavaScript's index clamping.
  - These are `slice`, `indexOf`, `splice`, `findIndex` and `splice(i, 0, x)`.
- **Every request a component makes is appended to an `outbox` field.**
  - That covers network calls, `postMessage`, DOM events and calls into the transfer client.
- **Each message handler or callback is one atomic method call**, and the current time is a parameter.
- **Loops of the source are `while`/`for` loops with invariants.** Each is proved against a specification function, for example:
  - the flush batches, the MD5 chunk pass and the two loops of `cancelGroupUpload`;
  - the binary search, the setter's classification loop and the PATCH and attribute loops;
  - the colour/index loops of `drawLine`, the loop of `drawPolygon` and the pass of `computeBounds`.
- **Properties of those functions are separate lemmas:**
  - batches partition the messages;
  - MD5 slices tile the file;
  - the process index stays sorted, duplicate-free and complete;
  - bounds are tight;
  - buffers stay well formed;
  - the last write wins.

Modules: `Wrappers` (Option), `Assoc`, `JsArray`, `Uploads` (the values of the upload worker), `UploadWorker`, `MediaWorker`, `AnnotationData`, `DrawGl`.

## Model

| member | source | states |
|---|---|---|
| Assoc.Find | main/static/js/tasks/upload-worker.js:70 | `key in obj`: the first entry with the key, absent exactly when the key is not there |
| Assoc.Get | main/static/js/tasks/upload-worker.js:73 | `obj[k]` is absent exactly when `k` is not a key |
| Assoc.Put | main/static/js/tasks/upload-worker.js:73 | `obj[k] = v` overwrites the entry of an existing key in place and appends a new key at the end |
| Assoc.PutGet | main/static/js/tasks/upload-worker.js:68-74 | after `obj[k] = v`, `k` reads `v`, every other key reads as before, the keys gain `k`, and no key is duplicated |
| Assoc.Values | main/static/js/tasks/upload-worker.js:47 | `Object.values` lists the values in key order |
| Assoc.FindDistinct | main/static/js/annotation/annotation-data.js:120-123 | with distinct keys, an entry's own key finds that entry and reads its value |
| Assoc.SnocDistinct | main/static/js/annotation/annotation-data.js:101-105 | appending an entry keeps keys distinct exactly when its key is new, and the old keys keep their values |
| JsArray.RelativeIndex | main/static/js/project-detail/media-worker.js:131 | a slice bound lies in [0, len], equals the bound when it is in range, and is clamped to len above it |
| JsArray.Slice | main/static/js/project-detail/media-worker.js:131 | `s.slice(a, b)` is `s[a..b]` for in-range bounds and empty when `b <= a`; element `i` is element `from + i`, where `from` is the clamped start |
| JsArray.IndexOf | main/static/js/project-detail/media-worker.js:114 | `indexOf` returns -1 exactly when the value is absent; otherwise it returns the first position holding it |
| JsArray.FindIndex | main/static/js/tasks/upload-worker.js:124 | `findIndex` returns -1 exactly when no element satisfies the test; otherwise it returns the first one that does |
| JsArray.RemoveAt | main/static/js/tasks/upload-worker.js:78 | `splice(i, 1)` removes element `i` when there is one and changes nothing past the end |
| JsArray.SpliceOne | main/static/js/annotation/annotation-data.js:129 | `splice(-1, 1)` on a non-empty list removes its last element; other negative starts count from the end |
| JsArray.InsertAt | main/static/js/project-detail/media-worker.js:121-122 | `splice(i, 0, x)` puts `x` at `i`, keeps the prefix and shifts the rest up by one |
| Uploads.DecimalString | main/static/js/tasks/upload-worker.js:97 | the file size, printed for the fingerprint, is a non-empty string of decimal digits |
| Uploads.NewRecord | main/static/js/tasks/upload-worker.js:98 | the queued record is the request's fields, plus the hashed uid and zero retries |
| Uploads.WithMessage | main/static/js/tasks/upload-worker.js:68-74 | buffering a message makes it the one held for (key, uid), leaves every other (key, uid) as it was, adds the key, and keeps one entry per key and per uid |
| Uploads.Reported | main/static/js/tasks/upload-worker.js:275-287 | a progress message about a record keeps the buffer well formed |
| Uploads.AbortAll | main/static/js/tasks/upload-worker.js:131-138 | aborting queued records one by one keeps the buffer well formed |
| Uploads.AbortAllSnoc | main/static/js/tasks/upload-worker.js:131-138 | aborting one more record buffers its "failed"/"Aborted!"/100 message after the earlier ones |
| Uploads.Keep | main/static/js/tasks/upload-worker.js:131-138 | the records that survive the group's removal are from the queue and none is in the group |
| Uploads.Drop | main/static/js/tasks/upload-worker.js:131-138 | the removed records are from the queue and all are in the group |
| Uploads.KeepDropAppend | main/static/js/tasks/upload-worker.js:131-138 | splitting by group distributes over concatenation of queues |
| Uploads.BatchesPartition | main/static/js/tasks/upload-worker.js:44-62 | the flush sends every message of a key exactly once and in order: the batches concatenate to the whole list, ceil(n / 1000) of them, each of 1 to 1000 messages |
| Uploads.Posts | main/static/js/tasks/upload-worker.js:50-59 | one progress POST per batch, to the key's project, carrying the key's token and that batch |
| Uploads.PostsStep | main/static/js/tasks/upload-worker.js:48-62 | the posts from `start` are the batch `slice(start, start + 1000)` followed by the posts from `start + 1000` |
| Uploads.ReadCount | main/static/js/tasks/upload-worker.js:293-336 | the MD5 pass makes at least one read, even for an empty file |
| Uploads.ChunkRanges | main/static/js/tasks/upload-worker.js:327-335 | the slices of a complete pass are chunk 0, 1, ... up to the read count |
| Uploads.ChunkRangesTile | main/static/js/tasks/upload-worker.js:292-335 | the slices tile the file: the first starts at 0, each starts where the previous ended, the last ends at the size, each is at most 2 MiB, and a non-empty file has ceil(size / 2 MiB) non-empty slices |
| Uploads.HashPercentage | main/static/js/tasks/upload-worker.js:300-305 | hashing progress reported while chunks remain lies in [0, 10) |
| Uploads.TransferPercentage | main/static/js/tasks/upload-worker.js:223-228 | transfer progress reported below 100% lies in [10, 50) |
| Uploads.BelowComplete | main/static/js/tasks/upload-worker.js:224-225 | `100 * sent / total < 100` holds exactly when fewer bytes were sent than there are |
| UploadWorker.Upload.constructor | main/static/js/tasks/upload-worker.js:187-210 | a new upload holds its record and retry count, is not aborted, has no digest, has read nothing and has not started a transfer |
| UploadWorker.Upload.ComputeMd5 | main/static/js/tasks/upload-worker.js:290-296 | a pass starts at chunk 0 and requests slice 0 at once, unless the upload was aborted |
| UploadWorker.Upload.LoadNext | main/static/js/tasks/upload-worker.js:327-335 | the next slice requested is chunk `currentChunk`; nothing is requested once the upload was aborted |
| UploadWorker.Upload.ChunkLoaded | main/static/js/tasks/upload-worker.js:297-307 | a loaded chunk advances the counter. While chunks remain, the next slice is requested (unless aborted). After the last one, the requested slices are exactly the whole pass and the digest is kept |
| UploadWorker.PassPrefixSnoc | main/static/js/tasks/upload-worker.js:299-302 | requesting the next chunk keeps slice `i` equal to chunk `i` |
| UploadWorker.AllChunksRead | main/static/js/tasks/upload-worker.js:306-307 | a pass of chunks 0, 1, ... as many as the read count is the complete pass |
| UploadWorker.PromotionShape | main/static/js/tasks/upload-worker.js:158-174 | a scheduling step only drops the head of the queue, keeps every active upload, and activates nothing but the head's record |
| UploadWorker.FirstOfGroup | main/static/js/tasks/upload-worker.js:131-136 | the first queued record of the group is the next one of the original queue; removing it leaves the survivors of the original queue up to it, then the rest |
| UploadWorker.NoGroupLeft | main/static/js/tasks/upload-worker.js:132-135 | once `findIndex` finds no record of the group, the queue is the original queue without the group, and every record of the group was aborted in queue order |
| UploadWorker.GroupActive | main/static/js/tasks/upload-worker.js:142-149 | the uids of exactly the active uploads of the group |
| UploadWorker.PromotionAvoidsGroup | main/static/js/tasks/upload-worker.js:140-153 | with no queued record of the group, a scheduling step after a cancel adds no active upload of the group |
| UploadWorker.GroupCancelStep | main/static/js/tasks/upload-worker.js:143-147 | cancelling one active upload of the group makes it cancelled and leaves strictly fewer active uploads of the group |
| UploadWorker.GroupLoopStep | main/static/js/tasks/upload-worker.js:140-153 | one turn of the active-upload loop keeps its progress, keeps the group out of the queue, and strictly lowers the number of active uploads of the group |
| UploadWorker.GroupLoopDone | main/static/js/tasks/upload-worker.js:150-152 | when the loop stops, every original active upload of the group was cancelled and every other one is still active |
| UploadWorker.UploadWorker.constructor | main/static/js/tasks/upload-worker.js:16-30 | the worker starts with no active upload, an empty queue and buffer, and `lastUploadAdded` set to the start-up time |
| UploadWorker.UploadWorker.BufferMessage | main/static/js/tasks/upload-worker.js:68-74 | the buffer becomes the last-write-wins update for (key, uid) |
| UploadWorker.UploadWorker.Report | main/static/js/tasks/upload-worker.js:275-287 | `progress` buffers the message under the upload's project, token and uid |
| UploadWorker.UploadWorker.StartTransfer | main/static/js/tasks/upload-worker.js:314 | `tus.start()` is sent and the transfer counts as started |
| UploadWorker.UploadWorker.AbortTransfer | main/static/js/tasks/upload-worker.js:342-344 | `tus.abort()` is sent only when a transfer has started |
| UploadWorker.UploadWorker.PostBatches | main/static/js/tasks/upload-worker.js:47-62 | the inner flush loop posts exactly the batches of the key's messages, in order |
| UploadWorker.UploadWorker.PostBuffer | main/static/js/tasks/upload-worker.js:45-63 | the outer flush loop posts every key's batches, key by key in insertion order |
| UploadWorker.UploadWorker.Flush | main/static/js/tasks/upload-worker.js:43-65 | the interval posts everything buffered and then empties the buffer |
| UploadWorker.UploadWorker.RemoveQueued | main/static/js/tasks/upload-worker.js:77-90 | the record leaves the queue at its index and "failed"/"Aborted!"/100 is buffered for it |
| UploadWorker.UploadWorker.AddUpload | main/static/js/tasks/upload-worker.js:95-109 | the time is recorded, the new record joins the tail of the queue under the hashed fingerprint, and "queued"/"Queued..."/0 is buffered |
| UploadWorker.UploadWorker.GetNumUploads | main/static/js/tasks/upload-worker.js:110-116 | the broadcast count is the number of active uploads plus the number of queued ones |
| UploadWorker.UploadWorker.StartUpload | main/static/js/tasks/upload-worker.js:158-174 | after a 250 ms debounce and with a free slot, the head of the queue is promoted: started as a new upload, or dropped when its uid is already active. Otherwise nothing changes, and capacity stays at most one |
| UploadWorker.UploadWorker.RemoveFromActive | main/static/js/tasks/upload-worker.js:177-182 | the uid's slot is freed, then a scheduling step runs |
| UploadWorker.UploadWorker.Release | main/static/js/tasks/upload-worker.js:316-317 | the slot is freed and rescheduled, then the upload's message is buffered |
| UploadWorker.UploadWorker.Cancel | main/static/js/tasks/upload-worker.js:340-347 | the abort flag is set, a started transfer is aborted, the slot is freed and "failed"/"Upload was aborted!"/0 is buffered |
| UploadWorker.UploadWorker.CancelUpload | main/static/js/tasks/upload-worker.js:119-128 | an active uid is cancelled. Otherwise the first queued record with the uid is removed with "Aborted!"/100. Otherwise nothing changes |
| UploadWorker.UploadWorker.CancelQueuedGroup | main/static/js/tasks/upload-worker.js:131-138 | the queue becomes its records outside the group, in order, and every record of the group is aborted in queue order |
| UploadWorker.UploadWorker.CancelGroupMember | main/static/js/tasks/upload-worker.js:143-147 | cancelling one member adds it to the aborted uploads and keeps the others aborted |
| UploadWorker.UploadWorker.CancelNextOfGroup | main/static/js/tasks/upload-worker.js:142-148 | one turn cancels an active upload of the group, keeps the loop invariant, and lowers the group's active count |
| UploadWorker.UploadWorker.CancelActiveGroup | main/static/js/tasks/upload-worker.js:140-153 | every active upload of the group is aborted and none stays active, while every upload of another group stays active. The queue loses only records from its head, none of them in the group. With no active upload of the group nothing changes |
| UploadWorker.UploadWorker.CancelGroupUpload | main/static/js/tasks/upload-worker.js:129-154 | afterwards no queued or active upload belongs to the group. Uploads of other groups stay active, and the queue is a tail of the original queue without the group |
| UploadWorker.UploadWorker.OnChunkLoaded | main/static/js/tasks/upload-worker.js:297-321 | while chunks remain, the next slice is requested and every 20th chunk reports hashing progress. After the last chunk, the whole file has been read, the digest is kept and the duplicate query is sent |
| UploadWorker.UploadWorker.OnReadError | main/static/js/tasks/upload-worker.js:322-326 | the slot is freed and "failed"/error/0 is buffered |
| UploadWorker.UploadWorker.OnDuplicateCheck | main/static/js/tasks/upload-worker.js:312-319 | no match starts the transfer and changes nothing else; a match frees the slot with "failed"/"Already uploaded!"/0 |
| UploadWorker.UploadWorker.OnTransferProgress | main/static/js/tasks/upload-worker.js:223-229 | below 100% it buffers "started"/"Uploading..." at 10 + 0.4 * percent. At 100%, or with no bytes in total, nothing is buffered |
| UploadWorker.UploadWorker.Requeue | main/static/js/tasks/upload-worker.js:237-238 | the record rejoins the tail of the queue, then a scheduling step runs |
| UploadWorker.UploadWorker.OnTransferError | main/static/js/tasks/upload-worker.js:230-240 | the slot is freed and the retry count goes up by one. Above 2 retries the upload fails with "failed"/error/100. Otherwise the record, with its new count, rejoins the queue and a second scheduling step runs |
| UploadWorker.UploadWorker.OnTransferSuccess | main/static/js/tasks/upload-worker.js:241-269 | the SaveImage (image) or Transcode (video) request carries the record's ids, the transfer URL and the digest; then the slot is freed |
| MediaWorker.LowerBound | main/static/js/project-detail/media-worker.js:161-173 | everything before the lower bound is below the value, and the element at it is not |
| MediaWorker.LowerBoundSplit | main/static/js/project-detail/media-worker.js:161-173 | on sorted progress, everything from the lower bound on is at least the value |
| MediaWorker.LowerBoundUnique | main/static/js/project-detail/media-worker.js:161-173 | on sorted progress, any index that splits the list this way is the lower bound |
| MediaWorker.FindSortedIndex | main/static/js/project-detail/media-worker.js:161-173 | the binary search returns an index in [0, n]; on sorted progress it is the lower bound |
| MediaWorker.RemoveSorted | main/static/js/project-detail/media-worker.js:118 | splicing an entry out of sorted progress keeps it sorted |
| MediaWorker.RemoveNoDup | main/static/js/project-detail/media-worker.js:117 | splicing a uid out of a duplicate-free list removes it and keeps every other uid |
| MediaWorker.RemovePaired | main/static/js/project-detail/media-worker.js:116-119 | splicing the same index out of both lists keeps each uid beside its progress |
| MediaWorker.UnlistKeepsListed | main/static/js/project-detail/media-worker.js:114-119 | removing the old entry of the uid keeps the lists indexed, removes the uid and keeps every other uid |
| MediaWorker.InsertSorted | main/static/js/project-detail/media-worker.js:120-122 | a progress inserted at its lower bound keeps the list sorted |
| MediaWorker.InsertNoDup | main/static/js/project-detail/media-worker.js:121 | inserting a new uid keeps the list duplicate-free and keeps every old uid |
| MediaWorker.InsertKeepsListed | main/static/js/project-detail/media-worker.js:113-122 | inserting the process at its lower bound keeps the lists indexed for the updated map |
| MediaWorker.RepositionKeepsIndex | main/static/js/project-detail/media-worker.js:111-122 | `updateProcess` keeps the index: progress sorted, each uid once and beside its process's progress, and every stored process listed |
| MediaWorker.RepositionListsOnce | main/static/js/project-detail/media-worker.js:111-122 | after `updateProcess`, the uid is listed exactly once, at the index the search returned |
| MediaWorker.RepositionKeepsOthers | main/static/js/project-detail/media-worker.js:111-122 | `updateProcess` moves only its own uid: the other uids keep their relative order |
| MediaWorker.ListedCount | main/static/js/project-detail/media-worker.js:130-131 | `_processById.size` equals the length of both lists |
| MediaWorker.ProcessEntries | main/static/js/project-detail/media-worker.js:132-135 | one entry per listed uid |
| MediaWorker.MediaEntries | main/static/js/project-detail/media-worker.js:137-140 | one entry per media id |
| MediaWorker.MediaOffsetExample | main/static/js/project-detail/media-worker.js:136 | as written, one process and media [7, 8] make the page [0, 2) hold media 8 instead of 7; with no process, the page [1, 2) holds two records |
| MediaWorker.SectionListing | main/static/js/project-detail/media-worker.js:129-146 | the listing a section pages through has one entry per process and per media record |
| MediaWorker.PageAt | main/static/js/project-detail/media-worker.js:129-146 | page entry `i` is the process of rank `from + i`, or the media record past the processes |
| MediaWorker.PageEntries | main/static/js/project-detail/media-worker.js:129-146 | a page holds consecutive entries of the processes-then-media listing from its clamped start |
| MediaWorker.PageSize | main/static/js/project-detail/media-worker.js:129-146 | an in-bounds page has `stop - start` entries, and a page that stops within the processes holds no media |
| MediaWorker.PageInOrder | main/static/js/project-detail/media-worker.js:129-146 | the processes of a page come in ascending progress |
| MediaWorker.PageAgreesWithinProcesses | main/static/js/project-detail/media-worker.js:129-146 | a page that lies within the processes is the same as written and as intended |
| MediaWorker.PagesAgreeWithoutMedia | main/static/js/project-detail/media-worker.js:129-140 | with no media stored, the page as written is the intended page for any bounds |
| MediaWorker.Resplice | main/static/js/project-detail/media-worker.js:114-122 | the two splices and the search yield the repositioned lists, the `indexOf` result and the new index |
| MediaWorker.SectionData.constructor | main/static/js/project-detail/media-worker.js:43-79 | a new section has empty maps and lists, is neither ready nor high priority, and shows the page [0, 0) |
| MediaWorker.SectionData.SetPage | main/static/js/project-detail/media-worker.js:105-109 | the page moves to [start, stop) and the page `_emitUpdate` builds as written is posted; since a section never stores media, that is the intended page |
| MediaWorker.SectionData.UpdateProcess | main/static/js/project-detail/media-worker.js:111-127 | the process is stored, the lists are repositioned and stay indexed, and the page, built as written, is posted exactly when the old or the new index lies on it; with no media stored it is the intended page |
| MediaWorker.FiledExtend | main/static/js/project-detail/media-worker.js:156-158 | filing a new section under its own name keeps the sections filed |
| MediaWorker.LastCountsSpec | main/static/js/project-detail/media-worker.js:156-158 | the sections map has the keys of the counts, and each key holds the count of its last entry |
| MediaWorker.NewSections | main/static/js/project-detail/media-worker.js:155-158 | one new, initial section per key, holding the key's last count |
| MediaWorker.Worker.constructor | main/static/js/project-detail/media-worker.js:6-7 | before `setupSections` there are no sections and nothing has been posted |
| MediaWorker.Worker.SetupSections | main/static/js/project-detail/media-worker.js:149-159 | the counts are posted as they are, and each key gets a new initial section holding its last count |
| MediaWorker.Worker.SectionPage | main/static/js/project-detail/media-worker.js:12-15 | the named section moves to the page and posts it, and other sections are untouched; an unknown name changes nothing |
| AnnotationData.Prop | main/static/js/annotation/annotation-data.js:103 | a missing key reads `undefined`; a present one reads its value |
| AnnotationData.Includes | main/static/js/annotation/annotation-data.js:18-19 | `s.includes(sub)` holds exactly when `sub` occurs at some position of `s` |
| AnnotationData.AppendIndex | main/static/js/annotation/annotation-data.js:30-34 | pushing the current index keeps an index list increasing and adds exactly that index |
| AnnotationData.ClassifyTypes | main/static/js/annotation/annotation-data.js:10-35 | every dataType gets its three flags. An index goes to the tracks exactly when the type is a track, and to the localizations otherwise; both lists are increasing and together hold every index |
| AnnotationData.IndexById | main/static/js/annotation/annotation-data.js:84-87 | `_dataTypes` maps exactly the type ids, each to its last dataType |
| AnnotationData.Pick | main/static/js/annotation/annotation-data.js:52-53 | `val[typeIdx]` for each index, in order |
| AnnotationData.ColumnValues | main/static/js/annotation/annotation-data.js:101-105 | the attributes take their keys from the body |
| AnnotationData.ColumnValuesSpec | main/static/js/annotation/annotation-data.js:101-105 | the attributes hold exactly the body's keys that name columns, each with the body's value, and no key twice |
| AnnotationData.PutProp | main/static/js/annotation/annotation-data.js:98-100 | `o[k] = v` makes `k` read `v`, changes no other key and keeps keys distinct |
| AnnotationData.TaggedSpec | main/static/js/annotation/annotation-data.js:98-100 | the tagged body reads `id`, `meta` and an empty `attributes`, and every other key as before |
| AnnotationData.SetUpSpec | main/static/js/annotation/annotation-data.js:97-113 | the POSTed element carries the id and the type id as meta, and holds the column attributes. A TL-state element gets its association. Every other key of the body is kept, and no key is added beyond these |
| AnnotationData.ColumnStep | main/static/js/annotation/annotation-data.js:101-105 | one turn of the attribute loop adds the entry exactly when its key names a column |
| AnnotationData.SetupObject | main/static/js/annotation/annotation-data.js:97-113 | the imperative `setupObject` builds the specified element |
| AnnotationData.Patched | main/static/js/annotation/annotation-data.js:120-124 | a patched element has as many entries as before |
| AnnotationData.PatchedSpec | main/static/js/annotation/annotation-data.js:120-124 | a PATCH overwrites only keys the element already has, with the body's values. It adds no key and keeps the key order |
| AnnotationData.PatchElement | main/static/js/annotation/annotation-data.js:120-125 | the `for...in` loop over the body builds the specified patched element |
| AnnotationData.ElemIds | main/static/js/annotation/annotation-data.js:117 | `list.map(elem => elem.id)` reads each element's `id` |
| AnnotationData.DeleteAbsentDropsLast | main/static/js/annotation/annotation-data.js:127-129 | as written, a DELETE of an id no element carries removes the last element |
| AnnotationData.DeleteAbsentExample | main/static/js/annotation/annotation-data.js:127-129 | as written, deleting id 2 from the one-element list holding id 1 leaves it empty |
| AnnotationData.DeleteByIdSpec | main/static/js/annotation/annotation-data.js:126-130 | the intended DELETE shrinks the list by one exactly when some element has the id and otherwise changes nothing. It keeps every element with another id and adds none |
| AnnotationData.DeletePresentAgrees | main/static/js/annotation/annotation-data.js:126-130 | when some element has the id, DELETE as written and as intended both remove exactly the first such element |
| AnnotationData.PostKeeps | main/static/js/annotation/annotation-data.js:115 | a POST appends at the end and keeps the old list as a prefix |
| AnnotationData.RemoveKeeps | main/static/js/annotation/annotation-data.js:129 | removing an element keeps every element's keys distinct |
| AnnotationData.ApplyLocalSpec | main/static/js/annotation/annotation-data.js:114-130 | a POST appends exactly one element. A PATCH keeps the length and every element but the one with the id. A DELETE removes the first element with the id; as written, when no element has it, it removes the last element, and it leaves an empty list empty. Any other verb leaves the list alone, and all keep keys distinct |
| AnnotationData.LocalList | main/static/js/annotation/annotation-data.js:114-130 | the verb branches, DELETE's unguarded `splice(index, 1)` included, compute the specified list and keep keys distinct |
| AnnotationData.RegisteredSpec | main/static/js/annotation/annotation-data.js:52-53 | registration maps every type id to the URL of its last dataType and keeps other ids |
| AnnotationData.Fetches | main/static/js/annotation/annotation-data.js:147 | one fetch per registered dataType |
| AnnotationData.AnnotationStore.constructor | main/static/js/annotation/annotation-data.js:2-8 | the store starts with no URLs, no lists and no dataTypes |
| AnnotationData.AnnotationStore.UpdateType | main/static/js/annotation/annotation-data.js:139-147 | a registered type's URL is fetched; an unregistered type sends nothing |
| AnnotationData.AnnotationStore.StoreFetched | main/static/js/annotation/annotation-data.js:157-164 | the fetched list, or `undefined` after a failed response, is stored under the type and announced |
| AnnotationData.AnnotationStore.RegisterTypes | main/static/js/annotation/annotation-data.js:52-55 | each dataType's URL is registered and fetched, in order |
| AnnotationData.AnnotationStore.SetDataTypes | main/static/js/annotation/annotation-data.js:10-56 | the dataTypes are classified. Exactly the tracks are registered and fetched, and `_dataTypes` maps each id to its last dataType (lines 84-87) |
| AnnotationData.AnnotationStore.OnTracksDone | main/static/js/annotation/annotation-data.js:71-76 | after the tracks, exactly the localizations are registered and fetched |
| AnnotationData.AnnotationStore.UpdateTypeLocal | main/static/js/annotation/annotation-data.js:90-137 | an unregistered type changes nothing. A list verb with no stored list throws, and so does a PATCH of an absent id with a non-empty body. Otherwise the verb is applied to the stored list as `ApplyLocalSpec` describes, DELETE as written, and the list is announced |
| DrawGl.Base | main/static/js/annotator/drawGL.js:708-711 | a draw action on no buffer begins a new one first |
| DrawGl.Clamp | main/static/js/annotator/drawGL.js:765-776 | the clamped value lies in [0, hi]. It is the value itself when in range, 0 below and hi above |
| DrawGl.LineVertices | main/static/js/annotator/drawGL.js:765-776 | the 8 coordinates of a line's quad lie within the view; the first corner's x is the start pulled back by the margin, and the third corner's x is the finish pushed forward by it, whenever those values lie in the view |
| DrawGl.Repeat | main/static/js/annotator/drawGL.js:779-788 | `n` copies of a colour have `n` times its length |
| DrawGl.Shift | main/static/js/annotator/drawGL.js:792-795 | each quad index is moved up by the vertex count |
| DrawGl.LineGrowth | main/static/js/annotator/drawGL.js:726-795 | a line appends 8 coordinates, 8 uv values, 4 copies of the pen colour followed by alpha, and 6 indices, and keeps every earlier entry. The new indices are the quad's offsets from the old vertex count, and the buffer stays well formed |
| DrawGl.AppendLine | main/static/js/annotator/drawGL.js:779-795 | the colour/uv loop and the index loop compute the specified line |
| DrawGl.LinesSnoc | main/static/js/annotator/drawGL.js:816-833 | drawing one more side appends one more line |
| DrawGl.LinesGrowth | main/static/js/annotator/drawGL.js:816-833 | `n` lines add 8n coordinates and 6n indices, keep earlier entries and keep the buffer well formed |
| DrawGl.Sub | main/static/js/annotator/drawGL.js:864 | `maxX - minX` on finite values is their difference, and on an empty pass it is -Infinity |
| DrawGl.ExtremesSnoc | main/static/js/annotator/drawGL.js:845-863 | one more coordinate takes one more step of the running minimum and maximum |
| DrawGl.LowestSpec | main/static/js/annotator/drawGL.js:839-863 | the running minimum is +Infinity on nothing, and otherwise the least coordinate, which occurs |
| DrawGl.HighestSpec | main/static/js/annotator/drawGL.js:841-863 | the running maximum is -Infinity on nothing, and otherwise the greatest coordinate, which occurs |
| DrawGl.Xs | main/static/js/annotator/drawGL.js:847-857 | the x coordinates are the even positions, including a trailing lone x |
| DrawGl.Ys | main/static/js/annotator/drawGL.js:851-860 | the y coordinates are the odd positions |
| DrawGl.ExtremesBox | main/static/js/annotator/drawGL.js:845-864 | a non-empty axis lies within [min, min + extent] and reaches both ends |
| DrawGl.BoundsSpec | main/static/js/annotator/drawGL.js:836-865 | with no vertices the box is (+Inf, +Inf, -Inf, -Inf). Otherwise it is the tightest box around the x coordinates, and around the y coordinates once there is one |
| DrawGl.ComputeQuad | main/static/js/annotator/drawGL.js:91-102 | the image quad has 4 corners, each in {0, width} x {0, height} |
| DrawGl.QuadBounds | main/static/js/annotator/drawGL.js:91-102 | the image quad's bounding box is the image: (0, 0, width, height) |
| DrawGl.QuadCorners | main/static/js/annotator/drawGL.js:172 | the quad's two triangles name only its four corners and use each of them |
| DrawGl.DrawGL.constructor | main/static/js/annotator/drawGL.js:690-694 | a context starts with no buffer, with the given view size, default pen and direction |
| DrawGl.DrawGL.Margin | main/static/js/annotator/drawGL.js:745-754 | for a unit direction, the thickness offset has length width / 2 |
| DrawGl.DrawGL.LineQuad | main/static/js/annotator/drawGL.js:740-776 | a line's corners lie within the view |
| DrawGl.DrawGL.Pen | main/static/js/annotator/drawGL.js:712-715 | a missing pen colour is the default pen |
| DrawGl.DrawGL.BeginDraw | main/static/js/annotator/drawGL.js:691-694 | the buffer becomes empty arrays |
| DrawGl.DrawGL.DumpDraw | main/static/js/annotator/drawGL.js:698-703 | the old buffer is returned and the context has none |
| DrawGl.DrawGL.DrawLine | main/static/js/annotator/drawGL.js:706-796 | the buffer, begun if missing, gains the clamped line with the defaults width 3, alpha 255 and the default pen, and stays well formed |
| DrawGl.DrawGL.PolygonQuads | main/static/js/annotator/drawGL.js:816-832 | one quad per point, each of 8 coordinates |
| DrawGl.DrawGL.DrawPolygon | main/static/js/annotator/drawGL.js:801-834 | fewer than 3 points change nothing. Otherwise the buffer, begun if missing, gains one line per point in order, with the defaults width 3, alpha 255 and the default pen; `LinesGrowth` shows it stays well formed |
| DrawGl.DrawGL.ComputeBounds | main/static/js/annotator/drawGL.js:836-865 | the loop computes the specified box, which `BoundsSpec` shows is tight |

## Left out

- I/O is not modelled: network requests, `postMessage`, DOM events and the transfer client are recorded as `outbox` entries. Responses arrive as method parameters (the digest, the match count, the fetched JSON, bytes sent).
- Time (`Date.now()`) is a parameter. The 50 ms interval is not modelled; `Flush` is one tick.
- Concurrency is not modelled: each message handler and callback runs as one atomic step.
- `serviceWorkerId` (`uuidv1()`) and `SparkMD5.hash` are constructor parameters of the upload worker. `Upload.uploadUid` (the transfer client's fingerprint) equals the queued uid and is not modelled separately.
- The transfer client's own chunking and retry delays are not modelled; the client is seen only through its callbacks.
- UploadWorker.UploadWorker.Cancel: the code buffers "failed"/"Upload was aborted!"/0. The documented behaviour is "Aborted!"/100 for an active cancel. The model follows the code.
- Uploads.HashPercentage: `toFixed(2)` turns the percentage into a string; the model keeps the real number.
- Uploads.ReadCount: an empty file is still read once, as the empty slice [0, 0), and then hashed; this follows the code.
- `activeUploads` is keyed by the record's uid; an `Upload` object's `upload_uid` is the same hash of the same fields.
- UploadWorker.UploadWorker.OnTransferProgress: the NaN/Infinity percentage when the total is 0 is modelled as "not below 100".
- The media worker's `init` command (a fetch, then `setupSections` on the response) is left out; `SetupSections` takes the response.
- `fetchMedia` is left out. It is never called, and it calls `Map.prototype.size()` as a function, which would throw. The media map and media ids of every section therefore stay empty in the model's state, while the page functions are stated for any media.
- The empty handlers `processUpdate`, `sectionInView`, `sectionFilter` and `projectFilter` do nothing. The unused fields `_processedMediaById` and `_trackDb` are not modelled.
- MediaWorker.FindSortedIndex: `(low + high) >>> 1` is modelled as `(low + high) / 2`. The two agree below 2^31 entries.
- MediaWorker.Worker.SectionPage: an unknown section name is a `TypeError` in the source, which ends the handler; the model records it as "nothing changes".
- `setupSections` iterates with `for...in`. The model takes the counts as an insertion-ordered list where the last entry of a key wins. JavaScript's integer-like key order is not modelled.
- Console logging is not modelled anywhere.
- AnnotationData: the semaphores, promises, the callbacks and the `initialized` event of the `dataTypes` setter are left out. `OnTracksDone` is the step that runs once the tracks are in.
- AnnotationData: `Number()` is the abstract `toNumber` parameter.
- AnnotationData: loose `==` is modelled as strict equality on JSON values. A `resourcetype` that is present but is neither a string nor an array (`undefined`, `null`, a number, a boolean or a plain object) counts as "not a localization"; in the source `includes` does not exist on any of these, so the setter throws a TypeError.
- AnnotationData: JavaScript's integer-like key enumeration order and inherited properties seen by `in` are not modelled; objects keep insertion order.
- AnnotationData: values are copied, not shared. The source mutates the POSTed body and the caller's dataType objects in place; the model returns the changed values instead.
- UploadWorker.UploadWorker.OnTransferError: the retry count is kept on the Upload object, and the record re-queued is a copy carrying the new count. In the source `uploadData` is one shared object: the Upload holds it, increments its `retries`, and pushes that same object back on the queue. So a second error callback from the same Upload after it was re-queued also raises the count of the queued record and of the Upload later started from it; in the model the successor keeps its own count. Records are values here, so this aliasing is not captured.
- AnnotationData.AnnotationStore.UpdateTypeLocal: requires that no column is named "attributes". Such a column would make the attributes object contain itself.
- AnnotationData.AnnotationStore.UpdateTypeLocal: a PATCH of an absent id with an empty body sets a "-1" property on the array, which is not an element; the model leaves the list as it is.
- DrawGl: WebGL, shaders, textures, `dispDraw`, viewport resizing and the frame buffer are left out. The view size is a constant of the context.
- DrawGl: `calcTheta`, `Math.cos` and `Math.sin` are the `direction` parameter (the unit vector of a line). `drawLine`'s offset along `theta + PI/2` is written as (-sin, cos) of that vector.
- DrawGl: the default pen `color.BLUE` is defined in another file and is a parameter, `defaultPen`.
- DrawGl: floating-point rounding, `Float32Array`/`Uint16Array` conversion and NaN inputs are not modelled; coordinates are reals. `vertices.length / 2` is exact because the vertex count stays even.
- DrawGl.DrawGL.ComputeBounds: on an odd-length list, the trailing x counts. The comparison of `undefined` as its y is false, so it changes no y extreme.

## Findings

| source | as written | input that shows it | evidently intended | confidence | as-written member | corrected member |
|---|---|---|---|---|---|---|
| main/static/js/annotation/annotation-data.js:127-129 | DELETE runs `splice(ids.indexOf(id), 1)`, which is `splice(-1, 1)` when no element has the id | delete id 2 from a list holding only the element with id 1: the list becomes empty | a DELETE of an id that is not stored removes nothing | not executed; medium | AnnotationData.DeleteAbsentExample | AnnotationData.DeleteByIdSpec |
| main/static/js/project-detail/media-worker.js:136 | the media part of a page is `_mediaIds.slice(numProc, stop)`, offset by the number of processes instead of by the page start | one process and media [7, 8], page [0, 2): the page holds the process and media 8, skipping media 7; with no process, page [1, 2) holds two records | the page is entries [start, stop) of the listing "processes in progress order, then media" | not executed; medium | MediaWorker.MediaOffsetExample | MediaWorker.PageEntries |
