/**
 * The per-section media listing of main/static/js/project-detail/media-worker.js:
 * each section keeps its processes ordered by progress in two parallel lists,
 * answers page requests by slicing, and the worker holds one section per
 * name. `self.postMessage` is the worker's `outbox`; the fetches are not
 * modelled.
 */
module MediaWorker {
  import opened Wrappers
  import opened Assoc
  import JsArray

  type Uid = string

  /** A process update from the websocket: its uid, its progress, and the rest of the message. */
  datatype Process = Process(uid: Uid, percent: real, payload: string)

  /** A media record from the REST listing. */
  datatype Media = Media(id: int, payload: string)

  /** One element of a page: `Map.get` of a process or of a media record, absent when the id is unknown. */
  datatype Entry = ProcessEntry(process: Option<Process>) | MediaEntry(media: Option<Media>)

  /** The messages the worker posts to the page. */
  datatype Message =
    | UpdateSection(name: string, data: seq<Entry>)
    | SetupSections(counts: seq<Pair<string, int>>)

  /** `m.get(k)`. */
  function Lookup<K, V>(m: map<K, V>, k: K): Option<V>
  {
    if k in m then Some(m[k]) else None
  }

  ghost predicate Sorted(s: seq<real>)
  {
    forall i, j | 0 <= i <= j < |s| :: s[i] <= s[j]
  }

  ghost predicate NoDup<T>(s: seq<T>)
  {
    forall i, j | 0 <= i < j < |s| :: s[i] != s[j]
  }

  /** How many leading elements of `s` are below `val`: the index a lower-bound search finds. */
  function LowerBound(s: seq<real>, val: real): (k: nat)
    ensures k <= |s|
    ensures forall i | 0 <= i < k :: s[i] < val
    ensures k < |s| ==> val <= s[k]
  {
    if s == [] || val <= s[0] then 0 else 1 + LowerBound(s[1..], val)
  }

  /** In a sorted list the lower bound splits it: everything before is below `val`, everything from it on is not. */
  lemma LowerBoundSplit(s: seq<real>, val: real)
    requires Sorted(s)
    ensures forall i | 0 <= i < LowerBound(s, val) :: s[i] < val
    ensures forall i | LowerBound(s, val) <= i < |s| :: val <= s[i]
  {
    var k := LowerBound(s, val);
    if k < |s| {
      assert forall i | k <= i < |s| :: s[k] <= s[i];
    }
  }

  /** The split point of a sorted list is unique, so any index that splits it is the lower bound. */
  lemma LowerBoundUnique(s: seq<real>, val: real, k: nat)
    requires Sorted(s) && k <= |s|
    requires forall i | 0 <= i < k :: s[i] < val
    requires forall i | k <= i < |s| :: val <= s[i]
    ensures k == LowerBound(s, val)
  {
    var lb := LowerBound(s, val);
    LowerBoundSplit(s, val);
    if k < |s| {
      assert val <= s[k];
    }
    if lb < |s| {
      assert val <= s[lb];
    }
  }

  /**
   * `findSortedIndex(arr, val)`: a binary search that keeps everything left
   * of `low` below `val` and everything from `high` on at least `val`. The
   * result is in [0, |arr|]; on a sorted list it is the lower bound.
   */
  method FindSortedIndex(arr: seq<real>, val: real) returns (low: nat)
    ensures low <= |arr|
    ensures Sorted(arr) ==> low == LowerBound(arr, val)
  {
    low := 0;
    var high := |arr|;
    while low < high
      invariant 0 <= low <= high <= |arr|
      invariant Sorted(arr) ==> forall i | 0 <= i < low :: arr[i] < val
      invariant Sorted(arr) ==> forall i | high <= i < |arr| :: val <= arr[i]
      decreases high - low
    {
      var mid := (low + high) / 2;
      if arr[mid] < val {
        low := mid + 1;
      } else {
        high := mid;
      }
    }
    if Sorted(arr) {
      LowerBoundUnique(arr, val, low);
    }
  }

  /** The lists without the entry at `ci`, when `indexOf` found one (`ci > -1`). */
  function Unlisted<T>(s: seq<T>, ci: int): seq<T>
  {
    if ci > -1 then JsArray.RemoveAt(s, ci) else s
  }

  /** The two parallel lists of a section: process uids and their progress. */
  datatype Listing = Listing(ids: seq<Uid>, progress: seq<real>)

  /** Where `updateProcess(p)` puts `p`: the lower bound of its progress once its old entry is gone. */
  function NewIndex(ids: seq<Uid>, progress: seq<real>, p: Process): nat
  {
    LowerBound(Unlisted(progress, JsArray.IndexOf(ids, p.uid)), p.percent)
  }

  /** The lists after `updateProcess(p)`: the old entry of `p.uid` is spliced out of both, then `p` is spliced in at its new index. */
  function Reposition(ids: seq<Uid>, progress: seq<real>, p: Process): Listing
  {
    var ci := JsArray.IndexOf(ids, p.uid);
    var k := NewIndex(ids, progress, p);
    Listing(JsArray.InsertAt(Unlisted(ids, ci), k, p.uid), JsArray.InsertAt(Unlisted(progress, ci), k, p.percent))
  }

  /**
   * The lists `ids` and `progress` index the processes of `byId`: same
   * length, progress ascending, every uid once, each paired with its
   * process's progress, and every process listed.
   */
  ghost predicate ProcessIndex(byId: map<Uid, Process>, ids: seq<Uid>, progress: seq<real>)
  {
    && Listed(byId, ids, progress)
    && (forall u | u in byId :: byId[u].uid == u && u in ids)
  }

  /** Every listed uid is a process of `byId`, with its progress beside it, in ascending order and once. */
  ghost predicate Listed(byId: map<Uid, Process>, ids: seq<Uid>, progress: seq<real>)
  {
    && |ids| == |progress|
    && Sorted(progress)
    && NoDup(ids)
    && Paired(byId, ids, progress)
  }

  /** Each listed uid is a process of `byId`, and beside it stands that process's progress. */
  ghost predicate Paired(byId: map<Uid, Process>, ids: seq<Uid>, progress: seq<real>)
    requires |ids| == |progress|
  {
    forall i | 0 <= i < |ids| :: ids[i] in byId && byId[ids[i]].percent == progress[i]
  }

  /** Element `i` of `s.splice(c, 1)` is element `i` or `i + 1` of `s`. */
  lemma RemoveAtElems<T>(s: seq<T>, c: nat)
    requires c < |s|
    ensures forall i | 0 <= i < c :: JsArray.RemoveAt(s, c)[i] == s[i]
    ensures forall i | c <= i < |s| - 1 :: JsArray.RemoveAt(s, c)[i] == s[i + 1]
  {
  }

  /** Element `i` of `s.splice(k, 0, x)` is element `i` or `i - 1` of `s`, or `x` at `k`. */
  lemma InsertAtElems<T>(s: seq<T>, k: nat, x: T)
    requires k <= |s|
    ensures forall i | 0 <= i < k :: JsArray.InsertAt(s, k, x)[i] == s[i]
    ensures JsArray.InsertAt(s, k, x)[k] == x
    ensures forall i | k < i <= |s| :: JsArray.InsertAt(s, k, x)[i] == s[i - 1]
  {
  }

  /** `s.splice(c, 1)` of a sorted list is sorted. */
  lemma RemoveSorted(s: seq<real>, c: nat)
    requires Sorted(s)
    ensures Sorted(JsArray.RemoveAt(s, c))
  {
    if c < |s| {
      var r := JsArray.RemoveAt(s, c);
      RemoveAtElems(s, c);
      forall i, j | 0 <= i <= j < |r| ensures r[i] <= r[j] {
        assert r[i] == s[if i < c then i else i + 1];
        assert r[j] == s[if j < c then j else j + 1];
      }
    }
  }

  /** `s.splice(c, 1)` of a list without repeats has none, loses `s[c]` and keeps every other element. */
  lemma RemoveNoDup<T>(s: seq<T>, c: nat)
    requires NoDup(s) && c < |s|
    ensures NoDup(JsArray.RemoveAt(s, c))
    ensures s[c] !in JsArray.RemoveAt(s, c)
    ensures forall u | u in s && u != s[c] :: u in JsArray.RemoveAt(s, c)
  {
    var r := JsArray.RemoveAt(s, c);
    RemoveAtElems(s, c);
    forall i, j | 0 <= i < j < |r| ensures r[i] != r[j] {
      assert r[i] == s[if i < c then i else i + 1];
      assert r[j] == s[if j < c then j else j + 1];
    }
    forall i | 0 <= i < |r| ensures r[i] != s[c] {
      assert r[i] == s[if i < c then i else i + 1];
    }
    forall u | u in s && u != s[c] ensures u in r {
      var i :| 0 <= i < |s| && s[i] == u;
      assert r[if i < c then i else i - 1] == u;
    }
  }

  /** Splicing the same index out of both lists keeps them paired. */
  lemma RemovePaired(byId: map<Uid, Process>, ids: seq<Uid>, progress: seq<real>, c: nat)
    requires |ids| == |progress| && Paired(byId, ids, progress) && c < |ids|
    ensures Paired(byId, JsArray.RemoveAt(ids, c), JsArray.RemoveAt(progress, c))
  {
    RemoveAtElems(ids, c);
    RemoveAtElems(progress, c);
    var ids0, pr0 := JsArray.RemoveAt(ids, c), JsArray.RemoveAt(progress, c);
    forall i | 0 <= i < |ids0| ensures ids0[i] in byId && byId[ids0[i]].percent == pr0[i] {
      assert ids0[i] == ids[if i < c then i else i + 1];
      assert pr0[i] == progress[if i < c then i else i + 1];
    }
  }

  /** Taking out the old entry of `uid` keeps the lists indexed, and leaves every other listed uid and no `uid`. */
  lemma UnlistKeepsListed(byId: map<Uid, Process>, ids: seq<Uid>, progress: seq<real>, uid: Uid)
    requires Listed(byId, ids, progress)
    ensures Listed(byId, Unlisted(ids, JsArray.IndexOf(ids, uid)), Unlisted(progress, JsArray.IndexOf(ids, uid)))
    ensures uid !in Unlisted(ids, JsArray.IndexOf(ids, uid))
    ensures forall u | u in ids && u != uid :: u in Unlisted(ids, JsArray.IndexOf(ids, uid))
  {
    var c := JsArray.IndexOf(ids, uid);
    if c > -1 {
      RemoveSorted(progress, c);
      RemoveNoDup(ids, c);
      RemovePaired(byId, ids, progress, c);
    }
  }

  /** A value put in at its lower bound keeps a sorted list sorted. */
  lemma InsertSorted(s: seq<real>, val: real)
    requires Sorted(s)
    ensures Sorted(JsArray.InsertAt(s, LowerBound(s, val), val))
  {
    var k := LowerBound(s, val);
    var r := JsArray.InsertAt(s, k, val);
    InsertAtElems(s, k, val);
    LowerBoundSplit(s, val);
    forall i, j | 0 <= i <= j < |r| ensures r[i] <= r[j] {
      if i < k && k < j {
        assert r[i] == s[i] && r[j] == s[j - 1];
      }
    }
  }

  /** A new element put in anywhere keeps the elements distinct, and keeps every old one. */
  lemma InsertNoDup<T>(s: seq<T>, k: nat, x: T)
    requires NoDup(s) && x !in s && k <= |s|
    ensures NoDup(JsArray.InsertAt(s, k, x))
    ensures forall u | u in s :: u in JsArray.InsertAt(s, k, x)
  {
    var r := JsArray.InsertAt(s, k, x);
    InsertAtElems(s, k, x);
    forall i, j | 0 <= i < j < |r| ensures r[i] != r[j] {
      assert r[i] == if i < k then s[i] else if i == k then x else s[i - 1];
      assert r[j] == if j < k then s[j] else if j == k then x else s[j - 1];
    }
    forall u | u in s ensures u in r {
      var i :| 0 <= i < |s| && s[i] == u;
      assert r[if i < k then i else i + 1] == u;
    }
  }

  /** Storing a process under an unlisted uid leaves the pairing of the listed ones alone. */
  lemma PairedUpdate(byId: map<Uid, Process>, ids: seq<Uid>, progress: seq<real>, p: Process)
    requires |ids| == |progress| && Paired(byId, ids, progress) && p.uid !in ids
    ensures Paired(byId[p.uid := p], ids, progress)
  {
    forall i | 0 <= i < |ids| ensures ids[i] in byId[p.uid := p] && byId[p.uid := p][ids[i]].percent == progress[i] {
      assert ids[i] != p.uid;
    }
  }

  /** Inserting a uid and its progress at the same index keeps the lists paired. */
  lemma InsertPaired(byId: map<Uid, Process>, ids: seq<Uid>, progress: seq<real>, k: nat, p: Process)
    requires |ids| == |progress| && Paired(byId, ids, progress) && k <= |ids|
    requires p.uid in byId && byId[p.uid] == p
    ensures Paired(byId, JsArray.InsertAt(ids, k, p.uid), JsArray.InsertAt(progress, k, p.percent))
  {
    var ids1, pr1 := JsArray.InsertAt(ids, k, p.uid), JsArray.InsertAt(progress, k, p.percent);
    InsertAtElems(ids, k, p.uid);
    InsertAtElems(progress, k, p.percent);
    forall i | 0 <= i < |ids1| ensures ids1[i] in byId && byId[ids1[i]].percent == pr1[i] {
      if i < k {
        assert ids1[i] == ids[i] && pr1[i] == progress[i];
      } else if k < i {
        assert ids1[i] == ids[i - 1] && pr1[i] == progress[i - 1];
      }
    }
  }

  /** Putting `p` in at the lower bound of its progress keeps the lists indexed, for the map that now holds `p`. */
  lemma InsertKeepsListed(byId: map<Uid, Process>, ids: seq<Uid>, progress: seq<real>, p: Process)
    requires Listed(byId, ids, progress) && p.uid !in ids
    ensures Listed(byId[p.uid := p], JsArray.InsertAt(ids, LowerBound(progress, p.percent), p.uid),
                   JsArray.InsertAt(progress, LowerBound(progress, p.percent), p.percent))
    ensures forall u | u in ids :: u in JsArray.InsertAt(ids, LowerBound(progress, p.percent), p.uid)
  {
    var k := LowerBound(progress, p.percent);
    InsertSorted(progress, p.percent);
    InsertNoDup(ids, k, p.uid);
    PairedUpdate(byId, ids, progress, p);
    InsertPaired(byId[p.uid := p], ids, progress, k, p);
  }

  /** `updateProcess` keeps the index: the new lists index the processes with `p` stored under its uid. */
  lemma RepositionKeepsIndex(byId: map<Uid, Process>, ids: seq<Uid>, progress: seq<real>, p: Process)
    requires ProcessIndex(byId, ids, progress)
    ensures ProcessIndex(byId[p.uid := p], Reposition(ids, progress, p).ids, Reposition(ids, progress, p).progress)
  {
    var ci := JsArray.IndexOf(ids, p.uid);
    var ids0, pr0 := Unlisted(ids, ci), Unlisted(progress, ci);
    var k := NewIndex(ids, progress, p);
    UnlistKeepsListed(byId, ids, progress, p.uid);
    InsertKeepsListed(byId, ids0, pr0, p);
    var r := Reposition(ids, progress, p);
    assert r.ids == JsArray.InsertAt(ids0, k, p.uid);
    InsertAtElems(ids0, k, p.uid);
    forall u | u in byId[p.uid := p]
      ensures byId[p.uid := p][u].uid == u && u in r.ids
    {
      if u != p.uid {
        assert u in ids;
      }
    }
  }

  /** After `updateProcess(p)`, `p.uid` is listed exactly once, at its new index. */
  lemma RepositionListsOnce(byId: map<Uid, Process>, ids: seq<Uid>, progress: seq<real>, p: Process)
    requires ProcessIndex(byId, ids, progress)
    ensures NewIndex(ids, progress, p) < |Reposition(ids, progress, p).ids|
    ensures Reposition(ids, progress, p).ids[NewIndex(ids, progress, p)] == p.uid
    ensures forall j | 0 <= j < |Reposition(ids, progress, p).ids| && Reposition(ids, progress, p).ids[j] == p.uid ::
              j == NewIndex(ids, progress, p)
  {
    RepositionKeepsIndex(byId, ids, progress, p);
    UnlistKeepsListed(byId, ids, progress, p.uid);
  }

  /** The list without `x`. */
  function Without<T(==)>(s: seq<T>, x: T): seq<T>
  {
    if s == [] then [] else (if s[0] == x then [] else [s[0]]) + Without(s[1..], x)
  }

  lemma {:induction false} WithoutAppend<T>(a: seq<T>, b: seq<T>, x: T)
    ensures Without(a + b, x) == Without(a, x) + Without(b, x)
  {
    if a == [] {
      assert a + b == b;
    } else {
      assert (a + b)[1..] == a[1..] + b;
      WithoutAppend(a[1..], b, x);
    }
  }

  lemma WithoutCons<T>(x: T, t: seq<T>)
    ensures Without([x] + t, x) == Without(t, x)
  {
    assert ([x] + t)[1..] == t;
  }

  /** Removing an occurrence of `x` does not change the list without `x`. */
  lemma WithoutRemove<T>(s: seq<T>, c: nat, x: T)
    requires c < |s| && s[c] == x
    ensures Without(JsArray.RemoveAt(s, c), x) == Without(s, x)
  {
    var a, b := s[..c], s[c + 1..];
    assert s == a + ([x] + b);
    WithoutAppend(a, [x] + b, x);
    WithoutCons(x, b);
    WithoutAppend(a, b, x);
  }

  /** Inserting `x` does not change the list without `x`. */
  lemma WithoutInsert<T>(s: seq<T>, k: nat, x: T)
    ensures Without(JsArray.InsertAt(s, k, x), x) == Without(s, x)
  {
    if k <= |s| {
      var a, b := s[..k], s[k..];
      assert JsArray.InsertAt(s, k, x) == a + ([x] + b);
      WithoutAppend(a, [x] + b, x);
      WithoutCons(x, b);
      assert s == a + b;
      WithoutAppend(a, b, x);
    } else {
      WithoutAppend(s, [x], x);
      WithoutCons(x, []);
      assert [x] + [] == [x];
    }
  }

  /** `updateProcess(p)` moves only `p.uid`: the other uids keep their relative order. */
  lemma RepositionKeepsOthers(ids: seq<Uid>, progress: seq<real>, p: Process)
    ensures Without(Reposition(ids, progress, p).ids, p.uid) == Without(ids, p.uid)
  {
    var ci := JsArray.IndexOf(ids, p.uid);
    if ci > -1 {
      WithoutRemove(ids, ci, p.uid);
    }
    WithoutInsert(Unlisted(ids, ci), NewIndex(ids, progress, p), p.uid);
  }

  /** The elements of a list, as a set. */
  function Elems<T>(s: seq<T>): set<T>
  {
    set x | x in s
  }

  /** A list without repeats has as many elements as its set. */
  lemma {:induction false} NoDupCard<T>(s: seq<T>)
    requires NoDup(s)
    ensures |Elems(s)| == |s|
  {
    if s != [] {
      assert Elems(s) == {s[0]} + Elems(s[1..]);
      assert s[0] !in Elems(s[1..]) by {
        forall j | 0 <= j < |s| - 1 ensures s[1..][j] != s[0] {
          assert s[1..][j] == s[j + 1];
        }
      }
      NoDupCard(s[1..]);
    }
  }

  /** The listing holds one entry per process: `_sortedIds.length == _processById.size`. */
  lemma ListedCount(byId: map<Uid, Process>, ids: seq<Uid>, progress: seq<real>)
    requires ProcessIndex(byId, ids, progress)
    ensures |ids| == |byId| == |progress|
  {
    assert Elems(ids) == byId.Keys;
    NoDupCard(ids);
  }

  /** `Array.from(procIds, id => _processById.get(id))`. */
  function ProcessEntries(byId: map<Uid, Process>, procIds: seq<Uid>): (r: seq<Entry>)
    ensures |r| == |procIds|
  {
    seq(|procIds|, i requires 0 <= i < |procIds| => ProcessEntry(Lookup(byId, procIds[i])))
  }

  /** `Array.from(mediaIds, id => _mediaById.get(id))`. */
  function MediaEntries(mediaById: map<int, Media>, mediaIds: seq<int>): (r: seq<Entry>)
    ensures |r| == |mediaIds|
  {
    seq(|mediaIds|, i requires 0 <= i < |mediaIds| => MediaEntry(Lookup(mediaById, mediaIds[i])))
  }

  /**
   * The data of `_emitUpdate` as written: the processes whose uids are
   * `_sortedIds.slice(start, stop)`, then the media whose ids are
   * `_mediaIds.slice(numProc, stop)` with `numProc = _processById.size`.
   */
  function PageDataAsWritten(byId: map<Uid, Process>, ids: seq<Uid>, mediaById: map<int, Media>, mediaIds: seq<int>,
                             start: int, stop: int): seq<Entry>
  {
    ProcessEntries(byId, JsArray.Slice(ids, start, stop)) + MediaEntries(mediaById, JsArray.Slice(mediaIds, |byId|, stop))
  }

  /**
   * The media part of the page as written is offset by the number of
   * processes instead of by the page start: with one process and two media
   * the first page of two holds the second media record, not the first, and
   * with no process the page [1, 2) holds two records.
   */
  lemma MediaOffsetExample()
    ensures var p, m7, m8 := Process("p", 50.0, ""), Media(7, ""), Media(8, "");
      var media := map[7 := m7, 8 := m8];
      && PageDataAsWritten(map["p" := p], ["p"], media, [7, 8], 0, 2) == [ProcessEntry(Some(p)), MediaEntry(Some(m8))]
      && PageData(map["p" := p], ["p"], media, [7, 8], 0, 2) == [ProcessEntry(Some(p)), MediaEntry(Some(m7))]
      && PageDataAsWritten(map[], [], media, [7, 8], 1, 2) == [MediaEntry(Some(m7)), MediaEntry(Some(m8))]
      && PageData(map[], [], media, [7, 8], 1, 2) == [MediaEntry(Some(m8))]
  {
    var p, m7, m8 := Process("p", 50.0, ""), Media(7, ""), Media(8, "");
    var media := map[7 := m7, 8 := m8];
    assert JsArray.Slice([7, 8], 1, 2) == [8];
    assert JsArray.Slice([7, 8], 0, 2) == [7, 8];
    assert MediaEntries(media, [8]) == [MediaEntry(Some(m8))];
    assert MediaEntries(media, [7, 8]) == [MediaEntry(Some(m7)), MediaEntry(Some(m8))];
    assert ProcessEntries(map["p" := p], ["p"]) == [ProcessEntry(Some(p))];
    assert MediaEntries(media, [7, 8]) == [MediaEntry(Some(m7)), MediaEntry(Some(m8))];
  }

  /** The listing a section pages through: its processes in ascending progress, then its media in REST order. */
  function SectionListing(byId: map<Uid, Process>, ids: seq<Uid>, mediaById: map<int, Media>, mediaIds: seq<int>): (r: seq<Entry>)
    ensures |r| == |ids| + |mediaIds|
  {
    ProcessEntries(byId, ids) + MediaEntries(mediaById, mediaIds)
  }

  /** The data of `_emitUpdate` as intended: the entries [start, stop) of the listing. */
  function PageData(byId: map<Uid, Process>, ids: seq<Uid>, mediaById: map<int, Media>, mediaIds: seq<int>,
                    start: int, stop: int): seq<Entry>
  {
    JsArray.Slice(SectionListing(byId, ids, mediaById, mediaIds), start, stop)
  }

  /** Element `i` of a slice of `a + b` is element `from + i` of `a`, or of `b` past the end of `a`. */
  lemma SliceConcatAt<T>(a: seq<T>, b: seq<T>, start: int, stop: int, i: nat)
    requires i < |JsArray.Slice(a + b, start, stop)|
    ensures var from := JsArray.RelativeIndex(start, |a| + |b|);
            && from + i < |a| + |b|
            && (from + i < |a| ==> JsArray.Slice(a + b, start, stop)[i] == a[from + i])
            && (|a| <= from + i ==> JsArray.Slice(a + b, start, stop)[i] == b[from + i - |a|])
  {
  }

  /** Entry `i` of a page is the process of rank `from + i`, or the media record past the processes. */
  lemma PageAt(byId: map<Uid, Process>, ids: seq<Uid>, mediaById: map<int, Media>, mediaIds: seq<int>,
               start: int, stop: int, i: nat)
    requires i < |PageData(byId, ids, mediaById, mediaIds, start, stop)|
    ensures var from := JsArray.RelativeIndex(start, |ids| + |mediaIds|);
            var d := PageData(byId, ids, mediaById, mediaIds, start, stop);
            && from + i < |ids| + |mediaIds|
            && (from + i < |ids| ==> d[i] == ProcessEntry(Lookup(byId, ids[from + i])))
            && (|ids| <= from + i ==> d[i] == MediaEntry(Lookup(mediaById, mediaIds[from + i - |ids|])))
  {
    SliceConcatAt(ProcessEntries(byId, ids), MediaEntries(mediaById, mediaIds), start, stop, i);
  }

  /**
   * A page holds consecutive entries of the listing from the (clamped)
   * start: processes of consecutive ranks, then media records in order.
   */
  lemma PageEntries(byId: map<Uid, Process>, ids: seq<Uid>,
                    mediaById: map<int, Media>, mediaIds: seq<int>, start: int, stop: int)
    requires forall k | 0 <= k < |ids| :: ids[k] in byId
    ensures var from := JsArray.RelativeIndex(start, |ids| + |mediaIds|);
            var d := PageData(byId, ids, mediaById, mediaIds, start, stop);
            && (forall i | 0 <= i < |d| && from + i < |ids| :: d[i] == ProcessEntry(Some(byId[ids[from + i]])))
            && (forall i | 0 <= i < |d| && |ids| <= from + i ::
                  from + i - |ids| < |mediaIds| && d[i] == MediaEntry(Lookup(mediaById, mediaIds[from + i - |ids|])))
  {
    var d := PageData(byId, ids, mediaById, mediaIds, start, stop);
    var from := JsArray.RelativeIndex(start, |ids| + |mediaIds|);
    forall i | 0 <= i < |d|
      ensures from + i < |ids| ==> d[i] == ProcessEntry(Some(byId[ids[from + i]]))
      ensures |ids| <= from + i ==>
                from + i - |ids| < |mediaIds| && d[i] == MediaEntry(Lookup(mediaById, mediaIds[from + i - |ids|]))
    {
      PageAt(byId, ids, mediaById, mediaIds, start, stop, i);
    }
  }

  /** A page within bounds has `stop - start` entries, and one that stops within the processes holds no media. */
  lemma PageSize(byId: map<Uid, Process>, ids: seq<Uid>,
                 mediaById: map<int, Media>, mediaIds: seq<int>, start: int, stop: int)
    ensures var d := PageData(byId, ids, mediaById, mediaIds, start, stop);
            && (0 <= start <= stop <= |ids| + |mediaIds| ==> |d| == stop - start)
            && (0 <= stop <= |ids| ==> forall i | 0 <= i < |d| :: d[i].ProcessEntry?)
  {
    var d := PageData(byId, ids, mediaById, mediaIds, start, stop);
    var from := JsArray.RelativeIndex(start, |ids| + |mediaIds|);
    if 0 <= stop <= |ids| {
      forall i | 0 <= i < |d| ensures d[i].ProcessEntry? {
        PageAt(byId, ids, mediaById, mediaIds, start, stop, i);
        assert from + i < JsArray.RelativeIndex(stop, |ids| + |mediaIds|);
      }
    }
  }

  /** On an indexed listing the processes of a page come in ascending progress. */
  lemma PageInOrder(byId: map<Uid, Process>, ids: seq<Uid>, progress: seq<real>,
                    mediaById: map<int, Media>, mediaIds: seq<int>, start: int, stop: int)
    requires |ids| == |progress| && Sorted(progress) && Paired(byId, ids, progress)
    ensures var from := JsArray.RelativeIndex(start, |ids| + |mediaIds|);
            var d := PageData(byId, ids, mediaById, mediaIds, start, stop);
            forall i, j | 0 <= i <= j < |d| && from + j < |ids| ::
              d[i].ProcessEntry? && d[j].ProcessEntry? && d[i].process.Some? && d[j].process.Some?
              && d[i].process.value.percent <= d[j].process.value.percent
  {
    var d := PageData(byId, ids, mediaById, mediaIds, start, stop);
    var from := JsArray.RelativeIndex(start, |ids| + |mediaIds|);
    forall i, j | 0 <= i <= j < |d| && from + j < |ids|
      ensures d[i].ProcessEntry? && d[j].ProcessEntry? && d[i].process.Some? && d[j].process.Some?
              && d[i].process.value.percent <= d[j].process.value.percent
    {
      PageAt(byId, ids, mediaById, mediaIds, start, stop, i);
      PageAt(byId, ids, mediaById, mediaIds, start, stop, j);
      assert byId[ids[from + i]].percent == progress[from + i];
      assert byId[ids[from + j]].percent == progress[from + j];
    }
  }

  /** Slicing the entries of some uids is taking the entries of the sliced uids. */
  lemma SliceProcessEntries(byId: map<Uid, Process>, ids: seq<Uid>, start: int, stop: int)
    ensures JsArray.Slice(ProcessEntries(byId, ids), start, stop) == ProcessEntries(byId, JsArray.Slice(ids, start, stop))
  {
    var a, b := JsArray.Slice(ProcessEntries(byId, ids), start, stop), ProcessEntries(byId, JsArray.Slice(ids, start, stop));
    assert |a| == |b|;
    forall i | 0 <= i < |a| ensures a[i] == b[i] {
    }
  }

  /** With no media, the page as written is the intended page, whatever its bounds. */
  lemma PagesAgreeWithoutMedia(byId: map<Uid, Process>, ids: seq<Uid>, mediaById: map<int, Media>, start: int, stop: int)
    ensures PageDataAsWritten(byId, ids, mediaById, [], start, stop) == PageData(byId, ids, mediaById, [], start, stop)
  {
    SliceProcessEntries(byId, ids, start, stop);
    assert SectionListing(byId, ids, mediaById, []) == ProcessEntries(byId, ids);
    var none: seq<int> := [];
    assert JsArray.Slice(none, |byId|, stop) == [];
  }

  /** A page that lies within the processes is the same as written and as intended. */
  lemma PageAgreesWithinProcesses(byId: map<Uid, Process>, ids: seq<Uid>, progress: seq<real>,
                                  mediaById: map<int, Media>, mediaIds: seq<int>, start: int, stop: int)
    requires ProcessIndex(byId, ids, progress) && 0 <= start && 0 <= stop <= |ids|
    ensures PageData(byId, ids, mediaById, mediaIds, start, stop) == PageDataAsWritten(byId, ids, mediaById, mediaIds, start, stop)
  {
    ListedCount(byId, ids, progress);
    var l := SectionListing(byId, ids, mediaById, mediaIds);
    assert JsArray.Slice(mediaIds, |byId|, stop) == [];
    if start < stop {
      assert l[start..stop] == ProcessEntries(byId, ids)[start..stop];
      assert ProcessEntries(byId, ids)[start..stop] == ProcessEntries(byId, ids[start..stop]);
    }
  }

  /**
   * The splices of `updateProcess` on the two lists: the old entry of `p.uid`
   * goes (when `indexOf` finds one) and `p` goes in where `findSortedIndex`
   * puts it; on sorted progress that is the repositioned listing.
   */
  method Resplice(ids: seq<Uid>, progress: seq<real>, p: Process)
    returns (ids': seq<Uid>, progress': seq<real>, currentIndex: int, sortedIndex: nat)
    requires |ids| == |progress| && Sorted(progress)
    ensures currentIndex == JsArray.IndexOf(ids, p.uid)
    ensures sortedIndex == NewIndex(ids, progress, p)
    ensures Listing(ids', progress') == Reposition(ids, progress, p)
  {
    ids', progress' := ids, progress;
    currentIndex := JsArray.IndexOf(ids', p.uid);
    if currentIndex > -1 {
      ids' := JsArray.RemoveAt(ids', currentIndex);
      progress' := JsArray.RemoveAt(progress', currentIndex);
      RemoveSorted(progress, currentIndex);
    }
    sortedIndex := FindSortedIndex(progress', p.percent);
    ids' := JsArray.InsertAt(ids', sortedIndex, p.uid);
    progress' := JsArray.InsertAt(progress', sortedIndex, p.percent);
  }

  /** `start <= i && i < stop`, the page-range test of `updateProcess`. */
  predicate InPage(i: int, start: int, stop: int)
  {
    start <= i < stop
  }

  /** One section of the project: its processes ordered by progress, its media, and the page on view. */
  class SectionData {
    const name: string
    const numMedia: int
    var processById: map<Uid, Process>
    var sortedIds: seq<Uid>
    var sortedProgress: seq<real>
    var mediaById: map<int, Media>
    var mediaIds: seq<int>
    var priority: bool
    var ready: bool
    var start: int
    var stop: int

    /** The parallel lists index the processes; no media is ever stored, since `fetchMedia` is never called. */
    ghost predicate Valid()
      reads this`processById, this`sortedIds, this`sortedProgress, this`mediaById, this`mediaIds
    {
      && ProcessIndex(processById, sortedIds, sortedProgress)
      && mediaById == map[] && mediaIds == []
    }

    /** A new section: nothing listed, not ready, not high priority, the empty page [0, 0). */
    constructor (name: string, numMedia: int)
      ensures Valid()
      ensures this.name == name && this.numMedia == numMedia
      ensures Initial()
    {
      this.name := name;
      this.numMedia := numMedia;
      processById := map[];
      sortedIds := [];
      sortedProgress := [];
      mediaById := map[];
      mediaIds := [];
      priority := false;
      ready := false;
      start := 0;
      stop := 0;
    }

    /** The state of a freshly constructed section. */
    predicate Initial()
      reads this
    {
      && processById == map[] && sortedIds == [] && sortedProgress == []
      && mediaById == map[] && mediaIds == []
      && !priority && !ready && start == 0 && stop == 0
    }

    /** The message `_emitUpdate` posts for the current page, built as written. */
    function Page(): Message
      reads this`processById, this`sortedIds, this`mediaById, this`mediaIds, this`start, this`stop
    {
      UpdateSection(name, PageDataAsWritten(processById, sortedIds, mediaById, mediaIds, start, stop))
    }

    /** `setPage(start, stop)`: the page moves and is posted. */
    method SetPage(start: int, stop: int) returns (msg: Message)
      modifies this`start, this`stop
      ensures this.start == start && this.stop == stop
      ensures msg == Page()
      ensures Valid() ==> msg.data == PageData(processById, sortedIds, mediaById, mediaIds, start, stop)
    {
      this.start := start;
      this.stop := stop;
      msg := Page();
      PagesAgreeWithoutMedia(processById, sortedIds, mediaById, start, stop);
    }

    /**
     * `updateProcess(p)`: `p` is stored under its uid, its old entry is
     * spliced out of both lists and a new one spliced in at the lower bound
     * of its progress; the page is posted when the old or the new index of
     * `p` lies on it.
     */
    method UpdateProcess(p: Process) returns (update: Option<Message>)
      requires Valid()
      modifies this`processById, this`sortedIds, this`sortedProgress
      ensures Valid()
      ensures processById == old(processById)[p.uid := p]
      ensures Listing(sortedIds, sortedProgress) == Reposition(old(sortedIds), old(sortedProgress), p)
      ensures update == if InPage(JsArray.IndexOf(old(sortedIds), p.uid), start, stop)
                           || InPage(NewIndex(old(sortedIds), old(sortedProgress), p), start, stop)
                        then Some(Page()) else None
      ensures update.Some? ==> update.value.data == PageData(processById, sortedIds, mediaById, mediaIds, start, stop)
    {
      RepositionKeepsIndex(processById, sortedIds, sortedProgress, p);
      processById := processById[p.uid := p];
      var currentIndex, sortedIndex;
      sortedIds, sortedProgress, currentIndex, sortedIndex := Resplice(sortedIds, sortedProgress, p);
      var currentInRange := currentIndex >= start && currentIndex < stop;
      var sortedInRange := sortedIndex >= start && sortedIndex < stop;
      if currentInRange || sortedInRange {
        update := Some(Page());
        PagesAgreeWithoutMedia(processById, sortedIds, mediaById, start, stop);
      } else {
        update := None;
      }
    }
  }

  /** No entry after `n` and before `i` repeats the key of entry `n`: its assignment is the last one among the first `i`. */
  predicate LastOf<V>(counts: seq<Pair<string, V>>, n: nat, i: nat)
  {
    forall j | n < j < i && j < |counts| :: counts[j].key != counts[n].key
  }

  /** Each section is filed under its own name and keeps its index, and no two names share a section. */
  ghost predicate Filed(sections: map<string, SectionData>)
    reads sections.Values
  {
    && (forall k | k in sections :: sections[k].name == k && sections[k].Valid())
    && (forall k, k' | k in sections && k' in sections && k != k' :: sections[k] != sections[k'])
  }

  /** Filing a section that is not yet filed, under its own name, keeps the sections filed. */
  lemma FiledExtend(sections: map<string, SectionData>, section: SectionData)
    requires Filed(sections) && section.Valid() && section !in sections.Values
    ensures Filed(sections[section.name := section])
  {
  }

  /** Every section is in its initial state. */
  ghost predicate AllInitial(sections: map<string, SectionData>)
    reads sections.Values
  {
    forall k | k in sections :: sections[k].Initial()
  }

  /** The `Map` that `map.set(key, count)` for each entry in order builds: the last count of each key. */
  function LastCounts(counts: seq<Pair<string, int>>): map<string, int>
  {
    if counts == [] then map[]
    else LastCounts(counts[..|counts| - 1])[counts[|counts| - 1].key := counts[|counts| - 1].val]
  }

  /** The keys are those of the entries, and each key holds the count of its last entry. */
  lemma {:induction false} LastCountsSpec(counts: seq<Pair<string, int>>)
    ensures LastCounts(counts).Keys == Keys(counts)
    ensures forall n | 0 <= n < |counts| && LastOf(counts, n, |counts|) ::
              counts[n].key in LastCounts(counts) && LastCounts(counts)[counts[n].key] == counts[n].val
  {
    if counts != [] {
      var init, last := counts[..|counts| - 1], counts[|counts| - 1];
      LastCountsSpec(init);
      assert Keys(counts) == Keys(init) + {last.key} by {
        assert counts == init + [last];
        forall x | x in Keys(counts) ensures x in Keys(init) + {last.key} {
          var j :| 0 <= j < |counts| && counts[j].key == x;
          if j < |init| { assert init[j] == counts[j]; }
        }
        forall x | x in Keys(init) ensures x in Keys(counts) {
          var j :| 0 <= j < |init| && init[j].key == x;
          assert counts[j] == init[j];
        }
      }
      forall n | 0 <= n < |counts| && LastOf(counts, n, |counts|)
        ensures counts[n].key in LastCounts(counts) && LastCounts(counts)[counts[n].key] == counts[n].val
      {
        if n < |init| {
          assert init[n] == counts[n];
          assert LastOf(init, n, |init|) by {
            forall j | n < j < |init| ensures init[j].key != init[n].key {
              assert init[j] == counts[j];
            }
          }
          assert last.key != counts[n].key;
        }
      }
    }
  }

  /** The loop of `setupSections`: `sections.set(key, new SectionData(key, count))` for each entry in order. */
  method NewSections(counts: seq<Pair<string, int>>) returns (sections: map<string, SectionData>)
    ensures sections.Keys == LastCounts(counts).Keys
    ensures forall k | k in sections :: sections[k].numMedia == LastCounts(counts)[k]
    ensures Filed(sections) && AllInitial(sections)
    ensures forall k | k in sections :: fresh(sections[k])
  {
    sections := map[];
    for i := 0 to |counts|
      invariant sections.Keys == LastCounts(counts[..i]).Keys
      invariant forall k | k in sections :: sections[k].numMedia == LastCounts(counts[..i])[k]
      invariant Filed(sections) && AllInitial(sections)
      invariant forall k | k in sections :: fresh(sections[k])
    {
      var section := new SectionData(counts[i].key, counts[i].val);
      assert counts[..i + 1][..i] == counts[..i];
      FiledExtend(sections, section);
      sections := sections[counts[i].key := section];
    }
    assert counts[..|counts|] == counts;
  }

  /** The worker's global state: `self.sections` and the messages posted to the page. */
  class Worker {
    var sections: map<string, SectionData>
    var outbox: seq<Message>

    /** The sections are filed by name. */
    ghost predicate Valid()
      reads this, sections.Values
    {
      Filed(sections)
    }

    /** Before `setupSections` there are no sections: a `sectionPage` then fails as `get` of an unknown name does. */
    constructor ()
      ensures Valid()
      ensures sections == map[] && outbox == []
    {
      sections := map[];
      outbox := [];
    }

    /**
     * `setupSections(sectionCounts)`: the counts are posted as they are,
     * then `self.sections` is replaced by one new section per key, holding
     * the count of the key's last entry, in its initial state.
     */
    method SetupSections(counts: seq<Pair<string, int>>)
      modifies this`sections, this`outbox
      ensures Valid()
      ensures outbox == old(outbox) + [Message.SetupSections(counts)]
      ensures sections.Keys == Keys(counts)
      ensures forall n | 0 <= n < |counts| && LastOf(counts, n, |counts|) :: sections[counts[n].key].numMedia == counts[n].val
      ensures AllInitial(sections) && forall k | k in sections :: fresh(sections[k])
    {
      outbox := outbox + [Message.SetupSections(counts)];
      sections := NewSections(counts);
      LastCountsSpec(counts);
    }

    /**
     * The `sectionPage` command: the named section moves to [start, stop)
     * and posts its page; an unknown name changes nothing, as the
     * `TypeError` of `undefined.setPage` ends the handler.
     */
    method SectionPage(name: string, start: int, stop: int)
      requires Valid()
      modifies this`outbox, sections.Values`start, sections.Values`stop
      ensures Valid()
      ensures sections == old(sections)
      ensures name in sections ==> && sections[name].start == start && sections[name].stop == stop
                                   && outbox == old(outbox) + [sections[name].Page()]
      ensures name !in sections ==> outbox == old(outbox)
      ensures forall k | k in sections && k != name :: unchanged(sections[k])
    {
      if name in sections {
        var section := sections[name];
        var msg := section.SetPage(start, stop);
        outbox := outbox + [msg];
      }
    }
  }
}
