/**
 * The local annotation store of main/static/js/annotation/annotation-data.js:
 * the `dataTypes` setter classifies the annotation types and registers their
 * fetch URLs, fetched lists are stored per type, and `updateTypeLocal`
 * applies a POST, PATCH or DELETE to a stored list without a round trip.
 * Fetches and DOM events are the store's `outbox`.
 */
module AnnotationData {
  import opened Wrappers
  import opened Assoc
  import JsArray

  /** A JSON value. Objects keep their keys in insertion order. */
  datatype JsVal =
    | JsUndefined
    | JsNull
    | JsBool(b: bool)
    | JsNum(n: real)
    | JsStr(s: string)
    | JsArr(elems: seq<JsVal>)
    | JsObj(fields: seq<Pair<string, JsVal>>)

  /** A JavaScript object; the objects of the store have distinct keys. */
  type Obj = seq<Pair<string, JsVal>>

  /** `obj[k]`: a missing key reads as `undefined`. */
  function Prop(o: Obj, k: string): (v: JsVal)
    ensures k !in Keys(o) ==> v == JsUndefined
    ensures k in Keys(o) ==> Get(o, k) == Some(v)
  {
    match Get(o, k)
    case Some(v) => v
    case None => JsUndefined
  }

  /** An annotation type's `type` record: its id and the optional keys the classification reads. */
  datatype EntityType = EntityType(
    id: int,
    resourcetype: Option<JsVal>,
    association: Option<JsVal>,
    interpolation: Option<JsVal>)

  /** A dataType of the setter: the type record, the URL of its annotations, its column names, and the three flags. */
  datatype DataType = DataType(
    entityType: EntityType,
    data: string,
    columns: seq<string>,
    isLocalization: bool,
    isTrack: bool,
    isTLState: bool)

  /** `sub` occurs in `s` starting at position `i`. */
  predicate OccursAt(s: string, sub: string, i: nat)
  {
    i + |sub| <= |s| && s[i..i + |sub|] == sub
  }

  /** `s.includes(sub)` for strings: `sub` occurs at some position of `s`. */
  function Includes(s: string, sub: string): (r: bool)
    ensures r <==> exists i: nat :: OccursAt(s, sub, i)
    decreases |s|
  {
    if |sub| > |s| then false
    else if s[..|sub|] == sub then assert OccursAt(s, sub, 0); true
    else
      var r := Includes(s[1..], sub);
      assert r <==> exists i: nat :: OccursAt(s, sub, i) by {
        if r {
          var i: nat :| OccursAt(s[1..], sub, i);
          assert s[i + 1..i + 1 + |sub|] == s[1..][i..i + |sub|];
          assert OccursAt(s, sub, i + 1);
        }
        forall i: nat | OccursAt(s, sub, i) ensures r {
          assert i != 0;
          assert s[1..][i - 1..i - 1 + |sub|] == s[i..i + |sub|];
          assert OccursAt(s[1..], sub, i - 1);
        }
      }
      r
  }

  /** `type.resourcetype.includes("EntityTypeLocalization")`, false when the key is absent. */
  predicate IsLocalization(t: EntityType)
  {
    match t.resourcetype
    case Some(JsStr(s)) => Includes(s, "EntityTypeLocalization")
    case Some(JsArr(a)) => JsStr("EntityTypeLocalization") in a
    case _ => false
  }

  /** `type.association == "Localization"`, false when the key is absent. */
  predicate IsTrack(t: EntityType)
  {
    t.association == Some(JsStr("Localization"))
  }

  /** `type.interpolation == "latest"`, false when the key is absent. */
  predicate IsTLState(t: EntityType)
  {
    t.interpolation == Some(JsStr("latest"))
  }

  /** A dataType with the three flags the setter assigns. */
  function Flagged(d: DataType): DataType
  {
    d.(isLocalization := IsLocalization(d.entityType), isTrack := IsTrack(d.entityType), isTLState := IsTLState(d.entityType))
  }

  predicate Increasing(s: seq<nat>)
  {
    forall i, j | 0 <= i < j < |s| :: s[i] < s[j]
  }

  /** Appending an index above all others keeps a list increasing, and adds exactly that index. */
  lemma AppendIndex(ids: seq<nat>, idx: nat)
    requires Increasing(ids) && forall k | 0 <= k < |ids| :: ids[k] < idx
    ensures Increasing(ids + [idx])
    ensures forall k | 0 <= k < |ids| + 1 :: (ids + [idx])[k] < idx + 1
    ensures forall i :: i in ids + [idx] <==> i in ids || i == idx
  {
  }

  /**
   * The classification loop of the `dataTypes` setter: every dataType gets
   * its flags, and its index goes to the tracks when it is a track and to
   * the localizations otherwise, each list in increasing order.
   */
  method ClassifyTypes(val: seq<DataType>) returns (flagged: seq<DataType>, trackTypeIds: seq<nat>, localTypeIds: seq<nat>)
    ensures |flagged| == |val| && forall i | 0 <= i < |val| :: flagged[i] == Flagged(val[i])
    ensures forall i | 0 <= i < |val| :: (i in trackTypeIds <==> IsTrack(val[i].entityType))
    ensures forall i | 0 <= i < |val| :: (i in localTypeIds <==> !IsTrack(val[i].entityType))
    ensures (forall k | 0 <= k < |trackTypeIds| :: trackTypeIds[k] < |val|)
    ensures (forall k | 0 <= k < |localTypeIds| :: localTypeIds[k] < |val|)
    ensures Increasing(trackTypeIds) && Increasing(localTypeIds)
    ensures |trackTypeIds| + |localTypeIds| == |val|
  {
    flagged, trackTypeIds, localTypeIds := [], [], [];
    for idx := 0 to |val|
      invariant |flagged| == idx && forall i | 0 <= i < idx :: flagged[i] == Flagged(val[i])
      invariant forall i | 0 <= i < idx :: (i in trackTypeIds <==> IsTrack(val[i].entityType))
      invariant forall i | 0 <= i < idx :: (i in localTypeIds <==> !IsTrack(val[i].entityType))
      invariant forall k | 0 <= k < |trackTypeIds| :: trackTypeIds[k] < idx
      invariant forall k | 0 <= k < |localTypeIds| :: localTypeIds[k] < idx
      invariant Increasing(trackTypeIds) && Increasing(localTypeIds)
      invariant |trackTypeIds| + |localTypeIds| == idx
    {
      var dataType := val[idx];
      var isLocalization := false;
      var isTrack := false;
      var isTLState := false;
      if dataType.entityType.resourcetype.Some? {
        isLocalization := IsLocalization(dataType.entityType);
      }
      if dataType.entityType.association.Some? {
        isTrack := dataType.entityType.association.value == JsStr("Localization");
      }
      if dataType.entityType.interpolation.Some? {
        isTLState := dataType.entityType.interpolation.value == JsStr("latest");
      }
      assert isTrack == IsTrack(dataType.entityType);
      flagged := flagged + [dataType.(isLocalization := isLocalization, isTrack := isTrack, isTLState := isTLState)];
      if isTrack {
        AppendIndex(trackTypeIds, idx);
        trackTypeIds := trackTypeIds + [idx];
      } else {
        AppendIndex(localTypeIds, idx);
        localTypeIds := localTypeIds + [idx];
      }
    }
  }

  /** No later dataType carries the id of dataType `n`: its assignment to `_dataTypes` is the last one. */
  predicate LastWithId(val: seq<DataType>, n: nat)
  {
    forall j | n < j < |val| :: val[j].entityType.id != val[n].entityType.id
  }

  /** The type ids of a list of dataTypes. */
  function TypeIds(val: seq<DataType>): set<int>
  {
    set n | 0 <= n < |val| :: val[n].entityType.id
  }

  /** The loop that fills `_dataTypes`: `map[dataType.type.id] = dataType` for each dataType in order. */
  method IndexById(val: seq<DataType>) returns (m: map<int, DataType>)
    ensures m.Keys == TypeIds(val)
    ensures forall n | 0 <= n < |val| && LastWithId(val, n) :: m[val[n].entityType.id] == val[n]
  {
    m := map[];
    for i := 0 to |val|
      invariant m.Keys == TypeIds(val[..i])
      invariant forall n | 0 <= n < i :: val[n].entityType.id in m
      invariant forall n | 0 <= n < i && (forall j | n < j < i :: val[j].entityType.id != val[n].entityType.id) ::
                  m[val[n].entityType.id] == val[n]
    {
      assert TypeIds(val[..i + 1]) == TypeIds(val[..i]) + {val[i].entityType.id} by {
        assert forall n | 0 <= n < i :: val[..i + 1][n] == val[..i][n];
        assert val[..i + 1][i] == val[i];
      }
      m := m[val[i].entityType.id := val[i]];
    }
    assert val[..|val|] == val;
  }

  /** The dataTypes at the given indices, in the order of the indices. */
  function Pick(val: seq<DataType>, idxs: seq<nat>): (r: seq<DataType>)
    requires forall k | 0 <= k < |idxs| :: idxs[k] < |val|
    ensures |r| == |idxs| && forall k | 0 <= k < |idxs| :: r[k] == val[idxs[k]]
  {
    seq(|idxs|, k requires 0 <= k < |idxs| => val[idxs[k]])
  }

  /** `attributes[key] = body[key]` for every key of `body` that names a column, in key order: the column entries of `body`. */
  function ColumnValues(body: Obj, names: seq<string>): (r: Obj)
    ensures Keys(r) <= Keys(body)
  {
    if body == [] then []
    else
      var init, last := body[..|body| - 1], body[|body| - 1];
      var r := ColumnValues(init, names) + (if last.key in names then [last] else []);
      assert Keys(init) <= Keys(body) by {
        forall x | x in Keys(init) ensures x in Keys(body) {
          var j :| 0 <= j < |init| && init[j].key == x;
          assert body[j] == init[j];
        }
      }
      r
  }

  /** The attributes hold exactly the keys of `body` that name columns, each with its value in `body`, and no key twice. */
  lemma {:induction false} ColumnValuesSpec(body: Obj, names: seq<string>)
    requires DistinctKeys(body)
    ensures DistinctKeys(ColumnValues(body, names))
    ensures forall k :: k in Keys(ColumnValues(body, names)) <==> k in Keys(body) && k in names
    ensures forall k | k in Keys(ColumnValues(body, names)) :: Prop(ColumnValues(body, names), k) == Prop(body, k)
  {
    if body != [] {
      var init, last := body[..|body| - 1], body[|body| - 1];
      assert body == init + [last];
      SnocDistinct(init, last);
      SnocKeys(init, last);
      ColumnValuesSpec(init, names);
      var c := ColumnValues(init, names);
      if last.key in names {
        SnocDistinct(c, last);
        SnocKeys(c, last);
      } else {
        assert c + [] == c;
      }
    }
  }

  /** `obj.id = id; obj.meta = typeId; obj.attributes = {}`: the body as `setupObject` has tagged it, before the attribute loop. */
  function Tagged(body: Obj, id: JsVal, typeId: int): Obj
  {
    Put(Put(Put(body, "id", id), "meta", JsNum(typeId as real)), "attributes", JsObj([]))
  }

  /** `{frame: body.frame, media: [Number(body.media_ids)]}`, with `Number` given as `toNumber`. */
  function Association(o: Obj, toNumber: JsVal -> JsVal): JsVal
  {
    JsObj([Pair("frame", Prop(o, "frame")), Pair("media", JsArr([toNumber(Prop(o, "media_ids"))]))])
  }

  /** The object `setupObject(body)` returns: the tagged body with its column attributes, and its association on a TL-state type. */
  function SetUp(body: Obj, id: JsVal, typeId: int, names: seq<string>, isTLState: bool, toNumber: JsVal -> JsVal): Obj
  {
    var t := Tagged(body, id, typeId);
    var o := Put(t, "attributes", JsObj(ColumnValues(t, names)));
    if isTLState then Put(o, "association", Association(o, toNumber)) else o
  }

  /** `o[k] = v` read back through `Prop`: `k` reads `v`, every other key is untouched, and the keys stay distinct. */
  lemma PutProp(o: Obj, k: string, v: JsVal)
    requires DistinctKeys(o)
    ensures DistinctKeys(Put(o, k, v))
    ensures forall k' :: k' in Keys(Put(o, k, v)) <==> k' in Keys(o) || k' == k
    ensures Prop(Put(o, k, v), k) == v
    ensures forall k' | k' != k :: Prop(Put(o, k, v), k') == Prop(o, k')
  {
    PutGet(o, k, v);
  }

  /** The tagged body reads `id`, `meta` and an empty `attributes`, and every other key as the body does. */
  lemma TaggedSpec(body: Obj, id: JsVal, typeId: int)
    requires DistinctKeys(body)
    ensures var t := Tagged(body, id, typeId);
            && DistinctKeys(t)
            && (forall k :: k in Keys(t) <==> k in Keys(body) || k == "id" || k == "meta" || k == "attributes")
            && Prop(t, "id") == id && Prop(t, "meta") == JsNum(typeId as real) && Prop(t, "attributes") == JsObj([])
            && forall k | k != "id" && k != "meta" && k != "attributes" :: Prop(t, k) == Prop(body, k)
  {
    var t1 := Put(body, "id", id);
    PutProp(body, "id", id);
    var t2 := Put(t1, "meta", JsNum(typeId as real));
    PutProp(t1, "meta", JsNum(typeId as real));
    PutProp(t2, "attributes", JsObj([]));
    assert "id" != "meta" && "id" != "attributes" && "meta" != "attributes";
  }

  /**
   * The element a POST adds: it carries `id` and `meta = typeId`, its
   * attributes hold the column entries of the tagged body, a TL-state
   * element also gets its association, and every other key of the body
   * keeps its value.
   */
  lemma SetUpSpec(body: Obj, id: JsVal, typeId: int, names: seq<string>, isTLState: bool, toNumber: JsVal -> JsVal)
    requires DistinctKeys(body)
    ensures var r := SetUp(body, id, typeId, names, isTLState, toNumber);
            var t := Tagged(body, id, typeId);
            && DistinctKeys(r)
            && Prop(r, "id") == id
            && Prop(r, "meta") == JsNum(typeId as real)
            && Prop(r, "attributes") == JsObj(ColumnValues(t, names))
            && (isTLState ==> Prop(r, "association") == Association(t, toNumber))
            && (forall k | k != "id" && k != "meta" && k != "attributes" && (isTLState ==> k != "association") ::
                  Prop(r, k) == Prop(body, k))
            && (forall k :: k in Keys(r) <==> (k in Keys(body) || k == "id" || k == "meta" || k == "attributes"
                                             || (isTLState && k == "association")))
  {
    var t := Tagged(body, id, typeId);
    TaggedSpec(body, id, typeId);
    var o := Put(t, "attributes", JsObj(ColumnValues(t, names)));
    PutProp(t, "attributes", JsObj(ColumnValues(t, names)));
    assert "frame" != "attributes" && "media_ids" != "attributes";
    assert Association(o, toNumber) == Association(t, toNumber);
    if isTLState {
      PutProp(o, "association", Association(o, toNumber));
      assert "association" != "id" && "association" != "meta" && "association" != "attributes";
    }
  }

  /** One turn of the attribute loop: entry `i` of `t` joins the attributes exactly when its key names a column. */
  lemma ColumnStep(t: Obj, i: nat, names: seq<string>)
    requires DistinctKeys(t) && i < |t|
    ensures ColumnValues(t[..i + 1], names)
         == if t[i].key in names then Put(ColumnValues(t[..i], names), t[i].key, Prop(t, t[i].key)) else ColumnValues(t[..i], names)
  {
    assert t[..i + 1][..i] == t[..i];
    assert t[..i + 1][i] == t[i];
    if t[i].key in names {
      assert t[..i + 1] == t[..i] + [t[i]];
      PrefixDistinct(t, i + 1);
      SnocDistinct(t[..i], t[i]);
      FindDistinct(t, i);
      assert Find(ColumnValues(t[..i], names), t[i].key).None?;
    } else {
      assert ColumnValues(t[..i], names) + [] == ColumnValues(t[..i], names);
    }
  }

  /**
   * `setupObject(body)`: the body is tagged, then `attributes[key] =
   * body[key]` for every key of the body that names a column, in key order.
   * A column named "attributes" would make the attributes object contain
   * itself; such types are not modelled.
   */
  method SetupObject(body: Obj, id: JsVal, typeId: int, names: seq<string>, isTLState: bool, toNumber: JsVal -> JsVal)
    returns (obj: Obj)
    requires DistinctKeys(body) && "attributes" !in names
    ensures obj == SetUp(body, id, typeId, names, isTLState, toNumber)
  {
    obj := Put(body, "id", id);
    obj := Put(obj, "meta", JsNum(typeId as real));
    obj := Put(obj, "attributes", JsObj([]));
    assert obj == Tagged(body, id, typeId);
    TaggedSpec(body, id, typeId);
    var attributes: Obj := [];
    for i := 0 to |obj|
      invariant attributes == ColumnValues(obj[..i], names)
    {
      var key := obj[i].key;
      ColumnStep(obj, i, names);
      if key in names {
        attributes := Put(attributes, key, Prop(obj, key));
      }
    }
    assert obj[..|obj|] == obj;
    obj := Put(obj, "attributes", JsObj(attributes));
    if isTLState {
      obj := Put(obj, "association", JsObj([Pair("frame", Prop(obj, "frame")),
                                             Pair("media", JsArr([toNumber(Prop(obj, "media_ids"))]))]));
    }
  }

  /** The element after a PATCH: each of its keys that the body also has takes the body's value; nothing else changes. */
  function Patched(elem: Obj, body: Obj): (r: Obj)
    ensures |r| == |elem|
  {
    seq(|elem|, j requires 0 <= j < |elem| =>
      if elem[j].key in Keys(body) then Pair(elem[j].key, Prop(body, elem[j].key)) else elem[j])
  }

  /**
   * A PATCH overwrites only keys the element already has, with the body's
   * values, adds no key and keeps the key order.
   */
  lemma PatchedSpec(elem: Obj, body: Obj)
    requires DistinctKeys(elem)
    ensures var r := Patched(elem, body);
            && (forall j | 0 <= j < |r| :: r[j].key == elem[j].key)
            && Keys(r) == Keys(elem)
            && DistinctKeys(r)
            && forall k :: Prop(r, k) == if k in Keys(elem) && k in Keys(body) then Prop(body, k) else Prop(elem, k)
  {
    var r := Patched(elem, body);
    assert forall j | 0 <= j < |r| :: r[j].key == elem[j].key;
    assert Keys(r) == Keys(elem) by {
      forall x | x in Keys(elem) ensures x in Keys(r) {
        var j :| 0 <= j < |elem| && elem[j].key == x;
        assert r[j].key == x;
      }
    }
    forall k ensures Prop(r, k) == if k in Keys(elem) && k in Keys(body) then Prop(body, k) else Prop(elem, k) {
      if k in Keys(elem) {
        var j := Find(elem, k).value;
        FindDistinct(elem, j);
        FindDistinct(r, j);
      }
    }
  }

  /** The PATCH loop: `if (key in elem) elem[key] = body[key]` for every key of the body. */
  method PatchElement(elem: Obj, body: Obj) returns (e: Obj)
    requires DistinctKeys(elem)
    ensures e == Patched(elem, body)
  {
    e := elem;
    for i := 0 to |body|
      invariant |e| == |elem|
      invariant forall j | 0 <= j < |elem| ::
                  e[j] == if elem[j].key in Keys(body[..i]) then Pair(elem[j].key, Prop(body, elem[j].key)) else elem[j]
    {
      var key := body[i].key;
      assert body[..i + 1] == body[..i] + [body[i]];
      SnocKeys(body[..i], body[i]);
      assert Keys(e) == Keys(elem) by {
        assert forall j | 0 <= j < |e| :: e[j].key == elem[j].key;
        forall x | x in Keys(elem) ensures x in Keys(e) {
          var j :| 0 <= j < |elem| && elem[j].key == x;
          assert e[j].key == x;
        }
      }
      if key in Keys(e) {
        var f := Find(e, key).value;
        assert elem[f].key == key;
        e := Put(e, key, Prop(body, key));
      }
    }
    assert body[..|body|] == body;
  }

  /** `list.map(elem => elem.id)`. */
  function ElemIds(list: seq<Obj>): (ids: seq<JsVal>)
    ensures |ids| == |list| && forall i | 0 <= i < |list| :: ids[i] == Prop(list[i], "id")
  {
    seq(|list|, i requires 0 <= i < |list| => Prop(list[i], "id"))
  }

  /** DELETE as written: `list.splice(ids.indexOf(id), 1)`, which with an absent id is `splice(-1, 1)`. */
  function DeleteAsWritten(list: seq<Obj>, id: JsVal): seq<Obj>
  {
    JsArray.SpliceOne(list, JsArray.IndexOf(ElemIds(list), id))
  }

  /** With an id that no element carries, DELETE as written still removes the last element. */
  lemma DeleteAbsentDropsLast(list: seq<Obj>, id: JsVal)
    requires list != [] && id !in ElemIds(list)
    ensures DeleteAsWritten(list, id) == list[..|list| - 1]
    ensures |DeleteAsWritten(list, id)| == |list| - 1 && Prop(list[|list| - 1], "id") != id
  {
    assert ElemIds(list)[|list| - 1] == Prop(list[|list| - 1], "id");
  }

  /** The concrete case: deleting id 2 from a list holding only the element with id 1 empties the list. */
  lemma DeleteAbsentExample()
    ensures DeleteAsWritten([[Pair("id", JsNum(1.0))]], JsNum(2.0)) == []
  {
    var list := [[Pair("id", JsNum(1.0))]];
    assert Prop(list[0], "id") == JsNum(1.0) by {
      FindDistinct(list[0], 0);
    }
    assert ElemIds(list) == [JsNum(1.0)];
    DeleteAbsentDropsLast(list, JsNum(2.0));
  }

  /** DELETE as intended: the first element with the id is removed, and nothing when there is none. */
  function DeleteById(list: seq<Obj>, id: JsVal): seq<Obj>
  {
    var index := JsArray.IndexOf(ElemIds(list), id);
    if index > -1 then JsArray.RemoveAt(list, index) else list
  }

  /**
   * The intended DELETE shrinks the list by one exactly when some element
   * has the id, leaves it alone otherwise, keeps every element with another
   * id and adds none.
   */
  lemma DeleteByIdSpec(list: seq<Obj>, id: JsVal)
    ensures id in ElemIds(list) ==> |DeleteById(list, id)| == |list| - 1
    ensures id !in ElemIds(list) ==> DeleteById(list, id) == list
    ensures forall e | e in list && Prop(e, "id") != id :: e in DeleteById(list, id)
    ensures forall e | e in DeleteById(list, id) :: e in list
  {
    var index := JsArray.IndexOf(ElemIds(list), id);
    if index > -1 {
      var r := DeleteById(list, id);
      RemoveAtSpec(list, index);
      forall e | e in list && Prop(e, "id") != id ensures e in r {
        var i :| 0 <= i < |list| && list[i] == e;
        assert i != index by {
          assert ElemIds(list)[i] == Prop(e, "id");
        }
      }
    }
  }

  /** Elements of `s.splice(c, 1)` come from `s`, and all of `s` but position `c` survive. */
  lemma RemoveAtSpec<T>(s: seq<T>, c: nat)
    requires c < |s|
    ensures forall x | x in JsArray.RemoveAt(s, c) :: x in s
    ensures forall i | 0 <= i < |s| && i != c :: s[i] in JsArray.RemoveAt(s, c)
  {
    var r := JsArray.RemoveAt(s, c);
    forall i | 0 <= i < |s| && i != c ensures s[i] in r {
      assert r[if i < c then i else i - 1] == s[i];
    }
  }

  /** What `updateTypeLocal` does to a stored list, DELETE included as written. */
  function ApplyLocal(httpMethod: string, id: JsVal, body: Obj, typeObj: DataType, list: seq<Obj>, toNumber: JsVal -> JsVal): seq<Obj>
  {
    if httpMethod == "POST" then
      list + [SetUp(body, id, typeObj.entityType.id, typeObj.columns, typeObj.isTLState, toNumber)]
    else if httpMethod == "PATCH" then
      var index := JsArray.IndexOf(ElemIds(list), id);
      if index > -1 then list[index := Patched(list[index], body)] else list
    else if httpMethod == "DELETE" then
      DeleteAsWritten(list, id)
    else
      list
  }

  /** Every stored object has distinct keys. */
  predicate AllDistinct(list: seq<Obj>)
  {
    forall i | 0 <= i < |list| :: DistinctKeys(list[i])
  }

  /** Appending an object with distinct keys keeps the list's objects distinct-keyed, and the old list is its prefix. */
  lemma PostKeeps(list: seq<Obj>, obj: Obj)
    requires AllDistinct(list) && DistinctKeys(obj)
    ensures AllDistinct(list + [obj]) && (list + [obj])[..|list|] == list
  {
    assert forall i | 0 <= i < |list| :: (list + [obj])[i] == list[i];
  }

  /** Replacing one element by its patched version keeps the objects distinct-keyed. */
  lemma PatchKeeps(list: seq<Obj>, index: nat, body: Obj)
    requires AllDistinct(list) && index < |list|
    ensures AllDistinct(list[index := Patched(list[index], body)])
  {
    PatchedSpec(list[index], body);
  }

  /** `splice(start, 1)`, for any start, keeps the objects distinct-keyed. */
  lemma RemoveKeeps(list: seq<Obj>, start: int)
    requires AllDistinct(list)
    ensures AllDistinct(JsArray.SpliceOne(list, start))
  {
    var index := JsArray.RelativeIndex(start, |list|);
    if index < |list| {
      var r := JsArray.RemoveAt(list, index);
      forall i | 0 <= i < |r| ensures DistinctKeys(r[i]) {
        assert r[i] == list[if i < index then i else i + 1];
      }
    }
  }

  /** When some element carries the id, DELETE as written and as intended agree: the first such element goes. */
  lemma DeletePresentAgrees(list: seq<Obj>, id: JsVal)
    requires id in ElemIds(list)
    ensures var i := JsArray.IndexOf(ElemIds(list), id);
            && 0 <= i < |list| && Prop(list[i], "id") == id
            && (forall j | 0 <= j < i :: Prop(list[j], "id") != id)
            && DeleteAsWritten(list, id) == DeleteById(list, id) == list[..i] + list[i + 1..]
  {
  }

  /**
   * A POST appends exactly one element at the end, a PATCH keeps the length
   * and every element but the first one with the id, a DELETE removes the
   * first element with the id (and, as written, the last element when no
   * element has it), and any other verb leaves the list as it is; all keep
   * the objects' keys distinct.
   */
  lemma ApplyLocalSpec(httpMethod: string, id: JsVal, body: Obj, typeObj: DataType, list: seq<Obj>, toNumber: JsVal -> JsVal)
    requires AllDistinct(list) && DistinctKeys(body)
    ensures AllDistinct(ApplyLocal(httpMethod, id, body, typeObj, list, toNumber))
    ensures httpMethod == "POST" ==>
              var r := ApplyLocal(httpMethod, id, body, typeObj, list, toNumber);
              |r| == |list| + 1 && r[..|list|] == list
    ensures httpMethod == "PATCH" ==>
              var r := ApplyLocal(httpMethod, id, body, typeObj, list, toNumber);
              && |r| == |list|
              && (forall j | 0 <= j < |list| && j != JsArray.IndexOf(ElemIds(list), id) :: r[j] == list[j])
              && (id !in ElemIds(list) ==> r == list)
    ensures httpMethod == "DELETE" ==>
              var r := ApplyLocal(httpMethod, id, body, typeObj, list, toNumber);
              var i := JsArray.IndexOf(ElemIds(list), id);
              && (id in ElemIds(list) ==> 0 <= i < |list| && Prop(list[i], "id") == id && r == list[..i] + list[i + 1..])
              && (id !in ElemIds(list) && list != [] ==> r == list[..|list| - 1])
              && (list == [] ==> r == [])
    ensures !IsListVerb(httpMethod) ==> ApplyLocal(httpMethod, id, body, typeObj, list, toNumber) == list
  {
    if httpMethod == "POST" {
      SetUpSpec(body, id, typeObj.entityType.id, typeObj.columns, typeObj.isTLState, toNumber);
      PostKeeps(list, SetUp(body, id, typeObj.entityType.id, typeObj.columns, typeObj.isTLState, toNumber));
    } else if httpMethod == "PATCH" {
      var index := JsArray.IndexOf(ElemIds(list), id);
      if index > -1 {
        PatchKeeps(list, index, body);
      }
    } else if httpMethod == "DELETE" {
      RemoveKeeps(list, JsArray.IndexOf(ElemIds(list), id));
      if id in ElemIds(list) {
        DeletePresentAgrees(list, id);
      } else if list != [] {
        DeleteAbsentDropsLast(list, id);
      }
    }
  }

  /** The list work of `updateTypeLocal` on a stored list, branch by branch as the source does it. */
  method LocalList(httpMethod: string, id: JsVal, body: Obj, typeObj: DataType, list: seq<Obj>, toNumber: JsVal -> JsVal)
    returns (list': seq<Obj>)
    requires AllDistinct(list) && DistinctKeys(body) && "attributes" !in typeObj.columns
    ensures list' == ApplyLocal(httpMethod, id, body, typeObj, list, toNumber)
    ensures AllDistinct(list')
  {
    list' := list;
    if httpMethod == "POST" {
      var obj := SetupObject(body, id, typeObj.entityType.id, typeObj.columns, typeObj.isTLState, toNumber);
      list' := list' + [obj];
    } else if httpMethod == "PATCH" {
      var ids := ElemIds(list');
      var index := JsArray.IndexOf(ids, id);
      if index > -1 {
        var elem := PatchElement(list'[index], body);
        list' := list'[index := elem];
      }
    } else if httpMethod == "DELETE" {
      var ids := ElemIds(list');
      var index := JsArray.IndexOf(ids, id);
      list' := JsArray.SpliceOne(list', index);
    }
    ApplyLocalSpec(httpMethod, id, body, typeObj, list, toNumber);
  }

  /** The list a type holds: absent before its first fetch, `undefined` after a failed one. */
  function Stored(dataByType: map<int, Option<seq<Obj>>>, typeId: int): Option<seq<Obj>>
  {
    if typeId in dataByType then dataByType[typeId] else None
  }

  /** Every stored list holds objects with distinct keys. */
  predicate StoreInvariant(dataByType: map<int, Option<seq<Obj>>>)
  {
    forall t | t in dataByType && dataByType[t].Some? :: AllDistinct(dataByType[t].value)
  }

  /** `map.set(type.id, dataType.data)` for each dataType in order. */
  function Registered(urls: map<int, string>, types: seq<DataType>): map<int, string>
  {
    if types == [] then urls
    else Registered(urls, types[..|types| - 1])[types[|types| - 1].entityType.id := types[|types| - 1].data]
  }

  /** Appending a dataType adds its id to the type ids. */
  lemma TypeIdsSnoc(init: seq<DataType>, last: DataType)
    ensures forall x :: x in TypeIds(init + [last]) <==> x in TypeIds(init) || x == last.entityType.id
  {
    var types := init + [last];
    assert types[|init|] == last;
    forall x | x in TypeIds(types) ensures x in TypeIds(init) || x == last.entityType.id {
      var j :| 0 <= j < |types| && types[j].entityType.id == x;
      if j < |init| { assert init[j] == types[j]; }
    }
    forall x | x in TypeIds(init) ensures x in TypeIds(types) {
      var j :| 0 <= j < |init| && init[j].entityType.id == x;
      assert types[j] == init[j];
    }
  }

  /** After registration every type id of the list is registered with the URL of its last dataType, and other ids keep theirs. */
  lemma {:induction false} RegisteredSpec(urls: map<int, string>, types: seq<DataType>)
    ensures forall k :: k in Registered(urls, types) <==> k in urls || k in TypeIds(types)
    ensures forall n | 0 <= n < |types| :: types[n].entityType.id in Registered(urls, types)
    ensures forall n | 0 <= n < |types| && LastWithId(types, n) :: Registered(urls, types)[types[n].entityType.id] == types[n].data
    ensures forall k | k in urls && k !in TypeIds(types) :: Registered(urls, types)[k] == urls[k]
  {
    if types != [] {
      var init, last := types[..|types| - 1], types[|types| - 1];
      RegisteredSpec(urls, init);
      TypeIdsSnoc(init, last);
      assert types == init + [last];
      forall n | 0 <= n < |types| && LastWithId(types, n)
        ensures Registered(urls, types)[types[n].entityType.id] == types[n].data
      {
        if n < |init| {
          assert init[n] == types[n];
          assert LastWithId(init, n) by {
            forall j | n < j < |init| ensures init[j].entityType.id != init[n].entityType.id {
              assert init[j] == types[j];
            }
          }
        }
      }
    }
  }

  /** The fetch `updateType` starts for each dataType just registered. */
  function Fetches(types: seq<DataType>): (r: seq<Effect>)
    ensures |r| == |types|
  {
    seq(|types|, k requires 0 <= k < |types| => FetchType(types[k].entityType.id, types[k].data))
  }

  /** The requests the store makes and the events it dispatches. */
  datatype Effect =
    | FetchType(typeId: int, url: string)
    | FreshData(typeId: int, data: Option<seq<Obj>>)

  /** How `updateTypeLocal` ends: it applied the verb, it refused an unregistered type, or it threw reading `undefined`. */
  datatype Outcome = Applied | Unregistered | TypeError

  /** The `<annotation-data>` element's state. */
  class AnnotationStore {
    /** `Number(x)`: JavaScript's number conversion, left abstract. */
    const toNumber: JsVal -> JsVal
    var updateUrls: map<int, string>
    var dataByType: map<int, Option<seq<Obj>>>
    var dataTypes: map<int, DataType>
    /** Every fetch and every `freshData` event, in order. */
    var outbox: seq<Effect>

    ghost predicate Valid()
      reads this`dataByType
    {
      StoreInvariant(dataByType)
    }

    constructor (toNumber: JsVal -> JsVal)
      ensures Valid()
      ensures this.toNumber == toNumber
      ensures updateUrls == map[] && dataByType == map[] && dataTypes == map[] && outbox == []
    {
      this.toNumber := toNumber;
      updateUrls := map[];
      dataByType := map[];
      dataTypes := map[];
      outbox := [];
    }

    /** `updateType(typeObj)`: a registered type's annotations are fetched from its URL; an unregistered one only logs. */
    method UpdateType(typeObj: DataType)
      modifies this`outbox
      ensures outbox == old(outbox) + (if typeObj.entityType.id in updateUrls
                                     then [FetchType(typeObj.entityType.id, updateUrls[typeObj.entityType.id])] else [])
    {
      var typeId := typeObj.entityType.id;
      if typeId !in updateUrls {
        return;
      }
      outbox := outbox + [FetchType(typeId, updateUrls[typeId])];
    }

    /** The response of that fetch: the list (or `undefined`, when the response was not ok) is stored and announced. */
    method StoreFetched(typeObj: DataType, json: Option<seq<Obj>>)
      requires Valid() && (json.Some? ==> AllDistinct(json.value))
      modifies this`dataByType, this`outbox
      ensures Valid()
      ensures dataByType == old(dataByType)[typeObj.entityType.id := json]
      ensures outbox == old(outbox) + [FreshData(typeObj.entityType.id, json)]
    {
      dataByType := dataByType[typeObj.entityType.id := json];
      outbox := outbox + [FreshData(typeObj.entityType.id, json)];
    }

    /** `forEach(typeIdx => { _updateUrls.set(id, data); updateType(...) })` over the given dataTypes. */
    method RegisterTypes(types: seq<DataType>)
      modifies this`updateUrls, this`outbox
      ensures updateUrls == Registered(old(updateUrls), types)
      ensures outbox == old(outbox) + Fetches(types)
    {
      for k := 0 to |types|
        invariant updateUrls == Registered(old(updateUrls), types[..k])
        invariant outbox == old(outbox) + Fetches(types[..k])
      {
        assert types[..k + 1][..k] == types[..k];
        updateUrls := updateUrls[types[k].entityType.id := types[k].data];
        UpdateType(types[k]);
        assert Fetches(types[..k + 1]) == Fetches(types[..k]) + [FetchType(types[k].entityType.id, types[k].data)];
      }
      assert types[..|types|] == types;
    }

    /**
     * The `dataTypes` setter, up to the promise of the tracks: the dataTypes
     * are flagged and split, the tracks are registered and fetched, and
     * `_dataTypes` maps each type id to its last dataType.
     */
    method SetDataTypes(val: seq<DataType>) returns (flagged: seq<DataType>, trackTypeIds: seq<nat>, localTypeIds: seq<nat>)
      modifies this`updateUrls, this`outbox, this`dataTypes
      ensures |flagged| == |val| && forall i | 0 <= i < |val| :: flagged[i] == Flagged(val[i])
      ensures forall i | 0 <= i < |val| :: (i in trackTypeIds <==> IsTrack(val[i].entityType))
      ensures forall i | 0 <= i < |val| :: (i in localTypeIds <==> !IsTrack(val[i].entityType))
      ensures (forall k | 0 <= k < |trackTypeIds| :: trackTypeIds[k] < |val|)
      ensures (forall k | 0 <= k < |localTypeIds| :: localTypeIds[k] < |val|)
      ensures Increasing(trackTypeIds) && Increasing(localTypeIds)
      ensures updateUrls == Registered(old(updateUrls), Pick(flagged, trackTypeIds))
      ensures outbox == old(outbox) + Fetches(Pick(flagged, trackTypeIds))
      ensures dataTypes.Keys == TypeIds(flagged)
      ensures forall n | 0 <= n < |flagged| && LastWithId(flagged, n) :: dataTypes[flagged[n].entityType.id] == flagged[n]
    {
      flagged, trackTypeIds, localTypeIds := ClassifyTypes(val);
      RegisterTypes(Pick(flagged, trackTypeIds));
      dataTypes := IndexById(flagged);
    }

    /** `tracksDone.then(...)`: the localizations are registered and fetched once the tracks are in. */
    method OnTracksDone(flagged: seq<DataType>, localTypeIds: seq<nat>)
      requires forall k | 0 <= k < |localTypeIds| :: localTypeIds[k] < |flagged|
      modifies this`updateUrls, this`outbox
      ensures updateUrls == Registered(old(updateUrls), Pick(flagged, localTypeIds))
      ensures outbox == old(outbox) + Fetches(Pick(flagged, localTypeIds))
    {
      RegisterTypes(Pick(flagged, localTypeIds));
    }

    /**
     * `updateTypeLocal(method, id, body, typeObj)`: an unregistered type
     * changes nothing; POST, PATCH and DELETE on a type with no stored list
     * throw, and so does a PATCH of an id the list does not hold with a
     * non-empty body; otherwise the verb is applied to the stored list and
     * the list is announced.
     */
    method UpdateTypeLocal(httpMethod: string, id: JsVal, body: Obj, typeObj: DataType) returns (outcome: Outcome)
      requires Valid() && DistinctKeys(body) && "attributes" !in typeObj.columns
      modifies this`dataByType, this`outbox
      ensures Valid()
      ensures typeObj.entityType.id !in updateUrls ==>
                outcome == Unregistered && dataByType == old(dataByType) && outbox == old(outbox)
      ensures typeObj.entityType.id in updateUrls && Throws(httpMethod, id, body, Stored(old(dataByType), typeObj.entityType.id)) ==>
                outcome == TypeError && dataByType == old(dataByType) && outbox == old(outbox)
      ensures typeObj.entityType.id in updateUrls && !IsListVerb(httpMethod) ==>
                && outcome == Applied && dataByType == old(dataByType)
                && outbox == old(outbox) + [FreshData(typeObj.entityType.id, Stored(dataByType, typeObj.entityType.id))]
      ensures typeObj.entityType.id in updateUrls && IsListVerb(httpMethod) && !Throws(httpMethod, id, body, Stored(old(dataByType), typeObj.entityType.id)) ==>
                && Stored(old(dataByType), typeObj.entityType.id).Some?
                && outcome == Applied
                && dataByType == old(dataByType)[typeObj.entityType.id :=
                     Some(ApplyLocal(httpMethod, id, body, typeObj, Stored(old(dataByType), typeObj.entityType.id).value, toNumber))]
                && outbox == old(outbox) + [FreshData(typeObj.entityType.id, Stored(dataByType, typeObj.entityType.id))]
    {
      var typeId := typeObj.entityType.id;
      if typeId !in updateUrls {
        outcome := Unregistered;
        return;
      }
      if IsListVerb(httpMethod) {
        var stored := Stored(dataByType, typeId);
        if stored.None? {
          outcome := TypeError;
          return;
        }
        if httpMethod == "PATCH" && JsArray.IndexOf(ElemIds(stored.value), id) == -1 && body != [] {
          // `key in undefined` for the first key of the body
          outcome := TypeError;
          return;
        }
        var list := LocalList(httpMethod, id, body, typeObj, stored.value, toNumber);
        dataByType := dataByType[typeId := Some(list)];
      }
      outbox := outbox + [FreshData(typeId, Stored(dataByType, typeId))];
      outcome := Applied;
    }
  }

  /**
   * The calls of `updateTypeLocal` on a registered type that throw a
   * TypeError before the event: a list verb when no list is stored, and a
   * PATCH of an absent id, whose `elem` is `undefined`, once the body has a
   * key to test with `in`.
   */
  predicate Throws(httpMethod: string, id: JsVal, body: Obj, stored: Option<seq<Obj>>)
  {
    || (IsListVerb(httpMethod) && stored.None?)
    || (httpMethod == "PATCH" && stored.Some? && id !in ElemIds(stored.value) && body != [])
  }

  /** The verbs that read the stored list. */
  predicate IsListVerb(httpMethod: string)
  {
    httpMethod == "POST" || httpMethod == "PATCH" || httpMethod == "DELETE"
  }
}
