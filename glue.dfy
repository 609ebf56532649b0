/** The value codec of the binding: wire values to JavaScript values when rows
    come back from the server, JavaScript values to wire values when query
    parameters go out. Both directions are total recursive functions with an
    explicit failure; failure is what the C++ code signals with an empty
    `std::optional` and a pending JavaScript exception. */
module Glue {
  import opened Wrappers
  import opened Numbers
  import opened JsValues
  import opened MgValues

  /** Why a wire value could not be turned into a JavaScript value:
      `MG_VALUE_TYPE_UNKNOWN` raises an `Error`, a tag without a case raises a
      `TypeError`. */
  datatype DecodeError = UnknownType | UnrecognizedType

  /** Why a JavaScript value could not be turned into a wire value: a BigInt
      outside int64, or a value that is neither a primitive the codec knows nor
      an object (a Symbol). */
  datatype EncodeError = LossyInteger | UnrecognizedJsValue

  // ---------------------------------------------------------------------------
  // Decoding (`MgValueToNapiValue` and its helpers)
  // ---------------------------------------------------------------------------

  /** `MgValueToNapiValue`: the tag selects the conversion. */
  function DecodeValue(v: MgValue): Result<JsValue, DecodeError>
    decreases v, 1
  {
    match v
    case MgNull => Success(Null)
    case MgBool(b) => Success(Bool(b))
    case MgInteger(i) => Success(BigInt(i))
    case MgFloat(f) => Success(Num(f))
    case MgString(s) => Success(Str(s))
    case MgList(items) =>
      var elems :- DecodeList(items);
      Success(Array(elems))
    case MgMap(entries) =>
      var props :- DecodeMap(entries);
      Success(Object(props))
    case MgNodeValue(n) =>
      var props :- DecodeNode(n);
      Success(Object(props))
    case MgRelationshipValue(r) =>
      var props :- DecodeRelationship(r);
      Success(Object(props))
    case MgUnboundRelationshipValue(u) =>
      var props :- DecodeUnboundRelationship(u);
      Success(Object(props))
    case MgPathValue(p) =>
      var props :- DecodePath(p);
      Success(Object(props))
    case MgUnknown => Failure(UnknownType)
    case MgOther(_) => Failure(UnrecognizedType)
  }

  /** `MgListToNapiArray`: element by element, from the first; the first element
      that fails fails the list. */
  function DecodeList(items: seq<MgValue>): (r: Result<seq<JsValue>, DecodeError>)
    ensures r.Success? ==> |r.value| == |items|
    decreases items, 0
  {
    if items == [] then Success([])
    else
      var init :- DecodeList(items[..|items| - 1]);
      var last :- DecodeValue(items[|items| - 1]);
      Success(init + [last])
  }

  /** `MgMapToNapiObject`: each entry is `Set` on a fresh object in entry order,
      so a repeated key keeps its first position and its last value, and an
      entry keyed `__proto__` adds no own property. */
  function DecodeMap(entries: seq<MgEntry>): Result<seq<Prop>, DecodeError>
    decreases entries, 0
  {
    if entries == [] then Success([])
    else
      var init :- DecodeMap(entries[..|entries| - 1]);
      var e := entries[|entries| - 1];
      var value :- DecodeValue(e.value);
      Success(Assign(init, e.key, value))
  }

  /** The labels of a node, as a JavaScript array of strings. */
  function LabelArray(labels: seq<string>): (r: JsValue)
    ensures r.Array? && |r.elems| == |labels|
    ensures forall i :: 0 <= i < |labels| ==> r.elems[i] == Str(labels[i])
  {
    Array(seq(|labels|, i requires 0 <= i < |labels| => Str(labels[i])))
  }

  /** `MgNodeToNapiNode`: `{id, labels, properties}` with a BigInt id. */
  function DecodeNode(n: MgNode): Result<seq<Prop>, DecodeError>
    decreases n, 2
  {
    var props :- DecodeMap(n.properties);
    Success([Prop("id", BigInt(n.id)), Prop("labels", LabelArray(n.labels)), Prop("properties", Object(props))])
  }

  /** `MgRelationshipToNapiRelationship`: `{id, startNodeId, endNodeId, type,
      properties}` with BigInt ids. */
  function DecodeRelationship(r: MgRelationship): Result<seq<Prop>, DecodeError>
    decreases r, 2
  {
    var props :- DecodeMap(r.properties);
    Success([Prop("id", BigInt(r.id)), Prop("startNodeId", BigInt(r.startId)), Prop("endNodeId", BigInt(r.endId)),
             Prop("type", Str(r.relType)), Prop("properties", Object(props))])
  }

  /** The number -1 that an unbound relationship reports for both end points:
      an `int64_t` handed to `Set`, hence a Number and not a BigInt. */
  const NoNodeId: JsValue := Num(Finite(-1.0))

  /** `MgUnboundRelationshipToNapiRelationship`: the same shape as a bound
      relationship, with -1 for both end points. */
  function DecodeUnboundRelationship(u: MgUnboundRelationship): Result<seq<Prop>, DecodeError>
    decreases u, 2
  {
    var props :- DecodeMap(u.properties);
    Success([Prop("id", BigInt(u.id)), Prop("startNodeId", NoNodeId), Prop("endNodeId", NoNodeId),
             Prop("type", Str(u.relType)), Prop("properties", Object(props))])
  }

  /** A path relationship with its end points filled in from the nodes on
      either side of it: the node before is the start unless the step was
      traversed backwards. */
  function WithEndpoints(rel: seq<Prop>, prevId: int, currId: int, reversed: bool): seq<Prop> {
    if reversed then SetProp(SetProp(rel, "startNodeId", BigInt(currId)), "endNodeId", BigInt(prevId))
    else SetProp(SetProp(rel, "startNodeId", BigInt(prevId)), "endNodeId", BigInt(currId))
  }

  /** The first `count` iterations of the loop in `MgPathToNapiPath`: iteration
      `i` decodes node `i` and, from the second on, relationship `i - 1`. The
      result is the pair (nodes, relationships) built so far. */
  function DecodeSteps(p: MgPath, count: nat): Result<(seq<JsValue>, seq<JsValue>), DecodeError>
    requires count <= PathLength(p) + 1
    decreases p, 1, count
  {
    if count == 0 then Success(([], []))
    else
      var i := count - 1;
      var (nodes, rels) :- DecodeSteps(p, i);
      var node :- DecodeNode(NodeAt(p, i));
      if i == 0 then Success((nodes + [Object(node)], rels))
      else
        var rel :- DecodeUnboundRelationship(RelAt(p, i - 1));
        var resolved := WithEndpoints(rel, NodeAt(p, i - 1).id, NodeAt(p, i).id, ReversedAt(p, i - 1));
        Success((nodes + [Object(node)], rels + [Object(resolved)]))
  }

  /** `MgPathToNapiPath`: `{nodes, relationships}`. */
  function DecodePath(p: MgPath): Result<seq<Prop>, DecodeError>
    decreases p, 2
  {
    var (nodes, rels) :- DecodeSteps(p, PathLength(p) + 1);
    Success([Prop("nodes", Array(nodes)), Prop("relationships", Array(rels))])
  }

  /** The keys of a wire map. */
  function MgKeys(entries: seq<MgEntry>): set<string> {
    set e | e in entries :: e.key
  }

  lemma MgKeysSnoc(entries: seq<MgEntry>, e: MgEntry)
    ensures MgKeys(entries + [e]) == MgKeys(entries) + {e.key}
  {
    assert e in entries + [e];
    forall x | x in entries ensures x in entries + [e] {
      assert x == (entries + [e])[IndexOf(entries, x)];
    }
  }

  function IndexOf(entries: seq<MgEntry>, x: MgEntry): (i: nat)
    requires x in entries
    ensures i < |entries| && entries[i] == x
  {
    if entries[0] == x then 0 else 1 + IndexOf(entries[1..], x)
  }

  // ---------------------------------------------------------------------------
  // What decoding promises
  // ---------------------------------------------------------------------------

  /** Decoding a list decodes each element in place; it fails exactly when some
      element fails, and then with the error of the first element that fails. */
  lemma {:induction false} DecodeListAt(items: seq<MgValue>)
    ensures DecodeList(items).Success? <==> forall i :: 0 <= i < |items| ==> DecodeValue(items[i]).Success?
    ensures DecodeList(items).Success? ==>
      forall i :: 0 <= i < |items| ==> DecodeList(items).value[i] == DecodeValue(items[i]).value
    ensures DecodeList(items).Failure? ==>
      exists i :: 0 <= i < |items| && DecodeValue(items[i]) == Failure(DecodeList(items).error) &&
        forall j :: 0 <= j < i ==> DecodeValue(items[j]).Success?
  {
    if items != [] {
      var init := items[..|items| - 1];
      DecodeListAt(init);
      assert forall i :: 0 <= i < |init| ==> init[i] == items[i];
      if DecodeList(init).Failure? {
        var i :| 0 <= i < |init| && DecodeValue(init[i]) == Failure(DecodeList(init).error) &&
          forall j :: 0 <= j < i ==> DecodeValue(init[j]).Success?;
        assert DecodeValue(items[i]).Failure?;
      }
    }
  }

  /** Decoding a map decodes every value; it fails exactly when some value
      fails, and then with the error of the first value that fails. */
  lemma {:induction false} DecodeMapFailure(entries: seq<MgEntry>)
    ensures DecodeMap(entries).Success? <==> forall i :: 0 <= i < |entries| ==> DecodeValue(entries[i].value).Success?
    ensures DecodeMap(entries).Failure? ==>
      exists i :: 0 <= i < |entries| && DecodeValue(entries[i].value) == Failure(DecodeMap(entries).error) &&
        forall j :: 0 <= j < i ==> DecodeValue(entries[j].value).Success?
  {
    if entries != [] {
      var n := |entries| - 1;
      var init := entries[..n];
      DecodeMapFailure(init);
      forall i | 0 <= i < n ensures DecodeValue(entries[i].value) == DecodeValue(init[i].value) {
        assert entries[i] == init[i];
      }
      if DecodeMap(init).Failure? {
        assert DecodeMap(entries) == Failure(DecodeMap(init).error);
      } else if DecodeValue(entries[n].value).Failure? {
        assert DecodeMap(entries) == Failure(DecodeValue(entries[n].value).error);
      } else {
        assert DecodeMap(entries).Success?;
      }
    }
  }

  /** A decoded map has exactly the map's keys, except `__proto__`, which
      never becomes an own property. */
  lemma {:induction false} DecodeMapKeys(entries: seq<MgEntry>)
    requires DecodeMap(entries).Success?
    ensures KeySet(DecodeMap(entries).value) == MgKeys(entries) - {ProtoKey}
  {
    if entries != [] {
      var n := |entries| - 1;
      var init, e := entries[..n], entries[n];
      assert DecodeMap(init).Success? && DecodeValue(e.value).Success?;
      var prev, v := DecodeMap(init).value, DecodeValue(e.value).value;
      assert DecodeMap(entries).value == Assign(prev, e.key, v);
      DecodeMapKeys(init);
      if e.key != ProtoKey {
        SetPropSpec(prev, e.key, v);
      }
      MgKeysSnoc(init, e);
      assert entries == init + [e];
    }
  }

  /** A decoded map binds each key other than `__proto__` to the decoding of
      the last entry that carries it, and binds `__proto__` to nothing. */
  lemma {:induction false} DecodeMapLookup(entries: seq<MgEntry>, i: nat)
    requires i < |entries| && LastWithKey(entries, i)
    requires DecodeMap(entries).Success?
    ensures DecodeValue(entries[i].value).Success?
    ensures entries[i].key != ProtoKey ==>
      Lookup(DecodeMap(entries).value, entries[i].key) == Some(DecodeValue(entries[i].value).value)
    ensures Lookup(DecodeMap(entries).value, ProtoKey) == None
  {
    var n := |entries| - 1;
    var init := entries[..n];
    DecodeMapKeys(entries);
    LookupSpec(DecodeMap(entries).value, ProtoKey);
    if entries[n].key != ProtoKey {
      SetPropSpec(DecodeMap(init).value, entries[n].key, DecodeValue(entries[n].value).value);
    }
    if i < n {
      assert init[i] == entries[i];
      assert entries[n].key != entries[i].key;
      assert LastWithKey(init, i) by {
        forall j | i < j < n ensures init[j].key != init[i].key {
          assert init[j] == entries[j];
        }
      }
      DecodeMapLookup(init, i);
    }
  }

  /** Entry `i` is the last one carrying its key. */
  predicate LastWithKey(entries: seq<MgEntry>, i: nat)
    requires i < |entries|
  {
    forall j :: i < j < |entries| ==> entries[j].key != entries[i].key
  }

  /** With distinct keys, none of them `__proto__`, decoding a map keeps its
      entries one for one, in order. */
  lemma {:induction false} DecodeMapDistinct(entries: seq<MgEntry>)
    requires MgDistinctKeys(entries)
    requires forall i :: 0 <= i < |entries| ==> DecodeValue(entries[i].value).Success?
    ensures DecodeMap(entries).Success?
    ensures ProtoFree(entries) ==> |DecodeMap(entries).value| == |entries|
    ensures ProtoFree(entries) ==> forall i :: 0 <= i < |entries| ==>
      DecodeMap(entries).value[i] == Prop(entries[i].key, DecodeValue(entries[i].value).value)
  {
    if entries != [] {
      var n := |entries| - 1;
      var init := entries[..n];
      assert forall k :: 0 <= k < n ==> init[k] == entries[k];
      DecodeMapDistinct(init);
      if !ProtoFree(entries) {
        return;
      }
      DecodeMapKeys(init);
      SetPropShape(DecodeMap(init).value, entries[n].key, DecodeValue(entries[n].value).value);
      forall e | e in init
        ensures e.key != entries[n].key
      {
        assert entries[IndexOf(init, e)] == e;
      }
      assert entries[n].key !in MgKeys(init);
    }
  }

  /** No entry is keyed `__proto__`. */
  predicate ProtoFree(entries: seq<MgEntry>) {
    forall i :: 0 <= i < |entries| ==> entries[i].key != ProtoKey
  }

  predicate MgDistinctKeys(entries: seq<MgEntry>) {
    forall i, j :: 0 <= i < j < |entries| ==> entries[i].key != entries[j].key
  }

  /** A decoded node carries the node's id as a BigInt, its labels in order and
      its decoded properties, and fails exactly when its properties fail. */
  lemma NodeFields(n: MgNode)
    ensures DecodeNode(n).Success? <==> DecodeMap(n.properties).Success?
    ensures DecodeNode(n).Success? ==>
      var o := Object(DecodeNode(n).value);
      Get(o, "id") == BigInt(n.id) && Get(o, "labels") == LabelArray(n.labels) &&
      Get(o, "properties") == Object(DecodeMap(n.properties).value)
  {
    if DecodeNode(n).Success? {
      var props := DecodeNode(n).value;
      LookupAt(props, 0);
      LookupAt(props, 1);
      LookupAt(props, 2);
    }
  }

  /** A decoded relationship copies id, end points and type, and carries its
      decoded properties. */
  lemma RelationshipFields(r: MgRelationship)
    ensures DecodeRelationship(r).Success? <==> DecodeMap(r.properties).Success?
    ensures DecodeRelationship(r).Success? ==>
      var o := Object(DecodeRelationship(r).value);
      Get(o, "id") == BigInt(r.id) && Get(o, "startNodeId") == BigInt(r.startId) &&
      Get(o, "endNodeId") == BigInt(r.endId) && Get(o, "type") == Str(r.relType) &&
      Get(o, "properties") == Object(DecodeMap(r.properties).value)
  {
    if DecodeRelationship(r).Success? {
      FiveFields(DecodeRelationship(r).value);
    }
  }

  /** A decoded unbound relationship has -1 for both end points. */
  lemma UnboundRelationshipFields(u: MgUnboundRelationship)
    ensures DecodeUnboundRelationship(u).Success? <==> DecodeMap(u.properties).Success?
    ensures DecodeUnboundRelationship(u).Success? ==>
      var o := Object(DecodeUnboundRelationship(u).value);
      Get(o, "id") == BigInt(u.id) && Get(o, "startNodeId") == NoNodeId && Get(o, "endNodeId") == NoNodeId &&
      Get(o, "type") == Str(u.relType) && Get(o, "properties") == Object(DecodeMap(u.properties).value)
    ensures DecodeUnboundRelationship(u).Success? ==>
      "startNodeId" in KeySet(DecodeUnboundRelationship(u).value) && "endNodeId" in KeySet(DecodeUnboundRelationship(u).value)
  {
    if DecodeUnboundRelationship(u).Success? {
      FiveFields(DecodeUnboundRelationship(u).value);
    }
  }

  /** The five keys of a relationship object are distinct, so each reads back
      its own property. */
  lemma FiveFields(props: seq<Prop>)
    requires |props| == 5
    requires props[0].key == "id" && props[1].key == "startNodeId" && props[2].key == "endNodeId"
    requires props[3].key == "type" && props[4].key == "properties"
    ensures forall i :: 0 <= i < 5 ==> Lookup(props, props[i].key) == Some(props[i].value)
  {
    LookupAt(props, 0);
    LookupAt(props, 1);
    LookupAt(props, 2);
    LookupAt(props, 3);
    LookupAt(props, 4);
  }

  /** Filling in a relationship's end points sets exactly `startNodeId` and
      `endNodeId`, in their existing places: the start is the node before the
      step unless the step is reversed, and the end is the other node. */
  lemma WithEndpointsFields(rel: seq<Prop>, prevId: int, currId: int, reversed: bool)
    requires "startNodeId" in KeySet(rel) && "endNodeId" in KeySet(rel)
    ensures var r := WithEndpoints(rel, prevId, currId, reversed);
      |r| == |rel| && (forall j :: 0 <= j < |rel| ==> r[j].key == rel[j].key) &&
      Get(Object(r), "startNodeId") == BigInt(if reversed then currId else prevId) &&
      Get(Object(r), "endNodeId") == BigInt(if reversed then prevId else currId) &&
      forall k :: k != "startNodeId" && k != "endNodeId" ==> Get(Object(r), k) == Get(Object(rel), k)
  {
    var first := SetProp(rel, "startNodeId", BigInt(if reversed then currId else prevId));
    SetPropSpec(rel, "startNodeId", BigInt(if reversed then currId else prevId));
    SetPropShape(rel, "startNodeId", BigInt(if reversed then currId else prevId));
    SetPropSpec(first, "endNodeId", BigInt(if reversed then prevId else currId));
    SetPropShape(first, "endNodeId", BigInt(if reversed then prevId else currId));
  }

  /** Step `i` of a path decodes: node `i` and, after the first, relationship `i - 1`. */
  predicate StepDecodes(p: MgPath, i: nat)
    requires i <= PathLength(p)
  {
    DecodeNode(NodeAt(p, i)).Success? && (i > 0 ==> DecodeUnboundRelationship(RelAt(p, i - 1)).Success?)
  }

  /** Relationship `i` of a path as the decoder leaves it: decoded, then given
      the ids of nodes `i` and `i + 1` as its end points. */
  function ResolvedRel(p: MgPath, i: nat): seq<Prop>
    requires i < PathLength(p) && DecodeUnboundRelationship(RelAt(p, i)).Success?
  {
    WithEndpoints(DecodeUnboundRelationship(RelAt(p, i)).value, NodeAt(p, i).id, NodeAt(p, i + 1).id, ReversedAt(p, i))
  }

  /** The first `count` loop iterations succeed exactly when each step decodes. */
  lemma {:induction false} DecodeStepsOk(p: MgPath, count: nat)
    requires count <= PathLength(p) + 1
    ensures DecodeSteps(p, count).Success? <==> forall i :: 0 <= i < count ==> StepDecodes(p, i)
  {
    if count > 0 {
      DecodeStepsOk(p, count - 1);
      assert DecodeSteps(p, count).Success? <==> DecodeSteps(p, count - 1).Success? && StepDecodes(p, count - 1);
    }
  }

  /** After `count` successful iterations the loop has produced `count` nodes
      and `count - 1` relationships. */
  lemma {:induction false} DecodeStepsSizes(p: MgPath, count: nat)
    requires count <= PathLength(p) + 1 && DecodeSteps(p, count).Success?
    ensures |DecodeSteps(p, count).value.0| == count
    ensures |DecodeSteps(p, count).value.1| == if count == 0 then 0 else count - 1
  {
    if count > 0 {
      DecodeStepsSizes(p, count - 1);
    }
  }

  /** Node `i` produced by the loop is the decoding of the path's node `i`. */
  lemma {:induction false} DecodeStepsNode(p: MgPath, count: nat, i: nat)
    requires i < count <= PathLength(p) + 1 && DecodeSteps(p, count).Success?
    ensures DecodeNode(NodeAt(p, i)).Success?
    ensures |DecodeSteps(p, count).value.0| == count
    ensures DecodeSteps(p, count).value.0[i] == Object(DecodeNode(NodeAt(p, i)).value)
  {
    DecodeStepsSizes(p, count);
    DecodeStepsSizes(p, count - 1);
    if i < count - 1 {
      DecodeStepsNode(p, count - 1, i);
    }
  }

  /** Relationship `i` produced by the loop is the path's relationship `i`
      with its end points resolved. */
  lemma {:induction false} DecodeStepsRel(p: MgPath, count: nat, i: nat)
    requires i + 1 < count <= PathLength(p) + 1 && DecodeSteps(p, count).Success?
    ensures DecodeUnboundRelationship(RelAt(p, i)).Success?
    ensures |DecodeSteps(p, count).value.1| == count - 1
    ensures DecodeSteps(p, count).value.1[i] == Object(ResolvedRel(p, i))
  {
    DecodeStepsSizes(p, count);
    DecodeStepsSizes(p, count - 1);
    if i + 1 < count - 1 {
      DecodeStepsRel(p, count - 1, i);
    }
  }

  /** The nodes and relationships arrays of a decoded path. */
  function PathArrays(p: MgPath): (seq<JsValue>, seq<JsValue>)
    requires DecodePath(p).Success?
  {
    DecodeSteps(p, PathLength(p) + 1).value
  }

  /** A path decodes exactly when every node and every relationship does. */
  lemma PathDecodesIff(p: MgPath)
    ensures DecodePath(p).Success? <==> forall i :: 0 <= i <= PathLength(p) ==> StepDecodes(p, i)
  {
    DecodeStepsOk(p, PathLength(p) + 1);
  }

  /** A decoded path is `{nodes, relationships}` with n + 1 nodes and n
      relationships for a path of length n. */
  lemma PathShape(p: MgPath)
    requires DecodePath(p).Success?
    ensures var o := Object(DecodePath(p).value);
      var (nodes, rels) := PathArrays(p);
      Get(o, "nodes") == Array(nodes) && Get(o, "relationships") == Array(rels) &&
      |nodes| == PathLength(p) + 1 && |rels| == PathLength(p)
  {
    DecodeStepsSizes(p, PathLength(p) + 1);
    LookupAt(DecodePath(p).value, 0);
    LookupAt(DecodePath(p).value, 1);
  }

  /** Node `i` of a decoded path is the decoding of the path's node `i`. */
  lemma PathNodes(p: MgPath)
    requires DecodePath(p).Success?
    ensures |PathArrays(p).0| == PathLength(p) + 1
    ensures forall i :: 0 <= i <= PathLength(p) ==>
      DecodeNode(NodeAt(p, i)).Success? && PathArrays(p).0[i] == Object(DecodeNode(NodeAt(p, i)).value)
  {
    DecodeStepsSizes(p, PathLength(p) + 1);
    forall i | 0 <= i <= PathLength(p)
      ensures DecodeNode(NodeAt(p, i)).Success? && PathArrays(p).0[i] == Object(DecodeNode(NodeAt(p, i)).value)
    {
      DecodeStepsNode(p, PathLength(p) + 1, i);
    }
  }

  /** Relationship `i` of a decoded path is the path's relationship `i` with
      its end points resolved. */
  lemma PathRelationshipAt(p: MgPath, i: nat)
    requires DecodePath(p).Success? && i < PathLength(p)
    ensures |PathArrays(p).1| == PathLength(p)
    ensures DecodeUnboundRelationship(RelAt(p, i)).Success?
    ensures PathArrays(p).1[i] == Object(ResolvedRel(p, i))
  {
    var steps := DecodeSteps(p, PathLength(p) + 1);
    assert steps.Success? && PathArrays(p) == steps.value;
    DecodeStepsRel(p, PathLength(p) + 1, i);
  }

  /** Relationship `i` of a decoded path runs from node `i` to node `i + 1`, or
      the other way round when it was traversed backwards. */
  lemma PathRelationshipEnds(p: MgPath, i: nat)
    requires DecodePath(p).Success? && i < PathLength(p)
    ensures |PathArrays(p).1| == PathLength(p)
    ensures var rel := PathArrays(p).1[i];
      var (prevId, currId) := (NodeAt(p, i).id, NodeAt(p, i + 1).id);
      Get(rel, "startNodeId") == BigInt(if ReversedAt(p, i) then currId else prevId) &&
      Get(rel, "endNodeId") == BigInt(if ReversedAt(p, i) then prevId else currId)
  {
    PathRelationshipAt(p, i);
    var u := DecodeUnboundRelationship(RelAt(p, i)).value;
    UnboundRelationshipFields(RelAt(p, i));
    WithEndpointsFields(u, NodeAt(p, i).id, NodeAt(p, i + 1).id, ReversedAt(p, i));
  }

  /** Apart from its end points, relationship `i` of a decoded path carries
      what the path's unbound relationship `i` decodes to. */
  lemma PathRelationshipFields(p: MgPath, i: nat)
    requires DecodePath(p).Success? && i < PathLength(p)
    ensures |PathArrays(p).1| == PathLength(p)
    ensures var rel := PathArrays(p).1[i];
      var u := DecodeUnboundRelationship(RelAt(p, i));
      u.Success? &&
      Get(rel, "id") == BigInt(RelAt(p, i).id) && Get(rel, "type") == Str(RelAt(p, i).relType) &&
      Get(rel, "properties") == Get(Object(u.value), "properties")
  {
    PathRelationshipAt(p, i);
    var u := DecodeUnboundRelationship(RelAt(p, i)).value;
    UnboundRelationshipFields(RelAt(p, i));
    var resolved := WithEndpoints(u, NodeAt(p, i).id, NodeAt(p, i + 1).id, ReversedAt(p, i));
    WithEndpointsFields(u, NodeAt(p, i).id, NodeAt(p, i + 1).id, ReversedAt(p, i));
    assert Get(Object(resolved), "id") == Get(Object(u), "id");
    assert Get(Object(resolved), "type") == Get(Object(u), "type");
    assert Get(Object(resolved), "properties") == Get(Object(u), "properties");
  }

  /** A wire value the decoder accepts: no `MG_VALUE_TYPE_UNKNOWN` and no tag
      without a case anywhere in it, including inside nodes, relationships and
      paths. */
  predicate Decodable(v: MgValue)
    decreases v, 1
  {
    match v
    case MgList(items) => forall i :: 0 <= i < |items| ==> Decodable(items[i])
    case MgMap(entries) => EntriesDecodable(entries)
    case MgNodeValue(n) => EntriesDecodable(n.properties)
    case MgRelationshipValue(r) => EntriesDecodable(r.properties)
    case MgUnboundRelationshipValue(u) => EntriesDecodable(u.properties)
    case MgPathValue(p) =>
      EntriesDecodable(p.start.properties) &&
      forall i :: 0 <= i < |p.hops| ==> EntriesDecodable(p.hops[i].rel.properties) && EntriesDecodable(p.hops[i].node.properties)
    case MgUnknown => false
    case MgOther(_) => false
    case _ => true
  }

  predicate EntriesDecodable(entries: seq<MgEntry>)
    decreases entries, 0
  {
    forall i :: 0 <= i < |entries| ==> Decodable(entries[i].value)
  }

  /** Decoding succeeds exactly on the decodable values: any unknown or
      unhandled tag, however deep, fails the whole value. */
  lemma {:induction false} DecodableIff(v: MgValue)
    ensures DecodeValue(v).Success? <==> Decodable(v)
    decreases v, 1
  {
    match v
    case MgList(items) =>
      DecodeListAt(items);
      forall i | 0 <= i < |items| ensures DecodeValue(items[i]).Success? <==> Decodable(items[i]) {
        DecodableIff(items[i]);
      }
    case MgMap(entries) => EntriesDecodableIff(entries);
    case MgNodeValue(n) => EntriesDecodableIff(n.properties);
    case MgRelationshipValue(r) => EntriesDecodableIff(r.properties);
    case MgUnboundRelationshipValue(u) => EntriesDecodableIff(u.properties);
    case MgPathValue(p) => PathDecodableIff(p);
    case _ =>
  }

  lemma {:induction false} EntriesDecodableIff(entries: seq<MgEntry>)
    ensures DecodeMap(entries).Success? <==> EntriesDecodable(entries)
    decreases entries, 0
  {
    DecodeMapFailure(entries);
    forall i | 0 <= i < |entries| ensures DecodeValue(entries[i].value).Success? <==> Decodable(entries[i].value) {
      DecodableIff(entries[i].value);
    }
  }

  lemma {:induction false} PathDecodableIff(p: MgPath)
    ensures DecodePath(p).Success? <==> Decodable(MgPathValue(p))
    decreases p, 1
  {
    PathDecodesIff(p);
    HopsDecodableIff(p);
    if forall i :: 0 <= i <= PathLength(p) ==> StepDecodes(p, i) {
      assert StepDecodes(p, 0);
      forall i | 0 <= i < |p.hops|
        ensures EntriesDecodable(p.hops[i].rel.properties) && EntriesDecodable(p.hops[i].node.properties)
      {
        assert StepDecodes(p, i + 1);
      }
    }
    if Decodable(MgPathValue(p)) {
      forall i | 0 <= i <= PathLength(p) ensures StepDecodes(p, i) {
        if i > 0 {
          assert EntriesDecodable(p.hops[i - 1].rel.properties) && EntriesDecodable(p.hops[i - 1].node.properties);
        }
      }
    }
  }

  /** Each node and relationship of a path decodes exactly when its
      properties are decodable. */
  lemma {:induction false} HopsDecodableIff(p: MgPath)
    ensures DecodeNode(p.start).Success? <==> EntriesDecodable(p.start.properties)
    ensures forall i :: 0 <= i < |p.hops| ==>
      (DecodeNode(p.hops[i].node).Success? <==> EntriesDecodable(p.hops[i].node.properties)) &&
      (DecodeUnboundRelationship(p.hops[i].rel).Success? <==> EntriesDecodable(p.hops[i].rel.properties))
    decreases p, 0
  {
    EntriesDecodableIff(p.start.properties);
    forall i | 0 <= i < |p.hops|
      ensures DecodeNode(p.hops[i].node).Success? <==> EntriesDecodable(p.hops[i].node.properties)
      ensures DecodeUnboundRelationship(p.hops[i].rel).Success? <==> EntriesDecodable(p.hops[i].rel.properties)
    {
      EntriesDecodableIff(p.hops[i].node.properties);
      EntriesDecodableIff(p.hops[i].rel.properties);
    }
  }


  /** The host kind each wire tag decodes to; the unknown tag and tags without
      a case decode to nothing. */
  function DecodedKind(v: MgValue): Option<Kind> {
    match v
    case MgNull => Some(KNull)
    case MgBool(_) => Some(KBoolean)
    case MgInteger(_) => Some(KBigInt)
    case MgFloat(_) => Some(KNumber)
    case MgString(_) => Some(KString)
    case MgList(_) => Some(KArray)
    case MgUnknown => None
    case MgOther(_) => None
    case _ => Some(KObject)
  }

  /** Decode dispatch: every successful decoding has the kind the tag calls
      for, scalars keep their payload (an Integer becomes a BigInt, a Float a
      Number), and the unknown tag and unhandled tags are errors, never values. */
  lemma DecodeDispatch(v: MgValue)
    ensures DecodeValue(v).Success? ==> DecodedKind(v) == Some(KindOf(DecodeValue(v).value))
    ensures DecodedKind(v).None? ==> DecodeValue(v).Failure?
    ensures v.MgBool? ==> DecodeValue(v) == Success(Bool(v.b))
    ensures v.MgInteger? ==> DecodeValue(v) == Success(BigInt(v.i))
    ensures v.MgFloat? ==> DecodeValue(v) == Success(Num(v.f))
    ensures v.MgString? ==> DecodeValue(v) == Success(Str(v.s))
    ensures v.MgUnknown? ==> DecodeValue(v) == Failure(UnknownType)
    ensures v.MgOther? ==> DecodeValue(v) == Failure(UnrecognizedType)
  {
  }

  // ---------------------------------------------------------------------------
  // Encoding (`NapiValueToMgValue` and its helpers)
  // ---------------------------------------------------------------------------

  /** `mg_string_make(str.Utf8Value().c_str())`: the wire string is built from
      a NUL-terminated copy, so it ends at the first NUL character. */
  function CString(s: string): (r: string)
    ensures |r| <= |s| && r == s[..|r|]
    ensures '\0' !in r
    ensures |r| < |s| ==> s[|r|] == '\0'
  {
    if s == [] || s[0] == '\0' then [] else [s[0]] + CString(s[1..])
  }

  predicate NulFree(s: string) {
    '\0' !in s
  }

  /** `NapiValueToMgValue`: the checks run in a fixed order (empty, undefined or
      null; boolean; BigInt; number; string; array; object) and the first that
      matches decides the conversion. */
  function EncodeValue(v: JsValue): Result<MgValue, EncodeError>
    decreases v, 1
  {
    match v
    case Undefined => Success(MgNull)
    case Null => Success(MgNull)
    case Bool(b) => Success(MgBool(b))
    case BigInt(i) => if InInt64(i) then Success(MgInteger(i)) else Failure(LossyInteger)
    case Num(n) => Success(MgFloat(n))
    case Str(s) => Success(MgString(CString(s)))
    case Array(elems) =>
      var items :- EncodeList(elems);
      Success(MgList(items))
    case Object(props) =>
      var entries :- EncodeMap(props);
      Success(MgMap(entries))
    // A function passes the object check, so its own enumerable properties
    // become the map's entries.
    case Function(_, props) =>
      var entries :- EncodeMap(props);
      Success(MgMap(entries))
    case Symbol(_) => Failure(UnrecognizedJsValue)
  }

  /** `NapiArrayToMgList`: elements are appended in index order; the first that
      fails destroys the partial list and fails the whole. */
  function EncodeList(elems: seq<JsValue>): (r: Result<seq<MgValue>, EncodeError>)
    ensures r.Success? ==> |r.value| == |elems|
    decreases elems, 0
  {
    if elems == [] then Success([])
    else
      var init :- EncodeList(elems[..|elems| - 1]);
      var last :- EncodeValue(elems[|elems| - 1]);
      Success(init + [last])
  }

  /** `NapiObjectToMgMap`: one entry per enumerated property, in enumeration
      order, keyed by the C-string copy of the property name; the first value
      that fails destroys the partial map and fails the whole. */
  function EncodeMap(props: seq<Prop>): (r: Result<seq<MgEntry>, EncodeError>)
    ensures r.Success? ==> |r.value| == |props| && forall i :: 0 <= i < |props| ==> r.value[i].key == CString(props[i].key)
    decreases props, 0
  {
    if props == [] then Success([])
    else
      var init :- EncodeMap(props[..|props| - 1]);
      var p := props[|props| - 1];
      var value :- EncodeValue(p.value);
      Success(init + [MgEntry(CString(p.key), value)])
  }

  // ---------------------------------------------------------------------------
  // What encoding promises
  // ---------------------------------------------------------------------------

  /** A NUL-free string crosses unchanged; any other loses everything from its
      first NUL on. */
  lemma CStringNulFree(s: string)
    ensures NulFree(s) <==> CString(s) == s
  {
  }

  /** Encoding a list encodes each element in place; it fails exactly when some
      element fails, and then with the error of the first element that fails. */
  lemma {:induction false} EncodeListAt(elems: seq<JsValue>)
    ensures EncodeList(elems).Success? <==> forall i :: 0 <= i < |elems| ==> EncodeValue(elems[i]).Success?
    ensures EncodeList(elems).Success? ==>
      forall i :: 0 <= i < |elems| ==> EncodeList(elems).value[i] == EncodeValue(elems[i]).value
    ensures EncodeList(elems).Failure? ==>
      exists i :: 0 <= i < |elems| && EncodeValue(elems[i]) == Failure(EncodeList(elems).error) &&
        forall j :: 0 <= j < i ==> EncodeValue(elems[j]).Success?
  {
    if elems != [] {
      var n := |elems| - 1;
      var init := elems[..n];
      EncodeListAt(init);
      assert forall i :: 0 <= i < n ==> init[i] == elems[i];
      if EncodeList(init).Failure? {
        var i :| 0 <= i < n && EncodeValue(init[i]) == Failure(EncodeList(init).error) &&
          forall j :: 0 <= j < i ==> EncodeValue(init[j]).Success?;
        assert EncodeValue(elems[i]).Failure?;
      } else if EncodeValue(elems[n]).Failure? {
        assert EncodeList(elems) == Failure(EncodeValue(elems[n]).error);
      } else {
        assert EncodeList(elems).Success?;
      }
    }
  }

  /** Encoding an object fails exactly when some property value fails, and
      then with the error of the first. */
  lemma {:induction false} EncodeMapFailure(props: seq<Prop>)
    ensures EncodeMap(props).Success? <==> forall i :: 0 <= i < |props| ==> EncodeValue(props[i].value).Success?
    ensures EncodeMap(props).Failure? ==>
      exists i :: 0 <= i < |props| && EncodeValue(props[i].value) == Failure(EncodeMap(props).error) &&
        forall j :: 0 <= j < i ==> EncodeValue(props[j].value).Success?
  {
    if props != [] {
      var n := |props| - 1;
      var init := props[..n];
      EncodeMapFailure(init);
      forall i | 0 <= i < n ensures EncodeValue(props[i].value) == EncodeValue(init[i].value) {
        assert props[i] == init[i];
      }
      if EncodeMap(init).Failure? {
        assert EncodeMap(props) == Failure(EncodeMap(init).error);
      } else if EncodeValue(props[n].value).Failure? {
        assert EncodeMap(props) == Failure(EncodeValue(props[n].value).error);
      } else {
        assert EncodeMap(props).Success?;
      }
    }
  }

  /** An encoded object has one entry per property, in order, binding the
      C-string copy of its name to the encoding of its value. */
  lemma {:induction false} EncodeMapEntries(props: seq<Prop>)
    requires EncodeMap(props).Success?
    ensures forall i :: 0 <= i < |props| ==>
      EncodeValue(props[i].value).Success? &&
      EncodeMap(props).value[i] == MgEntry(CString(props[i].key), EncodeValue(props[i].value).value)
  {
    if props != [] {
      var n := |props| - 1;
      var init := props[..n];
      EncodeMapEntries(init);
      assert forall i :: 0 <= i < n ==> init[i] == props[i];
    }
  }

  /** A JavaScript value the encoder accepts: no Symbol and no BigInt outside
      int64 anywhere in it. */
  predicate Encodable(v: JsValue)
    decreases v
  {
    match v
    case BigInt(i) => InInt64(i)
    case Symbol(_) => false
    case Array(elems) => forall i :: 0 <= i < |elems| ==> Encodable(elems[i])
    case Object(props) => forall i :: 0 <= i < |props| ==> Encodable(props[i].value)
    case Function(_, props) => forall i :: 0 <= i < |props| ==> Encodable(props[i].value)
    case _ => true
  }

  /** Encoding succeeds exactly on the encodable values. */
  lemma {:induction false} EncodableIff(v: JsValue)
    ensures EncodeValue(v).Success? <==> Encodable(v)
    decreases v
  {
    match v
    case Array(elems) =>
      EncodeListAt(elems);
      forall i | 0 <= i < |elems| ensures EncodeValue(elems[i]).Success? <==> Encodable(elems[i]) {
        EncodableIff(elems[i]);
      }
    case Object(props) =>
      EncodeMapFailure(props);
      forall i | 0 <= i < |props| ensures EncodeValue(props[i].value).Success? <==> Encodable(props[i].value) {
        EncodableIff(props[i].value);
      }
    case Function(_, props) =>
      EncodeMapFailure(props);
      forall i | 0 <= i < |props| ensures EncodeValue(props[i].value).Success? <==> Encodable(props[i].value) {
        EncodableIff(props[i].value);
      }
    case _ =>
  }

  /** Encode dispatch: null and undefined become Null, booleans Bool, a BigInt
      an Integer only when int64 holds it exactly, every Number a Float, a
      string a String; an array always becomes a List (the array check comes
      before the object check) and any other object a Map; a Symbol is an
      error. */
  lemma EncodeDispatch(v: JsValue)
    ensures (v.Undefined? || v.Null?) ==> EncodeValue(v) == Success(MgNull)
    ensures v.Bool? ==> EncodeValue(v) == Success(MgBool(v.b))
    ensures v.BigInt? && InInt64(v.i) ==> EncodeValue(v) == Success(MgInteger(v.i))
    ensures v.BigInt? && !InInt64(v.i) ==> EncodeValue(v) == Failure(LossyInteger)
    ensures v.Num? ==> EncodeValue(v) == Success(MgFloat(v.n))
    ensures v.Str? ==> EncodeValue(v) == Success(MgString(CString(v.s)))
    ensures v.Array? && EncodeValue(v).Success? ==> EncodeValue(v).value.MgList?
    ensures (v.Object? || v.Function?) && EncodeValue(v).Success? ==> EncodeValue(v).value.MgMap?
    ensures v.Function? ==> EncodeValue(v) == EncodeValue(Object(v.props))
    ensures v.Symbol? ==> EncodeValue(v) == Failure(UnrecognizedJsValue)
  {
  }

  // ---------------------------------------------------------------------------
  // Round trip
  // ---------------------------------------------------------------------------

  /** The values that survive a trip to the wire and back unchanged: null,
      booleans, BigInts within int64, numbers, NUL-free strings, arrays of such
      values and objects with distinct NUL-free keys other than `__proto__`
      and such values. */
  predicate Plain(v: JsValue)
    decreases v
  {
    match v
    case Null => true
    case Bool(_) => true
    case BigInt(i) => InInt64(i)
    case Num(_) => true
    case Str(s) => NulFree(s)
    case Array(elems) => forall i :: 0 <= i < |elems| ==> Plain(elems[i])
    case Object(props) => PlainProps(props)
    case _ => false
  }

  predicate PlainProps(props: seq<Prop>)
    decreases props
  {
    && DistinctKeys(props)
    && forall i :: 0 <= i < |props| ==> NulFree(props[i].key) && props[i].key != ProtoKey && Plain(props[i].value)
  }

  /** Decoding the encoding of a plain value gives the value back. */
  lemma {:induction false} RoundTrip(v: JsValue)
    requires Plain(v)
    ensures EncodeValue(v).Success? && DecodeValue(EncodeValue(v).value) == Success(v)
    decreases v, 1
  {
    match v
    case Str(s) => CStringNulFree(s);
    case Array(elems) => RoundTripList(elems);
    case Object(props) => RoundTripMap(props);
    case _ =>
  }

  lemma {:induction false} RoundTripList(elems: seq<JsValue>)
    requires forall i :: 0 <= i < |elems| ==> Plain(elems[i])
    ensures EncodeList(elems).Success? && DecodeList(EncodeList(elems).value) == Success(elems)
    decreases elems, 0
  {
    if elems != [] {
      var n := |elems| - 1;
      var init := elems[..n];
      RoundTripList(init);
      RoundTrip(elems[n]);
      var items := EncodeList(elems).value;
      assert items[..n] == EncodeList(init).value;
      assert elems == init + [elems[n]];
    }
  }

  lemma {:induction false} RoundTripMap(props: seq<Prop>)
    requires PlainProps(props)
    ensures EncodeMap(props).Success? && DecodeMap(EncodeMap(props).value) == Success(props)
    decreases props, 0
  {
    if props != [] {
      var n := |props| - 1;
      PlainPropsInit(props);
      RoundTripMap(props[..n]);
      RoundTrip(props[n].value);
      RoundTripMapSnoc(props);
    }
  }

  /** Dropping the last property of a plain property list leaves a plain
      list that does not bind the dropped key. */
  lemma PlainPropsInit(props: seq<Prop>)
    requires PlainProps(props) && props != []
    ensures PlainProps(props[..|props| - 1])
    ensures props[|props| - 1].key !in KeySet(props[..|props| - 1])
  {
    var n := |props| - 1;
    var init := props[..n];
    assert forall i :: 0 <= i < n ==> init[i] == props[i];
    LookupSpec(init, props[n].key);
  }

  /** A last property with a fresh, NUL-free key whose value round-trips
      extends a round-tripping prefix to a round-tripping list. */
  lemma RoundTripMapSnoc(props: seq<Prop>)
    requires props != []
    requires var init := props[..|props| - 1];
      EncodeMap(init).Success? && DecodeMap(EncodeMap(init).value) == Success(init)
    requires var p := props[|props| - 1];
      && NulFree(p.key) && p.key != ProtoKey && p.key !in KeySet(props[..|props| - 1])
      && EncodeValue(p.value).Success? && DecodeValue(EncodeValue(p.value).value) == Success(p.value)
    ensures EncodeMap(props).Success? && DecodeMap(EncodeMap(props).value) == Success(props)
  {
    var n := |props| - 1;
    var init := props[..n];
    var p := props[n];
    CStringNulFree(p.key);
    var initEntries := EncodeMap(init).value;
    var entries := initEntries + [MgEntry(p.key, EncodeValue(p.value).value)];
    assert EncodeMap(props) == Success(entries);
    assert entries[..n] == initEntries;
    assert DecodeMap(entries) == Success(Assign(init, p.key, p.value));
    SetPropShape(init, p.key, p.value);
    InitSnoc(props);
  }

  /** An object with an own `__proto__` property (as `JSON.parse` makes) is
      not plain: it encodes to a one-entry map keyed `__proto__`, which decodes
      to an object without that property. */
  lemma OwnProtoKeyDropped(x: JsValue)
    requires Plain(x)
    ensures EncodeValue(x).Success?
    ensures var v := Object([Prop(ProtoKey, x)]);
      && EncodeValue(v) == Success(MgMap([MgEntry(ProtoKey, EncodeValue(x).value)]))
      && DecodeValue(EncodeValue(v).value) == Success(Object([]))
  {
    RoundTrip(x);
    var e := EncodeValue(x).value;
    ProtoPropEncoded(x);
    ObjectEncodes([Prop(ProtoKey, x)]);
    ProtoEntryDropped(e);
  }

  /** The own `__proto__` property encodes under its own name. */
  lemma ProtoPropEncoded(x: JsValue)
    requires EncodeValue(x).Success?
    ensures EncodeMap([Prop(ProtoKey, x)]) == Success([MgEntry(ProtoKey, EncodeValue(x).value)])
  {
    var props := [Prop(ProtoKey, x)];
    var entry := MgEntry(ProtoKey, EncodeValue(x).value);
    assert props[..0] == [];
    assert EncodeMap(props) == Success([] + [MgEntry(CString(props[0].key), entry.value)]);
    CStringNulFree(ProtoKey);
    assert [] + [entry] == [entry];
  }

  /** An object whose properties all encode is sent as the map of them. */
  lemma ObjectEncodes(props: seq<Prop>)
    requires EncodeMap(props).Success?
    ensures EncodeValue(Object(props)) == Success(MgMap(EncodeMap(props).value))
  {
  }

  /** A lone `__proto__` entry decodes to an object with no own property. */
  lemma ProtoEntryDropped(e: MgValue)
    requires DecodeValue(e).Success?
    ensures DecodeValue(MgMap([MgEntry(ProtoKey, e)])) == Success(Object([]))
  {
    var entries := [MgEntry(ProtoKey, e)];
    assert entries[..0] == [];
    assert DecodeMap(entries) == Success([]);
  }

  lemma InitSnoc<T>(s: seq<T>)
    requires s != []
    ensures s[..|s| - 1] + [s[|s| - 1]] == s
  {
  }
}
