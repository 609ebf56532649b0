/** The index loops of the codec, written as the C++ writes them: each fills an
    output container element by element and gives up at the first element that
    fails. Each loop is proved to compute the corresponding function of `Glue`;
    the element conversions themselves are the recursive functions there. */
module GlueLoops {
  import opened Wrappers
  import opened JsValues
  import opened MgValues
  import opened Glue

  /** A list whose prefix fails fails with the prefix's error. */
  lemma {:induction false} DecodeListPrefixFails(items: seq<MgValue>, m: nat)
    requires m <= |items| && DecodeList(items[..m]).Failure?
    ensures DecodeList(items) == DecodeList(items[..m])
    decreases |items| - m
  {
    if m < |items| {
      var init := items[..|items| - 1];
      assert init[..m] == items[..m];
      DecodeListPrefixFails(init, m);
    } else {
      assert items[..m] == items;
    }
  }

  /** If every element before `k` decodes and element `k` does not, the list
      fails with element `k`'s error. */
  lemma {:induction false} DecodeListStopsAt(items: seq<MgValue>, k: nat)
    requires k < |items| && DecodeList(items[..k]).Success? && DecodeValue(items[k]).Failure?
    ensures DecodeList(items) == Failure(DecodeValue(items[k]).error)
  {
    assert items[..k + 1] == items[..k] + [items[k]];
    DecodeListSnocFails(items[..k], items[k]);
    DecodeListPrefixFails(items, k + 1);
  }

  /** A decoding list followed by a failing element fails with that element's
      error. */
  lemma DecodeListSnocFails(init: seq<MgValue>, last: MgValue)
    requires DecodeList(init).Success? && DecodeValue(last).Failure?
    ensures DecodeList(init + [last]) == Failure(DecodeValue(last).error)
  {
    var items := init + [last];
    assert items[..|items| - 1] == init;
  }

  /** `MgListToNapiArray`: an array of the list's size, filled index by index. */
  method ListToArray(items: seq<MgValue>) returns (r: Result<seq<JsValue>, DecodeError>)
    ensures r == DecodeList(items)
  {
    var output := seq(|items|, _ => Undefined);
    var index := 0;
    while index < |items|
      invariant 0 <= index <= |items| && |output| == |items|
      invariant DecodeList(items[..index]).Success?
      invariant output[..index] == DecodeList(items[..index]).value
    {
      var value := DecodeValue(items[index]);
      if value.Failure? {
        DecodeListStopsAt(items, index);
        return Failure(value.error);
      }
      assert items[..index + 1][..index] == items[..index];
      output := output[index := value.value];
      index := index + 1;
    }
    assert items[..index] == items && output[..index] == output;
    return Success(output);
  }

  /** A map whose prefix fails fails with the prefix's error. */
  lemma {:induction false} DecodeMapPrefixFails(entries: seq<MgEntry>, m: nat)
    requires m <= |entries| && DecodeMap(entries[..m]).Failure?
    ensures DecodeMap(entries) == DecodeMap(entries[..m])
    decreases |entries| - m
  {
    if m < |entries| {
      var init := entries[..|entries| - 1];
      assert init[..m] == entries[..m];
      DecodeMapPrefixFails(init, m);
    } else {
      assert entries[..m] == entries;
    }
  }

  /** If every entry before `k` decodes and entry `k` does not, the map fails
      with entry `k`'s error. */
  lemma {:induction false} DecodeMapStopsAt(entries: seq<MgEntry>, k: nat)
    requires k < |entries| && DecodeMap(entries[..k]).Success? && DecodeValue(entries[k].value).Failure?
    ensures DecodeMap(entries) == Failure(DecodeValue(entries[k].value).error)
  {
    assert entries[..k + 1] == entries[..k] + [entries[k]];
    DecodeMapSnocFails(entries[..k], entries[k]);
    DecodeMapPrefixFails(entries, k + 1);
  }

  /** A decoding map followed by an entry whose value fails fails with that
      value's error. */
  lemma DecodeMapSnocFails(init: seq<MgEntry>, last: MgEntry)
    requires DecodeMap(init).Success? && DecodeValue(last.value).Failure?
    ensures DecodeMap(init + [last]) == Failure(DecodeValue(last.value).error)
  {
    var entries := init + [last];
    assert entries[..|entries| - 1] == init;
  }

  /** The label loop of `MgNodeToNapiNode`: an array sized to the label count,
      each slot then set to its label's string. */
  method LabelsToArray(labels: seq<string>) returns (r: JsValue)
    ensures r == LabelArray(labels)
  {
    var output := seq(|labels|, _ => Undefined);
    var index := 0;
    while index < |labels|
      invariant 0 <= index <= |labels| && |output| == |labels|
      invariant forall i :: 0 <= i < index ==> output[i] == Str(labels[i])
    {
      output := output[index := Str(labels[index])];
      index := index + 1;
    }
    assert output == LabelArray(labels).elems;
    r := Array(output);
  }

  /** `MgMapToNapiObject`: a fresh object on which each entry is `Set` in turn. */
  method MapToObject(entries: seq<MgEntry>) returns (r: Result<seq<Prop>, DecodeError>)
    ensures r == DecodeMap(entries)
  {
    var output: seq<Prop> := [];
    var i := 0;
    while i < |entries|
      invariant 0 <= i <= |entries|
      invariant DecodeMap(entries[..i]) == Success(output)
    {
      var value := DecodeValue(entries[i].value);
      if value.Failure? {
        DecodeMapStopsAt(entries, i);
        return Failure(value.error);
      }
      assert entries[..i + 1][..i] == entries[..i];
      output := Assign(output, entries[i].key, value.value);
      i := i + 1;
    }
    assert entries[..i] == entries;
    return Success(output);
  }

  /** Once some iteration of the path loop fails, the whole path fails with
      that iteration's error. */
  lemma {:induction false} DecodeStepsFailurePersists(p: MgPath, m: nat)
    requires m <= PathLength(p) + 1 && DecodeSteps(p, m).Failure?
    ensures DecodePath(p) == Failure(DecodeSteps(p, m).error)
  {
    var count := m;
    while count < PathLength(p) + 1
      invariant m <= count <= PathLength(p) + 1
      invariant DecodeSteps(p, count) == DecodeSteps(p, m)
    {
      count := count + 1;
    }
  }

  /** `MgPathToNapiPath`: one pass over the path's nodes, carrying the id of the
      node before, and after each node past the first the relationship that led
      to it, its end points overwritten from the two node ids. */
  method PathToObject(p: MgPath) returns (r: Result<seq<Prop>, DecodeError>)
    ensures r == DecodePath(p)
  {
    var nodes: seq<JsValue> := [];
    var relationships: seq<JsValue> := [];
    var prevNodeId := -1;
    var index := 0;
    while index <= PathLength(p)
      invariant 0 <= index <= PathLength(p) + 1
      invariant DecodeSteps(p, index) == Success((nodes, relationships))
      invariant index > 0 ==> prevNodeId == NodeAt(p, index - 1).id
    {
      var step := PathStep(p, index, prevNodeId, nodes, relationships);
      if step.Failure? {
        DecodeStepsFailurePersists(p, index + 1);
        return Failure(step.error);
      }
      nodes, relationships := step.value.0, step.value.1;
      prevNodeId := NodeAt(p, index).id;
      index := index + 1;
    }
    PathFromSteps(p, nodes, relationships);
    return Success([Prop("nodes", Array(nodes)), Prop("relationships", Array(relationships))]);
  }

  /** The path object is built from the steps once all have decoded. */
  lemma PathFromSteps(p: MgPath, nodes: seq<JsValue>, relationships: seq<JsValue>)
    requires DecodeSteps(p, PathLength(p) + 1) == Success((nodes, relationships))
    ensures DecodePath(p) == Success([Prop("nodes", Array(nodes)), Prop("relationships", Array(relationships))])
  {
  }

  /** One pass of the path loop: decode the node at `index` and, past the
      first node, the relationship that led to it, its end points overwritten
      from the carried id of the node before and the id of this one. */
  method PathStep(p: MgPath, index: nat, prevNodeId: int, nodes: seq<JsValue>, relationships: seq<JsValue>)
    returns (r: Result<(seq<JsValue>, seq<JsValue>), DecodeError>)
    requires index <= PathLength(p)
    requires DecodeSteps(p, index) == Success((nodes, relationships))
    requires index > 0 ==> prevNodeId == NodeAt(p, index - 1).id
    ensures r == DecodeSteps(p, index + 1)
  {
    var currNodeId := NodeAt(p, index).id;
    var node := DecodeNode(NodeAt(p, index));
    if node.Failure? {
      return Failure(node.error);
    }
    if index == 0 {
      return Success((nodes + [Object(node.value)], relationships));
    }
    var relationship := DecodeUnboundRelationship(RelAt(p, index - 1));
    if relationship.Failure? {
      return Failure(relationship.error);
    }
    var resolved := WithEndpoints(relationship.value, prevNodeId, currNodeId, ReversedAt(p, index - 1));
    return Success((nodes + [Object(node.value)], relationships + [Object(resolved)]));
  }

  /** A list whose prefix fails fails with the prefix's error. */
  lemma {:induction false} EncodeListPrefixFails(elems: seq<JsValue>, m: nat)
    requires m <= |elems| && EncodeList(elems[..m]).Failure?
    ensures EncodeList(elems) == EncodeList(elems[..m])
    decreases |elems| - m
  {
    if m < |elems| {
      var init := elems[..|elems| - 1];
      assert init[..m] == elems[..m];
      EncodeListPrefixFails(init, m);
    } else {
      assert elems[..m] == elems;
    }
  }

  /** If every element before `k` encodes and element `k` does not, the list
      fails with element `k`'s error. */
  lemma {:induction false} EncodeListStopsAt(elems: seq<JsValue>, k: nat)
    requires k < |elems| && EncodeList(elems[..k]).Success? && EncodeValue(elems[k]).Failure?
    ensures EncodeList(elems) == Failure(EncodeValue(elems[k]).error)
  {
    assert elems[..k + 1][..k] == elems[..k];
    EncodeListPrefixFails(elems, k + 1);
  }

  /** `NapiArrayToMgList`: an empty list with room for every element, to which
      each converted element is appended; the first failure abandons it. */
  method ArrayToList(elems: seq<JsValue>) returns (r: Result<seq<MgValue>, EncodeError>)
    ensures r == EncodeList(elems)
  {
    var output: seq<MgValue> := [];
    var index := 0;
    while index < |elems|
      invariant 0 <= index <= |elems|
      invariant EncodeList(elems[..index]) == Success(output)
    {
      var value := EncodeValue(elems[index]);
      if value.Failure? {
        EncodeListStopsAt(elems, index);
        return Failure(value.error);
      }
      assert elems[..index + 1][..index] == elems[..index];
      output := output + [value.value];
      index := index + 1;
    }
    assert elems[..index] == elems;
    return Success(output);
  }

  /** A map whose prefix fails fails with the prefix's error. */
  lemma {:induction false} EncodeMapPrefixFails(props: seq<Prop>, m: nat)
    requires m <= |props| && EncodeMap(props[..m]).Failure?
    ensures EncodeMap(props) == EncodeMap(props[..m])
    decreases |props| - m
  {
    if m < |props| {
      var init := props[..|props| - 1];
      assert init[..m] == props[..m];
      EncodeMapPrefixFails(init, m);
    } else {
      assert props[..m] == props;
    }
  }

  /** If every property before `k` encodes and property `k` does not, the map
      fails with property `k`'s error. */
  lemma {:induction false} EncodeMapStopsAt(props: seq<Prop>, k: nat)
    requires k < |props| && EncodeMap(props[..k]).Success? && EncodeValue(props[k].value).Failure?
    ensures EncodeMap(props) == Failure(EncodeValue(props[k].value).error)
  {
    assert props[..k + 1][..k] == props[..k];
    EncodeMapPrefixFails(props, k + 1);
  }

  /** The property names an object enumerates (`GetPropertyNames`). */
  function PropertyNames(props: seq<Prop>): seq<string> {
    seq(|props|, i requires 0 <= i < |props| => props[i].key)
  }

  /** `NapiObjectToMgMap`: enumerate the property names, then for each name
      make the C-string key, read the property by name, convert it and insert
      the pair. An object's own properties have distinct names. */
  method ObjectToMap(props: seq<Prop>) returns (r: Result<seq<MgEntry>, EncodeError>)
    requires DistinctKeys(props)
    ensures r == EncodeMap(props)
  {
    var keys := PropertyNames(props);
    var output: seq<MgEntry> := [];
    var index := 0;
    while index < |keys|
      invariant 0 <= index <= |keys|
      invariant EncodeMap(props[..index]) == Success(output)
    {
      var key := CString(keys[index]);
      LookupAt(props, index);
      var value := EncodeValue(Get(Object(props), keys[index]));
      if value.Failure? {
        EncodeMapStopsAt(props, index);
        return Failure(value.error);
      }
      assert props[..index + 1][..index] == props[..index];
      output := output + [MgEntry(key, value.value)];
      index := index + 1;
    }
    assert props[..index] == props;
    return Success(output);
  }
}
