/** The JavaScript entry module: builders for the temporal values the server
    understands, and the `Connection` wrapper's query defaults. */
module IndexJs {
  import opened Wrappers
  import opened JsValues
  import opened MgValues
  import opened Glue
  import opened QueryArgs
  import opened ClientWorkers

  const ObjectTypeKey := "objectType"
  const DaysKey := "days"
  const SecondsKey := "seconds"
  const NanosecondsKey := "nanoseconds"
  const MonthsKey := "months"

  /** A key no property carries is not found. */
  lemma AbsentKey(props: seq<Prop>, key: string)
    requires forall i :: 0 <= i < |props| ==> props[i].key != key
    ensures Lookup(props, key) == None
  {
    LookupSpec(props, key);
  }

  /** `createMgDate`: days since the Unix epoch, tagged "date". */
  function CreateMgDate(days: JsValue): (o: JsValue)
    ensures IsObject(o) && DistinctKeys(Properties(o))
    ensures Get(o, ObjectTypeKey) == Str("date") && Get(o, DaysKey) == days
    ensures |Properties(o)| == 2 && Properties(o)[0].key == ObjectTypeKey
  {
    var props := [Prop(ObjectTypeKey, Str("date")), Prop(DaysKey, days)];
    LookupAt(props, 1);
    Object(props)
  }

  /** `createMgLocalTime`: nanoseconds since midnight, tagged "local_time". */
  function CreateMgLocalTime(nanoseconds: JsValue): (o: JsValue)
    ensures IsObject(o) && DistinctKeys(Properties(o))
    ensures Get(o, ObjectTypeKey) == Str("local_time") && Get(o, NanosecondsKey) == nanoseconds
    ensures |Properties(o)| == 2 && Properties(o)[0].key == ObjectTypeKey
  {
    var props := [Prop(ObjectTypeKey, Str("local_time")), Prop(NanosecondsKey, nanoseconds)];
    LookupAt(props, 1);
    Object(props)
  }

  /** `createMgLocalDateTime`: seconds since the epoch and nanoseconds since
      the last second, tagged "local_date_time". */
  function CreateMgLocalDateTime(seconds: JsValue, nanoseconds: JsValue): (o: JsValue)
    ensures IsObject(o) && DistinctKeys(Properties(o))
    ensures Get(o, ObjectTypeKey) == Str("local_date_time")
    ensures Get(o, SecondsKey) == seconds && Get(o, NanosecondsKey) == nanoseconds
    ensures |Properties(o)| == 3 && Properties(o)[0].key == ObjectTypeKey
  {
    var props := [Prop(ObjectTypeKey, Str("local_date_time")), Prop(SecondsKey, seconds), Prop(NanosecondsKey, nanoseconds)];
    LookupAt(props, 1);
    LookupAt(props, 2);
    Object(props)
  }

  /** `createMgDuration`: days, seconds and nanoseconds, tagged "duration";
      there is no months component. */
  function CreateMgDuration(days: JsValue, seconds: JsValue, nanoseconds: JsValue): (o: JsValue)
    ensures IsObject(o) && DistinctKeys(Properties(o))
    ensures Get(o, ObjectTypeKey) == Str("duration")
    ensures Get(o, DaysKey) == days && Get(o, SecondsKey) == seconds && Get(o, NanosecondsKey) == nanoseconds
    ensures !Has(o, MonthsKey)
    ensures |Properties(o)| == 4 && Properties(o)[0].key == ObjectTypeKey
  {
    var props := [Prop(ObjectTypeKey, Str("duration")), Prop(DaysKey, days), Prop(SecondsKey, seconds),
                  Prop(NanosecondsKey, nanoseconds)];
    LookupAt(props, 1);
    LookupAt(props, 2);
    LookupAt(props, 3);
    AbsentKey(props, MonthsKey);
    Object(props)
  }

  /** An object whose keys are NUL-free and whose values all encode is sent
      as the map of its keys, in order, bound to the encoded values. */
  lemma {:induction false} EncodesAs(props: seq<Prop>, entries: seq<MgEntry>)
    requires |entries| == |props|
    requires forall i :: 0 <= i < |props| ==>
      NulFree(props[i].key) && entries[i].key == props[i].key && EncodeValue(props[i].value) == Success(entries[i].value)
    ensures EncodeValue(Object(props)) == Success(MgMap(entries))
  {
    EncodeMapFailure(props);
    EncodeMapEntries(props);
    forall i | 0 <= i < |props|
      ensures EncodeMap(props).value[i] == entries[i]
    {
      CStringNulFree(props[i].key);
    }
    assert EncodeMap(props).value == entries;
  }

  /** A NUL-free tag string is sent as itself. */
  lemma TagEncodes(tag: string)
    requires NulFree(tag)
    ensures EncodeValue(Str(tag)) == Success(MgString(tag))
  {
    CStringNulFree(tag);
  }

  /** The keys the temporal builders use cross as they are. */
  lemma TemporalKeysNulFree()
    ensures NulFree(ObjectTypeKey) && NulFree(DaysKey) && NulFree(SecondsKey) && NulFree(NanosecondsKey)
  {
  }

  /** The codec has no temporal case: a date is sent as an ordinary map whose
      first entry is the `objectType` string, followed by its days, encoded
      as any other value would be; it fails exactly when the days do. */
  lemma DateEncodesAsMap(days: JsValue)
    ensures EncodeValue(CreateMgDate(days)).Success? <==> EncodeValue(days).Success?
    ensures EncodeValue(days).Success? ==>
      EncodeValue(CreateMgDate(days)) ==
        Success(MgMap([MgEntry(ObjectTypeKey, MgString("date")), MgEntry(DaysKey, EncodeValue(days).value)]))
  {
    var props := [Prop(ObjectTypeKey, Str("date")), Prop(DaysKey, days)];
    assert CreateMgDate(days) == Object(props);
    EncodeMapFailure(props);
    if EncodeValue(days).Success? {
      var entries := [MgEntry(ObjectTypeKey, MgString("date")), MgEntry(DaysKey, EncodeValue(days).value)];
      TemporalKeysNulFree();
      TagEncodes("date");
      forall i | 0 <= i < |props|
        ensures NulFree(props[i].key) && entries[i].key == props[i].key
        ensures EncodeValue(props[i].value) == Success(entries[i].value)
      {
        if i == 0 {
        } else {
          assert i == 1;
        }
      }
      EncodesAs(props, entries);
    }
  }

  /** A local time is sent as the map of its tag and nanoseconds. */
  lemma LocalTimeEncodesAsMap(nanoseconds: JsValue)
    requires EncodeValue(nanoseconds).Success?
    ensures EncodeValue(CreateMgLocalTime(nanoseconds)) ==
      Success(MgMap([MgEntry(ObjectTypeKey, MgString("local_time")),
                     MgEntry(NanosecondsKey, EncodeValue(nanoseconds).value)]))
  {
    var props := [Prop(ObjectTypeKey, Str("local_time")), Prop(NanosecondsKey, nanoseconds)];
    var entries := [MgEntry(ObjectTypeKey, MgString("local_time")),
                    MgEntry(NanosecondsKey, EncodeValue(nanoseconds).value)];
    assert CreateMgLocalTime(nanoseconds) == Object(props);
    TemporalKeysNulFree();
    TagEncodes("local_time");
    forall i | 0 <= i < |props|
      ensures NulFree(props[i].key) && entries[i].key == props[i].key
      ensures EncodeValue(props[i].value) == Success(entries[i].value)
    {
      if i == 0 {
      } else {
        assert i == 1;
      }
    }
    EncodesAs(props, entries);
  }

  /** A local date-time is sent as the map of its tag, seconds and
      nanoseconds. */
  lemma LocalDateTimeEncodesAsMap(seconds: JsValue, nanoseconds: JsValue)
    requires EncodeValue(seconds).Success? && EncodeValue(nanoseconds).Success?
    ensures EncodeValue(CreateMgLocalDateTime(seconds, nanoseconds)) ==
      Success(MgMap([MgEntry(ObjectTypeKey, MgString("local_date_time")),
                     MgEntry(SecondsKey, EncodeValue(seconds).value),
                     MgEntry(NanosecondsKey, EncodeValue(nanoseconds).value)]))
  {
    TemporalKeysNulFree();
    TagEncodes("local_date_time");
    assert CreateMgLocalDateTime(seconds, nanoseconds) ==
      Object([Prop(ObjectTypeKey, Str("local_date_time")), Prop(SecondsKey, seconds), Prop(NanosecondsKey, nanoseconds)]);
    ThreeEncodeAs(Prop(ObjectTypeKey, Str("local_date_time")), Prop(SecondsKey, seconds), Prop(NanosecondsKey, nanoseconds),
                  MgString("local_date_time"), EncodeValue(seconds).value, EncodeValue(nanoseconds).value);
  }

  /** `EncodesAs` for an object of three properties. */
  lemma ThreeEncodeAs(p0: Prop, p1: Prop, p2: Prop, e0: MgValue, e1: MgValue, e2: MgValue)
    requires NulFree(p0.key) && NulFree(p1.key) && NulFree(p2.key)
    requires EncodeValue(p0.value) == Success(e0) && EncodeValue(p1.value) == Success(e1) &&
      EncodeValue(p2.value) == Success(e2)
    ensures EncodeValue(Object([p0, p1, p2])) ==
      Success(MgMap([MgEntry(p0.key, e0), MgEntry(p1.key, e1), MgEntry(p2.key, e2)]))
  {
    var props := [p0, p1, p2];
    var entries := [MgEntry(p0.key, e0), MgEntry(p1.key, e1), MgEntry(p2.key, e2)];
    forall i | 0 <= i < |props|
      ensures NulFree(props[i].key) && entries[i].key == props[i].key
      ensures EncodeValue(props[i].value) == Success(entries[i].value)
    {
      if i == 0 {
      } else if i == 1 {
      } else {
        assert i == 2;
      }
    }
    EncodesAs(props, entries);
  }

  /** A duration is sent as the map of its tag, days, seconds and
      nanoseconds, and nothing else. */
  lemma DurationEncodesAsMap(days: JsValue, seconds: JsValue, nanoseconds: JsValue)
    requires EncodeValue(days).Success? && EncodeValue(seconds).Success? && EncodeValue(nanoseconds).Success?
    ensures EncodeValue(CreateMgDuration(days, seconds, nanoseconds)) ==
      Success(MgMap([MgEntry(ObjectTypeKey, MgString("duration")),
                     MgEntry(DaysKey, EncodeValue(days).value),
                     MgEntry(SecondsKey, EncodeValue(seconds).value),
                     MgEntry(NanosecondsKey, EncodeValue(nanoseconds).value)]))
  {
    TemporalKeysNulFree();
    TagEncodes("duration");
    assert CreateMgDuration(days, seconds, nanoseconds) ==
      Object([Prop(ObjectTypeKey, Str("duration")), Prop(DaysKey, days), Prop(SecondsKey, seconds),
              Prop(NanosecondsKey, nanoseconds)]);
    FourEncodeAs(Prop(ObjectTypeKey, Str("duration")), Prop(DaysKey, days), Prop(SecondsKey, seconds),
                 Prop(NanosecondsKey, nanoseconds), MgString("duration"), EncodeValue(days).value,
                 EncodeValue(seconds).value, EncodeValue(nanoseconds).value);
  }

  /** `EncodesAs` for an object of four properties. */
  lemma FourEncodeAs(p0: Prop, p1: Prop, p2: Prop, p3: Prop, e0: MgValue, e1: MgValue, e2: MgValue, e3: MgValue)
    requires NulFree(p0.key) && NulFree(p1.key) && NulFree(p2.key) && NulFree(p3.key)
    requires EncodeValue(p0.value) == Success(e0) && EncodeValue(p1.value) == Success(e1) &&
      EncodeValue(p2.value) == Success(e2) && EncodeValue(p3.value) == Success(e3)
    ensures EncodeValue(Object([p0, p1, p2, p3])) ==
      Success(MgMap([MgEntry(p0.key, e0), MgEntry(p1.key, e1), MgEntry(p2.key, e2), MgEntry(p3.key, e3)]))
  {
    var props := [p0, p1, p2, p3];
    var entries := [MgEntry(p0.key, e0), MgEntry(p1.key, e1), MgEntry(p2.key, e2), MgEntry(p3.key, e3)];
    forall i | 0 <= i < |props|
      ensures NulFree(props[i].key) && entries[i].key == props[i].key
      ensures EncodeValue(props[i].value) == Success(entries[i].value)
    {
      if i == 0 {
      } else if i == 1 {
      } else if i == 2 {
      } else {
        assert i == 3;
      }
    }
    EncodesAs(props, entries);
  }

  /** `Connection.Execute(query, params = {})`: the wrapper always passes two
      arguments, an omitted (or `undefined`) parameter object becoming `{}`. */
  function ExecuteArgs(query: JsValue, params: JsValue): seq<JsValue> {
    [query, if params.Undefined? then Object([]) else params]
  }

  /** With the parameters omitted, only the query is checked: a string
      query is prepared with an empty parameter map, anything else is
      rejected for not being a string. */
  lemma ExecuteDefaultParams(query: JsValue)
    ensures QueryArguments(ExecuteArgs(query, Undefined)).Success? <==> query.Str?
    ensures query.Str? ==> QueryArguments(ExecuteArgs(query, Undefined)) == Success(Query(query.s, Some([])))
    ensures !query.Str? ==> QueryArguments(ExecuteArgs(query, Undefined)) == Failure(QueryNotString)
  {
  }

  /** `Connection.Execute`, an `async` function awaiting the client's
      `Execute` on the defaulted arguments: an exception the client's call
      throws becomes the rejection of the wrapper's promise. */
  function ConnectionExecute(query: JsValue, params: JsValue, server: ServerExecute): (s: Settled)
    ensures QueryArguments(ExecuteArgs(query, params)).Failure? ==>
      s == Rejected(ArgumentError(QueryArguments(ExecuteArgs(query, params)).error))
    ensures QueryArguments(ExecuteArgs(query, params)).Success? ==>
      s == ClientExecute(ExecuteArgs(query, params), server).settled
  {
    match ClientExecute(ExecuteArgs(query, params), server)
    case ArgumentsThrew(e) => Rejected(ArgumentError(e))
    case Promised(settled) => settled
  }

  /** `Connection.ExecuteAndFetchAll`: a rejected `Execute` rejects the whole
      call and nothing is fetched; otherwise the call settles as `FetchAll`
      does. */
  function ExecuteAndFetchAll(query: JsValue, params: JsValue, server: ServerExecute, fetch: ServerFetch): (s: Settled)
    ensures s != Pending
    ensures ConnectionExecute(query, params, server).Rejected? ==> s == ConnectionExecute(query, params, server)
    ensures ConnectionExecute(query, params, server).Resolved? ==> s == ClientFetchAll(fetch)
  {
    var executed := ConnectionExecute(query, params, server);
    if executed.Rejected? then executed else ClientFetchAll(fetch)
  }

  /** A string query with omitted parameters that the server accepts
      settles exactly as the fetch does: to the decoded rows, to `null`
      without a result set, or to a rejection. */
  lemma ExecuteAndFetchAllReturnsRows(q: string, fetch: ServerFetch)
    ensures ExecuteAndFetchAll(Str(q), Undefined, Executed, fetch) == ClientFetchAll(fetch)
    ensures fetch == Fetched(None) ==> ExecuteAndFetchAll(Str(q), Undefined, Executed, fetch) == Resolved(Null)
    ensures fetch.Fetched? && fetch.data.Some? && DecodeRows(fetch.data.value).Success? ==>
      var rows := fetch.data.value;
      var s := ExecuteAndFetchAll(Str(q), Undefined, Executed, fetch);
      && s.Resolved? && s.value.Array? && |s.value.elems| == |rows|
      && forall i :: 0 <= i < |rows| ==>
           DecodeList(rows[i]).Success? && s.value.elems[i] == Array(DecodeList(rows[i]).value)
  {
    ExecuteDefaultParams(Str(q));
    if fetch.Fetched? && fetch.data.Some? {
      DecodeRowsSpec(fetch.data.value);
    }
  }
}
