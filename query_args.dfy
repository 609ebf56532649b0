/** The query-argument validation that `Client::PrepareQuery`,
    `Connection::Execute` and `AsyncConnection::Execute` all perform: with one
    or two arguments the first must be a string; with two the second must be
    an object, which is encoded as the query's parameter map. Any other number
    of arguments yields the empty query and no parameters.

    A rejection is a JavaScript exception left pending for the caller. When
    the parameters do not encode, the encoder has already raised its own
    exception, and that first exception is the one the caller is meant to
    receive; `QueryArgumentsAsWritten` records what the code does instead. */
module QueryArgs {
  import opened Wrappers
  import opened JsValues
  import opened MgValues
  import opened Glue

  /** Why the arguments are rejected; an unencodable parameter object carries
      the encoder's own error, which is the exception left pending. */
  datatype QueryError = QueryNotString | ParamsNotObject | ParamsNotEncodable(cause: EncodeError)

  /** A prepared query: its text and, when given, its parameter map. */
  datatype Query = Query(text: string, params: Option<seq<MgEntry>>)

  function QueryArguments(args: seq<JsValue>): Result<Query, QueryError> {
    if (|args| == 1 || |args| == 2) && !args[0].Str? then Failure(QueryNotString)
    else if |args| == 2 && !IsObject(args[1]) then Failure(ParamsNotObject)
    else if |args| == 2 && EncodeMap(Properties(args[1])).Failure? then Failure(ParamsNotEncodable(EncodeMap(Properties(args[1])).error))
    else if |args| == 2 then Success(Query(args[0].s, Some(EncodeMap(Properties(args[1])).value)))
    else if |args| == 1 then Success(Query(args[0].s, None))
    else Success(Query("", None))
  }

  /** The query is the first argument exactly when there are one or two
      arguments and it is a string. The parameters are present exactly when
      there are two arguments. They then hold one entry per enumerable property
      of the object, keyed by the property's C-string name and bound to the
      encoding of its value. They are rejected exactly when some property
      value cannot be encoded, and the error is then that of the first such
      value. Every other argument count passes with the empty query. */
  lemma QueryArgumentsSpec(args: seq<JsValue>)
    ensures (|args| == 1 || |args| == 2) ==>
      (QueryArguments(args).Success? ==> args[0].Str? && QueryArguments(args).value.text == args[0].s)
    ensures |args| == 1 ==> (QueryArguments(args).Success? <==> args[0].Str?)
    ensures |args| == 2 && args[0].Str? && IsObject(args[1]) ==>
      (QueryArguments(args).Failure? <==>
       exists i :: 0 <= i < |Properties(args[1])| && EncodeValue(Properties(args[1])[i].value).Failure?)
    ensures |args| == 2 && args[0].Str? && IsObject(args[1]) && QueryArguments(args).Failure? ==>
      var props := Properties(args[1]);
      exists i :: 0 <= i < |props| && EncodeValue(props[i].value).Failure? &&
        QueryArguments(args) == Failure(ParamsNotEncodable(EncodeValue(props[i].value).error)) &&
        forall j :: 0 <= j < i ==> EncodeValue(props[j].value).Success?
    ensures |args| == 2 && QueryArguments(args).Success? ==>
      var props := Properties(args[1]);
      var params := QueryArguments(args).value.params;
      && IsObject(args[1])
      && params.Some? && |params.value| == |props|
      && forall i :: 0 <= i < |props| ==>
           params.value[i] == MgEntry(CString(props[i].key), EncodeValue(props[i].value).value)
    ensures |args| != 1 && |args| != 2 ==> QueryArguments(args) == Success(Query("", None))
  {
    if |args| == 2 && IsObject(args[1]) {
      EncodeMapFailure(Properties(args[1]));
      if EncodeMap(Properties(args[1])).Success? {
        EncodeMapEntries(Properties(args[1]));
      }
    }
  }

  /** What the argument checks do as written. An unencodable parameter object
      ends the process: the encoder raises its exception, then
      `NapiObjectToMgMap` (and after it the caller) raises another while the
      first is still pending, and node-addon-api, built without C++
      exceptions, turns the refused throw into a fatal error. */
  datatype Checked = ArgumentsRejected(error: QueryError) | ProcessAborted | ArgumentsAccepted(query: Query)

  function QueryArgumentsAsWritten(args: seq<JsValue>): (c: Checked)
    ensures c.ProcessAborted? <==> QueryArguments(args).Failure? && QueryArguments(args).error.ParamsNotEncodable?
    ensures c.ArgumentsRejected? ==> QueryArguments(args) == Failure(c.error)
    ensures c.ArgumentsAccepted? ==> QueryArguments(args) == Success(c.query)
  {
    match QueryArguments(args)
    case Failure(ParamsNotEncodable(_)) => ProcessAborted
    case Failure(e) => ArgumentsRejected(e)
    case Success(q) => ArgumentsAccepted(q)
  }

  /** A parameter that is a BigInt beyond int64 ends the process as written;
      once the second throw is removed, the caller receives the encoder's
      `LossyInteger` exception. */
  lemma UnencodableParamsAbort(query: string)
    ensures var args := [Str(query), Object([Prop("x", BigInt(0x1_0000_0000_0000_0000))])];
      && QueryArgumentsAsWritten(args) == ProcessAborted
      && QueryArguments(args) == Failure(ParamsNotEncodable(LossyInteger))
  {
  }
}
