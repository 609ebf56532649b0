/** What the promise-based client's `Execute` and `FetchAll` settle to. The
    work each one hands to `mg::Client` is an oracle; what is modelled is the
    argument validation before the work is queued and the conversion of the
    fetched rows once it is done. */
module ClientWorkers {
  import opened Wrappers
  import opened JsValues
  import opened MgValues
  import opened Glue
  import opened QueryArgs
  import GlueLoops

  /** Why a promise is rejected: a message of the binding's own, or the
      exception a rejected argument list raised. */
  datatype Reason = Message(text: string) | ArgumentError(error: QueryError)

  /** The state a promise ends in. `Pending` is a promise that is never
      resolved nor rejected. */
  datatype Settled = Resolved(value: JsValue) | Rejected(reason: Reason) | Pending

  const ExecuteFailMessage := "Failed to execute a query."
  const FetchFailMessage := "Failed to fetch one record."
  const ConvertFailMessage := "Failed to convert fetched data."

  /** How `mg::Client::Execute` went on the worker thread. */
  datatype ServerExecute = Executed | ExecuteRefused | ExecuteThrew(what: string)

  /** What calling `Client::Execute` gives its caller: the exception the
      argument checks raised (the call then returns `undefined` and queues
      nothing), or a promise in the state it settles to. */
  datatype ExecuteCall = ArgumentsThrew(error: QueryError) | Promised(settled: Settled)

  /** `Client::Execute`: rejected arguments throw before any work is queued;
      otherwise the promise resolves to `null` when the server accepts the
      query and is rejected with the worker's message when it does not. */
  function ClientExecute(args: seq<JsValue>, server: ServerExecute): (c: ExecuteCall)
    ensures c.ArgumentsThrew? <==> QueryArguments(args).Failure?
    ensures c.ArgumentsThrew? ==> c.error == QueryArguments(args).error
    ensures c.Promised? ==> c.settled != Pending
    ensures c.Promised? ==> (c.settled == Resolved(Null) <==> server.Executed?)
    ensures c.Promised? && server.ExecuteRefused? ==> c.settled == Rejected(Message(ExecuteFailMessage))
    ensures c.Promised? && server.ExecuteThrew? ==>
      c.settled == Rejected(Message(ExecuteFailMessage + " " + server.what))
  {
    match QueryArguments(args)
    case Failure(q) => ArgumentsThrew(q)
    case Success(_) =>
      match server
      case Executed => Promised(Resolved(Null))
      case ExecuteRefused => Promised(Rejected(Message(ExecuteFailMessage)))
      case ExecuteThrew(what) => Promised(Rejected(Message(ExecuteFailMessage + " " + what)))
  }

  /** The fetched rows converted to nested arrays: each row is decoded in
      turn, and the first row that does not decode fails the whole. */
  function DecodeRows(rows: seq<seq<MgValue>>): (r: Result<seq<JsValue>, DecodeError>)
    ensures r.Success? ==> |r.value| == |rows|
  {
    if rows == [] then Success([])
    else
      var init :- DecodeRows(rows[..|rows| - 1]);
      var last :- DecodeList(rows[|rows| - 1]);
      Success(init + [Array(last)])
  }

  /** Row conversion succeeds exactly when every row decodes, and then
      holds, at each index, the array of that row's decoded values. */
  lemma {:induction false} DecodeRowsSpec(rows: seq<seq<MgValue>>)
    ensures DecodeRows(rows).Success? <==> forall i :: 0 <= i < |rows| ==> DecodeList(rows[i]).Success?
    ensures DecodeRows(rows).Success? ==>
      forall i :: 0 <= i < |rows| ==> DecodeRows(rows).value[i] == Array(DecodeList(rows[i]).value)
  {
    if rows != [] {
      var init := rows[..|rows| - 1];
      DecodeRowsSpec(init);
      assert forall i :: 0 <= i < |init| ==> init[i] == rows[i];
      if DecodeRows(init).Failure? {
        var i :| 0 <= i < |init| && DecodeList(init[i]).Failure?;
        assert DecodeList(rows[i]).Failure?;
      }
    }
  }

  /** `FetchAll`'s completion, settling in every case: no result set
      resolves to `null`, rows that all convert resolve to the array of row
      arrays, and a row that does not convert rejects the promise. */
  function FetchAllSettled(data: Option<seq<seq<MgValue>>>): (s: Settled)
    ensures s != Pending
    ensures data.None? ==> s == Resolved(Null)
    ensures data.Some? ==> (s == Rejected(Message(ConvertFailMessage)) <==> DecodeRows(data.value).Failure?)
    ensures data.Some? && DecodeRows(data.value).Success? ==>
      s == Resolved(Array(DecodeRows(data.value).value))
  {
    match data
    case None => Resolved(Null)
    case Some(rows) =>
      match DecodeRows(rows)
      case Failure(_) => Rejected(Message(ConvertFailMessage))
      case Success(arrays) => Resolved(Array(arrays))
  }

  /** `FetchAll`'s completion as written: a conversion failure only records
      an error from inside the success callback, which nothing reads
      afterwards, so the promise is left unsettled. */
  function FetchAllSettledAsWritten(data: Option<seq<seq<MgValue>>>): (s: Settled)
    ensures s == Pending <==> data.Some? && DecodeRows(data.value).Failure?
    ensures s != Pending ==> s == FetchAllSettled(data)
  {
    if data.Some? && DecodeRows(data.value).Failure? then Pending else FetchAllSettled(data)
  }

  /** One row holding a value of unknown type: the written completion never
      settles, the corrected one rejects. */
  lemma ConversionFailureLeavesPromisePending()
    ensures FetchAllSettledAsWritten(Some([[MgUnknown]])) == Pending
    ensures FetchAllSettled(Some([[MgUnknown]])) == Rejected(Message(ConvertFailMessage))
  {
    DecodeRowsSpec([[MgUnknown]]);
    DecodeListAt([MgUnknown]);
  }

  /** The success callback's conversion loop: one array per fetched row, at
      consecutive indices, with the row's values converted in order. */
  method FetchAllOnOK(data: Option<seq<seq<MgValue>>>) returns (s: Settled)
    ensures s == FetchAllSettled(data)
  {
    if data.None? {
      return Resolved(Null);
    }
    var rows := data.value;
    var output: seq<JsValue> := [];
    var outer := 0;
    while outer < |rows|
      invariant outer <= |rows|
      invariant DecodeRows(rows[..outer]) == Success(output)
    {
      var inner := GlueLoops.ListToArray(rows[outer]);
      if inner.Failure? {
        DecodeRowsSpec(rows);
        return Rejected(Message(ConvertFailMessage));
      }
      assert rows[..outer + 1][..outer] == rows[..outer];
      output := output + [Array(inner.value)];
      outer := outer + 1;
    }
    assert rows[..outer] == rows;
    s := Resolved(Array(output));
  }

  /** How `mg::Client::FetchAll` went on the worker thread: it threw, or it
      returned an optional result set. */
  datatype ServerFetch = FetchThrew(what: string) | Fetched(data: Option<seq<seq<MgValue>>>)

  /** `Client::FetchAll` as seen from an awaiting caller. */
  function ClientFetchAll(fetch: ServerFetch): (s: Settled)
    ensures s != Pending
    ensures fetch.FetchThrew? ==> s == Rejected(Message(FetchFailMessage + fetch.what))
    ensures fetch.Fetched? ==> s == FetchAllSettled(fetch.data)
  {
    match fetch
    case FetchThrew(what) => Rejected(Message(FetchFailMessage + what))
    case Fetched(data) => FetchAllSettled(data)
  }
}
