/** The synchronous connection object: its constructor validates a property
    bag into mgclient session parameters and opens a session, its destructor
    closes that session, and `Execute` runs one query and drains its rows.
    Opening a session, running a query and pulling rows are oracles: the
    caller supplies their outcomes. */
module Connections {
  import opened Wrappers
  import opened Numbers
  import opened JsValues
  import opened MgValues
  import opened Glue
  import opened ClientParams
  import opened QueryArgs
  import opened Pulls
  import Clients
  import GlueLoops

  const AddressKey := "address"
  const SslCertKey := "ssl_cert"
  const SslKeyKey := "ssl_key"
  const TrustCallbackKey := "trust_callback"

  /** How an invocation of the user's trust callback went: one of the four
      string arguments could not be created, the callback threw, or it
      returned a value. */
  datatype CallbackRun = ArgumentNotCreated | CallbackThrew | CallbackReturned(value: JsValue)

  /** `execute_trust_callback`: mgclient accepts the server's certificate on
      0 and refuses it on -1. Only a returned boolean `true` accepts. */
  function ExecuteTrustCallback(run: CallbackRun): (code: int)
    ensures code == 0 || code == -1
    ensures code == 0 <==> run == CallbackReturned(Bool(true))
  {
    match run
    case CallbackReturned(v) => if v.Bool? && v.b then 0 else -1
    case _ => -1
  }

  /** The `mg_session_params` the constructor fills. An absent optional field
      is `None` (a null `const char *`); a present string is the C string of
      its `ToString`. The trust callback is kept by function identity. */
  datatype SessionConfig = SessionConfig(
    host: Option<string>,
    address: Option<string>,
    port: Port,
    username: Option<string>,
    password: Option<string>,
    clientName: Option<string>,
    sslMode: SslMode,
    sslCert: Option<string>,
    sslKey: Option<string>,
    trustCallback: Option<nat>)

  datatype ConnectionError =
    | WrongConnArg
    | HostAddrMissing
    | PortOutOfRange
    | TrustCallbackNotFunction
    | ConnFail(detail: string)

  function ConnectionErrorMessage(e: ConnectionError): string {
    match e
    case WrongConnArg => "Wrong connection argument. One JavaScript object containing connection parameters is allowed."
    case HostAddrMissing => "Exactly one of host and address parameters must be specified."
    case PortOutOfRange => "Port out of range."
    case TrustCallbackNotFunction => "Trust callback isn't callable."
    case ConnFail(detail) => "Connection failed." + " " + detail
  }

  /** An optional string field: `undefined` leaves it unset. */
  function OptString(e: Engine, v: JsValue): Option<string> {
    if v.Undefined? then None else Some(CString(StringOf(e, v)))
  }

  /** The port as the constructor reads it: -1 when absent, otherwise
      `ToNumber` followed by ToInt32. */
  function PortOf(e: Engine, v: JsValue): int {
    if v.Undefined? then -1 else ToInt32(NumberOf(e, v))
  }

  /** The constructor's validation, in its order: one object argument;
      exactly one of `host` and `address`; a port in 0..65535; a trust
      callback that, if present, is a function. */
  function ConnectionConfig(e: Engine, args: seq<JsValue>): Result<SessionConfig, ConnectionError> {
    if |args| < 1 || !IsObject(args[0]) then Failure(WrongConnArg)
    else
      var v := args[0];
      var host := Get(v, Clients.HostKey);
      var address := Get(v, AddressKey);
      if host.Undefined? == address.Undefined? then Failure(HostAddrMissing)
      else
        var port := PortOf(e, Get(v, Clients.PortKey));
        if port < 0 || port > MaxUint16 then Failure(PortOutOfRange)
        else
          var callback := Get(v, TrustCallbackKey);
          if !callback.Undefined? && !callback.Function? then Failure(TrustCallbackNotFunction)
          else Success(SessionConfig(
            host := OptString(e, host),
            address := OptString(e, address),
            port := port,
            username := OptString(e, Get(v, Clients.UsernameKey)),
            password := OptString(e, Get(v, Clients.PasswordKey)),
            clientName := OptString(e, Get(v, Clients.ClientNameKey)),
            sslMode := if Get(v, Clients.UseSslKey).Undefined? then SslRequire
                       else SslModeOf(ToBoolean(Get(v, Clients.UseSslKey))),
            sslCert := OptString(e, Get(v, SslCertKey)),
            sslKey := OptString(e, Get(v, SslKeyKey)),
            trustCallback := if callback.Function? then Some(callback.functionId) else None))
  }

  /** The validation rules one by one: a non-object is rejected; exactly one
      of `host` and `address` must be present; with that settled, an omitted
      port is rejected; an accepted configuration carries exactly the
      endpoint that was given, the port's ToInt32 value, TLS required unless
      `use_ssl` is present and falsy, and the trust callback exactly when a
      function was given; a present non-function trust callback is rejected
      once the endpoint and port pass. */
  lemma ConnectionConfigSpec(e: Engine, args: seq<JsValue>)
    ensures |args| < 1 || !IsObject(args[0]) ==> ConnectionConfig(e, args) == Failure(WrongConnArg)
    ensures |args| >= 1 && IsObject(args[0]) ==>
      (ConnectionConfig(e, args) == Failure(HostAddrMissing) <==>
       Get(args[0], Clients.HostKey).Undefined? == Get(args[0], AddressKey).Undefined?)
    ensures |args| >= 1 && IsObject(args[0]) &&
            Get(args[0], Clients.HostKey).Undefined? != Get(args[0], AddressKey).Undefined? &&
            Get(args[0], Clients.PortKey).Undefined? ==>
      ConnectionConfig(e, args) == Failure(PortOutOfRange)
    ensures ConnectionConfig(e, args).Success? ==>
      var v := args[0];
      var c := ConnectionConfig(e, args).value;
      && (c.host.Some? <==> !Get(v, Clients.HostKey).Undefined?)
      && (c.address.Some? <==> !Get(v, AddressKey).Undefined?)
      && c.host.Some? != c.address.Some?
      && !Get(v, Clients.PortKey).Undefined?
      && c.port == ToInt32(NumberOf(e, Get(v, Clients.PortKey)))
      && (c.sslMode == SslDisable <==> !Get(v, Clients.UseSslKey).Undefined? && !ToBoolean(Get(v, Clients.UseSslKey)))
      && (c.trustCallback.Some? <==> Get(v, TrustCallbackKey).Function?)
      && (Get(v, TrustCallbackKey).Undefined? || Get(v, TrustCallbackKey).Function?)
    ensures |args| >= 1 && IsObject(args[0]) &&
            Get(args[0], Clients.HostKey).Undefined? != Get(args[0], AddressKey).Undefined? &&
            0 <= PortOf(e, Get(args[0], Clients.PortKey)) <= MaxUint16 ==>
      (ConnectionConfig(e, args) == Failure(TrustCallbackNotFunction) <==>
       !Get(args[0], TrustCallbackKey).Undefined? && !Get(args[0], TrustCallbackKey).Function?)
  {
  }

  /** A port given as a whole number in the int32 range is accepted exactly
      when it lies in 0..65535, and is then stored unchanged. */
  lemma ConnectionPortOfWhole(e: Engine, v: JsValue, n: int)
    requires IsObject(v)
    requires Get(v, Clients.HostKey).Undefined? != Get(v, AddressKey).Undefined?
    requires Get(v, TrustCallbackKey).Undefined?
    requires Get(v, Clients.PortKey) == Num(Finite(n as real))
    requires -TwoTo31 <= n < TwoTo31
    ensures ConnectionConfig(e, [v]).Success? <==> 0 <= n <= MaxUint16
    ensures ConnectionConfig(e, [v]).Success? ==> ConnectionConfig(e, [v]).value.port == n
    ensures ConnectionConfig(e, [v]).Failure? ==> ConnectionConfig(e, [v]).error == PortOutOfRange
  {
    ToInt32OfWhole(n);
  }

  /** One optional string parameter, read the way the constructor reads
      each of them: `ToString`, kept only when the value is not `undefined`. */
  method ReadOptional(e: Engine, params: JsValue, key: string) returns (field: Option<string>)
    ensures field.Some? <==> !Get(params, key).Undefined?
    ensures field.Some? ==> field.value == CString(StringOf(e, Get(params, key)))
  {
    field := None;
    var value := Get(params, key);
    var text := CString(StringOf(e, value));
    if !value.Undefined? {
      field := Some(text);
    }
  }

  /** The constructor's parameter reading: locals start at their defaults
      (no endpoint, port -1, TLS required) and each check either rejects or
      overwrites one of them. */
  method ReadConfig(e: Engine, args: seq<JsValue>) returns (r: Result<SessionConfig, ConnectionError>)
    ensures r == ConnectionConfig(e, args)
  {
    if |args| < 1 || !IsObject(args[0]) {
      return Failure(WrongConnArg);
    }
    var port := -1;
    var sslMode := SslRequire;
    var trustCallback: Option<nat> := None;

    var params := args[0];
    var hostValue := Get(params, Clients.HostKey);
    var addressValue := Get(params, AddressKey);
    if (hostValue.Undefined? && addressValue.Undefined?) || (!hostValue.Undefined? && !addressValue.Undefined?) {
      return Failure(HostAddrMissing);
    }
    var host := ReadOptional(e, params, Clients.HostKey);
    var address := ReadOptional(e, params, AddressKey);
    var portValue := Get(params, Clients.PortKey);
    if !portValue.Undefined? {
      port := ToInt32(NumberOf(e, portValue));
    }
    if port < 0 || port > MaxUint16 {
      return Failure(PortOutOfRange);
    }
    var username := ReadOptional(e, params, Clients.UsernameKey);
    var password := ReadOptional(e, params, Clients.PasswordKey);
    var clientName := ReadOptional(e, params, Clients.ClientNameKey);
    var useSslValue := Get(params, Clients.UseSslKey);
    if !useSslValue.Undefined? {
      if ToBoolean(useSslValue) {
        sslMode := SslRequire;
      } else {
        sslMode := SslDisable;
      }
    }
    var sslCert := ReadOptional(e, params, SslCertKey);
    var sslKey := ReadOptional(e, params, SslKeyKey);
    var callbackValue := Get(params, TrustCallbackKey);
    if !callbackValue.Undefined? {
      if !callbackValue.Function? {
        return Failure(TrustCallbackNotFunction);
      }
      trustCallback := Some(callbackValue.functionId);
    }
    r := Success(SessionConfig(host, address, port, username, password, clientName,
                               sslMode, sslCert, sslKey, trustCallback));
  }

  /** What `mg_connect` does with the parameters: opens a session, or fails
      with the session's error text. */
  datatype ConnectAttempt = Accepted | Refused(error: string)

  /** An `mg_session`, open until destroyed. */
  class MgSession {
    var open: bool

    constructor ()
      ensures open
    {
      open := true;
    }

    /** `mg_session_destroy`. */
    method Destroy()
      modifies this
      ensures !open
    {
      open := false;
    }
  }

  /** The exceptions `Execute` leaves for its caller: its own, raised before
      or while running the query, and the codec's, when the parameters do not
      encode or a row does not decode. */
  datatype ExecuteError =
    | WrongExecuteArgs
    | QueryStringError
    | QueryParamsError
    | ParamsNotEncoded(encodeCause: EncodeError)
    | RunFail
    | RowNotDecoded(decodeCause: DecodeError)

  /** The messages of `Execute`'s own exceptions; the codec's carry the
      codec's messages. */
  function ExecuteErrorMessage(e: ExecuteError): string
    requires !e.ParamsNotEncoded? && !e.RowNotDecoded?
  {
    match e
    case WrongExecuteArgs =>
      "Wrong execute arguments. The first argument has to be query. Second argument is optional and should contain the query parameters object/dictionary type of object."
    case QueryStringError => "The first execute argument has to be string."
    case QueryParamsError => "The second execute argument has to be dictionary/object."
    case RunFail => "Fail to execute query (run command)."
  }

  /** The exception each query-argument rejection leaves. */
  function ExecuteErrorOf(q: QueryError): ExecuteError {
    match q
    case QueryNotString => QueryStringError
    case ParamsNotObject => QueryParamsError
    case ParamsNotEncodable(cause) => ParamsNotEncoded(cause)
  }

  /** What `mg_session_run` receives: the query's C string and the encoded
      parameters, if any. */
  datatype RunRequest = RunRequest(query: string, params: Option<seq<MgEntry>>)

  /** The pull loop of `Execute`: one array per row while the session
      reports status 1, each row's values converted in order; a row that does
      not convert abandons the drain with the codec's error. */
  method DrainSession(pulls: seq<SessionPull>) returns (r: Result<seq<JsValue>, DecodeError>)
    ensures r.Failure? <==> DecodedRows(pulls).Failure?
    ensures r.Failure? ==> r.error == DecodedRows(pulls).error
    ensures r.Success? ==>
      var rows := DecodedRows(pulls).value;
      |r.value| == |rows| && forall k :: 0 <= k < |rows| ==> r.value[k] == Array(rows[k])
  {
    var data: seq<JsValue> := [];
    var index := 0;
    ghost var rows: seq<seq<JsValue>> := [];
    assert pulls[index..] == pulls;
    assert DecodedRows(pulls).Success? ==> [] + DecodedRows(pulls).value == DecodedRows(pulls).value;
    while index < |pulls| && pulls[index].status == 1
      invariant index <= |pulls|
      invariant DecodedRows(pulls) == Prefixed(rows, DecodedRows(pulls[index..]))
      invariant |data| == |rows|
      invariant forall k :: 0 <= k < |rows| ==> data[k] == Array(rows[k])
    {
      assert pulls[index..][1..] == pulls[index + 1..];
      var row := GlueLoops.ListToArray(pulls[index].row);
      if row.Failure? {
        return Failure(row.error);
      }
      ghost var rest := DecodedRows(pulls[index + 1..]);
      assert DecodedRows(pulls[index..]) == Prefixed([row.value], rest);
      assert rest.Success? ==> rows + ([row.value] + rest.value) == rows + [row.value] + rest.value;
      data := data + [Array(row.value)];
      rows := rows + [row.value];
      index := index + 1;
    }
    assert DecodedRows(pulls) == Success(rows + []);
    r := Success(data);
  }

  class Connection {
    var session: MgSession?

    /** The wrapper object before its constructor body runs: no session. */
    constructor ()
      ensures session == null
    {
      session := null;
    }

    /** The constructor body: validate the parameters, then connect. On a
        validation failure nothing is opened; on a refused connection the
        session `mg_connect` produced is destroyed and the field is nulled;
        otherwise the connection holds the new open session. */
    method Open(e: Engine, args: seq<JsValue>, attempt: ConnectAttempt)
      returns (r: Result<SessionConfig, ConnectionError>, ghost made: MgSession?)
      requires session == null
      modifies this
      ensures ConnectionConfig(e, args).Failure? ==>
        r == Failure(ConnectionConfig(e, args).error) && session == null && made == null
      ensures ConnectionConfig(e, args).Success? && attempt.Refused? ==>
        r == Failure(ConnFail(CString(attempt.error))) && session == null &&
        made != null && fresh(made) && !made.open
      ensures ConnectionConfig(e, args).Success? && attempt.Accepted? ==>
        r == ConnectionConfig(e, args) && session != null && fresh(session) && session.open &&
        made == session
    {
      var config := ReadConfig(e, args);
      if config.Failure? {
        return config, null;
      }
      var newSession := new MgSession();
      made := newSession;
      session := newSession;
      if attempt.Refused? {
        newSession.Destroy();
        session := null;
        return Failure(ConnFail(CString(attempt.error))), newSession;
      }
      r := config;
    }

    /** The destructor: a session that is still held is destroyed and the
        field is nulled; without one there is nothing to do. */
    method Destroy()
      modifies this, session
      ensures session == null
      ensures old(session) != null ==> !old(session).open
    {
      if session != null {
        session.Destroy();
        session := null;
      }
    }

    /** `Execute`: check the arguments, run the query with the status the
        server reports, then pull while the status is 1, turning each wire
        row into an array at the next index. `Failure` is an exception left
        pending for the caller. A row that does not decode returns `null`
        with the codec's exception pending, so the caller receives that
        exception. Parameters that do not encode leave the encoder's
        exception, as corrected; `QueryArgumentsAsWritten` says what the code
        does instead. `sent` is what reached `mg_session_run`. */
    method Execute(args: seq<JsValue>, runStatus: int, pulls: seq<SessionPull>)
      returns (r: Result<JsValue, ExecuteError>, sent: Option<RunRequest>)
      ensures (|args| < 1 || |args| > 2) ==> r == Failure(WrongExecuteArgs) && sent == None
      ensures 1 <= |args| <= 2 && QueryArguments(args).Failure? ==>
        r == Failure(ExecuteErrorOf(QueryArguments(args).error)) && sent == None
      ensures 1 <= |args| <= 2 && QueryArguments(args).Success? ==>
        var q := QueryArguments(args).value;
        sent == Some(RunRequest(CString(q.text), q.params))
      ensures 1 <= |args| <= 2 && QueryArguments(args).Success? && runStatus != 0 ==>
        r == Failure(RunFail)
      ensures 1 <= |args| <= 2 && QueryArguments(args).Success? && runStatus == 0 ==>
        (r.Failure? <==> DecodedRows(pulls).Failure?)
      ensures 1 <= |args| <= 2 && QueryArguments(args).Success? && runStatus == 0 && DecodedRows(pulls).Failure? ==>
        r == Failure(RowNotDecoded(DecodedRows(pulls).error))
      ensures 1 <= |args| <= 2 && QueryArguments(args).Success? && runStatus == 0 && DecodedRows(pulls).Success? ==>
        var rows := DecodedRows(pulls).value;
        && r.Success? && r.value.Array? && |r.value.elems| == |rows|
        && forall k :: 0 <= k < |rows| ==> r.value.elems[k] == Array(rows[k])
    {
      sent := None;
      if |args| < 1 || |args| > 2 {
        return Failure(WrongExecuteArgs), None;
      }
      var query := "";
      var params: Option<seq<MgEntry>> := None;
      if |args| == 1 || |args| == 2 {
        if !args[0].Str? {
          return Failure(QueryStringError), None;
        }
        query := args[0].s;
      }
      if |args| == 2 {
        if !IsObject(args[1]) {
          return Failure(QueryParamsError), None;
        }
        var encoded := EncodeMap(Properties(args[1]));
        if encoded.Failure? {
          return Failure(ParamsNotEncoded(encoded.error)), None;
        }
        params := Some(encoded.value);
      }

      sent := Some(RunRequest(CString(query), params));
      if runStatus != 0 {
        return Failure(RunFail), sent;
      }
      var drained := DrainSession(pulls);
      if drained.Failure? {
        return Failure(RowNotDecoded(drained.error)), sent;
      }
      r := Success(Array(drained.value));
    }
  }
}
