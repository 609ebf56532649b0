/** The lenient, promise-based connection object: `create_params` coerces
    whatever it finds under the six connection keys instead of type-checking
    it, and ignores every other property; `Execute` validates its arguments
    before handing them to a worker. */
module AsyncConnections {
  import opened Wrappers
  import opened Numbers
  import opened JsValues
  import opened ClientParams
  import opened QueryArgs
  import Clients
  import Glue
  import MgValues

  datatype CreateParamsError = ConnWrongArg | ConnPortOutOfRange

  /** The value stored under a key is coerced to a string; an undefined one
      leaves the fallback. */
  function CoercedOr(e: Engine, v: JsValue, key: string, fallback: string): string {
    if Get(v, key).Undefined? then fallback else StringOf(e, Get(v, key))
  }

  /** `create_params`: the first argument must be an object; each of the six
      keys that reads as something other than `undefined` overrides the
      default, strings by `ToString`, the port by `ToNumber` then ToUint32
      (rejected above 65535), and `use_ssl` by its truthiness. */
  function CreateParamsSpec(e: Engine, args: seq<JsValue>, defaults: Params): Result<Params, CreateParamsError> {
    if |args| < 1 || !IsObject(args[0]) then Failure(ConnWrongArg)
    else
      var v := args[0];
      var port := Get(v, Clients.PortKey);
      if !port.Undefined? && ToUint32(NumberOf(e, port)) > MaxUint16 then Failure(ConnPortOutOfRange)
      else Success(Params(
        host := CoercedOr(e, v, Clients.HostKey, defaults.host),
        port := if port.Undefined? then defaults.port else ToUint32(NumberOf(e, port)),
        username := CoercedOr(e, v, Clients.UsernameKey, defaults.username),
        password := CoercedOr(e, v, Clients.PasswordKey, defaults.password),
        userAgent := CoercedOr(e, v, Clients.ClientNameKey, defaults.userAgent),
        useSsl := if Get(v, Clients.UseSslKey).Undefined? then defaults.useSsl
                  else SslModeOf(ToBoolean(Get(v, Clients.UseSslKey)))))
  }

  /** `create_params` itself: start from the defaults and overwrite one field
      at a time. */
  method CreateParams(e: Engine, args: seq<JsValue>, defaults: Params) returns (r: Result<Params, CreateParamsError>)
    ensures r == CreateParamsSpec(e, args, defaults)
  {
    if |args| < 1 || !IsObject(args[0]) {
      return Failure(ConnWrongArg);
    }
    var userParams := args[0];
    var params := defaults;
    var host := Get(userParams, Clients.HostKey);
    if !host.Undefined? {
      params := params.(host := StringOf(e, host));
    }
    var port := Get(userParams, Clients.PortKey);
    if !port.Undefined? {
      var value := ToUint32(NumberOf(e, port));
      if value > MaxUint16 {
        return Failure(ConnPortOutOfRange);
      }
      params := params.(port := value);
    }
    var username := Get(userParams, Clients.UsernameKey);
    if !username.Undefined? {
      params := params.(username := StringOf(e, username));
    }
    var password := Get(userParams, Clients.PasswordKey);
    if !password.Undefined? {
      params := params.(password := StringOf(e, password));
    }
    var clientName := Get(userParams, Clients.ClientNameKey);
    if !clientName.Undefined? {
      params := params.(userAgent := StringOf(e, clientName));
    }
    var useSsl := Get(userParams, Clients.UseSslKey);
    if !useSsl.Undefined? {
      params := params.(useSsl := SslModeOf(ToBoolean(useSsl)));
    }
    r := Success(params);
  }

  /** Only the six connection keys matter: two objects that read the same
      under them give the same outcome, whatever else they hold. */
  lemma CreateParamsIgnoresOtherKeys(e: Engine, v: JsValue, w: JsValue, defaults: Params)
    requires IsObject(v) && IsObject(w)
    requires Get(v, Clients.HostKey) == Get(w, Clients.HostKey)
    requires Get(v, Clients.PortKey) == Get(w, Clients.PortKey)
    requires Get(v, Clients.UsernameKey) == Get(w, Clients.UsernameKey)
    requires Get(v, Clients.PasswordKey) == Get(w, Clients.PasswordKey)
    requires Get(v, Clients.ClientNameKey) == Get(w, Clients.ClientNameKey)
    requires Get(v, Clients.UseSslKey) == Get(w, Clients.UseSslKey)
    ensures CreateParamsSpec(e, [v], defaults) == CreateParamsSpec(e, [w], defaults)
  {
  }

  /** A missing or non-object argument is rejected; an object with none of the
      six keys keeps every default; a port whose ToUint32 value exceeds 65535
      is rejected and any other is stored; `use_ssl`, when present, selects
      REQUIRE when truthy and DISABLE otherwise. */
  lemma CreateParamsFields(e: Engine, args: seq<JsValue>, defaults: Params)
    ensures |args| < 1 || !IsObject(args[0]) ==> CreateParamsSpec(e, args, defaults) == Failure(ConnWrongArg)
    ensures |args| >= 1 && IsObject(args[0]) && Properties(args[0]) == [] ==>
      CreateParamsSpec(e, args, defaults) == Success(defaults)
    ensures |args| >= 1 && IsObject(args[0]) ==>
      var port := Get(args[0], Clients.PortKey);
      && (!port.Undefined? && ToUint32(NumberOf(e, port)) > MaxUint16 <==>
            CreateParamsSpec(e, args, defaults) == Failure(ConnPortOutOfRange))
      && (CreateParamsSpec(e, args, defaults).Success? && !port.Undefined? ==>
            CreateParamsSpec(e, args, defaults).value.port == ToUint32(NumberOf(e, port)))
    ensures CreateParamsSpec(e, args, defaults).Success? ==>
      var useSsl := Get(args[0], Clients.UseSslKey);
      CreateParamsSpec(e, args, defaults).value.useSsl ==
        if useSsl.Undefined? then defaults.useSsl else SslModeOf(ToBoolean(useSsl))
  {
  }

  /** The lenient and the strict validators part ways: a numeric host or an
      extra property passes `create_params` but is rejected by
      `PrepareConnect`. */
  lemma LenientVersusStrict(e: Engine, name: string, defaults: Params)
    ensures var v := Object([Prop(Clients.HostKey, Num(Finite(1.0)))]);
      && CreateParamsSpec(e, [v], defaults) == Success(defaults.(host := e.toString(Num(Finite(1.0)))))
      && Clients.ConnectParams(name, [v], defaults) == Failure(Clients.HostNotString)
    ensures var v := Object([Prop(Clients.HostKey, Str("localhost")), Prop("hots", Str("x"))]);
      && CreateParamsSpec(e, [v], defaults) == Success(defaults.(host := "localhost"))
      && Clients.ConnectParams(name, [v], defaults) == Failure(Clients.WrongConnectArg)
  {
    var v := Object([Prop(Clients.HostKey, Str("localhost")), Prop("hots", Str("x"))]);
    var tail := [Prop("hots", Str("x"))];
    assert Properties(v)[1..] == tail;
    assert KeySet(tail) == {"hots"} by {
      assert tail[1..] == [];
    }
    assert KeySet(Properties(v)) == {Clients.HostKey, "hots"};
  }

  /** `Execute`'s argument checks: a rejected argument list throws and
      returns `null` without queueing any work; an accepted one queues the
      query with its parameters. Unencodable parameters leave the encoder's
      exception for the caller, as corrected; `QueryArgumentsAsWritten` says
      what the code does instead. */
  method Execute(args: seq<JsValue>) returns (r: Result<Query, QueryError>)
    ensures r == QueryArguments(args)
  {
    var query := "";
    var params: Option<seq<MgValues.MgEntry>> := None;
    if |args| == 1 || |args| == 2 {
      if !args[0].Str? {
        return Failure(QueryNotString);
      }
      query := args[0].s;
    }
    if |args| == 2 {
      if !IsObject(args[1]) {
        return Failure(ParamsNotObject);
      }
      var encoded := Glue.EncodeMap(Properties(args[1]));
      if encoded.Failure? {
        return Failure(ParamsNotEncodable(encoded.error));
      }
      params := Some(encoded.value);
    }
    r := Success(Query(query, params));
  }
}
