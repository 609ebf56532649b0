/** The promise-based client: its name (the default user agent), the strict
    connect-argument validator `PrepareConnect`, and the "already connected"
    guard of `Connect`. The connection itself is made by `mg::Client::Connect`
    on a worker thread; here its success is the creation of a new, connected
    client. */
module Clients {
  import opened Wrappers
  import opened Numbers
  import opened JsValues
  import opened ClientParams

  const HostKey := "host"
  const PortKey := "port"
  const UsernameKey := "username"
  const PasswordKey := "password"
  const ClientNameKey := "client_name"
  const UseSslKey := "use_ssl"

  const DefaultName := "nodemgclient"

  datatype ConnectError =
    | WrongConnectArg
    | HostNotString
    | PortNotNumber
    | PortOutOfRange
    | UsernameNotString
    | PasswordNotString
    | ClientNameNotString
    | UseSslNotBoolean
    | AlreadyConnected

  function ConnectErrorMessage(e: ConnectError): string {
    match e
    case WrongConnectArg =>
      "Wrong connect argument. An object containing { host, port, username, password, client_name, use_ssl } is required. All arguments are optional."
    case HostNotString => "`host` connect argument has to be string."
    case PortNotNumber => "`port` connect argument has to be number."
    case PortOutOfRange => "`port` connect argument out of range. Port has to be a number between 0 and 65535."
    case UsernameNotString => "`username` connect argument has to be string."
    case PasswordNotString => "`password` connect argument has to be string."
    case ClientNameNotString => "`client_name` connect argument has to be string."
    case UseSslNotBoolean => "`use_ssl` connect argument has to be boolean."
    case AlreadyConnected => "Already connected."
  }

  predicate Recognised(key: string) {
    key == HostKey || key == PortKey || key == UsernameKey || key == PasswordKey ||
    key == ClientNameKey || key == UseSslKey
  }

  /** How many of the six recognised keys a key set holds. */
  function RecognisedIn(keys: set<string>): nat {
    (if HostKey in keys then 1 else 0) + (if PortKey in keys then 1 else 0) +
    (if UsernameKey in keys then 1 else 0) + (if PasswordKey in keys then 1 else 0) +
    (if ClientNameKey in keys then 1 else 0) + (if UseSslKey in keys then 1 else 0)
  }

  /** The value of `counter` once every recognised key has been looked at. */
  function Counter(v: JsValue): nat {
    RecognisedIn(KeySet(Properties(v)))
  }

  /** A property that is present must have the given kind. */
  predicate Typed(v: JsValue, key: string, kind: Kind) {
    Has(v, key) ==> KindOf(Get(v, key)) == kind
  }

  /** The string stored under a key, or the fallback when the key is absent. */
  function StringOr(v: JsValue, key: string, fallback: string): string {
    if Has(v, key) && Get(v, key).Str? then Get(v, key).s else fallback
  }

  /** `PrepareConnect`, as the checks are meant to work: no argument keeps the
      defaults with the client's name as user agent; otherwise the argument
      must be an object whose recognised properties have the right types, whose
      port reduces (ToUint32) to at most 65535, and which has no property
      besides the recognised ones. */
  function ConnectParams(name: string, args: seq<JsValue>, defaults: Params): Result<Params, ConnectError> {
    if |args| < 1 then Success(defaults.(userAgent := name))
    else ConnectParamsOf(name, args[0], defaults)
  }

  function ConnectParamsOf(name: string, v: JsValue, defaults: Params): Result<Params, ConnectError> {
    if !IsObject(v) then Failure(WrongConnectArg)
    else if !Typed(v, HostKey, KString) then Failure(HostNotString)
    else if !Typed(v, PortKey, KNumber) then Failure(PortNotNumber)
    else if Has(v, PortKey) && ToUint32(Get(v, PortKey).n) > MaxUint16 then Failure(PortOutOfRange)
    else if !Typed(v, UsernameKey, KString) then Failure(UsernameNotString)
    else if !Typed(v, PasswordKey, KString) then Failure(PasswordNotString)
    else if !Typed(v, ClientNameKey, KString) then Failure(ClientNameNotString)
    else if !Typed(v, UseSslKey, KBoolean) then Failure(UseSslNotBoolean)
    else if |Properties(v)| != Counter(v) then Failure(WrongConnectArg)
    else Success(Params(
      host := StringOr(v, HostKey, defaults.host),
      port := if Has(v, PortKey) then ToUint32(Get(v, PortKey).n) else defaults.port,
      username := StringOr(v, UsernameKey, defaults.username),
      password := StringOr(v, PasswordKey, defaults.password),
      userAgent := StringOr(v, ClientNameKey, name),
      useSsl := if Has(v, UseSslKey) then SslModeOf(Get(v, UseSslKey).b) else defaults.useSsl))
  }

  /** The connect argument is accepted exactly when it is an object whose
      recognised properties are well typed, whose port reduces to at most
      65535 and whose property count equals the number of recognised keys it
      has. A present field is copied (the port through ToUint32, `use_ssl`
      as REQUIRE for true and DISABLE for false); an absent one keeps the
      default, and the user agent defaults to the client's name. */
  lemma ConnectParamsSpec(name: string, v: JsValue, defaults: Params)
    ensures ConnectParamsOf(name, v, defaults).Success? <==>
      && IsObject(v)
      && Typed(v, HostKey, KString) && Typed(v, PortKey, KNumber)
      && Typed(v, UsernameKey, KString) && Typed(v, PasswordKey, KString)
      && Typed(v, ClientNameKey, KString) && Typed(v, UseSslKey, KBoolean)
      && (Has(v, PortKey) ==> ToUint32(Get(v, PortKey).n) <= MaxUint16)
      && |Properties(v)| == Counter(v)
    ensures !IsObject(v) ==> ConnectParamsOf(name, v, defaults) == Failure(WrongConnectArg)
    ensures ConnectParamsOf(name, v, defaults).Success? ==>
      var p := ConnectParamsOf(name, v, defaults).value;
      && (if Has(v, HostKey) then Get(v, HostKey) == Str(p.host) else p.host == defaults.host)
      && (if Has(v, PortKey) then Get(v, PortKey).Num? && p.port == ToUint32(Get(v, PortKey).n)
          else p.port == defaults.port)
      && (if Has(v, UsernameKey) then Get(v, UsernameKey) == Str(p.username) else p.username == defaults.username)
      && (if Has(v, PasswordKey) then Get(v, PasswordKey) == Str(p.password) else p.password == defaults.password)
      && (if Has(v, ClientNameKey) then Get(v, ClientNameKey) == Str(p.userAgent) else p.userAgent == name)
      && (if Has(v, UseSslKey) then Get(v, UseSslKey).Bool? && p.useSsl == SslModeOf(Get(v, UseSslKey).b)
          else p.useSsl == defaults.useSsl)
  {
  }

  /** A port given as a whole number between 0 and 65535 is stored as that
      number, and one whose ToUint32 value exceeds 65535 is rejected. */
  lemma ConnectPort(name: string, v: JsValue, defaults: Params, n: int)
    requires Get(v, PortKey) == Num(Finite(n as real))
    ensures 0 <= n <= MaxUint16 && ConnectParamsOf(name, v, defaults).Success? ==>
      ConnectParamsOf(name, v, defaults).value.port == n
    ensures MaxUint16 < n < TwoTo32 ==> ConnectParamsOf(name, v, defaults).Failure?
  {
    if 0 <= n < TwoTo32 {
      ToUint32OfWhole(n);
    }
  }

  /** How many properties carry a recognised key. */
  function CountRecognised(props: seq<Prop>): (c: nat)
    ensures c <= |props|
    ensures c == |props| <==> forall i :: 0 <= i < |props| ==> Recognised(props[i].key)
  {
    if props == [] then 0
    else (if Recognised(props[0].key) then 1 else 0) + CountRecognised(props[1..])
  }

  /** With distinct keys, the recognised keys present number exactly the
      properties that carry one. */
  lemma {:induction false} RecognisedCount(props: seq<Prop>)
    requires DistinctKeys(props)
    ensures RecognisedIn(KeySet(props)) == CountRecognised(props)
  {
    if props != [] {
      var rest := props[1..];
      assert DistinctKeys(rest) by {
        forall i, j | 0 <= i < j < |rest| ensures rest[i].key != rest[j].key {
          assert rest[i] == props[i + 1] && rest[j] == props[j + 1];
        }
      }
      RecognisedCount(rest);
      LookupSpec(rest, props[0].key);
      assert props[0].key !in KeySet(rest) by {
        forall i | 0 <= i < |rest| ensures rest[i].key != props[0].key {
          assert rest[i] == props[i + 1];
        }
      }
      AddKey(KeySet(rest), props[0].key);
    }
  }

  /** Adding a key that is not there yet adds one to the count exactly when
      the key is recognised. */
  lemma AddKey(keys: set<string>, key: string)
    requires key !in keys
    ensures RecognisedIn({key} + keys) == RecognisedIn(keys) + (if Recognised(key) then 1 else 0)
  {
  }

  /** An object with a property outside the six recognised keys is rejected,
      because the property count then exceeds the counter; with only
      recognised keys the count check passes. */
  lemma ConnectUnknownKeys(name: string, v: JsValue, defaults: Params)
    requires DistinctKeys(Properties(v))
    ensures (exists i :: 0 <= i < |Properties(v)| && !Recognised(Properties(v)[i].key)) ==>
      ConnectParamsOf(name, v, defaults).Failure?
    ensures (forall i :: 0 <= i < |Properties(v)| ==> Recognised(Properties(v)[i].key)) ==>
      |Properties(v)| == Counter(v)
  {
    RecognisedCount(Properties(v));
  }

  // ---------------------------------------------------------------------------
  // The validator as written
  // ---------------------------------------------------------------------------

  /** What the source's `PrepareConnect` leads to: an error thrown to the
      caller, an aborted process, or connection parameters. */
  datatype AsWrittenConnect = AsWrittenThrew(error: ConnectError) | ProcessAborted | AsWrittenParams(params: Params)

  /** `PrepareConnect` as written. The password is stored into the `username`
      field (client.cpp line 131). A `client_name` that is not a string raises
      its type error but does not return (lines 137-140); every N-API call
      after that fails with the error still pending, so the string conversion
      yields nothing, the `use_ssl` lookup reports no key and the property
      listing is empty. The empty listing differs from the counter, which
      already counts `client_name`, and throwing the second error while the
      first is pending aborts the process (lines 157-160). */
  function ConnectParamsAsWritten(name: string, args: seq<JsValue>, defaults: Params): AsWrittenConnect {
    if |args| < 1 then AsWrittenParams(defaults.(userAgent := name))
    else
      var v := args[0];
      if !IsObject(v) then AsWrittenThrew(WrongConnectArg)
      else if !Typed(v, HostKey, KString) then AsWrittenThrew(HostNotString)
      else if !Typed(v, PortKey, KNumber) then AsWrittenThrew(PortNotNumber)
      else if Has(v, PortKey) && ToUint32(Get(v, PortKey).n) > MaxUint16 then AsWrittenThrew(PortOutOfRange)
      else if !Typed(v, UsernameKey, KString) then AsWrittenThrew(UsernameNotString)
      else if !Typed(v, PasswordKey, KString) then AsWrittenThrew(PasswordNotString)
      else if !Typed(v, ClientNameKey, KString) then ProcessAborted
      else if !Typed(v, UseSslKey, KBoolean) then AsWrittenThrew(UseSslNotBoolean)
      else if |Properties(v)| != Counter(v) then AsWrittenThrew(WrongConnectArg)
      else AsWrittenParams(Params(
        host := StringOr(v, HostKey, defaults.host),
        port := if Has(v, PortKey) then ToUint32(Get(v, PortKey).n) else defaults.port,
        username := StringOr(v, PasswordKey, StringOr(v, UsernameKey, defaults.username)),
        password := defaults.password,
        userAgent := StringOr(v, ClientNameKey, name),
        useSsl := if Has(v, UseSslKey) then SslModeOf(Get(v, UseSslKey).b) else defaults.useSsl))
  }

  /** Without a password and with a string `client_name` (or none), the
      validator as written and the corrected one agree. */
  lemma AsWrittenAgrees(name: string, v: JsValue, defaults: Params)
    requires !Has(v, PasswordKey)
    requires Typed(v, ClientNameKey, KString)
    ensures ConnectParams(name, [v], defaults).Failure? ==>
      ConnectParamsAsWritten(name, [v], defaults) == AsWrittenThrew(ConnectParams(name, [v], defaults).error)
    ensures ConnectParams(name, [v], defaults).Success? ==>
      ConnectParamsAsWritten(name, [v], defaults) == AsWrittenParams(ConnectParams(name, [v], defaults).value)
  {
  }

  /** A password given alone lands in the username field as written, and in
      the password field once corrected. */
  lemma PasswordStoredAsUsername(name: string, defaults: Params)
    ensures var v := Object([Prop(PasswordKey, Str("secret"))]);
      && ConnectParamsAsWritten(name, [v], defaults) ==
           AsWrittenParams(defaults.(userAgent := name, username := "secret"))
      && ConnectParams(name, [v], defaults) ==
           Success(defaults.(userAgent := name, password := "secret"))
  {
    var v := Object([Prop(PasswordKey, Str("secret"))]);
    assert KeySet(Properties(v)) == {PasswordKey};
  }

  /** As written, the process aborts exactly where the corrected validator
      rejects the arguments with the `client_name` error: an object whose
      earlier fields are valid but whose `client_name` is not a string. */
  lemma ClientNameErrorAborts(name: string, args: seq<JsValue>, defaults: Params)
    ensures ConnectParamsAsWritten(name, args, defaults) == ProcessAborted <==>
      ConnectParams(name, args, defaults) == Failure(ClientNameNotString)
  {
  }

  /** `{ client_name: 1 }` aborts the process as written and is rejected with
      the `client_name` error once corrected. */
  lemma NumericClientNameAborts(name: string, defaults: Params)
    ensures var v := Object([Prop(ClientNameKey, Num(Finite(1.0)))]);
      && ConnectParamsAsWritten(name, [v], defaults) == ProcessAborted
      && ConnectParams(name, [v], defaults) == Failure(ClientNameNotString)
  {
  }

  // ---------------------------------------------------------------------------
  // The client object
  // ---------------------------------------------------------------------------

  /** One string field of `PrepareConnect`: a present key is counted, must
      hold a string, and replaces the current value. */
  method CopyString(v: JsValue, key: string, error: ConnectError, current: string)
    returns (r: Result<string, ConnectError>, counted: nat)
    ensures counted == if Has(v, key) then 1 else 0
    ensures r.Failure? <==> !Typed(v, key, KString)
    ensures r.Failure? ==> r.error == error
    ensures r.Success? ==> r.value == StringOr(v, key, current)
  {
    counted := 0;
    r := Success(current);
    if Has(v, key) {
      counted := 1;
      var value := Get(v, key);
      if !value.Str? {
        return Failure(error), counted;
      }
      r := Success(value.s);
    }
  }

  /** The `port` field: a present port is counted, must be a number, and is
      stored as its ToUint32 value, which must not exceed 65535. */
  method CopyPort(v: JsValue, current: nat) returns (r: Result<nat, ConnectError>, counted: nat)
    ensures counted == if Has(v, PortKey) then 1 else 0
    ensures !Typed(v, PortKey, KNumber) ==> r == Failure(PortNotNumber)
    ensures Typed(v, PortKey, KNumber) && Has(v, PortKey) ==>
      r == if ToUint32(Get(v, PortKey).n) > MaxUint16 then Failure(PortOutOfRange)
           else Success(ToUint32(Get(v, PortKey).n))
    ensures !Has(v, PortKey) ==> r == Success(current)
  {
    counted := 0;
    r := Success(current);
    if Has(v, PortKey) {
      counted := 1;
      var port := Get(v, PortKey);
      if !port.Num? {
        return Failure(PortNotNumber), counted;
      }
      var value := ToUint32(port.n);
      if value > MaxUint16 {
        return Failure(PortOutOfRange), counted;
      }
      r := Success(value);
    }
  }

  /** The `use_ssl` field: a present flag is counted, must be a boolean, and
      selects REQUIRE for true and DISABLE for false. */
  method CopyUseSsl(v: JsValue, current: SslMode) returns (r: Result<SslMode, ConnectError>, counted: nat)
    ensures counted == if Has(v, UseSslKey) then 1 else 0
    ensures r.Failure? <==> !Typed(v, UseSslKey, KBoolean)
    ensures r.Failure? ==> r.error == UseSslNotBoolean
    ensures r.Success? ==> r.value == if Has(v, UseSslKey) then SslModeOf(Get(v, UseSslKey).b) else current
  {
    counted := 0;
    r := Success(current);
    if Has(v, UseSslKey) {
      counted := 1;
      var useSsl := Get(v, UseSslKey);
      if !useSsl.Bool? {
        return Failure(UseSslNotBoolean), counted;
      }
      r := Success(SslModeOf(useSsl.b));
    }
  }

  /** What `Connect` returns: a thrown error (the call yields `undefined`), or
      a promise whose worker connects with the given parameters. */
  datatype ConnectCall = ConnectThrew(error: ConnectError) | ConnectQueued(params: Params)

  /** The client's name: the constructor's single argument, if there is one. */
  function ClientName(args: seq<JsValue>): string
    requires |args| == 1 ==> args[0].Str?
  {
    if |args| == 1 then args[0].s else DefaultName
  }

  class Client {
    const name: string
    /** Whether `client_` holds a connected `mg::Client`. */
    var connected: bool

    constructor (args: seq<JsValue>)
      requires |args| == 1 ==> args[0].Str?
      ensures name == ClientName(args)
      ensures !connected
    {
      name := ClientName(args);
      connected := false;
    }

    method SetMgClient()
      modifies this
      ensures connected
    {
      connected := true;
    }

    /** `PrepareConnect`: the user agent starts as the client's name; each
        recognised key that is present is counted, type-checked and copied;
        finally the property count must match the counter. */
    method PrepareConnect(args: seq<JsValue>, defaults: Params) returns (r: Result<Params, ConnectError>)
      ensures r == ConnectParams(name, args, defaults)
    {
      var params := defaults.(userAgent := name);
      if |args| < 1 {
        return Success(params);
      }
      if !IsObject(args[0]) {
        return Failure(WrongConnectArg);
      }
      var userParams := args[0];
      var counter := 0;
      var host, counted := CopyString(userParams, HostKey, HostNotString, params.host);
      counter := counter + counted;
      if host.Failure? {
        return Failure(host.error);
      }
      params := params.(host := host.value);
      var port;
      port, counted := CopyPort(userParams, params.port);
      counter := counter + counted;
      if port.Failure? {
        return Failure(port.error);
      }
      params := params.(port := port.value);
      var username;
      username, counted := CopyString(userParams, UsernameKey, UsernameNotString, params.username);
      counter := counter + counted;
      if username.Failure? {
        return Failure(username.error);
      }
      params := params.(username := username.value);
      var password;
      password, counted := CopyString(userParams, PasswordKey, PasswordNotString, params.password);
      counter := counter + counted;
      if password.Failure? {
        return Failure(password.error);
      }
      params := params.(password := password.value);
      var clientName;
      clientName, counted := CopyString(userParams, ClientNameKey, ClientNameNotString, params.userAgent);
      counter := counter + counted;
      if clientName.Failure? {
        return Failure(clientName.error);
      }
      params := params.(userAgent := clientName.value);
      var useSsl;
      useSsl, counted := CopyUseSsl(userParams, params.useSsl);
      counter := counter + counted;
      if useSsl.Failure? {
        return Failure(useSsl.error);
      }
      params := params.(useSsl := useSsl.value);
      assert counter == Counter(userParams);
      if |Properties(userParams)| != counter {
        return Failure(WrongConnectArg);
      }
      r := Success(params);
    }

    /** `Connect`: a client that is already connected throws "Already
        connected."; otherwise the arguments are validated and, when they
        pass, a connect worker is queued. Either way `client_` is left as it
        was: a successful connection resolves to a new client object. */
    method Connect(args: seq<JsValue>, defaults: Params) returns (r: ConnectCall)
      ensures connected ==> r == ConnectThrew(AlreadyConnected)
      ensures !connected && ConnectParams(name, args, defaults).Failure? ==>
        r == ConnectThrew(ConnectParams(name, args, defaults).error)
      ensures !connected && ConnectParams(name, args, defaults).Success? ==>
        r == ConnectQueued(ConnectParams(name, args, defaults).value)
    {
      if connected {
        return ConnectThrew(AlreadyConnected);
      }
      var params := PrepareConnect(args, defaults);
      if params.Failure? {
        return ConnectThrew(params.error);
      }
      r := ConnectQueued(params.value);
    }
  }

  /** The connect worker's success: a fresh client, made with no constructor
      argument, now holding the connection. */
  method ConnectResolved() returns (c: Client)
    ensures fresh(c)
    ensures c.connected && c.name == DefaultName
  {
    c := new Client([]);
    c.SetMgClient();
  }
}
