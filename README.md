# nodemgclient binding core, modelled in Dafny

This project models the logic inside the Node.js binding of the Memgraph C
client (`mgclient`) and proves properties about it. The model covers five parts:

- **The value codec.** `MgValueToNapiValue` and its helpers decode the wire's
  tagged union into JavaScript values (null, booleans, BigInts, Numbers,
  strings, arrays, node, relationship and path objects).
  `NapiValueToMgValue` and its helpers encode JavaScript values back into wire
  values.
- **The three connection-parameter validators.**
  - `Client::PrepareConnect` is strict: it type-checks and counts fields.
  - `create_params` of the asynchronous connection is lenient: it coerces
    values and ignores unknown keys.
  - The synchronous `Connection` constructor requires exactly one of host and
    address, a port in 0..65535 and a function as the trust callback.
  - The trust-callback result mapping is included.
- **Query-argument validation.** This is shared in substance by
  `Client::PrepareQuery`, `Connection::Execute` and `AsyncConnection::Execute`.
- **The column index and the pull loops.** This covers the cursor, the result
  and the record. The column index is the `std::map` from column name to
  position that these three share.
- **The JavaScript layer.** This covers the temporal helper constructors,
  `Connection.Execute`'s default parameters and `ExecuteAndFetchAll`.

The server is an oracle throughout:
- A session pull is a `(status, row)` pair taken from a finite script.
- A cursor pull is a row or a pending exception.
- A connect attempt is accepted or refused with an error text.
- `mg::Client`'s `Execute` and `FetchAll` outcomes are given as parameters.

JavaScript's own coercions of non-trivial values (`ToString` and `ToNumber` on
objects, number formatting) come from an `Engine` parameter. The defaults of
`mg::Client::Params` come from a `defaults` parameter, because `mgclient.hpp`
is not part of this model.

Modules, in dependency order:

| file | module | what it holds |
|---|---|---|
| wrappers.dfy | Wrappers | `Option`, `Result` |
| numbers.dfy | Numbers | doubles as opaque values, int64 bounds, ToUint32 and ToInt32 |
| js_values.dfy | JsValues | JavaScript values, ordered property lists, `Get`/`Has`/`Set`, ToBoolean, ToString and ToNumber |
| mg_values.dfy | MgValues | the wire value tree; a path is a start node plus hops (relationship, reversed flag, node) |
| glue.dfy | Glue | decoding and encoding as recursive functions, and their lemmas |
| glue_loops.dfy | GlueLoops | the index loops of the codec, proved equal to the recursive functions |
| pulls.dfy | Pulls | the pull oracles and the rows a drain yields |
| columns.dfy | Columns | the shared column index, as a class over a `map` |
| record.dfy, result.dfy, cursor.dfy | Records, Results, Cursors | the three result-handling classes |
| query_args.dfy | QueryArgs | query-argument validation |
| client_params.dfy | ClientParams | `mg::Client::Params` |
| client.dfy | Clients | `PrepareConnect`, the client object and the `Connect` guard |
| client_workers.dfy | ClientWorkers | how `Client::Execute` and `Client::FetchAll` settle their promises |
| connection.dfy | Connections | the synchronous connection: constructor validation, session lifetime, `Execute` |
| async_connection.dfy | AsyncConnections | `create_params` and `Execute`'s argument checks |
| index_js.dfy | IndexJs | the temporal helpers and the JavaScript `Connection` wrapper |

Where a written check disagrees with its evident intent, both versions are
modelled; see "## Findings". The rest of the model uses the corrected version.

Only the synchronous `Connection` constructor requires exactly one of host
and address (src/connection.cpp:116-122). `Client::PrepareConnect`
(src/client.cpp:63-163) and `create_params` (src/async_connection.cpp:50-103)
accept an argument with no host at all, and keep the default host.

The binding is taken to be built without C++ exceptions, since it tests
`env.IsExceptionPending()` after its calls. An error is then an exception left
pending in the JavaScript engine: the native function's return value is
discarded and the caller receives that exception. While an exception is
pending, each further N-API call that may run JavaScript fails and re-raises
it. So a promise the code tries to reject or resolve at that point is never
settled. Throwing a second error at that point aborts the process. The model
states these outcomes explicitly: `ProcessAborted`, `RunException`,
`PullException`, `StreamException`, and a `Failure` carrying the codec's
error where the caller receives that error. `NODEMG_THROW` is taken to throw
a JavaScript `Error` with the given message. Its definition is not part of
this model.

## Model

| member | source | states |
|---|---|---|
| Numbers.ToUint32 | src/client.cpp:104 | ToUint32 lies in 0..2^32-1 and is congruent to the truncated value modulo 2^32; NaN and the infinities give 0 |
| Numbers.ToInt32 | src/connection.cpp:133 | ToInt32 lies in -2^31..2^31-1 and is congruent modulo 2^32 to ToUint32 of the same number |
| Numbers.ToUint32OfWhole | src/client.cpp:104-111 | a whole number in 0..2^32-1 converts to itself, so a port given as such a number is stored unchanged |
| Numbers.ToInt32OfWhole | src/connection.cpp:131-134 | a whole number in the int32 range converts to itself |
| JsValues.SetPropSpec | src/glue.cpp:161-171 | after `Set`, the key reads back the new value, every other key reads as before, and the key set grows by that key alone |
| JsValues.SetPropShape | src/glue.cpp:161-171 | `Set` with a new key appends it; with an existing key, the length and every key's position stay the same |
| Glue.DecodeListAt | src/glue.cpp:27-41 | list decoding succeeds iff every element decodes; entry i is then the decoding of element i; on failure the error is that of the first failing element |
| Glue.DecodeMapFailure | src/glue.cpp:43-57 | map decoding succeeds iff every value decodes; on failure the error is that of the first failing entry |
| Glue.DecodeMapKeys | src/glue.cpp:43-57 | a decoded map binds exactly the wire map's keys other than `__proto__`, whose `Set` runs the inherited setter and creates no own property |
| Glue.DecodeMapLookup | src/glue.cpp:43-57 | each key other than `__proto__` reads back the decoding of the last entry carrying it; `__proto__` reads as no own property |
| Glue.DecodeMapDistinct | src/glue.cpp:43-57 | with distinct keys whose values decode, decoding succeeds; when no key is `__proto__`, the decoded object has one property per entry, in entry order |
| Glue.NodeFields | src/glue.cpp:59-83 | a decoded node carries the node's id as a BigInt, its labels in order and its decoded properties; it fails exactly when its properties fail |
| Glue.RelationshipFields | src/glue.cpp:85-112 | a decoded relationship copies id, start id, end id and type, and decodes the properties; it fails exactly when its properties fail |
| Glue.UnboundRelationshipFields | src/glue.cpp:114-139 | a decoded unbound relationship has start and end node ids of -1, the id, the type and the decoded properties |
| Glue.WithEndpointsFields | src/glue.cpp:161-171 | overwriting the endpoints sets start and end to the neighbouring node ids, swapped when the hop is reversed, and leaves every other field and every key position alone |
| Glue.DecodeStepsOk | src/glue.cpp:148-175 | the first k loop iterations succeed iff each of them decodes its node and, after the first, its relationship |
| Glue.DecodeStepsSizes | src/glue.cpp:148-175 | after k iterations there are k nodes and k-1 relationships |
| Glue.DecodeStepsNode | src/glue.cpp:149-154 | after k iterations, node slot i holds the decoding of path node i |
| Glue.DecodeStepsRel | src/glue.cpp:155-172 | after k iterations, relationship slot i holds relationship i with its endpoints resolved |
| Glue.PathDecodesIff | src/glue.cpp:141-181 | a path decodes iff every node and every relationship on it decodes; there is no partial path |
| Glue.PathShape | src/glue.cpp:177-179 | a decoded path of length n has a `nodes` array of n+1 entries and a `relationships` array of n entries |
| Glue.PathNodes | src/glue.cpp:149-154 | node i of the decoded path is the decoding of path node i |
| Glue.PathRelationshipAt | src/glue.cpp:155-172 | relationship i of the decoded path is unbound relationship i with its endpoints resolved |
| Glue.PathRelationshipEnds | src/glue.cpp:161-171 | relationship i runs from node i to node i+1, or from node i+1 to node i when reversed |
| Glue.PathRelationshipFields | src/glue.cpp:156-160 | relationship i keeps the hop's id, type and decoded properties |
| Glue.DecodableIff | src/glue.cpp:187-258 | decoding succeeds iff the tree holds no unknown or unhandled tag anywhere |
| Glue.EntriesDecodableIff | src/glue.cpp:43-57 | map decoding succeeds iff no value in the map holds an unknown or unhandled tag |
| Glue.PathDecodableIff | src/glue.cpp:141-181 | path decoding succeeds iff no property anywhere on the path holds an unknown or unhandled tag |
| Glue.HopsDecodableIff | src/glue.cpp:59-139 | a node or hop relationship decodes iff its properties hold no unknown or unhandled tag |
| Glue.DecodeDispatch | src/glue.cpp:187-258 | each tag decodes to its JavaScript kind (Integer to BigInt, Float to Number, and so on) with the payload kept; the unknown and unhandled tags are errors, never values |
| Glue.CString | src/glue.cpp:311-312 | `mg_string_make(c_str())` keeps the prefix before the first NUL, contains no NUL, and is followed in the input by a NUL if it is shorter |
| Glue.CStringNulFree | src/glue.cpp:311-312 | the C-string cut is the identity exactly on strings without NUL |
| Glue.EncodeListAt | src/glue.cpp:260-287 | list encoding succeeds iff every element encodes; entry i is then the encoding of element i; on failure the error is that of the first failing element |
| Glue.EncodeMap | src/glue.cpp:348-384 | an encoded map has one entry per property, keyed by the property name cut at its first NUL |
| Glue.EncodeMapFailure | src/glue.cpp:348-384 | map encoding succeeds iff every property value encodes; on failure the error is that of the first failing property |
| Glue.EncodeMapEntries | src/glue.cpp:359-382 | entry i is the property's C-string key bound to the encoding of its value |
| Glue.EncodableIff | src/glue.cpp:289-346 | encoding succeeds iff the value holds no out-of-int64 BigInt and no symbol anywhere, a function's own properties included |
| Glue.EncodeDispatch | src/glue.cpp:289-346 | undefined and null become Null, booleans Bool, an int64 BigInt becomes Integer and any other BigInt is an error, every Number becomes Float, strings become String, arrays become List before the object check, other objects become Map, a function is encoded exactly as a plain object with its own enumerable properties, and symbols are errors |
| Glue.RoundTrip | src/glue.cpp:190-218 | a value built from null, booleans, numbers, int64 BigInts, NUL-free strings, arrays and objects with distinct NUL-free keys other than `__proto__` decodes from its encoding to itself |
| Glue.RoundTripList | src/glue.cpp:27-41 | an array of such values round-trips |
| Glue.RoundTripMap | src/glue.cpp:43-57 | an object with distinct NUL-free keys other than `__proto__` and such values round-trips |
| Glue.OwnProtoKeyDropped | src/glue.cpp:43-57 | an object whose only own property is `__proto__` encodes to a one-entry map under that key, which decodes to an object with no own property |
| GlueLoops.DecodeListPrefixFails | src/glue.cpp:31-35 | once a prefix of the list fails, the whole list fails with the same error |
| GlueLoops.DecodeListStopsAt | src/glue.cpp:31-35 | the first failing element decides the list's error |
| GlueLoops.ListToArray | src/glue.cpp:27-41 | the index loop computes exactly the list decoding |
| GlueLoops.DecodeMapPrefixFails | src/glue.cpp:47-54 | once a prefix of the map fails, the whole map fails with the same error |
| GlueLoops.DecodeMapStopsAt | src/glue.cpp:47-54 | the first failing entry decides the map's error |
| GlueLoops.LabelsToArray | src/glue.cpp:65-71 | the label loop fills an array of the label count with one string per label, in order, which is the labels array a decoded node carries |
| GlueLoops.MapToObject | src/glue.cpp:43-57 | the index loop computes exactly the map decoding |
| GlueLoops.DecodeStepsFailurePersists | src/glue.cpp:151-160 | a failure after some iterations is the failure of the whole path |
| GlueLoops.PathToObject | src/glue.cpp:141-181 | the path loop, with its carried previous node id and endpoint overwrites, computes exactly the path decoding |
| GlueLoops.PathStep | src/glue.cpp:149-172 | one iteration of the path loop, given the carried id of the node before, computes exactly the next step of the path decoding |
| GlueLoops.EncodeListPrefixFails | src/glue.cpp:270-285 | once a prefix of the array fails to encode, the whole array fails with the same error |
| GlueLoops.EncodeListStopsAt | src/glue.cpp:270-285 | the first failing element decides the array's error |
| GlueLoops.ArrayToList | src/glue.cpp:260-287 | the index loop computes exactly the list encoding |
| GlueLoops.EncodeMapPrefixFails | src/glue.cpp:359-382 | once a prefix of the properties fails to encode, the whole object fails with the same error |
| GlueLoops.EncodeMapStopsAt | src/glue.cpp:359-382 | the first failing property decides the object's error |
| GlueLoops.ObjectToMap | src/glue.cpp:348-384 | the loop over property names computes exactly the map encoding |
| Pulls.RowCount | src/result.cpp:83 | the number of leading status-1 pulls, followed by a pull that is not status 1 when it is shorter than the script |
| Pulls.DecodedRowsSpec | src/result.cpp:83-94 | a session drain succeeds iff every leading status-1 row decodes, and then holds one decoded row per such pull, in order |
| Pulls.DecodedRowsFailure | src/result.cpp:83-88 | a failed session drain carries the error of the first leading status-1 row that fails to decode, every earlier row decoding |
| Pulls.CursorRowsSpec | src/cursor.cpp:99-114 | a cursor drain keeps the rows of the leading non-zero pulls in order; it stopped on an exception exactly when the pull after them threw, and otherwise on status 0 or the end of the script |
| Columns.PositionsOf | src/cursor.cpp:35-41 | storing names in order maps exactly the listed names, each to the last index where it occurs |
| Columns.PositionsOfDistinct | src/cursor.cpp:35-41 | with distinct names, each name maps to its own index |
| Columns.ListingOfDistinct | src/cursor.cpp:65-74 | for distinct names, listing the columns gives back the original column list |
| Columns.ColumnIndex.Assign | src/cursor.cpp:31-42 | clearing and refilling the map leaves every name at its last index |
| Columns.ColumnIndex.LookupOrInsert | src/record.cpp:64 | `operator[]` returns a known name's position unchanged, and inserts an unknown name at 0 |
| Columns.ColumnIndex.Listing | src/cursor.cpp:65-74 | the listing is at least as long as the map, just long enough for the largest position, and holds each mapped name (cut at its first NUL) at its position; every slot is undefined or holds a name mapped to it |
| Records.Record.constructor | src/record.cpp:19-29 | the record refers to the given column index itself, not a copy, and keeps the row |
| Records.Record.Get | src/record.cpp:48-65 | a wrong argument count or a non-string name is an error that leaves the index alone; a known name reads the value at its position (undefined past the end); an unknown name is inserted at 0 and reads the first value |
| Results.Result.constructor | src/result.cpp:26-42 | a fresh column index maps each column name to its position |
| Results.Result.Columns | src/result.cpp:61-70 | the listing of the result's own column index |
| Results.Result.Records | src/result.cpp:72-97 | the caller receives the codec's error exactly when a leading row fails to decode, and the promise already created is neither settled nor returned; otherwise one fresh record per status-1 row, in order, each over the result's own column index |
| Cursors.Cursor.constructor | src/cursor.cpp:22-29 | a new cursor starts with an empty column index of its own |
| Cursors.Cursor.SetColumns | src/cursor.cpp:31-42 | the previous columns are forgotten and each name maps to its index |
| Cursors.Cursor.Columns | src/cursor.cpp:65-74 | the listing of the cursor's column index |
| Cursors.Cursor.Execute | src/cursor.cpp:76-118 | a throwing run hands the caller the run's exception with the columns untouched; otherwise the columns are replaced; a lazy run resolves to an empty array; on an eager run a pull exception reaches the caller, with the rejection refused and no promise settled; otherwise it resolves to one record per row before status 0, in order, over the cursor's index |
| Cursors.Cursor.PullAll | src/cursor.cpp:97-114 | the eager loop makes one fresh record per row before status 0 or a throwing pull, over the cursor's index, and reports whether a pull threw |
| Cursors.Cursor.Stream | src/cursor.cpp:132-159 | emits "start", one "record" per row in pull order, then "end" and returns "OK"; a pull exception ends it with no "end" and reaches the caller, the failure text being discarded |
| QueryArgs.QueryArgumentsSpec | src/client.cpp:165-199 | the query is the first argument iff there are one or two arguments and it is a string; with two arguments the parameters are one entry per property, and they are rejected iff some value does not encode, with the error of the first value that does not; any other count passes with the empty query |
| QueryArgs.QueryArgumentsAsWritten | src/client.cpp:190-194 | as written, the process aborts exactly when the parameters do not encode; every other rejection and every acceptance is as corrected |
| QueryArgs.UnencodableParamsAbort | src/glue.cpp:370-374 | parameters holding a BigInt outside int64 abort the process as written; corrected, the caller receives the lossy-integer error |
| Clients.ConnectParamsSpec | src/client.cpp:63-163 | the argument is accepted iff it is an object whose present fields have the right types, whose port reduces to at most 65535 and whose property count equals the recognised-key count; a present field is copied and an absent one keeps the default, with the client's name as the default user agent |
| Clients.ConnectPort | src/client.cpp:97-112 | a port given as a whole number in 0..65535 is stored as that number; one in 65536..2^32-1 is rejected |
| Clients.CountRecognised | src/client.cpp:85-155 | the number of properties with a recognised key, equal to the property count iff every key is recognised |
| Clients.RecognisedCount | src/client.cpp:85-155 | with distinct keys, the counter's final value equals the number of properties carrying a recognised key |
| Clients.ConnectUnknownKeys | src/client.cpp:157-160 | an object with any property outside the six recognised keys is rejected; with only recognised keys, the count check passes |
| Clients.AsWrittenAgrees | src/client.cpp:124-141 | without a password and with a string or absent client name, the validator as written throws the corrected one's error or yields its parameters |
| Clients.PasswordStoredAsUsername | src/client.cpp:131 | a lone password lands in `username` as written, and in `password` once corrected |
| Clients.ClientNameErrorAborts | src/client.cpp:137-160 | as written, the process aborts exactly when the corrected validator rejects the arguments with the `client_name` error |
| Clients.NumericClientNameAborts | src/client.cpp:137-160 | `{ client_name: 1 }` aborts the process as written, and is rejected with the `client_name` error once corrected |
| Clients.CopyString | src/client.cpp:87-95 | a present string field is counted, must be a string, and replaces the current value; an absent one keeps it |
| Clients.CopyPort | src/client.cpp:97-112 | a present port is counted, must be a number, and is stored as its ToUint32 value, which must not exceed 65535 |
| Clients.CopyUseSsl | src/client.cpp:143-155 | a present `use_ssl` is counted, must be a boolean, and selects REQUIRE for true and DISABLE for false |
| Clients.Client.constructor | src/client.cpp:201-206 | the name is the single string argument, or "nodemgclient" otherwise; the client starts unconnected |
| Clients.Client.SetMgClient | src/client.cpp:210-212 | the client becomes connected |
| Clients.Client.PrepareConnect | src/client.cpp:63-163 | the field-by-field validator with its counter computes exactly the corrected connect parameters |
| Clients.Client.Connect | src/client.cpp:257-274 | a connected client throws "Already connected."; otherwise invalid arguments throw their error and valid ones queue a connect with those parameters; the client is left as it was |
| Clients.ConnectResolved | src/client.cpp:240-245 | a successful connect resolves to a fresh, connected client made without a name argument |
| ClientWorkers.ClientExecute | src/client.cpp:276-333 | rejected arguments throw their error to the caller and no promise is made; otherwise the promise settles, resolving to null iff the server accepts, and a server exception's text follows the failure message after a space |
| ClientWorkers.DecodeRowsSpec | src/client.cpp:364-379 | converting the fetched rows succeeds iff every row decodes; row k is then the array of row k's decoded values |
| ClientWorkers.FetchAllSettled | src/client.cpp:356-382 | the corrected completion always settles: no result set gives null, a row that fails to convert rejects, and otherwise the result is the array of row arrays |
| ClientWorkers.FetchAllSettledAsWritten | src/client.cpp:371-374 | as written, the promise stays pending exactly when some row fails to convert, and otherwise settles as corrected |
| ClientWorkers.ConversionFailureLeavesPromisePending | src/client.cpp:371-374 | a row holding a value of unknown type leaves the promise pending as written, and rejects it once corrected |
| ClientWorkers.FetchAllOnOK | src/client.cpp:356-382 | the nested conversion loops compute exactly the corrected completion |
| ClientWorkers.ClientFetchAll | src/client.cpp:345-354 | a throwing fetch rejects with the fetch failure message followed directly by the exception text; a completed fetch settles as its conversion does |
| Connections.ExecuteTrustCallback | src/connection.cpp:26-64 | the result is 0 or -1, and 0 exactly when the callback returned boolean true |
| Connections.ConnectionConfigSpec | src/connection.cpp:88-184 | a non-object is rejected; exactly one of host and address must be present; an omitted port is rejected; an accepted configuration carries the given endpoint, the port's ToInt32 value, TLS required unless `use_ssl` is present and falsy, and the trust callback exactly when a function was given; a present non-function callback is rejected |
| Connections.ConnectionPortOfWhole | src/connection.cpp:131-139 | a whole-number port within the int32 range is accepted iff it is in 0..65535, and then it is stored unchanged |
| Connections.ReadOptional | src/connection.cpp:163-167 | an optional string field is set exactly when the value is not undefined, to its string form cut at the first NUL |
| Connections.ReadConfig | src/connection.cpp:88-184 | the step-by-step reading of the parameters computes exactly the validated configuration |
| Connections.MgSession.constructor | src/connection.cpp:225 | a session made by a connect attempt is open |
| Connections.MgSession.Destroy | src/connection.cpp:231 | destroying a session closes it |
| Connections.Connection.constructor | src/connection.cpp:88-89 | a new connection holds no session |
| Connections.Connection.Open | src/connection.cpp:186-235 | a configuration error opens no session; a refused connect closes the fresh session `mg_connect` made, holds none and reports the connect failure with the session's error text; an accepted one holds that fresh, open session |
| Connections.Connection.Destroy | src/connection.cpp:68-73 | a held session is destroyed, and afterwards none is held |
| Connections.DrainSession | src/connection.cpp:290-300 | the codec's error exactly when a leading row fails to decode; otherwise one array per status-1 row, at consecutive indices, in order |
| Connections.Connection.Execute | src/connection.cpp:244-301 | a count other than 1 or 2, a non-string query, non-object parameters or unencodable parameters are errors before anything is sent; otherwise the query's C string and the parameters are sent; a failed run is an error; a row that fails to decode hands the caller the codec's error; otherwise the array of row arrays |
| AsyncConnections.CreateParams | src/async_connection.cpp:50-103 | the field-by-field overwrite of the defaults computes exactly the lenient parameter specification |
| AsyncConnections.CreateParamsIgnoresOtherKeys | src/async_connection.cpp:59-100 | two objects that agree on the six connection keys give the same outcome, whatever else they hold |
| AsyncConnections.CreateParamsFields | src/async_connection.cpp:53-100 | a missing or non-object argument is rejected; an empty object keeps every default; a port is rejected iff its ToUint32 value exceeds 65535 and is otherwise stored; `use_ssl` selects REQUIRE or DISABLE by truthiness, or keeps the default when absent |
| AsyncConnections.LenientVersusStrict | src/async_connection.cpp:59-100 | a numeric host or an extra property passes the lenient validator but is rejected by the strict one |
| AsyncConnections.Execute | src/async_connection.cpp:201-237 | the argument checks compute exactly the shared query-argument validation |
| IndexJs.CreateMgDate | index.js:25-30 | an object with distinct keys, `objectType` first and equal to "date", and `days` the argument |
| IndexJs.CreateMgLocalTime | index.js:36-41 | an object with distinct keys, `objectType` first and equal to "local_time", and `nanoseconds` the argument |
| IndexJs.CreateMgLocalDateTime | index.js:50-56 | an object with distinct keys, `objectType` first and equal to "local_date_time", and `seconds` and `nanoseconds` the arguments |
| IndexJs.CreateMgDuration | index.js:66-73 | an object with distinct keys, `objectType` first and equal to "duration", `days`, `seconds` and `nanoseconds` the arguments, and no `months` field |
| IndexJs.DateEncodesAsMap | src/glue.cpp:327-334 | a date object encodes iff its days value does, and then as a plain two-entry Map |
| IndexJs.LocalTimeEncodesAsMap | src/glue.cpp:327-334 | a local-time object encodes as a plain two-entry Map |
| IndexJs.LocalDateTimeEncodesAsMap | src/glue.cpp:327-334 | a local-date-time object encodes as a plain three-entry Map |
| IndexJs.DurationEncodesAsMap | src/glue.cpp:327-334 | a duration object encodes as a plain four-entry Map |
| IndexJs.ExecuteDefaultParams | index.js:82-84 | without parameters, a string query is accepted with an empty parameter map, and a non-string query is rejected |
| IndexJs.ConnectionExecute | index.js:82-84 | an argument error thrown by the binding rejects the wrapper's promise with that error; otherwise the call settles as the binding's promise does |
| IndexJs.ExecuteAndFetchAll | index.js:106-109 | a rejected Execute rejects the call and nothing is fetched; otherwise the call settles as FetchAll does |
| IndexJs.ExecuteAndFetchAllReturnsRows | index.js:106-109 | an accepted query returns FetchAll's result: null with no result set, or the array of decoded row arrays |

## Left out

- N-API class registration, `Init`, `NewInstance`, constructor persistence and `ObjectWrap` wiring are not modelled. They are host-binding boilerplate.
- Worker threads and promise plumbing are not modelled. Each worker body is a direct call whose outcome is a parameter, and a promise is the state it settles to.
- The network is modelled only as outcomes. `mg_connect`, `mg_session_run`, `mg_session_pull` and `mg::Client` are foreign calls, so their results are oracles.
- Allocation failures are not modelled. Failed `mg_*_make*`, `mg_list_append` or `mg_map_insert` calls and their error messages are omitted; the C library's allocator is not visible here.
- Connections.Connection.Open does not model the failure of `mg_session_params_make`, for the same reason.
- Throwing coercions are not modelled. `ToString` and `ToNumber` on objects with throwing `toString` or `valueOf` are outside the model. So are the coercions that throw without running user code: `ToNumber` of a BigInt or a symbol port, and `ToString` of a symbol host, address, username, password or client name. `create_params` and the `Connection` constructor then carry on with an exception pending. The `Engine` parameter always returns a value.
- Glue.DecodeMapKeys, Glue.DecodeMapLookup, Glue.OwnProtoKeyDropped: a wire entry keyed `__proto__` is dropped from the decoded object's own properties, as the inherited setter does. When its value decodes to an object, the source also makes that object the decoded object's prototype, so its properties are inherited. The model has no prototypes and does not capture this.
- Records.Record.constructor: the row is stored as a copied sequence. The source holds the row array itself by reference (src/record.cpp:28), and `Values()` returns that same array, so a caller's writes to it show in later `Get` calls. This aliasing is not captured.
- A build with C++ exceptions enabled is not modelled. There, the first exception would propagate to the caller where the model says the process aborts or a promise stays pending.
- ClientWorkers.FetchAllSettledAsWritten: besides leaving the promise pending, the codec's error (a plain `Error` for an unknown type, a `TypeError` for an unhandled one) raised inside the completion callback escapes as an uncaught exception; the model records only the pending promise.
- Prototype properties and getters are not modelled. `Has` and `Get` read only the object's own enumerable properties.
- Integer-like keys are not moved to the front of the enumeration order, and array holes are not modelled.
- Double arithmetic is not modelled. Numbers and wire floats are opaque payloads, and only ToUint32, ToInt32 and truthiness are defined on them.
- UTF-8 conversion is not modelled. Strings are sequences of characters, and only the cut at the first NUL of a C string is modelled.
- The cursor's and the session's `Run` and `Pull`, and the transaction operations `Begin`, `Commit` and `Rollback`, are not modelled. Their bodies are not part of this model, and no transaction state is modelled.
- `FetchOne` and `DiscardAll` of the client, and `FetchOne` of the asynchronous connection, are not modelled. They belong to the worker plumbing.
- The asynchronous connection's `FetchAll` completion is not modelled separately. It has the same shape, and the same finding, as `Client::FetchAll`, which is modelled.
- The asynchronous connection's `Connect` and its execute worker are not modelled beyond `create_params` and the argument checks.
- `Memgraph.Connect` and `Memgraph.Client` in index.js, and the other pass-through methods of its `Connection`, are not modelled. They are plain delegations.
- Columns.ColumnIndex.Listing: when two names share a position (possible after `Record.Get` inserts an unknown name at 0), the model says only that one of them is shown. `std::map` iteration order decides which.
- Cursors.Cursor.Stream: the `emit` callback's own effects and exceptions are not modelled. The events are returned as a sequence.
- Connections.ExecuteTrustCallback: the four string creations that can each leave an exception pending are one outcome, `ArgumentNotCreated`, since they all return -1.
- Connections.Connection.constructor: the N-API constructor is split in two. The Dafny constructor starts with no session, and `Open` performs the validation and the connect attempt.
- Connections.Connection.Execute: calling it on a connection whose session was never opened is not modelled.
- ClientWorkers.ClientExecute: calling `Execute` on a client that was never connected is not modelled. The code then dereferences a null `mg::Client`.
- Numbers.ToUint32: a port is reduced modulo 2^32 before the range check, as the source does. The model does not treat this as an error.

## Findings

| source | as written | input that shows it | evidently intended | confidence | as-written member | corrected member |
|---|---|---|---|---|---|---|
| src/client.cpp:131 | a valid `password` is stored into the `username` field, and the password stays at its default | `{ password: "secret" }` | store it into the `password` field | not executed | Clients.PasswordStoredAsUsername | Clients.ConnectParamsSpec |
| src/client.cpp:137-140 | a non-string `client_name` raises the type error but does not return; with that error pending the string conversion, the `use_ssl` lookup and the property listing all fail, the empty listing differs from the counter, and throwing the count error (line 158) aborts the process | `{ client_name: 1 }` | return after raising the error, as every other field check does | not executed | Clients.NumericClientNameAborts | Clients.Client.PrepareConnect |
| src/glue.cpp:370-374 | when a value does not encode, the encoder has already thrown its `TypeError`; throwing a second error here while that one is pending aborts the process (a nested array or object aborts it one level earlier), so the error that `PrepareQuery`, `Connection::Execute` and `AsyncConnection::Execute` would throw is never reached | `client.Execute("RETURN $x", { x: 2n ** 64n })` | let the encoder's error reach the caller | not executed | QueryArgs.UnencodableParamsAbort | QueryArgs.QueryArgumentsSpec |
| src/client.cpp:371-374 | a row that fails to convert calls `SetError` from inside the completion callback, where nothing reads it, so the promise is neither resolved nor rejected | a fetched row holding a value of unknown type | reject the promise with "Failed to convert fetched data." | not executed | ClientWorkers.ConversionFailureLeavesPromisePending | ClientWorkers.FetchAllOnOK |
| src/async_connection.cpp:276-279 | the same completion-callback `SetError` as in `Client::FetchAll`, so the promise is left pending | a fetched row holding a value of unknown type | reject the promise with "Failed to convert fetched data." | not executed | ClientWorkers.FetchAllSettledAsWritten | ClientWorkers.FetchAllSettled |
