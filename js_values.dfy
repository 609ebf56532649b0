/** JavaScript values as the N-API binding sees them, with the few engine
    operations the binding relies on: property enumeration (`GetPropertyNames`),
    property lookup (`Get`, `Has`), property assignment (`Set`), truthiness
    (`ToBoolean`) and the coercions `ToString` / `ToNumber`. */
module JsValues {
  import opened Wrappers
  import opened Numbers

  /** A JavaScript value. An object's properties are kept in enumeration order
      and, as in the engine, carry distinct keys. A function is an object too:
      besides its identity it carries the enumerable properties it was given. */
  datatype JsValue =
    | Undefined
    | Null
    | Bool(b: bool)
    | Num(n: Double)
    | BigInt(i: int)
    | Str(s: string)
    | Symbol(symbolId: nat)
    | Array(elems: seq<JsValue>)
    | Object(props: seq<Prop>)
    | Function(functionId: nat, props: seq<Prop>)

  datatype Prop = Prop(key: string, value: JsValue)

  /** The kinds of value the binding tells apart (`IsNull`, `IsBoolean`,
      `IsBigInt`, `IsNumber`, `IsString`, `IsArray`, `IsObject`, ...). */
  datatype Kind = KUndefined | KNull | KBoolean | KNumber | KBigInt | KString | KSymbol | KArray | KObject | KFunction

  function KindOf(v: JsValue): Kind {
    match v
    case Undefined => KUndefined
    case Null => KNull
    case Bool(_) => KBoolean
    case Num(_) => KNumber
    case BigInt(_) => KBigInt
    case Str(_) => KString
    case Symbol(_) => KSymbol
    case Array(_) => KArray
    case Object(_) => KObject
    case Function(_, _) => KFunction
  }

  /** `Napi::Value::IsObject`: arrays and functions are objects too. */
  predicate IsObject(v: JsValue) {
    v.Array? || v.Object? || v.Function?
  }

  function DigitChar(d: nat): char
    requires d < 10
  {
    "0123456789"[d]
  }

  /** The decimal spelling of an array index, as property enumeration reports it. */
  function Decimal(n: nat): string
    decreases n
  {
    if n < 10 then [DigitChar(n)] else Decimal(n / 10) + [DigitChar(n % 10)]
  }

  /** The enumerable properties of a value, in enumeration order, paired with
      their values: what `GetPropertyNames` followed by `Get` yields. An array
      enumerates its indices; a primitive enumerates nothing. */
  function Properties(v: JsValue): seq<Prop> {
    match v
    case Object(props) => props
    case Function(_, props) => props
    case Array(elems) => seq(|elems|, i requires 0 <= i < |elems| => Prop(Decimal(i), elems[i]))
    case _ => []
  }

  /** The keys bound in a property list. */
  function KeySet(props: seq<Prop>): set<string> {
    if props == [] then {} else {props[0].key} + KeySet(props[1..])
  }

  predicate DistinctKeys(props: seq<Prop>) {
    forall i, j :: 0 <= i < j < |props| ==> props[i].key != props[j].key
  }

  /** The value bound to `key`, if any: the first property carrying it. */
  function Lookup(props: seq<Prop>, key: string): (r: Option<JsValue>)
    ensures r.Some? <==> key in KeySet(props)
  {
    if props == [] then None
    else if props[0].key == key then Some(props[0].value)
    else Lookup(props[1..], key)
  }

  /** A key is bound exactly when some property carries it, and lookup returns
      the value of the first such property. */
  lemma {:induction false} LookupSpec(props: seq<Prop>, key: string)
    ensures key in KeySet(props) <==> exists i :: 0 <= i < |props| && props[i].key == key
    ensures Lookup(props, key).Some? ==>
      exists i :: 0 <= i < |props| && props[i] == Prop(key, Lookup(props, key).value) &&
        forall j :: 0 <= j < i ==> props[j].key != key
  {
    if props != [] {
      LookupSpec(props[1..], key);
      if key in KeySet(props[1..]) {
        var i :| 0 <= i < |props[1..]| && props[1..][i].key == key;
        assert props[i + 1].key == key;
      }
      if props[0].key != key && Lookup(props, key).Some? {
        var i :| 0 <= i < |props[1..]| && props[1..][i] == Prop(key, Lookup(props, key).value) &&
          forall j :: 0 <= j < i ==> props[1..][j].key != key;
        assert props[i + 1] == Prop(key, Lookup(props, key).value);
        forall j | 0 <= j < i + 1 ensures props[j].key != key {
          if j > 0 { assert props[j] == props[1..][j - 1]; }
        }
      }
      if exists i :: 0 <= i < |props| && props[i].key == key {
        var i :| 0 <= i < |props| && props[i].key == key;
        if i > 0 { assert props[1..][i - 1].key == key; }
      }
    }
  }

  /** The first property carrying a key is the one lookup finds. */
  lemma {:induction false} LookupAt(props: seq<Prop>, i: nat)
    requires i < |props|
    requires forall j :: 0 <= j < i ==> props[j].key != props[i].key
    ensures Lookup(props, props[i].key) == Some(props[i].value)
  {
    if i > 0 {
      LookupAt(props[1..], i - 1);
    }
  }

  /** `Napi::Object::Get`: a missing property reads as `undefined`. */
  function Get(v: JsValue, key: string): JsValue {
    match Lookup(Properties(v), key)
    case Some(x) => x
    case None => Undefined
  }

  /** `Napi::Object::Has` for the keys the binding asks about. */
  predicate Has(v: JsValue, key: string) {
    Lookup(Properties(v), key).Some?
  }

  /** `Napi::Object::Set` of an own property: an existing property keeps its
      place and takes the new value; a new property is added at the end of the
      enumeration order. */
  function SetProp(props: seq<Prop>, key: string, value: JsValue): seq<Prop> {
    if props == [] then [Prop(key, value)]
    else if props[0].key == key then [Prop(key, value)] + props[1..]
    else [props[0]] + SetProp(props[1..], key, value)
  }

  /** The key whose assignment runs the setter an ordinary object inherits
      from `Object.prototype`. */
  const ProtoKey := "__proto__"

  /** `Napi::Object::Set` with an arbitrary key on an ordinary object. Setting
      `__proto__` runs the inherited setter, which creates no own property: it
      replaces the prototype when the value is an object and does nothing
      otherwise. Every other key is set as an own property. */
  function Assign(props: seq<Prop>, key: string, value: JsValue): seq<Prop> {
    if key == ProtoKey then props else SetProp(props, key, value)
  }

  /** After `Set`, the key reads back the new value, every other key reads as
      before, and the key set grows by the key alone. */
  lemma {:induction false} SetPropSpec(props: seq<Prop>, key: string, value: JsValue)
    ensures Lookup(SetProp(props, key, value), key) == Some(value)
    ensures forall k :: k != key ==> Lookup(SetProp(props, key, value), k) == Lookup(props, k)
    ensures KeySet(SetProp(props, key, value)) == KeySet(props) + {key}
  {
    if props != [] && props[0].key != key {
      SetPropSpec(props[1..], key, value);
      assert SetProp(props, key, value)[1..] == SetProp(props[1..], key, value);
    } else if props != [] {
      assert SetProp(props, key, value)[1..] == props[1..];
    }
  }

  /** A new key lands at the end; an existing one keeps its position and
      every key stays in place. */
  lemma {:induction false} SetPropShape(props: seq<Prop>, key: string, value: JsValue)
    ensures key !in KeySet(props) ==> SetProp(props, key, value) == props + [Prop(key, value)]
    ensures key in KeySet(props) ==> |SetProp(props, key, value)| == |props|
    ensures key in KeySet(props) ==>
      forall j :: 0 <= j < |props| ==> SetProp(props, key, value)[j].key == props[j].key
  {
    var r := SetProp(props, key, value);
    if props != [] && props[0].key != key {
      var rest := SetProp(props[1..], key, value);
      SetPropShape(props[1..], key, value);
      assert r[1..] == rest;
      if key !in KeySet(props) {
        assert [props[0]] + (props[1..] + [Prop(key, value)]) == props + [Prop(key, value)];
      } else {
        forall j | 0 <= j < |props| ensures r[j].key == props[j].key {
          if j > 0 { assert r[j] == rest[j - 1]; }
        }
      }
    }
  }

  /** ECMAScript ToBoolean (section 7.1.2 of ECMA-262). */
  function ToBoolean(v: JsValue): bool {
    match v
    case Undefined => false
    case Null => false
    case Bool(b) => b
    case Num(n) => !(n == NaN || n == Finite(0.0))
    case BigInt(i) => i != 0
    case Str(s) => s != []
    case _ => true
  }

  /** The engine's own coercions for the values whose conversion involves
      number formatting, string parsing or user code (`toString`, `valueOf`).
      The binding only ever calls them; the model takes them as given. */
  datatype Engine = Engine(toString: JsValue -> string, toNumber: JsValue -> Double)

  /** `Napi::Value::ToString().Utf8Value()`. */
  function StringOf(e: Engine, v: JsValue): string {
    match v
    case Str(s) => s
    case Undefined => "undefined"
    case Null => "null"
    case Bool(b) => if b then "true" else "false"
    case _ => e.toString(v)
  }

  /** `Napi::Value::ToNumber()`. */
  function NumberOf(e: Engine, v: JsValue): Double {
    match v
    case Num(n) => n
    case Undefined => NaN
    case Null => Finite(0.0)
    case Bool(b) => Finite(if b then 1.0 else 0.0)
    case _ => e.toNumber(v)
  }
}
