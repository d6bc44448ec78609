/**
  The slice of JavaScript semantics the Ruffle layer relies on: JSON-shaped
  values, truthiness, property reads that throw on `null`/`undefined`, strict
  equality, `Object.keys(..).length` and the string conversion a template
  literal performs. Numbers are modelled as integers.
 */
module JsValue {

  /** A JSON-shaped JavaScript value. `Undefined` also stands for a missing property. */
  datatype Value =
    | Undefined
    | Null
    | Bool(b: bool)
    | Num(n: int)
    | Str(s: string)
    | Arr(elems: seq<Value>)
    | Obj(props: map<string, Value>)

  /** What a `throw` carries: a value thrown on purpose, or the TypeError of a bad property access or call. */
  datatype Thrown = Raised(payload: Value) | TypeError

  datatype Option<+T> = None | Some(value: T)

  /** A computation that either produces a value or throws. */
  datatype Result<+T> = Ok(value: T) | Err(thrown: Thrown) {
    predicate IsFailure() {
      Err?
    }

    function PropagateFailure<U>(): Result<U>
      requires Err?
    {
      Err(thrown)
    }

    function Extract(): T
      requires Ok?
    {
      value
    }
  }

  predicate Nullish(v: Value) {
    v.Undefined? || v.Null?
  }

  /** JavaScript truthiness (`if (v)`, `v && ..`, `v ? .. : ..`). */
  predicate Truthy(v: Value) {
    match v
    case Undefined => false
    case Null => false
    case Bool(b) => b
    case Num(n) => n != 0
    case Str(s) => s != ""
    case Arr(_) => true
    case Obj(_) => true
  }

  /**
    Reading property `key` of a value that is not null or undefined. None of
    the property names this code reads (`data`, `id`, `updated`, `details`,
    `errorMessage`) is inherited by a string, number, boolean or array, so only
    an object's own properties are ever found.
   */
  function Field(v: Value, key: string): Value {
    if v.Obj? && key in v.props then v.props[key] else Undefined
  }

  /** `v.key`, which throws a TypeError when `v` is null or undefined. */
  function Prop(v: Value, key: string): Result<Value> {
    if Nullish(v) then Err(TypeError) else Ok(Field(v, key))
  }

  /** `Object.keys(v).length`, for the non-null values it is applied to. */
  function KeyCount(v: Value): nat {
    match v
    case Str(s) => |s|
    case Arr(xs) => |xs|
    case Obj(m) => |m|
    case _ => 0
  }

  /**
    The property names every object literal inherits from `Object.prototype`;
    `key in {}` holds for each of them.
   */
  const ObjectPrototypeKeys: set<string> := {
    "constructor", "hasOwnProperty", "isPrototypeOf", "propertyIsEnumerable",
    "toLocaleString", "toString", "valueOf", "__proto__",
    "__defineGetter__", "__defineSetter__", "__lookupGetter__", "__lookupSetter__"
  }

  /** `key in obj` for an object built from a `{}` literal: own or inherited. */
  predicate HasProperty<T>(props: map<string, T>, key: string) {
    key in props || key in ObjectPrototypeKeys
  }

  /**
    `a === b`. Objects and arrays compare by identity; every object or array
    compared in this code comes from a freshly deserialised response, so two
    of them are never the same object.
   */
  predicate StrictEquals(a: Value, b: Value) {
    match (a, b)
    case (Undefined, Undefined) => true
    case (Null, Null) => true
    case (Bool(x), Bool(y)) => x == y
    case (Num(x), Num(y)) => x == y
    case (Str(x), Str(y)) => x == y
    case _ => false
  }

  function DigitChar(d: nat): char
    requires d < 10
  {
    ('0' as int + d) as char
  }

  /** Decimal notation of a natural number, most significant digit first, no leading zeros. */
  function NatToString(n: nat): string
    decreases n
  {
    if n < 10 then [DigitChar(n)] else NatToString(n / 10) + [DigitChar(n % 10)]
  }

  function IntToString(n: int): string {
    if n < 0 then "-" + NatToString(-n) else NatToString(n)
  }

  /** `String(v)`, as `${v}` in a template literal renders it. */
  function ToJsString(v: Value): string
    decreases v
  {
    match v
    case Undefined => "undefined"
    case Null => "null"
    case Bool(b) => if b then "true" else "false"
    case Num(n) => IntToString(n)
    case Str(s) => s
    case Arr(xs) =>
      // Array.prototype.join(","): null and undefined elements become ""
      Join(seq(|xs|, i requires 0 <= i < |xs| =>
        assert xs[i] in xs;
        if Nullish(xs[i]) then "" else ToJsString(xs[i])))
    case Obj(_) => "[object Object]"
  }

  function Join(parts: seq<string>): string {
    if parts == [] then ""
    else if |parts| == 1 then parts[0]
    else Join(parts[..|parts| - 1]) + "," + parts[|parts| - 1]
  }

  lemma NatToStringNonEmpty(n: nat)
    ensures |NatToString(n)| >= 1
    ensures n >= 10 ==> |NatToString(n)| >= 2
  {
  }

  /** Distinct numbers have distinct decimal notations. */
  lemma {:induction false} NatToStringInjective(a: nat, b: nat)
    requires NatToString(a) == NatToString(b)
    ensures a == b
    decreases a
  {
    NatToStringNonEmpty(a / 10);
    NatToStringNonEmpty(b / 10);
    if a < 10 && b < 10 {
      assert DigitChar(a) == NatToString(a)[0] == NatToString(b)[0] == DigitChar(b);
    } else if a >= 10 && b >= 10 {
      var sa, sb := NatToString(a), NatToString(b);
      assert sa[|sa| - 1] == DigitChar(a % 10);
      assert sb[|sb| - 1] == DigitChar(b % 10);
      assert NatToString(a / 10) == sa[..|sa| - 1] == sb[..|sb| - 1] == NatToString(b / 10);
      NatToStringInjective(a / 10, b / 10);
    }
    // otherwise exactly one of the notations has a single digit, so they differ
  }
}
