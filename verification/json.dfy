/**
  JavaScript values as they come out of `JSON.parse`, plus the few language
  operations the design code applies to them: truthiness, `typeof`, property
  access with optional chaining, and `String(value)` coercion.
 */
module Json {
  import opened Wrappers
  import opened Text

  /** `Undefined` stands for a missing property; numbers are integral. */
  datatype Value =
    | Undefined
    | Null
    | Bool(b: bool)
    | Num(n: int)
    | Str(s: string)
    | Arr(items: seq<Value>)
    | Obj(fields: map<string, Value>)

  /** JavaScript truthiness: `undefined`, `null`, `false`, `0` and `""` are falsy. */
  predicate Truthy(v: Value) {
    match v
    case Undefined => false
    case Null => false
    case Bool(b) => b
    case Num(n) => n != 0
    case Str(s) => s != []
    case Arr(_) => true
    case Obj(_) => true
  }

  predicate IsNullish(v: Value) {
    v.Undefined? || v.Null?
  }

  /** `typeof v`. */
  function TypeOf(v: Value): (t: string)
    ensures t == "string" <==> v.Str?
    ensures t == "boolean" <==> v.Bool?
  {
    match v
    case Undefined => "undefined"
    case Null => "object"
    case Bool(_) => "boolean"
    case Num(_) => "number"
    case Str(_) => "string"
    case Arr(_) => "object"
    case Obj(_) => "object"
  }

  /** `v?.[key]` for the design keys: a missing key, a non-object or a nullish `v` give `undefined`. */
  function Get(v: Value, key: string): (r: Value)
    ensures v.Obj? && key in v.fields ==> r == v.fields[key]
    ensures !v.Obj? || key !in v.fields ==> r == Undefined
  {
    if v.Obj? && key in v.fields then v.fields[key] else Undefined
  }

  /** The message of the `TypeError` `String(v)` raises for an object it cannot turn into text. */
  const NoPrimitive := "Cannot convert object to primitive value"

  /** `String(v)`, also what a template literal and `RegExp.prototype.test` apply. An object
      prints as `[object Object]` unless it has its own `toString` key: no JSON value is
      callable, so the conversion falls through to the inherited `valueOf`, which returns the
      object itself, and throws. An array joins its elements' text with `,` (`null` and
      `undefined` print as empty text) and throws when one of them does. */
  function ToString(v: Value): (r: Outcome<string>)
    ensures v.Obj? ==> (r.Thrown? <==> "toString" in v.fields)
    ensures r.Thrown? ==> r.message == NoPrimitive
    decreases v
  {
    match v
    case Undefined => Returned("undefined")
    case Null => Returned("null")
    case Bool(b) => Returned(if b then "true" else "false")
    case Num(n) => Returned(IntToString(n))
    case Str(s) => Returned(s)
    case Arr(items) =>
      if exists i :: 0 <= i < |items| && ToString(items[i]).Thrown? then Thrown(NoPrimitive)
      else
        Returned(Join(seq(|items|, i requires 0 <= i < |items| =>
                        if IsNullish(items[i]) then ""
                        else match ToString(items[i]) case Returned(t) => t case Thrown(_) => ""), ","))
    case Obj(fields) => if "toString" in fields then Thrown(NoPrimitive) else Returned("[object Object]")
  }

  /** A value `String` cannot print: an object with its own `toString` key, or an array holding one at any depth. */
  predicate Unprintable(v: Value)
    decreases v
  {
    match v
    case Obj(fields) => "toString" in fields
    case Arr(items) => exists i :: 0 <= i < |items| && Unprintable(items[i])
    case _ => false
  }

  /** `String(v)` throws exactly for the unprintable values. */
  lemma {:induction false} ToStringThrowsIff(v: Value)
    ensures ToString(v).Thrown? <==> Unprintable(v)
    decreases v
  {
    if v.Arr? {
      forall i | 0 <= i < |v.items| ensures ToString(v.items[i]).Thrown? <==> Unprintable(v.items[i]) {
        ToStringThrowsIff(v.items[i]);
      }
    }
  }

  /** The text of a value that is neither a string nor an array ends in a letter, a digit or `]`,
      unless it is an object with its own `toString` key, for which `String` throws. */
  lemma ToStringScalarEnd(v: Value)
    requires !v.Str? && !v.Arr?
    ensures match ToString(v)
      case Thrown(_) => v.Obj? && "toString" in v.fields
      case Returned(t) => t != [] && (IsDigit(t[|t| - 1]) || t[|t| - 1] in "edlt]")
  {
    if v.Num? {
      var t := IntToString(v.n);
      if v.n < 0 {
        assert t[|t| - 1] == NatToString(-v.n)[|NatToString(-v.n)| - 1];
      }
    }
  }
}
