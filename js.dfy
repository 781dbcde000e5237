/**
 * The part of JavaScript's value model the case-record mapping relies on: the
 * values `JSON.parse` produces, plus `undefined`; truthiness; property access;
 * and the string conversion a template literal applies to what it embeds.
 */
module Js {

  /** A JavaScript value as parsed JSON holds it. Numbers are integers here. */
  datatype Value =
    | Undefined
    | Null
    | Bool(b: bool)
    | Num(n: int)
    | Str(s: string)
    | Arr(elems: seq<Value>)
    | Obj(fields: map<string, Value>)

  /** `null` and `undefined`, the values whose properties cannot be read. */
  predicate Nullish(v: Value) {
    v.Undefined? || v.Null?
  }

  /** The values an `if`, `&&` or `||` treats as true. */
  predicate Truthy(v: Value) {
    match v
    case Undefined => false
    case Null => false
    case Bool(b) => b
    case Num(n) => n != 0
    case Str(s) => s != ""
    case Arr(_) => true
    case Obj(_) => true
  }

  /** `a || b`: `a` when it is truthy, `b` otherwise. */
  function Or(a: Value, b: Value): Value {
    if Truthy(a) then a else b
  }

  /**
   * `v[key]` on a value whose properties can be read: an object's own
   * property, and `undefined` for any other name. The names read here are
   * none of `Object.prototype`'s, and none of them is `length`.
   */
  function Get(v: Value, key: string): Value
    requires !Nullish(v)
  {
    match v
    case Obj(m) => if key in m then m[key] else Undefined
    case _ => Undefined
  }

  /** `v?.[key]`: `undefined` on `null` or `undefined` instead of a TypeError. */
  function OptGet(v: Value, key: string): Value {
    if Nullish(v) then Undefined else Get(v, key)
  }

  /** `v[i]` for an index `i`: an array's element, a string's character, an object's property named by the digits. */
  function At(v: Value, i: nat): Value
    requires !Nullish(v)
  {
    match v
    case Arr(a) => if i < |a| then a[i] else Undefined
    case Str(s) => if i < |s| then Str([s[i]]) else Undefined
    case Obj(m) => if Decimal(i) in m then m[Decimal(i)] else Undefined
    case _ => Undefined
  }

  /** The decimal digits of `n`, most significant first. */
  function Decimal(n: nat): string
    decreases n
  {
    if n < 10 then [Digit(n)] else Decimal(n / 10) + [Digit(n % 10)]
  }

  function Digit(d: nat): char
    requires d < 10
  {
    ['0', '1', '2', '3', '4', '5', '6', '7', '8', '9'][d]
  }

  /** `${v}` in a template literal: `String(v)`; an array's `null` and `undefined` elements give "". */
  function ToStr(v: Value): string
    decreases v
  {
    match v
    case Undefined => "undefined"
    case Null => "null"
    case Bool(b) => if b then "true" else "false"
    case Num(n) => if n < 0 then "-" + Decimal(-n) else Decimal(n)
    case Str(s) => s
    case Arr(a) => Join(seq(|a|, i requires 0 <= i < |a| => if Nullish(a[i]) then "" else ToStr(a[i])))
    case Obj(_) => "[object Object]"
  }

  /** The strings `parts` separated by commas, as `Array.prototype.join` writes them. */
  function Join(parts: seq<string>): string {
    if parts == [] then ""
    else if |parts| == 1 then parts[0]
    else parts[0] + "," + Join(parts[1..])
  }
}
