/**
 * The few JavaScript value rules the application depends on: truthiness,
 * the `||` operator, and how an object spread of a JSON payload treats a
 * field whose value was `undefined` (JSON drops it, so the spread keeps
 * the old field).
 */
module Js {

  /** A JSON-ish JavaScript value; numbers are modelled as integers. */
  datatype Value = Undefined | Null | Bool(b: bool) | Num(n: int) | Str(s: string)

  /** The value of an optional `String` field: absent, null, or a string. */
  type StringField = v: Value | v.Undefined? || v.Null? || v.Str? witness Undefined

  /** JavaScript truthiness: `false`, `0`, `""`, `null` and `undefined` are falsy. */
  predicate Truthy(v: Value) {
    match v
    case Undefined => false
    case Null => false
    case Bool(b) => b
    case Num(n) => n != 0
    case Str(s) => s != ""
  }

  /** `a || b`: the left operand when it is truthy, the right one otherwise. */
  function Or(a: Value, b: Value): (r: Value)
    ensures Truthy(a) ==> r == a
    ensures !Truthy(a) ==> r == b
    ensures Truthy(r) <==> Truthy(a) || Truthy(b)
  {
    if Truthy(a) then a else b
  }

  /** The string operands of `||` give a string field back. */
  function OrField(a: StringField, b: StringField): (r: StringField)
    ensures Truthy(a) ==> r == a
    ensures !Truthy(a) ==> r == b
    ensures Truthy(r) <==> Truthy(a) || Truthy(b)
  {
    Or(a, b)
  }

  /**
   * One field of `{...prev, ...patch}` where `patch` arrived as JSON: a field
   * the sender left `undefined` is missing from the payload, so `prev` stays.
   */
  function Spread(prev: StringField, patch: StringField): (r: StringField)
    ensures patch.Undefined? ==> r == prev
    ensures !patch.Undefined? ==> r == patch
  {
    if patch.Undefined? then prev else patch
  }
}
