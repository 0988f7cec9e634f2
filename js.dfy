/** Values as the controllers see them in a parsed JSON request body, and the
    few JavaScript operators the controllers apply to them: truthiness
    (`!x`, `x || d`), `x !== undefined`, and the number coercion that `-`
    applies to `null`. */
module Js {

  datatype Option<T> = None | Some(value: T)

  /** One field of a request body: absent from the JSON (`undefined`), an
      explicit JSON `null`, or a value. */
  datatype Input<T> = Undefined | Null | Given(value: T)

  /** `x !== undefined` */
  predicate Supplied<T>(x: Input<T>) {
    !x.Undefined?
  }

  /** JavaScript truthiness of a string field: `undefined`, `null` and `""` are falsy. */
  predicate TruthyString(x: Input<string>) {
    x.Given? && x.value != ""
  }

  /** JavaScript truthiness of a boolean field. */
  predicate TruthyBool(x: Input<bool>) {
    x.Given? && x.value
  }

  /** JavaScript truthiness of a numeric field: `0` is falsy (NaN is not modelled). */
  predicate TruthyNumber(x: Input<int>) {
    x.Given? && x.value != 0
  }

  /** `x || fallback` on a numeric field. */
  function NumberOr(x: Input<int>, fallback: int): (n: int) {
    if TruthyNumber(x) then x.value else fallback
  }

  /** The column value a store keeps for a field written by an insert:
      an absent key or `null` leaves the column NULL. */
  function Stored<T>(x: Input<T>): (v: Option<T>) {
    match x
    case Given(v) => Some(v)
    case _ => None
  }

  /** `x !== undefined ? x : fallback`: the supplied value (possibly null)
      when the key is present, otherwise the fallback. This is the rule of
      every partial update and of the tax inheritance of a subcategory. */
  function DefinedOr<T>(x: Input<T>, fallback: Option<T>): (v: Option<T>) {
    if Supplied(x) then Stored(x) else fallback
  }

  /** The number JavaScript's `-` reads from a stored amount: `null` counts as 0. */
  function NumberOf(v: Option<int>): (n: int) {
    match v
    case Some(n) => n
    case None => 0
  }
}
