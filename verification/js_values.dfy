/** The JavaScript values the store holds, as far as the store can tell them
    apart: it never inspects a value except through the `||` operator, which
    only asks whether the value is truthy. */
module JsValues {
  import opened Outcomes

  /** A JavaScript value. Numbers are finite (`+0` and `-0` are both `0.0`);
      objects, arrays, functions and symbols are all told apart only by identity. */
  datatype Value =
    | Undefined
    | Null
    | Boolean(b: bool)
    | Number(x: real)
    | NaN
    | BigInt(n: int)
    | Str(s: string)
    | Object(ref: nat)

  /** ToBoolean, section 7.1.2 of ECMA-262 (ECMAScript Language Specification). */
  predicate Truthy(v: Value) {
    match v
    case Undefined => false
    case Null => false
    case Boolean(b) => b
    case Number(x) => x != 0.0
    case NaN => false
    case BigInt(n) => n != 0
    case Str(s) => s != ""
    case Object(_) => true
  }

  /** `a || b` when evaluating `b` cannot throw: the left operand if it is
      truthy, the right operand otherwise (not a boolean). */
  function Or(a: Value, b: Value): Value {
    if Truthy(a) then a else b
  }

  /** The value an optional parameter `value?` is bound to: `undefined` when
      the caller omitted it. */
  function Argument(arg: Option<Value>): Value {
    match arg
    case None => Undefined
    case Some(v) => v
  }

  /** The falsy values of ToBoolean, with `-0` folded into `0` and `document.all` omitted. */
  lemma FalsyValues(v: Value)
    ensures !Truthy(v) <==>
      v in {Undefined, Null, Boolean(false), Number(0.0), NaN, BigInt(0), Str("")}
  {
  }

  /** An `if` on `a || b` takes the true branch exactly when one operand is truthy. */
  lemma OrTruthiness(a: Value, b: Value)
    ensures Truthy(Or(a, b)) <==> Truthy(a) || Truthy(b)
  {
  }
}
