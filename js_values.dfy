/**
 * The JavaScript values the console's core code inspects: an optional value,
 * the primitive values, opaque object references, and the two coercions the
 * code relies on -- truthiness (`if (v)`, `a || b`) and the string an
 * `Array.prototype.join` writes for an element.
 */
module JsValues {
  import Strings

  datatype Option<+T> = None | Some(value: T) {
    /** The value held, or `default` when there is none. */
    function GetOr(default: T): T
    {
      match this
      case Some(v) => v
      case None => default
    }
  }

  /**
   * A JavaScript value. Numbers are modelled as integers (no fractions, no
   * NaN). Objects are opaque references: `===` compares them by identity,
   * which is what comparing the `ref` numbers does.
   */
  datatype JsValue =
    | JUndefined
    | JNull
    | JBool(b: bool)
    | JNum(n: int)
    | JStr(s: string)
    | JObject(ref: nat)

  /** JavaScript truthiness: `undefined`, `null`, `false`, `0` and `""` are falsy. */
  predicate Truthy(v: JsValue)
  {
    match v
    case JUndefined => false
    case JNull => false
    case JBool(b) => b
    case JNum(n) => n != 0
    case JStr(s) => s != ""
    case JObject(_) => true
  }

  /**
   * The text `Array.prototype.join` writes for one element: nothing for
   * `null` and `undefined`, `String(v)` for everything else.
   */
  function JoinText(v: JsValue): (r: string)
    ensures v.JStr? ==> r == v.s
    ensures v.JNull? || v.JUndefined? ==> r == ""
    ensures v.JBool? ==> r == (if v.b then "true" else "false")
    ensures v.JObject? ==> r == "[object Object]"
    ensures v.JNum? ==> Strings.ParseInt(r) == v.n && r == Strings.IntToString(v.n)
    ensures !v.JStr? ==> forall i :: 0 <= i < |r| ==> r[i] != '\n' && r[i] != ','
  {
    match v
    case JUndefined => ""
    case JNull => ""
    case JBool(b) => if b then "true" else "false"
    case JNum(n) => Strings.IntToString(n)
    case JStr(s) => s
    case JObject(_) => "[object Object]"
  }
}
