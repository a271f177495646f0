/**
  The slice of JavaScript's value universe that the service-giver form handles:
  the values a form field can hold, the browser's File objects, and the two
  coercions the form relies on, truthiness and String(...).
 */
module Js {

  /** An optional value: `undefined`/`null` on one side, a present value on the other. */
  datatype Option<+T> = None | Some(value: T)

  /** An IEEE double as JavaScript sees it, up to what truthiness can tell apart. */
  datatype Number = Finite(value: real) | Infinity(negative: bool) | NaN

  /** A browser File: only its name, MIME type and byte size matter here. */
  datatype File = File(name: string, mimeType: string, size: nat)

  /** The value of one property of the form's data object. */
  datatype Value =
    | Undefined
    | Null
    | Bool(b: bool)
    | Num(n: Number)
    | Str(s: string)
    | Arr(items: seq<string>)
    | FileValue(file: File)

  /** JavaScript truthiness: undefined, null, false, 0, -0, NaN and "" are falsy. */
  predicate Truthy(v: Value)
  {
    match v
    case Undefined => false
    case Null => false
    case Bool(b) => b
    case Num(n) => n != NaN && n != Finite(0.0)
    case Str(s) => s != ""
    case Arr(_) => true
    case FileValue(_) => true
  }

  /** Array.prototype.join: the items separated by `sep`. */
  function Join(items: seq<string>, sep: string): (r: string)
    ensures items == [] ==> r == ""
    ensures |items| == 1 ==> r == items[0]
  {
    if items == [] then ""
    else if |items| == 1 then items[0]
    else items[0] + sep + Join(items[1..], sep)
  }

  /**
    JavaScript's String(v). The text of a number is floating-point formatting,
    which this model does not reproduce: `numText` supplies it.
   */
  function ToJsString(v: Value, numText: Number -> string): string
  {
    match v
    case Undefined => "undefined"
    case Null => "null"
    case Bool(b) => if b then "true" else "false"
    case Num(n) => numText(n)
    case Str(s) => s
    case Arr(items) => Join(items, ",")
    case FileValue(_) => "[object File]"
  }
}
