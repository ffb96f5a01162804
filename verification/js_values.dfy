/** Values as the TypeScript code of the application sees them: optional
    properties, JavaScript truthiness, settled promises and the replies of
    the external directories. */
module JsValues {

  datatype Option<+T> = None | Some(value: T)

  /** A string-valued property of a JavaScript object: absent (`undefined`),
      explicitly `null`, or a string. An `Undefined` property is left out
      when the object is serialised, so an insert or update does not write it. */
  datatype Val = Undefined | Null | Str(s: string)

  /** JavaScript truthiness of a string-valued property: only a non-empty
      string is truthy. */
  predicate Truthy(v: Val) {
    v.Str? && v.s != ""
  }

  /** `a || b` */
  function Or(a: Val, b: Val): Val {
    if Truthy(a) then a else b
  }

  /** `v || null` */
  function OrNull(v: Val): Val {
    Or(v, Null)
  }

  /** `String(v)`, the text a template literal or `String(...)` produces. */
  function ToText(v: Val): string {
    match v
    case Undefined => "undefined"
    case Null => "null"
    case Str(s) => s
  }

  /** An optional string property as a `Val` (used where the source reads a
      property that an external service may omit). */
  function FromOption(o: Option<string>): Val {
    match o
    case None => Undefined
    case Some(s) => Str(s)
  }

  /** The outcome of an awaited promise: `Promise.allSettled` reports each
      call as fulfilled with a value or rejected. */
  datatype Settled<+T> = Fulfilled(value: T) | Rejected

  /** What a directory fetch helper sees: the API key is missing, the
      response is not ok, the fetch threw, or a JSON body whose result list
      may be missing. */
  datatype Reply<+T> = MissingKey | NotOk | Threw | Ok(results: Option<seq<T>>)

  /** The list a fetch helper returns: `data.results || []` on success and
      `[]` on every failure. */
  function ListOf<T>(reply: Reply<T>): (r: seq<T>)
    ensures !reply.Ok? ==> r == []
    ensures reply.Ok? && reply.results.Some? ==> r == reply.results.value
    ensures reply.Ok? && reply.results.None? ==> r == []
  {
    match reply
    case Ok(Some(items)) => items
    case _ => []
  }
}
