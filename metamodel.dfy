/** The records the Java extractor produces and the enrichers read back from the graph. */
module Metamodel {
  import opened Wrappers

  /** An annotation argument value: a string (literal text, enum constant, field access)
    * or a list of strings (an array initializer). */
  datatype ArgValue = Str(s: string) | StrList(items: seq<string>)

  /** Python truthiness of an argument value: the empty string and the empty list are false. */
  predicate Truthy(v: ArgValue) {
    match v
    case Str(s) => s != ""
    case StrList(xs) => xs != []
  }

  /** `val[0] if val else ""` for a list, the value itself for a string. */
  function FirstText(v: ArgValue): (r: string)
    ensures v.StrList? && v.items != [] ==> r == v.items[0]
    ensures v.Str? ==> r == v.s
    ensures !Truthy(v) ==> r == ""
  {
    match v
    case Str(s) => s
    case StrList(xs) => if xs == [] then "" else xs[0]
  }

  /** An annotation: its name (simple, or fully qualified once resolved) and its argument map,
    * which is absent (`None` in the source) for a marker annotation such as `@Override`. */
  datatype Annotation = Annotation(name: string, arguments: Option<map<string, ArgValue>>)

  /** `ann.get("arguments") or {}` */
  function ArgsOf(a: Annotation): map<string, ArgValue> {
    a.arguments.GetOr(map[])
  }

  /** Python's `not ann.get("arguments")`: no argument map, or an empty one. */
  predicate NoArgs(a: Annotation) {
    a.arguments.None? || a.arguments.value == map[]
  }

  /** `args.get(k)` */
  function Lookup(args: map<string, ArgValue>, k: string): Option<ArgValue> {
    if k in args then Some(args[k]) else None
  }

  /** `x or y`: the first of the two that is present and truthy. */
  function Or(x: Option<ArgValue>, y: Option<ArgValue>): Option<ArgValue> {
    if x.Some? && Truthy(x.value) then x else if y.Some? && Truthy(y.value) then y else None
  }

  /** An argument as text when present (`args.get(key, "")`, a list giving its first
    * element or ""). */
  function ArgText(args: map<string, ArgValue>, key: string): string {
    match Lookup(args, key)
    case None => ""
    case Some(v) => FirstText(v)
  }

  /** A JSON-encoded list property as stored on a graph node: absent (`null`), or a text
    * together with what `json.loads` makes of it (`None` when the text does not decode
    * to a list). JSON decoding itself is not part of this model. */
  datatype StoredJson<T> = Null | Text(text: string, decoded: Option<seq<T>>)
}
