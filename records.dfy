/**
 * Lookups in `Record<string, …>` object literals. Such an object has its
 * own keys and, through its prototype, every member of `Object.prototype`:
 * `labels['toString']` is a function and `labels['__proto__']` the
 * prototype itself, both truthy and neither a string.
 */
module Records {
  import opened Wrappers

  /** The property names every object literal inherits from `Object.prototype`. */
  const PrototypeNames: set<string> := {
    "constructor", "hasOwnProperty", "isPrototypeOf", "propertyIsEnumerable", "toString", "toLocaleString",
    "valueOf", "__proto__", "__defineGetter__", "__defineSetter__", "__lookupGetter__", "__lookupSetter__"}

  /** What `record[key]` reads when defined: an own value, or the inherited member of that name. */
  datatype Prop<T> = Own(value: T) | Inherited(name: string)

  /** `record[key]`; `None` is `undefined`. */
  function Index<T>(record: map<string, T>, key: string): (r: Option<Prop<T>>)
    ensures r.None? <==> key !in record && key !in PrototypeNames
    ensures key in record ==> r == Some(Own(record[key]))
    ensures r.Some? && r.value.Inherited? <==> key !in record && key in PrototypeNames
    ensures r.Some? && r.value.Inherited? ==> r.value.name == key
  {
    if key in record then Some(Own(record[key]))
    else if key in PrototypeNames then Some(Inherited(key))
    else None
  }

  /**
   * `record[key] || fallback` on a record of strings: an own non-empty
   * string, an inherited member (always truthy), or the fallback.
   */
  function IndexOr(record: map<string, string>, key: string, fallback: string): (r: Prop<string>)
    ensures key in record && record[key] != "" ==> r == Own(record[key])
    ensures r.Inherited? <==> key !in record && key in PrototypeNames
    ensures r.Inherited? ==> r.name == key
    ensures (key in record && record[key] == "") || (key !in record && key !in PrototypeNames) ==> r == Own(fallback)
  {
    match Index(record, key)
    case None => Own(fallback)
    case Some(Own(s)) => if s != "" then Own(s) else Own(fallback)
    case Some(Inherited(n)) => Inherited(n)
  }
}
