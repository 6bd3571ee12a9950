/** JSON values as Python holds them after `json.loads`. Key order is not kept: Python's
  * dictionary equality ignores it too.
  */
module Json {
  import opened Numbers
  import opened Wrappers

  /** An integer times a power of two, as Python floats hold, in lowest terms. */
  datatype Dyadic = Dyadic(mantissa: int, exponent: int)

  type Finite = d: Dyadic | d == Dyadic(0, 0) || d.mantissa % 2 != 0 witness Dyadic(0, 0)

  datatype Json =
    | Null
    | Bool(b: bool)
    | Int(i: int)
    | Float(d: Finite)
    | Str(s: string)
    | Arr(items: seq<Json>)
    | Obj(fields: map<string, Json>)

  type Object = map<string, Json>

  /** `_as_dict` */
  function AsDict(j: Json): Object {
    if j.Obj? then j.fields else map[]
  }

  /** What Python takes for true. */
  predicate Truthy(j: Json) {
    match j
    case Null => false
    case Bool(b) => b
    case Int(i) => i != 0
    case Float(d) => d.mantissa != 0
    case Str(s) => s != ""
    case Arr(items) => items != []
    case Obj(fields) => fields != map[]
  }

  /** The value at a path of keys, if every step exists. */
  function Get(o: Object, path: seq<string>): Option<Json>
    decreases |path|
  {
    if path == [] then Some(Obj(o))
    else if path[0] !in o then None
    else if |path| == 1 then Some(o[path[0]])
    else if o[path[0]].Obj? then Get(o[path[0]].fields, path[1..])
    else None
  }
}
