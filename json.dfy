/**
 * JSON values as Python sees them after `json.loads`: the shape of the
 * Judge0 response bodies and of the JWT claims the model reads.
 * Object keys are strings; a key that is absent and a key bound to `null`
 * both read as `JNull` through `Get`, as `dict.get` does.
 */
module Json {

  datatype Json =
    | JNull
    | JBool(b: bool)
    | JInt(i: int)
    | JFloat(f: real)
    | JStr(s: string)
    | JArr(items: seq<Json>)
    | JObj(fields: map<string, Json>)

  /** Python truthiness of a decoded JSON value. */
  predicate Truthy(j: Json) {
    match j
    case JNull => false
    case JBool(b) => b
    case JInt(i) => i != 0
    case JFloat(f) => f != 0.0
    case JStr(s) => s != ""
    case JArr(items) => items != []
    case JObj(fields) => fields != map[]
  }

  /** `d.get(key)` on a dict. */
  function Get(fields: map<string, Json>, key: string): Json {
    if key in fields then fields[key] else JNull
  }

  /** Python's `a or b`: the left operand when it is truthy, otherwise the right one. */
  function Or(a: Json, b: Json): Json {
    if Truthy(a) then a else b
  }

  /** The Python type name of a decoded value, as it appears in exception messages. */
  function TypeName(j: Json): string {
    match j
    case JNull => "NoneType"
    case JBool(_) => "bool"
    case JInt(_) => "int"
    case JFloat(_) => "float"
    case JStr(_) => "str"
    case JArr(_) => "list"
    case JObj(_) => "dict"
  }

  /** The text of the AttributeError raised by `value.<attr>` when the value's type has no such attribute. */
  function NoAttributeMessage(j: Json, attr: string): string {
    "'" + TypeName(j) + "' object has no attribute '" + attr + "'"
  }

  /** The AttributeError of `value.get(...)` on a value that is not a dict. */
  function NoGetMessage(j: Json): string {
    NoAttributeMessage(j, "get")
  }
}
