/** An already-parsed JSON document and the few System.Text.Json accessors the
    decoder uses, with their exceptions made explicit. */
module Json {
  import opened Wrappers
  import opened Exceptions

  datatype Json =
    | JNull
    | JBool(b: bool)
    | JNumber(n: int)
    | JString(str: string)
    | JArray(items: seq<Json>)
    | JObject(properties: map<string, Json>)

  /** `element.ValueKind`. */
  function Kind(element: Json): JsonValueKind {
    match element
    case JNull => Null
    case JBool(b) => if b then True else False
    case JNumber(_) => Number
    case JString(_) => String
    case JArray(_) => Array
    case JObject(_) => Object
  }

  /** `element.GetProperty(name)`. */
  function GetProperty(element: Json, name: string): Result<Json, Exception> {
    match element
    case JObject(properties) =>
      if name in properties then Success(properties[name]) else Failure(KeyNotFound(name))
    case _ => Failure(InvalidOperation(Object, Kind(element)))
  }

  /** `element.GetString()`: null for a JSON null, the text for a string. */
  function GetString(element: Json): Result<Option<string>, Exception> {
    match element
    case JNull => Success(None)
    case JString(s) => Success(Some(s))
    case _ => Failure(InvalidOperation(String, Kind(element)))
  }

  /** `element.EnumerateArray()`. */
  function EnumerateArray(element: Json): Result<seq<Json>, Exception> {
    match element
    case JArray(items) => Success(items)
    case _ => Failure(InvalidOperation(Array, Kind(element)))
  }

  /** The object has the property and it is a JSON string. */
  predicate HasString(element: Json, name: string) {
    element.JObject? && name in element.properties && element.properties[name].JString?
  }
}
