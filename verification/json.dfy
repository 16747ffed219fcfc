/**
 * Decoded JSON values as the program inspects them, with Python's truthiness and dict.get.
 * Numbers are integers only.
 */
module JsonValue {
  import opened Text

  datatype Json =
    | JNull
    | JBool(b: bool)
    | JInt(n: int)
    | JStr(s: string)
    | JArr(items: seq<Json>)
    | JObj(fields: map<string, Json>)

  /** bool(value) in Python. */
  predicate Truthy(j: Json) {
    match j
    case JNull => false
    case JBool(b) => b
    case JInt(n) => n != 0
    case JStr(s) => s != []
    case JArr(items) => items != []
    case JObj(fields) => fields != map[]
  }

  /** d.get(k): None (JSON null) when the key is missing. */
  function Get(fields: map<string, Json>, k: string): (r: Json)
    ensures k in fields ==> r == fields[k]
    ensures k !in fields ==> r == JNull
  {
    if k in fields then fields[k] else JNull
  }

  /** d.get(k, default): the default only when the key is missing, not when it holds null. */
  function GetOr(fields: map<string, Json>, k: string, default: Json): (r: Json)
    ensures k in fields ==> r == fields[k]
    ensures k !in fields ==> r == default
  {
    if k in fields then fields[k] else default
  }

  /** a or b: the first operand when it is truthy, else the second. */
  function Or(a: Json, b: Json): (r: Json)
    ensures Truthy(a) ==> r == a
    ensures !Truthy(a) ==> r == b
    ensures Truthy(r) <==> Truthy(a) || Truthy(b)
  {
    if Truthy(a) then a else b
  }

  /**
   * int(value): integers as they are, booleans as 0 or 1, strings through parseInt (the
   * conversion of text to an integer), and None for a value int() rejects.
   */
  function PyInt(j: Json, parseInt: string -> Option<int>): (r: Option<int>)
    ensures j.JNull? || j.JArr? || j.JObj? ==> r == None
    ensures j.JInt? ==> r == Some(j.n)
    ensures j.JBool? ==> r == Some(if j.b then 1 else 0)
    ensures j.JStr? ==> r == parseInt(j.s)
  {
    match j
    case JInt(n) => Some(n)
    case JBool(b) => Some(if b then 1 else 0)
    case JStr(s) => parseInt(s)
    case _ => None
  }
}
