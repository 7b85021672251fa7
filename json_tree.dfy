/**
 * JSON trees as the statistics code sees them: Jackson nodes reduced to values. Small
 * integers and longs are distinct node kinds, as a parser produces them, because the code
 * asks `isLong()`.
 */
module JsonTree {
  import opened JavaInts
  import opened JavaStrings

  datatype Json =
    | JNull
    | JBool(b: bool)
    | JInt(i: int)
    | JLong(l: int)
    | JText(s: string)
    | JArray(items: seq<Json>)
    | JObject(fields: map<string, Json>)

  /** `JsonNode.has`: only an object has fields. */
  predicate Has(node: Json, field: string)
  {
    node.JObject? && field in node.fields
  }

  /** `asText()`: text as is, numbers and booleans printed, "null" for null, "" for containers. */
  function AsText(node: Json): (r: string)
    ensures node.JText? ==> r == node.s
    ensures node.JArray? || node.JObject? ==> r == ""
  {
    match node
    case JNull => "null"
    case JBool(b) => if b then "true" else "false"
    case JInt(i) => IntToDecimal(i)
    case JLong(l) => IntToDecimal(l)
    case JText(s) => s
    case JArray(_) => ""
    case JObject(_) => ""
  }

  /** `asInt()`: a long is truncated to 32 bits, a boolean is 1 or 0, anything else 0. */
  function AsInt(node: Json): (r: Int32)
    ensures node.JInt? && -0x8000_0000 <= node.i < 0x8000_0000 ==> r == node.i
  {
    match node
    case JInt(i) => Wrap32(i)
    case JLong(l) => Wrap32(l)
    case JBool(b) => if b then 1 else 0
    case _ => 0
  }

  /** `asLong()`: numbers as they are, a boolean is 1 or 0, anything else 0. */
  function AsLong(node: Json): (r: Int64)
    ensures (node.JInt? || node.JLong?) && -0x8000_0000_0000_0000 <= (if node.JInt? then node.i else node.l) < 0x8000_0000_0000_0000 ==>
              r == (if node.JInt? then node.i else node.l)
  {
    match node
    case JInt(i) => Wrap64(i)
    case JLong(l) => Wrap64(l)
    case JBool(b) => if b then 1 else 0
    case _ => 0
  }
}
