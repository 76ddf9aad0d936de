/** JSON values as the admission compiler holds them, and the caller's object graph they come from. */
module Json {

  /** An object keeps the order in which its members were inserted. */
  datatype Json =
    | JNull
    | JBool(b: bool)
    | JInt(i: int)
    | JFloat(x: real)
    | JText(s: string)
    | JArray(items: seq<Json>)
    | JObject(members: seq<(string, Json)>)

  /** A path names one child per level: the index of an item, or of a member in insertion order. */
  type Path = seq<nat>

  function Children(j: Json): (r: seq<Json>)
    ensures forall c :: c in r ==> c < j
  {
    match j
    case JArray(items) => items
    case JObject(members) => seq(|members|, i requires 0 <= i < |members| => members[i].1)
    case _ => []
  }
}
