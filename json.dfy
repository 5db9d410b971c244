/** JSON values as the store keeps them: already parsed, numbers as integers. */
module JsonValue {

  /** A JSON tree. Object members are a map, so keys are unique and member order plays no part in equality. */
  datatype Json =
    | Null
    | Bool(b: bool)
    | Num(n: int)
    | Str(s: string)
    | Arr(items: seq<Json>)
    | Obj(fields: map<string, Json>)

  /** The member `k` of an object's fields, or `Null` when there is none (the value `or_insert` supplies). */
  function Member(fields: map<string, Json>, k: string): Json
  {
    if k in fields then fields[k] else Null
  }

  /** No object inside `j`, reached through object members only, has a member whose value is `null`.
      Arrays are opaque to merging, so their elements are not inspected. */
  predicate NoNullMembers(j: Json)
    decreases j
  {
    j.Obj? ==> forall k :: k in j.fields ==> !j.fields[k].Null? && NoNullMembers(j.fields[k])
  }
}
