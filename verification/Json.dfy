/** JSON values with their members in insertion order, as Python dictionaries keep them. */
module Json {
  import opened Repetition

  datatype Json =
    | Null
    | Bool(b: bool)
    | Number(text: string)
    | Text(s: string)
    | Array(items: seq<Json>)
    | Object(keys: seq<string>, values: seq<Json>)

  predicate Scalar(j: Json) {
    !j.Array? && !j.Object?
  }

  function Children(j: Json): seq<Json> {
    match j
    case Array(items) => items
    case Object(_, values) => values
    case _ => []
  }

  /** A dictionary has one value per key and no key twice, at every level. */
  predicate WellFormed(j: Json)
    decreases j
  {
    && (j.Object? ==> |j.keys| == |j.values| && NoRepeat(j.keys))
    && forall k :: 0 <= k < |Children(j)| ==> WellFormed(Children(j)[k])
  }

  function IndexOf(keys: seq<string>, key: string): (i: nat)
    requires key in keys
    ensures i < |keys| && keys[i] == key
  {
    if keys[0] == key then 0 else 1 + IndexOf(keys[1..], key)
  }
}
