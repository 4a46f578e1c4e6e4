/** The single-record replacement the pages apply after a confirmed write:
    `list.map(r => r[idKey] === id ? { ...r, [field]: v } : r)`. */
module Records {
  import opened JsValues

  predicate IsTarget(r: Record, idKey: string, id: Value) {
    StrictEquals(Get(r, idKey), id)
  }

  function ReplaceWhere(list: seq<Record>, idKey: string, id: Value, field: string, v: Value): (out: seq<Record>)
    // the list keeps its length and order; records are never added or dropped
    ensures |out| == |list|
    // a targeted record gets `v` at `field` and keeps every other field
    ensures forall i :: 0 <= i < |list| && IsTarget(list[i], idKey, id) ==>
              Get(out[i], field) == v && out[i].Keys == list[i].Keys + {field}
              && forall k :: k != field ==> Get(out[i], k) == Get(list[i], k)
    // every other record is left exactly as it was
    ensures forall i :: 0 <= i < |list| && !IsTarget(list[i], idKey, id) ==> out[i] == list[i]
  {
    seq(|list|, i requires 0 <= i < |list| =>
      if IsTarget(list[i], idKey, id) then list[i][field := v] else list[i])
  }
}
