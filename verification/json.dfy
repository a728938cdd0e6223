/** JSON values and their conversion to node and edge properties. */
module Json {
  import opened Text
  import opened Store

  const MAX_I64 := 0x7FFF_FFFF_FFFF_FFFF

  /** `Integer` holds what the parser keeps as an integer (i64 or u64 range). */
  datatype Json =
    | Null
    | Boolean(b: bool)
    | Integer(i: int)
    | Decimal(r: real)
    | Quote(s: string)
    | Array(items: seq<Json>)
    | Object(fields: map<string, Json>)

  /** `json_to_prop_value`. */
  function ToValue(j: Json): Result<Value, string> {
    match j
    case Quote(s) => Ok(Str(s))
    case Boolean(b) => Ok(Bool(b))
    case Integer(i) => if i <= MAX_I64 then Ok(Int(i)) else Err("integer out of supported range")
    case Decimal(r) => Ok(Float(r))
    case _ => Err("unsupported over MCP v0")
  }

  predicate IsScalar(j: Json) {
    ToValue(j).Ok?
  }

  /** `json_to_props`: an object of scalars. */
  function ToProps(j: Json): Result<Props, string> {
    if !j.Object? then Err("expected a JSON object for props")
    else if exists k | k in j.fields :: !IsScalar(j.fields[k]) then Err("unsupported property value")
    else Ok(map k | k in j.fields :: ToValue(j.fields[k]).value)
  }

  /** `json_to_prop_changes`: `null` removes the key. */
  function ToChanges(j: Json): Result<map<string, Option<Value>>, string> {
    if !j.Object? then Err("expected a JSON object for props")
    else if exists k | k in j.fields :: !j.fields[k].Null? && !IsScalar(j.fields[k]) then Err("unsupported property value")
    else Ok(map k | k in j.fields ::
              if j.fields[k].Null? then None else Some(ToValue(j.fields[k]).value))
  }

  /** `merge_required_prop`: the caller's extra properties plus one required field that
      they must not name. */
  function MergeRequired(key: string, value: Value, extra: Option<Json>): Result<Props, string> {
    var base := match extra { case None => Ok(map[]) case Some(j) => ToProps(j) };
    match base
    case Err(e) => Err(e)
    case Ok(props) =>
      if key in props then Err("props must not include the required field") else Ok(props[key := value])
  }

  /** Merging succeeds exactly on an absent or all-scalar object without the required key,
      and then every other property is the caller's own. */
  lemma MergeRequiredExact(key: string, value: Value, extra: Option<Json>)
    ensures MergeRequired(key, value, extra).Ok? <==>
            extra.None? || (extra.value.Object? && key !in extra.value.fields
                            && forall k | k in extra.value.fields :: IsScalar(extra.value.fields[k]))
    ensures MergeRequired(key, value, extra).Ok? ==>
            var props := MergeRequired(key, value, extra).value;
            && key in props && props[key] == value
            && props.Keys == {key} + (if extra.None? then {} else extra.value.fields.Keys)
            && (extra.Some? ==> forall k | k in extra.value.fields :: k in props && Ok(props[k]) == ToValue(extra.value.fields[k]))
  {
  }
}
