/** The JSON document tree (`serde_json::Value`). */
module Json {

  /** A number as serde_json keeps it. Floats stay in their printed form,
      which always carries a point or an exponent. */
  datatype Number =
    | PosInt(n: nat)
    | NegInt(m: int)
    | Float(text: string)

  datatype Field = Field(key: string, value: Value)

  datatype Value =
    | Null
    | Bool(b: bool)
    | Num(number: Number)
    | Str(s: string)
    | Array(items: seq<Value>)
    | Object(fields: seq<Field>)
}
