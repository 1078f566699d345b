/** JSON documents as `serde_json::Value` holds them: objects are finite maps. */
module JsonValue {

  const I64_MIN: int := -0x8000_0000_0000_0000
  const I64_MAX: int := 0x7FFF_FFFF_FFFF_FFFF

  type i64 = n: int | I64_MIN <= n <= I64_MAX

  type i32 = n: int | -0x8000_0000 <= n <= 0x7FFF_FFFF

  /** `Real` is any number `as_i64` refuses, given by the text its `f64` prints as. */
  datatype Json =
    | Null
    | Bool(b: bool)
    | Num(n: i64)
    | Real(text: string)
    | Str(s: string)
    | Arr(items: seq<Json>)
    | Obj(fields: map<string, Json>)
}
