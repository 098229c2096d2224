/**
 * The JSON values exchanged by the sync protocol, and the typed getters of
 * `org.json.JSONObject` that the parsers use. Only integral numbers occur in
 * the protocol; `getInt` and `getLong` narrow them as Java's `intValue()` and
 * `longValue()` do.
 */
module Json {
  import opened Wrappers

  /** Kotlin `Int`. */
  type int32 = x: int | -0x8000_0000 <= x < 0x8000_0000

  /** Kotlin `Long`. */
  type int64 = x: int | -0x8000_0000_0000_0000 <= x < 0x8000_0000_0000_0000

  /** Two's-complement narrowing to 32 bits. */
  function Wrap32(n: int): (r: int32)
    ensures -0x8000_0000 <= n < 0x8000_0000 ==> r == n
    ensures (n - r) % 0x1_0000_0000 == 0
  {
    var m := n % 0x1_0000_0000;
    if m >= 0x8000_0000 then m - 0x1_0000_0000 else m
  }

  /** Two's-complement narrowing to 64 bits. */
  function Wrap64(n: int): (r: int64)
    ensures -0x8000_0000_0000_0000 <= n < 0x8000_0000_0000_0000 ==> r == n
    ensures (n - r) % 0x1_0000_0000_0000_0000 == 0
  {
    var m := n % 0x1_0000_0000_0000_0000;
    if m >= 0x8000_0000_0000_0000 then m - 0x1_0000_0000_0000_0000 else m
  }

  datatype JValue =
    | JNull
    | JBool(b: bool)
    | JNumber(n: int)
    | JString(s: string)
    | JArray(items: seq<JValue>)
    | JObject(fields: map<string, JValue>)

  type JFields = map<string, JValue>

  /** `getString(key)`: absent key or a non-string value is an error (None). */
  function GetString(o: JFields, key: string): (r: Option<string>)
    ensures r.Some? <==> key in o && o[key].JString?
    ensures r.Some? ==> o[key] == JString(r.value)
  {
    if key in o && o[key].JString? then Some(o[key].s) else None
  }

  /** `getInt(key)`: a number narrowed to 32 bits. */
  function GetInt(o: JFields, key: string): (r: Option<int32>)
    ensures r.Some? <==> key in o && o[key].JNumber?
    ensures r.Some? ==> r.value == Wrap32(o[key].n)
  {
    if key in o && o[key].JNumber? then Some(Wrap32(o[key].n)) else None
  }

  /** `getLong(key)`: a number narrowed to 64 bits. */
  function GetLong(o: JFields, key: string): (r: Option<int64>)
    ensures r.Some? <==> key in o && o[key].JNumber?
    ensures r.Some? ==> r.value == Wrap64(o[key].n)
  {
    if key in o && o[key].JNumber? then Some(Wrap64(o[key].n)) else None
  }

  /** `getBoolean(key)`. */
  function GetBoolean(o: JFields, key: string): (r: Option<bool>)
    ensures r.Some? <==> key in o && o[key].JBool?
    ensures r.Some? ==> o[key] == JBool(r.value)
  {
    if key in o && o[key].JBool? then Some(o[key].b) else None
  }
}
