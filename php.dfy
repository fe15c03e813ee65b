/**
 * PHP values as the endpoints see them after `json_decode`: null, booleans,
 * integers, strings, lists, string-keyed arrays and objects. Floating-point
 * numbers are not part of this model.
 */
module Php {
  import opened Common

  datatype Json =
    | JNull
    | JBool(b: bool)
    | JInt(i: int)
    | JStr(s: string)
    | JList(items: seq<Json>)
    | JObject(fields: map<string, Json>)    // a string-keyed array, as `json_decode($s, true)` makes of an object
    | JStdClass(props: map<string, Json>)   // a `stdClass`, as `json_decode($s)` makes of an object

  /** PHP's `empty()`: null, false, 0, "", "0" and the empty array are empty; an object never is. */
  predicate Empty(v: Json) {
    match v
    case JNull => true
    case JBool(b) => !b
    case JInt(i) => i == 0
    case JStr(s) => s == "" || s == "0"
    case JList(items) => |items| == 0
    case JObject(fields) => |fields| == 0
    case JStdClass(_) => false
  }

  /** An array or an object: PHP 8 throws a `TypeError` where a built-in function expects a string. */
  predicate NotScalar(v: Json) {
    v.JList? || v.JObject? || v.JStdClass?
  }

  /** PHP truthiness, the test behind `if ($x)`, `!$x`, `&&` and `?:`. */
  predicate Truthy(v: Json) {
    !Empty(v)
  }

  /** `$v['key'] ?? null`: the value under a key, or null when absent or not an array. */
  function Get(v: Json, key: string): (r: Json)
    ensures r != JNull ==> v.JObject? && key in v.fields && v.fields[key] == r
  {
    if v.JObject? && key in v.fields then v.fields[key] else JNull
  }

  /** `isset($v['key'])`: the key is present and its value is not null. */
  predicate Isset(v: Json, key: string) {
    Get(v, key) != JNull
  }

  /** An optional integer request field as a PHP value (absent is null). */
  function OfInt(o: Option<int>): Json {
    if o.Some? then JInt(o.value) else JNull
  }

  /** An optional string request field as a PHP value (absent is null). */
  function OfStr(o: Option<string>): Json {
    if o.Some? then JStr(o.value) else JNull
  }

  /** PHP truthiness of a string: only "" and "0" are falsy. */
  predicate TruthyStr(s: string) {
    Truthy(JStr(s))
  }

  /** `$v ?: $fallback` on an optional string: `v` when it is present and truthy, else `fallback`. */
  function OrElse(v: Option<string>, fallback: string): (s: string)
    ensures v.Some? && TruthyStr(v.value) ==> s == v.value
    ensures v.None? || !TruthyStr(v.value) ==> s == fallback
  {
    if v.Some? && TruthyStr(v.value) then v.value else fallback
  }

  function DigitChar(d: nat): (c: char)
    requires d < 10
    ensures '0' <= c <= '9'
  {
    ['0', '1', '2', '3', '4', '5', '6', '7', '8', '9'][d]
  }

  /** The decimal digits of a natural number, most significant first, without leading zeros. */
  function Digits(n: nat): (s: string)
    ensures 1 <= |s| && forall i :: 0 <= i < |s| ==> '0' <= s[i] <= '9'
    ensures |s| > 1 ==> s[0] != '0'
    decreases n
  {
    if n < 10 then [DigitChar(n)] else Digits(n / 10) + [DigitChar(n % 10)]
  }

  /** An integer converted to a PHP string. */
  function IntString(i: int): string {
    if i < 0 then "-" + Digits(-i) else Digits(i)
  }

  /**
   * A value interpolated into a PHP string (`"...{$v}..."`); arrays become
   * "Array". PHP throws on a `stdClass`, which has no string form; the model
   * gives "" there. The portal endpoint answers before converting an object
   * from its request, and text decoded with `true` holds no `stdClass`.
   */
  function Interpolate(v: Json): string {
    match v
    case JNull => ""
    case JBool(b) => if b then "1" else ""
    case JInt(i) => IntString(i)
    case JStr(s) => s
    case JList(_) => "Array"
    case JObject(_) => "Array"
    case JStdClass(_) => ""
  }
}
