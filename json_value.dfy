/**
 * Parsed JSON values, with the few pieces of JavaScript semantics the client and the actors
 * apply to them: property access, truthiness, `String(value)`, `Array.prototype.join` and
 * `Object.entries` (which is also what an object spread copies).
 */
module JsValue {
  import opened Wrappers
  import opened Text
  import opened Entries

  /** A JSON value; numbers are integers in this model. */
  datatype Json =
    | JNull
    | JBool(b: bool)
    | JNum(n: int)
    | JStr(s: string)
    | JArr(items: seq<Json>)
    | JObj(fields: seq<Entry<Json>>)

  /** `value.key`: only objects have own fields; on every other non-null value it is `undefined`. */
  function Field(value: Json, key: string): (r: Option<Json>)
    ensures r.Some? ==> value.JObj? && (key, r.value) in value.fields
    ensures value.JObj? && key in Keys(value.fields) ==> r.Some?
  {
    if value.JObj? then Lookup(value.fields, key) else None
  }

  /** JavaScript truthiness: `null`, `false`, `0` and `""` are falsy, everything else truthy. */
  predicate Truthy(value: Json)
    ensures Truthy(value) <==> !(value == JNull || value == JBool(false) || value == JNum(0) || value == JStr(""))
  {
    match value
    case JNull => false
    case JBool(b) => b
    case JNum(n) => n != 0
    case JStr(s) => s != ""
    case JArr(_) => true
    case JObj(_) => true
  }

  /** `String(value)`. An array renders as its elements joined with `,`. */
  function ToJsString(value: Json): (r: string)
    ensures value.JStr? ==> r == value.s
    ensures value.JNum? ==> IsDecimalOf(r, value.n)
    ensures value.JBool? ==> (r == "true" <==> value.b) && (r == "false" <==> !value.b)
    decreases value, 0
  {
    match value
    case JNull => "null"
    case JBool(b) => if b then "true" else "false"
    case JNum(n) => IntToStringIsDecimal(n); IntToString(n)
    case JStr(s) => s
    case JArr(items) => Join(seq(|items|, i requires 0 <= i < |items| => ItemString(items[i])), ",")
    case JObj(_) => "[object Object]"
  }

  /** How `Array.prototype.join` renders one element: `null` becomes the empty string. */
  function ItemString(item: Json): string
    decreases item, 1
  {
    if item.JNull? then "" else ToJsString(item)
  }

  /** `items.join(sep)`. */
  function JoinItems(items: seq<Json>, sep: string): string
  {
    Join(seq(|items|, i requires 0 <= i < |items| => ItemString(items[i])), sep)
  }

  /** Joining strings as JSON values is joining the strings themselves. */
  lemma JoinStringItems(strs: seq<string>, sep: string)
    ensures JoinItems(seq(|strs|, i requires 0 <= i < |strs| => JStr(strs[i])), sep) == Join(strs, sep)
  {
    var items := seq(|strs|, i requires 0 <= i < |strs| => JStr(strs[i]));
    forall i | 0 <= i < |strs| ensures ItemString(items[i]) == strs[i] {
      assert ToJsString(JStr(strs[i])) == strs[i];
    }
    assert seq(|items|, i requires 0 <= i < |items| => ItemString(items[i])) == strs;
  }

  /**
   * `Object.entries(value)`: the fields of an object; the indices (as strings) and elements of
   * an array; the indices and one-character strings of a string; nothing for other values.
   */
  function EntriesOf(value: Json): (r: seq<Entry<Json>>)
    ensures value.JObj? ==> r == value.fields
    ensures value.JArr? ==> |r| == |value.items| && forall i | 0 <= i < |r| :: r[i] == (NatToString(i), value.items[i])
    ensures value.JStr? ==> |r| == |value.s| && forall i | 0 <= i < |r| :: r[i] == (NatToString(i), JStr([value.s[i]]))
    ensures value.JNull? || value.JBool? || value.JNum? ==> r == []
  {
    match value
    case JObj(fields) => fields
    case JArr(items) => seq(|items|, i requires 0 <= i < |items| => (NatToString(i), items[i]))
    case JStr(s) => seq(|s|, i requires 0 <= i < |s| => (NatToString(i), JStr([s[i]])))
    case _ => []
  }
}
