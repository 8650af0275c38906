/**
 * The JSON values stored in audit-log `details` and the few JavaScript operations
 * the application applies to them: property access, truthiness, `||`,
 * template-literal interpolation and `JSON.stringify`.
 */
module Json {
  import opened Wrappers
  import Text

  /** A parsed JSON value; objects keep their keys in insertion order. Numbers are integers. */
  datatype Json =
    | JNull
    | JBool(b: bool)
    | JNum(n: int)
    | JStr(s: string)
    | JArr(items: seq<Json>)
    | JObj(fields: seq<(string, Json)>)

  /** `obj[key]` after `JSON.parse`: a key given twice keeps its last value. */
  function Lookup(fields: seq<(string, Json)>, key: string): (r: Option<Json>)
    ensures r.Some? ==> exists i :: 0 <= i < |fields| && fields[i] == (key, r.value)
                                    && forall j :: i < j < |fields| ==> fields[j].0 != key
    ensures r.None? ==> forall i :: 0 <= i < |fields| ==> fields[i].0 != key
    decreases |fields|
  {
    if |fields| == 0 then None
    else if fields[|fields| - 1].0 == key then Some(fields[|fields| - 1].1)
    else Lookup(fields[..|fields| - 1], key)
  }

  /** `v.key` on a non-null value; `None` stands for `undefined`. */
  function Prop(v: Json, key: string): Option<Json>
  {
    if v.JObj? then Lookup(v.fields, key) else None
  }

  /** JavaScript truthiness; `None` is `undefined`. */
  predicate Truthy(v: Option<Json>)
  {
    match v
    case None => false
    case Some(JNull) => false
    case Some(JBool(b)) => b
    case Some(JNum(n)) => n != 0
    case Some(JStr(s)) => s != ""
    case Some(_) => true
  }

  /** `a || b`: the left operand when it is truthy, otherwise the right one. */
  function Or(a: Option<Json>, b: Option<Json>): (r: Option<Json>)
    ensures Truthy(a) ==> r == a
    ensures !Truthy(a) ==> r == b
  {
    if Truthy(a) then a else b
  }

  /** `String(v)` for a defined value, as a template literal interpolates it. */
  function ToStr(v: Json): string
    decreases v
  {
    match v
    case JNull => "null"
    case JBool(b) => if b then "true" else "false"
    case JNum(n) => Text.IntToString(n)
    case JStr(s) => s
    // Array.prototype.toString: elements joined by ",", null elements render empty
    case JArr(a) =>
      Text.Join(seq(|a|, i requires 0 <= i < |a| => if a[i] == JNull then "" else ToStr(a[i])), ",")
    case JObj(_) => "[object Object]"
  }

  /** Template-literal interpolation `${v}`; `undefined` renders as "undefined". */
  function Interp(v: Option<Json>): string
  {
    if v.None? then "undefined" else ToStr(v.value)
  }

  /** `v > 0` after JavaScript's conversion to a number, for the shapes a log can hold. */
  predicate PositiveNumber(v: Option<Json>)
  {
    match v
    case Some(JNum(n)) => n > 0
    case Some(JBool(b)) => b
    case Some(JStr(s)) =>
      var t := Text.Trim(s);
      t != [] && (forall i :: 0 <= i < |t| ==> Text.IsDigit(t[i])) && Text.DigitsValue(t) > 0
    case _ => false
  }

  /** `v.length` for a non-null value: arrays and strings have one, objects may carry one. */
  function Length(v: Json): Option<Json>
  {
    match v
    case JArr(a) => Some(JNum(|a|))
    case JStr(s) => Some(JNum(|s|))
    case JObj(f) => Lookup(f, "length")
    case _ => None
  }

  // ---------------------------------------------------------------------
  // JSON.stringify
  // ---------------------------------------------------------------------

  function HexDigit(d: nat): char
    requires d < 16
  {
    "0123456789abcdef"[d]
  }

  function EscapeChar(c: char): string
  {
    if c == '"' then "\\\""
    else if c == '\\' then "\\\\"
    else if c == '\n' then "\\n"
    else if c == '\r' then "\\r"
    else if c == '\t' then "\\t"
    else if c as int == 8 then "\\b"
    else if c as int == 12 then "\\f"
    else if c as int < 32 then "\\u00" + [HexDigit(c as int / 16), HexDigit(c as int % 16)]
    else [c]
  }

  function Escape(s: string): string
  {
    if s == [] then "" else EscapeChar(s[0]) + Escape(s[1..])
  }

  function Quote(s: string): string
  {
    "\"" + Escape(s) + "\""
  }

  /** `JSON.stringify(v)` without indentation. */
  function Stringify(v: Json): string
    decreases v
  {
    match v
    case JNull => "null"
    case JBool(b) => if b then "true" else "false"
    case JNum(n) => Text.IntToString(n)
    case JStr(s) => Quote(s)
    case JArr(a) =>
      "[" + Text.Join(seq(|a|, i requires 0 <= i < |a| => Stringify(a[i])), ",") + "]"
    case JObj(f) =>
      "{" + Text.Join(seq(|f|, i requires 0 <= i < |f| => Quote(f[i].0) + ":" + Stringify(f[i].1)), ",") + "}"
  }

  /** A JSON array of strings, as the handlers log lists of field names and team names. */
  function StrArray(ss: seq<string>): (r: Json)
    ensures r.JArr? && |r.items| == |ss|
    ensures forall i :: 0 <= i < |ss| ==> r.items[i] == JStr(ss[i])
  {
    JArr(seq(|ss|, i requires 0 <= i < |ss| => JStr(ss[i])))
  }
}
