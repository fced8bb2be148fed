/**
 * The dynamically typed values that flow through the core: decoded JSON
 * bodies, chat message dicts, session metadata and error details.
 * A dict keeps its insertion order, so an object is a list of key/value
 * pairs; reading a key gives the value of its last binding, as a dict
 * built from those pairs would hold.
 */
module Json {
  import opened Wrappers
  import opened Text

  datatype Json =
    | JNull
    | JBool(b: bool)
    | JInt(i: int)
    | JString(s: string)
    | JList(items: seq<Json>)
    | JObject(members: seq<(string, Json)>)

  /** `key in d` for a dict given by its members. */
  predicate HasKey(members: seq<(string, Json)>, key: string) {
    exists i :: 0 <= i < |members| && members[i].0 == key
  }

  /** `d.get(key)`: the value bound last to `key`, or None. */
  function Get(members: seq<(string, Json)>, key: string): (r: Option<Json>)
    ensures r.Some? <==> HasKey(members, key)
    ensures r.Some? ==> exists i :: 0 <= i < |members| && members[i] == (key, r.value)
    decreases |members|
  {
    if members == [] then None
    else
      var last := members[|members| - 1];
      if last.0 == key then Some(last.1)
      else
        var r := Get(members[..|members| - 1], key);
        assert HasKey(members, key) ==> HasKey(members[..|members| - 1], key) by {
          if i :| 0 <= i < |members| && members[i].0 == key {
            assert i < |members| - 1;
            assert members[..|members| - 1][i].0 == key;
          }
        }
        r
  }

  /** Python truth value: `None`, `False`, `0` and empty containers are false. */
  predicate Truthy(j: Json) {
    match j
    case JNull => false
    case JBool(b) => b
    case JInt(i) => i != 0
    case JString(s) => s != []
    case JList(items) => items != []
    case JObject(ms) => ms != []
  }

  /** Python's name for the type of a value, as it appears in `TypeError` texts. */
  function TypeName(j: Json): string {
    match j
    case JNull => "NoneType"
    case JBool(_) => "bool"
    case JInt(_) => "int"
    case JString(_) => "str"
    case JList(_) => "list"
    case JObject(_) => "dict"
  }

  /** Lists and dicts cannot be hashed, so `j in {...}` raises `TypeError` for them. */
  predicate Unhashable(j: Json) {
    j.JList? || j.JObject?
  }

  /** `str(j)`. */
  function Display(j: Json): string {
    match j
    case JString(s) => s
    case _ => Repr(j)
  }

  /** `repr(j)`. */
  function Repr(j: Json): string
    decreases j, 1
  {
    match j
    case JNull => "None"
    case JBool(b) => if b then "True" else "False"
    case JInt(i) => IntToString(i)
    case JString(s) => StrRepr(s)
    case JList(items) => "[" + ReprItems(j, items) + "]"
    case JObject(ms) => "{" + ReprMembers(j, ms) + "}"
  }

  function ReprItems(ghost parent: Json, items: seq<Json>): string
    requires forall i :: 0 <= i < |items| ==> items[i] < parent
    decreases parent, 0, |items|
  {
    if items == [] then ""
    else
      var first := Repr(items[0]);
      if |items| == 1 then first else first + ", " + ReprItems(parent, items[1..])
  }

  function ReprMembers(ghost parent: Json, ms: seq<(string, Json)>): string
    requires forall i :: 0 <= i < |ms| ==> ms[i].1 < parent
    decreases parent, 0, |ms|
  {
    if ms == [] then ""
    else
      var first := StrRepr(ms[0].0) + ": " + Repr(ms[0].1);
      if |ms| == 1 then first else first + ", " + ReprMembers(parent, ms[1..])
  }

  /** `repr(s)` for a string: single quotes unless the text holds a single quote and no double one. */
  function StrRepr(s: string): string {
    var q := if '\'' in s && '"' !in s then '"' else '\'';
    [q] + EscapeForRepr(s, q) + [q]
  }

  function EscapeForRepr(s: string, q: char): string {
    if s == [] then "" else ReprChar(s[0], q) + EscapeForRepr(s[1..], q)
  }

  function ReprChar(c: char, q: char): string {
    if c == q || c == '\\' then ['\\', c]
    else if c == '\t' then "\\t"
    else if c == '\n' then "\\n"
    else if c == '\r' then "\\r"
    else if c < ' ' || ('\U{7f}' <= c <= '\U{a0}') || c == '\U{ad}' then "\\x" + Hex2(c as int)
    else [c]
  }

  function Hex2(n: int): string
    requires 0 <= n < 256
  {
    [HexDigit(n / 16), HexDigit(n % 16)]
  }

  function HexDigit(d: int): char
    requires 0 <= d < 16
  {
    "0123456789abcdef"[d]
  }
}
