/**
 * JSON-shaped values, as the Python dictionaries, lists, strings, integers
 * and booleans the tool builds before `json.dump` writes them, and the typed
 * reading of such values back.
 */
module Json {
  import opened Outcomes

  datatype Value =
    | JString(str: string)
    | JInt(num: int)
    | JBool(flag: bool)
    | JArray(items: seq<Value>)
    | JObject(fields: map<string, Value>)

  function StringValue(s: string): Value
  {
    JString(s)
  }

  function AsString(v: Value): Option<string>
  {
    if v.JString? then Some(v.str) else None
  }

  function AsObject(v: Value): Option<map<string, Value>>
  {
    if v.JObject? then Some(v.fields) else None
  }

  /** The member `key` of an object, read by `read`. */
  function Member<T>(m: map<string, Value>, key: string, read: Value -> Option<T>): Option<T>
  {
    if key in m then read(m[key]) else None
  }

  // `StringMember`, `IntMember` and `BoolMember` read what `Member` reads with
  // `AsString` and its like, spelled out without a function argument so that
  // the round-trip proofs of the readers need no higher-order reasoning.

  function StringMember(m: map<string, Value>, key: string): Option<string>
  {
    if key in m && m[key].JString? then Some(m[key].str) else None
  }

  function IntMember(m: map<string, Value>, key: string): Option<int>
  {
    if key in m && m[key].JInt? then Some(m[key].num) else None
  }

  function BoolMember(m: map<string, Value>, key: string): Option<bool>
  {
    if key in m && m[key].JBool? then Some(m[key].flag) else None
  }

  /** A member that may be missing: `Some(None)` when it is, `None` when it is there but unreadable. */
  function OptionalMember<T>(m: map<string, Value>, key: string, read: Value -> Option<T>): Option<Option<T>>
  {
    if key in m then
      match read(m[key])
      case Some(x) => Some(Some(x))
      case None => None
    else Some(None)
  }

  /** Adds `key` to an object when there is a value for it. */
  function WithOptional<T>(m: map<string, Value>, key: string, x: Option<T>, write: T -> Value): map<string, Value>
  {
    match x
    case Some(v) => m[key := write(v)]
    case None => m
  }

  function ArrayOf<T>(xs: seq<T>, write: T -> Value): (v: Value)
    ensures v.JArray? && |v.items| == |xs|
    ensures forall k :: 0 <= k < |xs| ==> v.items[k] == write(xs[k])
  {
    JArray(seq(|xs|, k requires 0 <= k < |xs| => write(xs[k])))
  }

  /** Reads every element of an array with `read`; fails when one fails. */
  function ReadAll<T>(items: seq<Value>, read: Value -> Option<T>): Option<seq<T>>
    decreases |items|
  {
    if items == [] then Some([])
    else
      var x :- read(items[0]);
      var rest :- ReadAll(items[1..], read);
      Some([x] + rest)
  }

  function ArrayMember<T>(m: map<string, Value>, key: string, read: Value -> Option<T>): Option<seq<T>>
  {
    if key in m && m[key].JArray? then ReadAll(m[key].items, read) else None
  }

  /** Reading back what `write` wrote, element by element, reads back the whole array. */
  lemma {:induction false} ReadAllWritten<T>(xs: seq<T>, write: T -> Value, read: Value -> Option<T>)
    requires forall k :: 0 <= k < |xs| ==> read(write(xs[k])) == Some(xs[k])
    ensures ReadAll(ArrayOf(xs, write).items, read) == Some(xs)
    decreases |xs|
  {
    if xs != [] {
      ReadAllWritten(xs[1..], write, read);
      assert ArrayOf(xs, write).items[1..] == ArrayOf(xs[1..], write).items;
      assert xs == [xs[0]] + xs[1..];
    }
  }
}
