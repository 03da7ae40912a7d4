/**
 * Query parameters as `urllib.parse.parse_qs` groups them with its default
 * `keep_blank_values=False`, and the parser's `params.get(key, [d])[0]`.
 *
 * The query enters as its fields in order, each already split at its first
 * `=` and percent-decoded. A field whose value is empty (`sni=`) is dropped
 * by `parse_qs`, so the key counts as absent unless a later field gives it a
 * non-empty value.
 */
module Query {
  import opened Outcomes

  /** The decoded `(name, value)` fields of a query string, in order. */
  type Fields = seq<(string, string)>

  /** The dictionary `parse_qs` returns: each key to its list of values. */
  type Params = map<string, seq<string>>

  /** The non-empty values given for `key`, in the order of the query. */
  function Values(q: Fields, key: string): (vs: seq<string>)
    ensures forall k :: 0 <= k < |vs| ==> vs[k] != ""
    decreases |q|
  {
    if q == [] then []
    else (if q[0].0 == key && q[0].1 != "" then [q[0].1] else []) + Values(q[1..], key)
  }

  /** The names the query mentions. */
  function Names(q: Fields): set<string>
  {
    set i | 0 <= i < |q| :: q[i].0
  }

  /** `parse_qs(query)`: every key with a non-empty value, to all its non-empty values in order. */
  function ParseQs(q: Fields): (params: Params)
    ensures forall key :: key in params ==> params[key] == Values(q, key) && params[key] != []
  {
    map key | key in Names(q) && Values(q, key) != [] :: Values(q, key)
  }

  /** `params.get(key)`: the first value when the key is present. */
  function Get(params: Params, key: string): Option<string>
  {
    if key in params && params[key] != [] then Some(params[key][0]) else None
  }

  /** `params.get(key, [default])[0]`. */
  function GetOr(params: Params, key: string, default: string): string
  {
    match Get(params, key)
    case Some(v) => v
    case None => default
  }

  /** Field `i` is the first field that gives `key` a non-empty value. */
  ghost predicate FirstGiven(q: Fields, key: string, i: int)
  {
    && 0 <= i < |q|
    && q[i].0 == key && q[i].1 != ""
    && forall j :: 0 <= j < i ==> q[j].0 != key || q[j].1 == ""
  }

  /** No field gives `key` a non-empty value. */
  ghost predicate NeverGiven(q: Fields, key: string)
  {
    forall i :: 0 <= i < |q| && q[i].0 == key ==> q[i].1 == ""
  }

  /** The values of a key are empty exactly when no field gives it one; otherwise they start with the first one given. */
  lemma {:induction false} ValuesFirst(q: Fields, key: string)
    ensures Values(q, key) == [] <==> NeverGiven(q, key)
    ensures Values(q, key) != [] ==> exists i :: FirstGiven(q, key, i) && Values(q, key)[0] == q[i].1
    decreases |q|
  {
    if q != [] {
      ValuesFirst(q[1..], key);
      if q[0].0 == key && q[0].1 != "" {
        assert FirstGiven(q, key, 0);
      } else if Values(q[1..], key) != [] {
        var i :| FirstGiven(q[1..], key, i) && Values(q[1..], key)[0] == q[1..][i].1;
        assert FirstGiven(q, key, i + 1);
      } else {
        forall i | 0 <= i < |q| && q[i].0 == key ensures q[i].1 == "" {
          if i > 0 { assert q[i] == q[1..][i - 1]; }
        }
      }
      if NeverGiven(q, key) {
        assert NeverGiven(q[1..], key) by {
          forall i | 0 <= i < |q[1..]| && q[1..][i].0 == key ensures q[1..][i].1 == "" {
            assert q[1..][i] == q[i + 1];
          }
        }
      }
    }
  }

  /** A field giving `key` a non-empty value puts the key into the `parse_qs` dictionary. */
  lemma {:induction false} GivenIsPresent(q: Fields, key: string)
    ensures key in ParseQs(q) <==> !NeverGiven(q, key)
  {
    ValuesFirst(q, key);
    if !NeverGiven(q, key) {
      var i :| 0 <= i < |q| && q[i].0 == key && q[i].1 != "";
      assert key in Names(q);
    }
  }

  /**
   * The keys of the `parse_qs` dictionary are exactly the names some field
   * gives a non-empty value, and each key's list starts with the value of
   * the first such field.
   */
  lemma {:induction false} ParseQsKeys(q: Fields)
    ensures forall key :: key in ParseQs(q) <==> !NeverGiven(q, key)
    ensures forall key :: key in ParseQs(q) ==> ParseQs(q)[key] != [] && FirstValue(q, key, ParseQs(q)[key][0])
  {
    forall key ensures key in ParseQs(q) <==> !NeverGiven(q, key) {
      GivenIsPresent(q, key);
    }
    forall key | key in ParseQs(q) ensures FirstValue(q, key, ParseQs(q)[key][0]) {
      ValuesFirst(q, key);
    }
  }

  /** `v` is the value of the first field that gives `key` a non-empty value. */
  ghost predicate FirstValue(q: Fields, key: string, v: string)
  {
    exists i :: FirstGiven(q, key, i) && q[i].1 == v
  }

  /**
   * `params.get(key)` over `parse_qs` finds the value of the first field that
   * gives `key` a non-empty value, and nothing when no field does; so
   * `params.get(key, [d])[0]` is that value, or `d`.
   */
  lemma {:induction false} GetFirst(q: Fields, key: string, default: string)
    ensures Get(ParseQs(q), key) == None <==> NeverGiven(q, key)
    ensures forall v :: Get(ParseQs(q), key) == Some(v) <==> FirstValue(q, key, v)
    ensures NeverGiven(q, key) ==> GetOr(ParseQs(q), key, default) == default
    ensures forall v :: FirstValue(q, key, v) ==> GetOr(ParseQs(q), key, default) == v
  {
    ValuesFirst(q, key);
    GivenIsPresent(q, key);
    forall v | FirstValue(q, key, v) ensures Get(ParseQs(q), key) == Some(v) {
      var i :| FirstGiven(q, key, i) && q[i].1 == v;
      var i' :| FirstGiven(q, key, i') && Values(q, key)[0] == q[i'].1;
      assert !(i < i') && !(i' < i);
    }
  }
}
