/** The values `response.json()` yields: `json.loads` output as Python sees it. */
module Json {
  import opened Prelude

  /** A decoded JSON document. An object keeps its members in document order,
      repeated keys included; `Get` resolves a repeat the way `json.loads` does. */
  datatype Json =
    | JNull
    | JBool(truth: bool)
    | JInt(n: int)
    | JFloat(x: real)
    | JString(text: string)
    | JArray(items: seq<Json>)
    | JObject(fields: seq<(string, Json)>)

  /** The object has a member named `key`. */
  predicate HasKey(fields: seq<(string, Json)>, key: string)
  {
    exists i :: 0 <= i < |fields| && fields[i].0 == key
  }

  /** The value `json.loads` keeps for `key`: that of the member written last. */
  function Get(fields: seq<(string, Json)>, key: string): (r: Option<Json>)
    ensures r.Some? <==> HasKey(fields, key)
    decreases |fields|
  {
    if fields == [] then None
    else if fields[|fields| - 1].0 == key then Some(fields[|fields| - 1].1)
    else
      var r := Get(fields[..|fields| - 1], key);
      assert r.Some? ==> HasKey(fields, key) by {
        if r.Some? {
          var i :| 0 <= i < |fields| - 1 && fields[..|fields| - 1][i].0 == key;
          assert fields[i].0 == key;
        }
      }
      r
  }

  /** `Get` returns the value of the last member with that key. */
  lemma {:induction false} GetIsLast(fields: seq<(string, Json)>, key: string)
    requires HasKey(fields, key)
    ensures exists i :: && 0 <= i < |fields| && fields[i] == (key, Get(fields, key).value)
                        && forall j :: i < j < |fields| ==> fields[j].0 != key
    decreases |fields|
  {
    var n := |fields| - 1;
    if fields[n].0 != key {
      var p := fields[..n];
      var i :| 0 <= i < |fields| && fields[i].0 == key;
      assert p[i].0 == key;
      GetIsLast(p, key);
      var k :| && 0 <= k < |p| && p[k] == (key, Get(p, key).value)
               && forall j :: k < j < |p| ==> p[j].0 != key;
      assert fields[k] == p[k];
      assert forall j :: k < j < |fields| ==> fields[j].0 != key by {
        forall j | k < j < |fields|
          ensures fields[j].0 != key
        {
          if j < n {
            assert fields[j] == p[j];
          }
        }
      }
    }
  }

  /** Inserting a member anywhere leaves every other key's presence and value alone. */
  lemma {:induction false} InsertOtherKey(f1: seq<(string, Json)>, f2: seq<(string, Json)>, key: string, value: Json,
                                          other: string)
    requires other != key
    ensures HasKey(f1 + [(key, value)] + f2, other) == HasKey(f1 + f2, other)
    ensures Get(f1 + [(key, value)] + f2, other) == Get(f1 + f2, other)
    decreases |f2|
  {
    var f := f1 + [(key, value)] + f2;
    var g := f1 + f2;
    if f2 == [] {
      assert f[..|f| - 1] == g;
    } else {
      var n := |f2| - 1;
      assert f[|f| - 1] == f2[n] && g[|g| - 1] == f2[n];
      assert f[..|f| - 1] == f1 + [(key, value)] + f2[..n];
      assert g[..|g| - 1] == f1 + f2[..n];
      InsertOtherKey(f1, f2[..n], key, value, other);
    }
  }

  /** A member inserted under a key the object lacks is the value found for that key. */
  lemma {:induction false} InsertNewKey(f1: seq<(string, Json)>, f2: seq<(string, Json)>, key: string, value: Json)
    requires !HasKey(f1 + f2, key)
    ensures Get(f1 + [(key, value)] + f2, key) == Some(value)
    decreases |f2|
  {
    var f := f1 + [(key, value)] + f2;
    var g := f1 + f2;
    if f2 == [] {
      assert f[|f| - 1] == (key, value);
    } else {
      var n := |f2| - 1;
      assert f[|f| - 1] == f2[n] && g[|g| - 1] == f2[n];
      assert f[..|f| - 1] == f1 + [(key, value)] + f2[..n];
      assert g[..|g| - 1] == f1 + f2[..n];
      forall i | 0 <= i < |f1 + f2[..n]|
        ensures (f1 + f2[..n])[i].0 != key
      {
        assert g[i] == (f1 + f2[..n])[i];
      }
      InsertNewKey(f1, f2[..n], key, value);
    }
  }

  /** Python truthiness: `None`, `False`, zero, and empty strings, lists and
      dicts are false. */
  predicate Truthy(v: Json)
  {
    match v
    case JNull => false
    case JBool(b) => b
    case JInt(n) => n != 0
    case JFloat(x) => x != 0.0
    case JString(s) => s != ""
    case JArray(items) => items != []
    case JObject(fields) => fields != []
  }
}
