/**
 * JSON values as `JSON.parse` returns them, and the object spread `{...v}` that copies
 * a value's own enumerable properties into a fresh object.
 */
module Json {
  import opened Strings

  datatype Json =
    | JNull
    | JBool(b: bool)
    | JNum(n: real)
    | JStr(s: string)
    | JArr(items: seq<Json>)
    | JObj(fields: map<string, Json>)

  /** A JavaScript object with JSON-valued properties. */
  type Object = map<string, Json>

  /** The property names of an array of length `n`: "0", "1", ..., in decimal. */
  function IndexKeys(n: nat): set<string> {
    set i | 0 <= i < n :: NatToString(i)
  }

  lemma IndexKeysStep(n: nat)
    requires n > 0
    ensures IndexKeys(n) == IndexKeys(n - 1) + {NatToString(n - 1)}
  {
    forall k | k in IndexKeys(n)
      ensures k in IndexKeys(n - 1) + {NatToString(n - 1)}
    {
      var i :| 0 <= i < n && k == NatToString(i);
      if i < n - 1 {
        assert k in IndexKeys(n - 1);
      }
    }
  }

  /** The properties of an array: index `i`, written in decimal, holds element `i`. */
  function SpreadItems(xs: seq<Json>): (m: Object)
    ensures m.Keys == IndexKeys(|xs|)
  {
    if |xs| == 0 then map[]
    else
      IndexKeysStep(|xs|);
      SpreadItems(xs[..|xs| - 1])[NatToString(|xs| - 1) := xs[|xs| - 1]]
  }

  /** Each index key of a spread array holds the element at that index. */
  lemma {:induction false} SpreadItemsAt(xs: seq<Json>, i: nat)
    requires i < |xs|
    ensures NatToString(i) in SpreadItems(xs)
    ensures SpreadItems(xs)[NatToString(i)] == xs[i]
    decreases |xs|
  {
    var last := |xs| - 1;
    var prefix := xs[..last];
    assert SpreadItems(xs) == SpreadItems(prefix)[NatToString(last) := xs[last]];
    if i < last {
      NatToStringInjective(i, last);
      SpreadItemsAt(prefix, i);
      assert prefix[i] == xs[i];
    }
  }

  /** A string spreads like the array of its one-character strings. */
  function Characters(s: string): (xs: seq<Json>)
    ensures |xs| == |s|
    ensures forall i :: 0 <= i < |s| ==> xs[i] == JStr([s[i]])
  {
    seq(|s|, i requires 0 <= i < |s| => JStr([s[i]]))
  }

  /**
   * `{...v}`: an object contributes its own properties, an array or a string its
   * index properties, and `null`, booleans and numbers contribute nothing.
   */
  function Spread(v: Json): (m: Object)
    ensures v.JObj? ==> m == v.fields
    ensures (v.JNull? || v.JBool? || v.JNum?) ==> m == map[]
    ensures v.JArr? ==> m.Keys == IndexKeys(|v.items|)
    ensures v.JStr? ==> m.Keys == IndexKeys(|v.s|)
  {
    match v
    case JObj(fields) => fields
    case JArr(items) => SpreadItems(items)
    case JStr(s) => SpreadItems(Characters(s))
    case _ => map[]
  }
}
