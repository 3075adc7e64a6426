/**
 * A JavaScript object (a plain record, a `Record<string, T>`, a parsed JSON object or a
 * `URLSearchParams` list) as its list of entries in enumeration order.
 */
module Entries {
  import opened Wrappers

  type Entry<V> = (string, V)

  function Keys<V>(es: seq<Entry<V>>): set<string>
  {
    set i | 0 <= i < |es| :: es[i].0
  }

  lemma KeysCons<V>(e: Entry<V>, es: seq<Entry<V>>)
    ensures Keys([e] + es) == {e.0} + Keys(es)
  {
    var r := [e] + es;
    forall k | k in Keys(r) ensures k in {e.0} + Keys(es) {
      var i :| 0 <= i < |r| && r[i].0 == k;
      if i > 0 { assert es[i - 1].0 == k; }
    }
    forall k | k in Keys(es) ensures k in Keys(r) {
      var i :| 0 <= i < |es| && es[i].0 == k;
      assert r[i + 1].0 == k;
    }
    assert r[0].0 == e.0;
  }

  /** No key occurs twice: true of every JavaScript object. */
  predicate DistinctKeys<V>(es: seq<Entry<V>>)
  {
    forall i, j | 0 <= i < j < |es| :: es[i].0 != es[j].0
  }

  /** Putting an entry in front of a list keeps keys distinct when its key is new. */
  lemma DistinctCons<V>(e: Entry<V>, es: seq<Entry<V>>)
    ensures e.0 !in Keys(es) && DistinctKeys(es) ==> DistinctKeys([e] + es)
  {
    var r := [e] + es;
    forall i, j | 0 <= i < j < |r| && e.0 !in Keys(es) && DistinctKeys(es) ensures r[i].0 != r[j].0 {
      if i == 0 { assert r[j] == es[j - 1]; } else { assert r[i] == es[i - 1] && r[j] == es[j - 1]; }
    }
  }

  /** Property access `obj[key]`: the value of the first entry with that key, if any. */
  function Lookup<V>(es: seq<Entry<V>>, key: string): (r: Option<V>)
    ensures r.None? <==> key !in Keys(es)
    ensures r.Some? ==> (key, r.value) in es
  {
    if es == [] then None
    else if es[0].0 == key then Some(es[0].1)
    else
      var r := Lookup(es[1..], key);
      KeysCons(es[0], es[1..]);
      assert es == [es[0]] + es[1..];
      r
  }

  /** In an object with distinct keys an entry is present exactly when the lookup finds it. */
  lemma {:induction false} LookupFindsEntry<V>(es: seq<Entry<V>>, key: string, v: V)
    requires DistinctKeys(es)
    ensures Lookup(es, key) == Some(v) <==> (key, v) in es
  {
    if es != [] && es[0].0 != key {
      LookupFindsEntry(es[1..], key, v);
    }
  }

  /**
   * The object spread `{...es, [key]: v}`: an existing key keeps its position and takes the
   * new value, a new key is added at the end.
   */
  function Override<V>(es: seq<Entry<V>>, key: string, v: V): (r: seq<Entry<V>>)
    ensures Keys(r) == Keys(es) + {key}
    ensures |r| == if key in Keys(es) then |es| else |es| + 1
  {
    if es == [] then
      KeysCons((key, v), []);
      [(key, v)]
    else
      assert es == [es[0]] + es[1..];
      KeysCons(es[0], es[1..]);
      if es[0].0 == key then
        KeysCons((key, v), es[1..]);
        [(key, v)] + es[1..]
      else
        var rest := Override(es[1..], key, v);
        KeysCons(es[0], rest);
        [es[0]] + rest
  }

  /** After the spread, `key` reads `v` and every other key reads what it read before. */
  lemma {:induction false} OverrideLookup<V>(es: seq<Entry<V>>, key: string, v: V)
    ensures forall k :: Lookup(Override(es, key, v), k) == if k == key then Some(v) else Lookup(es, k)
  {
    if es != [] && es[0].0 != key {
      OverrideLookup(es[1..], key, v);
    }
  }

  /** The spread of an object with distinct keys has distinct keys. */
  lemma {:induction false} OverrideDistinct<V>(es: seq<Entry<V>>, key: string, v: V)
    requires DistinctKeys(es)
    ensures DistinctKeys(Override(es, key, v))
  {
    if es != [] {
      var r := Override(es, key, v);
      if es[0].0 == key {
        assert r[1..] == es[1..];
      } else {
        OverrideDistinct(es[1..], key, v);
        assert r[1..] == Override(es[1..], key, v);
        assert es[0].0 !in Keys(es[1..]);
      }
    }
  }
}
