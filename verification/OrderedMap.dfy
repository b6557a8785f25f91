/** A JavaScript `Map` in insertion order: no key twice, a new key goes last. */
module OrderedMap {
  import opened Wrappers

  datatype Pair<V> = Pair(key: string, value: V)

  predicate DistinctKeys<V(!new)>(pairs: seq<Pair<V>>) {
    forall i, j :: 0 <= i < j < |pairs| ==> pairs[i].key != pairs[j].key
  }

  /** `Map.get`. */
  function Get<V(!new)>(pairs: seq<Pair<V>>, key: string): (r: Option<V>)
    ensures r.Some? ==> Pair(key, r.value) in pairs
    ensures r.None? ==> forall p :: p in pairs ==> p.key != key
  {
    if pairs == [] then None
    else if pairs[0].key == key then Some(pairs[0].value)
    else Get(pairs[1..], key)
  }

  /** `Map.delete`. */
  function Remove<V(!new)>(pairs: seq<Pair<V>>, key: string): (r: seq<Pair<V>>)
    ensures |r| <= |pairs|
    ensures forall p :: p in r <==> p in pairs && p.key != key
  {
    if pairs == [] then []
    else if pairs[0].key == key then Remove(pairs[1..], key)
    else [pairs[0]] + Remove(pairs[1..], key)
  }

  /** What is left stands in the same order: whatever holds of every two entries in order still does. */
  lemma {:induction false} RemoveKeepsOrder<V(!new)>(pairs: seq<Pair<V>>, key: string,
      ordered: (Pair<V>, Pair<V>) -> bool)
    requires InOrder(pairs, ordered)
    ensures InOrder(Remove(pairs, key), ordered)
  {
    if pairs != [] {
      var tail, rest := pairs[1..], Remove(pairs[1..], key);
      RemoveKeepsOrder(tail, key, ordered);
      forall i | 0 <= i < |rest|
        ensures ordered(pairs[0], rest[i])
      {
        assert rest[i] in rest && rest[i] in tail;
        var j :| 0 <= j < |tail| && tail[j] == rest[i];
        assert pairs[j + 1] == rest[i];
      }
    }
  }

  predicate InOrder<V>(pairs: seq<Pair<V>>, ordered: (Pair<V>, Pair<V>) -> bool) {
    forall i, j :: 0 <= i < j < |pairs| ==> ordered(pairs[i], pairs[j])
  }

  lemma RemoveDistinct<V(!new)>(pairs: seq<Pair<V>>, key: string)
    requires DistinctKeys(pairs)
    ensures DistinctKeys(Remove(pairs, key))
  {
    RemoveKeepsOrder(pairs, key, (p: Pair<V>, q: Pair<V>) => p.key != q.key);
  }
}
