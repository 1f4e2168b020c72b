/** Counters and reverse indexes kept beside a table.  `keys` gives each record
    id the key it is filed under; a counter map holds one positive number per key
    in use, an index map one nonempty id set per key in use. */
module Groups {

  ghost function Members<K>(keys: map<string, K>, k: K): set<string> {
    set i | i in keys && keys[i] == k
  }

  /** Go's read of a missing map entry. */
  function Get<K>(counts: map<K, nat>, k: K): nat {
    if k in counts then counts[k] else 0
  }

  function Increment<K>(counts: map<K, nat>, k: K): map<K, nat> {
    counts[k := Get(counts, k) + 1]
  }

  function Decrement<K>(counts: map<K, nat>, k: K): map<K, nat> {
    if Get(counts, k) <= 1 then counts - {k} else counts[k := counts[k] - 1]
  }

  /** `counts` holds, for each key in use and no other, how many ids are filed
      under it. */
  ghost predicate IsCount<K(!new)>(counts: map<K, nat>, keys: map<string, K>) {
    && (forall k {:trigger counts[k]} | k in counts :: counts[k] > 0)
    && (forall k {:trigger Members(keys, k)} :: Get(counts, k) == |Members(keys, k)|)
  }

  lemma MembersAfterInsert<K>(keys: map<string, K>, i: string, k: K, q: K)
    requires i !in keys
    ensures Members(keys[i := k], q) == if q == k then Members(keys, q) + {i} else Members(keys, q)
    ensures |Members(keys[i := k], q)| == |Members(keys, q)| + if q == k then 1 else 0
  {
    assert Members(keys[i := k], q) == if q == k then Members(keys, q) + {i} else Members(keys, q);
  }

  lemma MembersAfterRemove<K>(keys: map<string, K>, i: string, q: K)
    requires i in keys
    ensures Members(keys - {i}, q) == Members(keys, q) - {i}
    ensures |Members(keys - {i}, q)| == |Members(keys, q)| - if q == keys[i] then 1 else 0
  {
    assert Members(keys - {i}, q) == Members(keys, q) - {i};
    if q != keys[i] { assert Members(keys - {i}, q) == Members(keys, q); }
  }

  lemma CountInsert<K(!new)>(counts: map<K, nat>, keys: map<string, K>, i: string, k: K)
    requires IsCount(counts, keys) && i !in keys
    ensures IsCount(Increment(counts, k), keys[i := k])
  {
    forall q
      ensures Get(Increment(counts, k), q) == |Members(keys[i := k], q)|
    {
      MembersAfterInsert(keys, i, k, q);
    }
  }

  lemma CountRemove<K(!new)>(counts: map<K, nat>, keys: map<string, K>, i: string)
    requires IsCount(counts, keys) && i in keys
    ensures IsCount(Decrement(counts, keys[i]), keys - {i})
  {
    assert i in Members(keys, keys[i]);
    forall q
      ensures Get(Decrement(counts, keys[i]), q) == |Members(keys - {i}, q)|
    {
      MembersAfterRemove(keys, i, q);
    }
  }

  /** `index` holds, for each key in use and no other, the ids filed under it. */
  ghost predicate IsIndex<K(!new)>(index: map<K, set<string>>, keys: map<string, K>) {
    && (forall k {:trigger index[k]} | k in index :: index[k] != {})
    && (forall k {:trigger Members(keys, k)} :: Lookup(index, k) == Members(keys, k))
  }

  function Lookup<K>(index: map<K, set<string>>, k: K): set<string> {
    if k in index then index[k] else {}
  }

  function IndexAdd<K>(index: map<K, set<string>>, k: K, i: string): map<K, set<string>> {
    index[k := Lookup(index, k) + {i}]
  }

  function IndexRemove<K>(index: map<K, set<string>>, k: K, i: string): map<K, set<string>> {
    if k !in index then index
    else if index[k] - {i} == {} then index - {k}
    else index[k := index[k] - {i}]
  }

  lemma IndexInsert<K(!new)>(index: map<K, set<string>>, keys: map<string, K>, i: string, k: K)
    requires IsIndex(index, keys) && i !in keys
    ensures IsIndex(IndexAdd(index, k, i), keys[i := k])
  {
    forall q
      ensures Lookup(IndexAdd(index, k, i), q) == Members(keys[i := k], q)
    {
      MembersAfterInsert(keys, i, k, q);
    }
  }

  lemma IndexDelete<K(!new)>(index: map<K, set<string>>, keys: map<string, K>, i: string)
    requires IsIndex(index, keys) && i in keys
    ensures IsIndex(IndexRemove(index, keys[i], i), keys - {i})
  {
    assert i in Members(keys, keys[i]);
    forall q
      ensures Lookup(IndexRemove(index, keys[i], i), q) == Members(keys - {i}, q)
    {
      MembersAfterRemove(keys, i, q);
    }
  }

  lemma CountOfNothing<K(!new)>(counts: map<K, nat>)
    requires IsCount(counts, map[])
    ensures counts == map[]
  {
    forall k
      ensures k !in counts
    {
      assert Members(map[], k) == {};
    }
  }

  lemma IndexOfNothing<K(!new)>(index: map<K, set<string>>)
    requires IsIndex(index, map[])
    ensures index == map[]
  {
    forall k
      ensures k !in index
    {
      assert Members(map[], k) == {};
    }
  }
}
