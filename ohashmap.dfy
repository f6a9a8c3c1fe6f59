/**
 * `OHashMap`: a hash map that remembers the order in which keys were first
 * inserted. Re-inserting a key replaces its value and keeps its position.
 */
module OHashMaps {
  import opened Wrappers

  ghost predicate Distinct<K>(s: seq<K>) {
    forall i, j :: 0 <= i < j < |s| ==> s[i] != s[j]
  }

  /** The key list after `insert(key, _)`: the key is appended on its first insertion only. */
  function InsertedKeys<K(==), V>(keys: seq<K>, entries: map<K, V>, key: K): seq<K> {
    if key in entries then keys else keys + [key]
  }

  /** `iter()`: the key list, each paired with its current value, skipping keys
      the map does not hold. */
  function IterOf<K(==), V>(keys: seq<K>, entries: map<K, V>): seq<(K, V)> {
    if keys == [] then []
    else (if keys[0] in entries then [(keys[0], entries[keys[0]])] else []) + IterOf(keys[1..], entries)
  }

  /** When every listed key is in the map, `iter()` lists exactly the keys, in order,
      with their current values. */
  lemma {:induction false} IterListsEveryKey<K, V>(keys: seq<K>, entries: map<K, V>)
    requires forall k :: k in keys ==> k in entries
    ensures |IterOf(keys, entries)| == |keys|
    ensures forall i :: 0 <= i < |keys| ==> IterOf(keys, entries)[i] == (keys[i], entries[keys[i]])
  {
    if keys != [] {
      IterListsEveryKey(keys[1..], entries);
    }
  }

  datatype State<K, V> = State(keys: seq<K>, entries: map<K, V>)

  /** The state reached by a sequence of `insert` calls on a new map. */
  ghost function InsertAll<K, V>(ops: seq<(K, V)>): State<K, V> {
    if ops == [] then State([], map[])
    else
      var s := InsertAll(ops[..|ops| - 1]);
      var op := ops[|ops| - 1];
      State(InsertedKeys(s.keys, s.entries, op.0), s.entries[op.0 := op.1])
  }

  /** `ops[i]` is the last insertion of its key. */
  ghost predicate LastFor<K, V>(ops: seq<(K, V)>, i: int) {
    0 <= i < |ops| && forall j :: i < j < |ops| ==> ops[j].0 != ops[i].0
  }

  /** Some insertion in `ops` is for `k`. */
  ghost predicate InsertedIn<K, V>(ops: seq<(K, V)>, k: K) {
    exists i :: 0 <= i < |ops| && ops[i].0 == k
  }

  /** `x` was inserted by some call before any call inserted `y`. */
  ghost predicate InsertedBefore<K, V>(ops: seq<(K, V)>, x: K, y: K) {
    exists i :: 0 <= i < |ops| && ops[i].0 == x && forall j :: 0 <= j <= i ==> ops[j].0 != y
  }

  /** The last insertion of `k` in `ops` gave it `v`. */
  ghost predicate LastInserted<K, V>(ops: seq<(K, V)>, k: K, v: V) {
    exists i :: LastFor(ops, i) && ops[i] == (k, v)
  }

  /** After any sequence of insertions each inserted key is listed exactly once. */
  lemma {:induction false} InsertAllListsKeysOnce<K, V>(ops: seq<(K, V)>)
    ensures var s := InsertAll(ops);
      Distinct(s.keys) && s.entries.Keys == (set k | k in s.keys)
      && (forall k :: k in s.entries <==> InsertedIn(ops, k))
  {
    if ops != [] {
      var init := ops[..|ops| - 1];
      var op := ops[|ops| - 1];
      InsertAllListsKeysOnce(init);
      var s0 := InsertAll(init);
      var s := InsertAll(ops);
      forall k | k in s.entries
        ensures InsertedIn(ops, k)
      {
        if k == op.0 {
          assert ops[|ops| - 1].0 == k;
        } else {
          assert k in s0.entries;
          assert InsertedIn(init, k);
          var i :| 0 <= i < |init| && init[i].0 == k;
          assert ops[i].0 == k;
        }
      }
      forall k | InsertedIn(ops, k)
        ensures k in s.entries
      {
        var i :| 0 <= i < |ops| && ops[i].0 == k;
        if i < |init| {
          assert init[i].0 == k;
        }
      }
    }
  }

  /** A key is listed before another iff it was first inserted earlier. */
  lemma {:induction false} InsertAllFirstInsertionOrder<K, V>(ops: seq<(K, V)>)
    ensures var s := InsertAll(ops);
      forall a, b :: 0 <= a < b < |s.keys| ==> InsertedBefore(ops, s.keys[a], s.keys[b])
  {
    if ops != [] {
      var init := ops[..|ops| - 1];
      var op := ops[|ops| - 1];
      assert ops == init + [op];
      InsertAllFirstInsertionOrder(init);
      InsertAllListsKeysOnce(init);
      var s0 := InsertAll(init);
      var s := InsertAll(ops);
      forall a, b | 0 <= a < b < |s.keys|
        ensures InsertedBefore(ops, s.keys[a], s.keys[b])
      {
        if b < |s0.keys| {
          assert s.keys[a] == s0.keys[a] && s.keys[b] == s0.keys[b];
          InsertedBeforeSnoc(init, op, s0.keys[a], s0.keys[b]);
        } else {
          assert op.0 !in s0.entries && s.keys == s0.keys + [op.0];
          assert !InsertedIn(init, op.0);
          assert s.keys[a] == s0.keys[a] && s0.keys[a] in s0.entries;
          assert InsertedIn(init, s0.keys[a]);
          InsertedBeforeNewKey(init, op, s0.keys[a]);
        }
      }
    }
  }

  lemma InsertedBeforeSnoc<K, V>(init: seq<(K, V)>, op: (K, V), x: K, y: K)
    requires InsertedBefore(init, x, y)
    ensures InsertedBefore(init + [op], x, y)
  {
    var i :| 0 <= i < |init| && init[i].0 == x && forall j :: 0 <= j <= i ==> init[j].0 != y;
    var ops := init + [op];
    assert ops[i] == init[i];
    assert forall j :: 0 <= j <= i ==> ops[j] == init[j];
  }

  /** A key inserted before the first insertion of `op`'s key is inserted before it. */
  lemma InsertedBeforeNewKey<K, V>(init: seq<(K, V)>, op: (K, V), x: K)
    requires InsertedIn(init, x) && !InsertedIn(init, op.0)
    ensures InsertedBefore(init + [op], x, op.0)
  {
    var i :| 0 <= i < |init| && init[i].0 == x;
    var ops := init + [op];
    assert ops[i] == init[i];
    forall j | 0 <= j <= i
      ensures ops[j].0 != op.0
    {
      assert ops[j] == init[j];
    }
  }

  /** Each key holds the value of its last insertion. */
  lemma {:induction false} InsertAllKeepsLatestValue<K, V>(ops: seq<(K, V)>)
    ensures forall k :: k in InsertAll(ops).entries ==> LastInserted(ops, k, InsertAll(ops).entries[k])
  {
    if ops != [] {
      var init := ops[..|ops| - 1];
      var op := ops[|ops| - 1];
      InsertAllKeepsLatestValue(init);
      assert ops == init + [op];
      var s0 := InsertAll(init);
      var s := InsertAll(ops);
      forall k | k in s.entries
        ensures LastInserted(ops, k, s.entries[k])
      {
        if k == op.0 {
          assert LastFor(ops, |ops| - 1);
        } else {
          assert k in s0.entries && s.entries[k] == s0.entries[k];
          LastInsertedSnoc(init, op, k, s0.entries[k]);
        }
      }
    }
  }

  lemma LastInsertedSnoc<K, V>(init: seq<(K, V)>, op: (K, V), k: K, v: V)
    requires LastInserted(init, k, v) && k != op.0
    ensures LastInserted(init + [op], k, v)
  {
    var i :| LastFor(init, i) && init[i] == (k, v);
    var ops := init + [op];
    assert ops[i] == init[i];
    forall j | i < j < |ops|
      ensures ops[j].0 != ops[i].0
    {
      if j < |init| { assert ops[j] == init[j]; }
    }
    assert LastFor(ops, i);
  }

  /** One more `insert` extends the fold: what `OHashMap.Insert` does to its state
      is what `InsertAll` says the call adds. */
  lemma InsertAllStep<K, V>(ops: seq<(K, V)>, k: K, v: V)
    ensures var s := InsertAll(ops);
      InsertAll(ops + [(k, v)]) == State(InsertedKeys(s.keys, s.entries, k), s.entries[k := v])
  {
    assert (ops + [(k, v)])[..|ops|] == ops;
  }

  /** The map with its insertion order. */
  class OHashMap<K(==), V> {
    var entries: map<K, V>
    var keys: seq<K>

    ghost predicate Valid()
      reads this
    {
      Distinct(keys) && entries.Keys == set k | k in keys
    }

    /** `Default::default()`: empty. */
    constructor()
      ensures Valid() && entries == map[] && keys == []
    {
      entries := map[];
      keys := [];
    }

    /** `get_mut(key)` for reading: `Some` iff the key was inserted. */
    function Get(key: K): (r: Option<V>)
      reads this
      requires Valid()
      ensures r.Some? <==> key in keys
      ensures r.Some? ==> r.value == entries[key]
    {
      if key in entries then Some(entries[key]) else None
    }

    /** A write through the reference `get_mut(key)` returns: the value changes,
        the order does not. */
    method SetExisting(key: K, value: V)
      requires Valid() && key in entries
      modifies this
      ensures Valid()
      ensures entries == old(entries)[key := value] && keys == old(keys)
    {
      entries := entries[key := value];
    }

    /** `insert(key, value)`. */
    method Insert(key: K, value: V)
      requires Valid()
      modifies this
      ensures Valid()
      ensures entries == old(entries)[key := value]
      ensures keys == InsertedKeys(old(keys), old(entries), key)
    {
      if key !in entries {
        keys := keys + [key];
      }
      entries := entries[key := value];
    }

    /** `iter()`: every key once, in first-insertion order, with its latest value. */
    function Iter(): (r: seq<(K, V)>)
      reads this
      requires Valid()
      ensures |r| == |keys|
      ensures forall i :: 0 <= i < |keys| ==> r[i] == (keys[i], entries[keys[i]])
    {
      IterListsEveryKey(keys, entries);
      IterOf(keys, entries)
    }
  }
}
