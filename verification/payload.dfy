/**
  The `data` object carried by a store message. A JavaScript object's own
  enumerable properties are visited in a fixed order by both `Object.keys` and
  `Object.assign`, so a payload is a sequence of entries; `Assign` is the
  shallow merge `Object.assign(store, data)` performed one property at a time.
 */
module Payload {

  type Key = string

  /** One own enumerable property of a payload object. */
  datatype Entry<V> = Entry(key: Key, value: V)

  type Object<V> = seq<Entry<V>>

  /** The keys `Object.keys(data)` enumerates, as a set. */
  function Keys<V>(data: Object<V>): (ks: set<Key>)
    ensures forall i :: 0 <= i < |data| ==> data[i].key in ks
    ensures forall k :: k in ks ==> exists i :: 0 <= i < |data| && data[i].key == k
  {
    set i | 0 <= i < |data| :: data[i].key
  }

  /** A payload's keys are its first key and the keys of the rest. */
  lemma KeysTail<V>(data: Object<V>)
    requires data != []
    ensures Keys(data) == {data[0].key} + Keys(data[1..])
  {
  }

  /** `Object.assign(m, data)`: write every entry of `data` onto `m`, in order. */
  function Assign<V>(m: map<Key, V>, data: Object<V>): (r: map<Key, V>)
    ensures r.Keys == m.Keys + Keys(data)
    ensures forall k :: k in m && k !in Keys(data) ==> r[k] == m[k]
    decreases |data|
  {
    if data == [] then m
    else
      assert Keys(data) == {data[0].key} + Keys(data[1..]);
      Assign(m[data[0].key := data[0].value], data[1..])
  }

  /** The payload object itself, read as a key-value map. */
  function ToMap<V>(data: Object<V>): (r: map<Key, V>)
    ensures r.Keys == Keys(data)
  {
    Assign(map[], data)
  }

  /** A key whose entry is the last one in `data` with that key. */
  predicate LastWith<V>(data: Object<V>, i: nat)
    requires i < |data|
  {
    forall j :: i < j < |data| ==> data[j].key != data[i].key
  }

  /** No key occurs twice, as in every JavaScript object. */
  predicate DistinctKeys<V>(data: Object<V>) {
    forall i, j :: 0 <= i < j < |data| ==> data[i].key != data[j].key
  }

  /** Merging entry by entry is the same as overriding `m` with the whole payload. */
  lemma {:induction false} AssignIsOverride<V>(m: map<Key, V>, data: Object<V>)
    ensures Assign(m, data) == m + ToMap(data)
    decreases |data|
  {
    if data != [] {
      var e := data[0];
      var rest := data[1..];
      AssignIsOverride(m[e.key := e.value], rest);
      AssignIsOverride(map[e.key := e.value], rest);
      assert ToMap(data) == map[e.key := e.value] + ToMap(rest);
      OverrideAfterUpdate(m, e.key, e.value, ToMap(rest));
    }
  }

  lemma OverrideAfterUpdate<V>(m: map<Key, V>, k: Key, v: V, t: map<Key, V>)
    ensures m + (map[k := v] + t) == m[k := v] + t
  {
  }

  /** After merging, an entry not overridden later in the payload holds its own value. */
  lemma {:induction false} AssignLastWins<V>(m: map<Key, V>, data: Object<V>, i: nat)
    requires i < |data| && LastWith(data, i)
    ensures data[i].key in Assign(m, data)
    ensures Assign(m, data)[data[i].key] == data[i].value
    decreases |data|
  {
    var e := data[0];
    var rest := data[1..];
    if i == 0 {
      assert data[0].key !in Keys(rest) by {
        forall j | 0 <= j < |rest| ensures rest[j].key != e.key {
          assert rest[j] == data[j + 1];
        }
      }
    } else {
      assert LastWith(rest, i - 1) by {
        forall j | i - 1 < j < |rest| ensures rest[j].key != rest[i - 1].key {
          assert rest[j] == data[j + 1];
        }
      }
      AssignLastWins(m[e.key := e.value], rest, i - 1);
    }
  }

  /** In a payload with distinct keys, every entry's key maps to that entry's value. */
  lemma ToMapEntries<V>(data: Object<V>)
    requires DistinctKeys(data)
    ensures forall i :: 0 <= i < |data| ==> ToMap(data)[data[i].key] == data[i].value
  {
    forall i | 0 <= i < |data| ensures ToMap(data)[data[i].key] == data[i].value {
      AssignLastWins(map[], data, i);
    }
  }
}
