/**
  The `Sherpa` bridge between a Shiny server and Alpine stores, as an immutable
  state and pure transitions.

  A store observer (one `Alpine.effect` per key present at creation) is taken to
  fire synchronously on every write to its key; the release of the ignoring flag,
  scheduled with `Promise.resolve().then`, is a separate `FlushRelease` step.
  Whether each effect also runs once when it is registered is Alpine's business,
  so it is a parameter of the bridge, `eagerEffects`, fixed at construction.
  Outbound `Shiny.setInputValue` calls are appended to an outbox.
 */
module Sherpa {
  import opened Results
  import opened Payload
  import Channel

  type StoreId = string

  /** One `Shiny.setInputValue(channel, {key, value})` call. */
  datatype Message<V> = Message(channel: string, key: Key, value: V)

  /** An Alpine store: its current contents and the keys an effect watches. */
  datatype Store<V> = Store(contents: map<Key, V>, observed: set<Key>)

  /**
    A store id that was never created: thrown by `updateStore`, and the failure
    of a page write to such a store (which happens on the page, not in Sherpa).
   */
  datatype Error = StoreNotFound(storeId: StoreId)

  /**
    The bridge: whether effects run at registration, every store by id, the one
    shared ignoring flag, the number of scheduled flag releases not yet run, and
    every message sent so far.
   */
  datatype Bridge<V> = Bridge(
    eagerEffects: bool,
    stores: map<StoreId, Store<V>>,
    ignoring: bool,
    pending: nat,
    outbox: seq<Message<V>>)

  /** The message an observer of `key` in `storeId` sends for `value`. */
  function Change<V>(storeId: StoreId, key: Key, value: V): (msg: Message<V>)
    ensures Channel.StoreOf(msg.channel) == Some(storeId)
    ensures msg.key == key && msg.value == value
  {
    Channel.NameRoundTrip(storeId);
    Message(Channel.Name(storeId), key, value)
  }

  /** Facts every reachable bridge keeps. */
  predicate Valid<V>(b: Bridge<V>) {
    && (forall id :: id in b.stores ==> b.stores[id].observed <= b.stores[id].contents.Keys)
    && (b.ignoring ==> b.pending > 0)
  }

  /** Everything but the outbox is as in `b`. */
  ghost predicate SameExceptOutbox<V>(b: Bridge<V>, r: Bridge<V>) {
    r.eagerEffects == b.eagerEffects && r.stores == b.stores
      && r.ignoring == b.ignoring && r.pending == b.pending
  }

  /** `r`'s outbox is `b`'s with `extra` appended. */
  ghost predicate Sent<V>(b: Bridge<V>, r: Bridge<V>, extra: seq<Message<V>>) {
    r.outbox == b.outbox + extra
  }

  /** Every store other than `id` is as in `b`. */
  ghost predicate OthersUnchanged<V>(b: Bridge<V>, r: Bridge<V>, id: StoreId) {
    r.stores - {id} == b.stores - {id}
  }

  /** Changing one store without dropping observed keys from its contents keeps `Valid`. */
  lemma ValidAfterStoreChange<V>(b: Bridge<V>, r: Bridge<V>, id: StoreId)
    requires OthersUnchanged(b, r, id)
    requires id in b.stores && id in r.stores
    requires r.stores[id].observed <= b.stores[id].observed
    requires b.stores[id].contents.Keys <= r.stores[id].contents.Keys
    requires r.ignoring ==> r.pending > 0
    ensures Valid(b) ==> Valid(r)
  {
    forall other | other in r.stores && Valid(b)
      ensures r.stores[other].observed <= r.stores[other].contents.Keys
    {
      if other != id {
        assert other in r.stores - {id};
        assert r.stores[other] == (r.stores - {id})[other] == b.stores[other];
      }
    }
  }

  /** `new Sherpa()`, over an Alpine whose effects do or do not run at registration. */
  function Fresh<V>(eagerEffects: bool): (b: Bridge<V>)
    ensures !b.ignoring && b.pending == 0
    ensures b.stores == map[] && b.outbox == []
    ensures b.eagerEffects == eagerEffects
    ensures Valid(b)
  {
    Bridge(eagerEffects, map[], false, 0, [])
  }

  /** `updateR`: forward one observed change, unless the flag is up. */
  function UpdateR<V>(b: Bridge<V>, storeId: StoreId, key: Key, value: V): (r: Bridge<V>)
    ensures SameExceptOutbox(b, r)
    ensures b.ignoring ==> r == b
    ensures !b.ignoring ==> |r.outbox| == |b.outbox| + 1 && r.outbox[..|b.outbox|] == b.outbox
    ensures !b.ignoring ==> var m := r.outbox[|b.outbox|];
      Channel.StoreOf(m.channel) == Some(storeId) && m.key == key && m.value == value
  {
    if b.ignoring then b
    else b.(outbox := b.outbox + [Change(storeId, key, value)])
  }

  /**
    The messages the first run of the new effects sends: one per entry of
    `data`, in order, each with the store's current value for that key.
   */
  function Initial<V>(storeId: StoreId, data: Object<V>, contents: map<Key, V>): (ms: seq<Message<V>>)
    requires Keys(data) <= contents.Keys
    ensures |ms| == |data|
    decreases |data|
  {
    if data == [] then []
    else
      KeysTail(data);
      [Change(storeId, data[0].key, contents[data[0].key])] + Initial(storeId, data[1..], contents)
  }

  /** Message `i` of the first run is the change of entry `i`'s key to its value in `contents`. */
  lemma {:induction false} InitialAt<V>(storeId: StoreId, data: Object<V>, contents: map<Key, V>, i: nat)
    requires Keys(data) <= contents.Keys && i < |data|
    ensures Initial(storeId, data, contents)[i] == Change(storeId, data[i].key, contents[data[i].key])
    decreases i
  {
    KeysTail(data);
    if i > 0 {
      InitialAt(storeId, data[1..], contents, i - 1);
    }
  }

  /**
    For a payload with distinct keys, as every JavaScript object has, the first
    run of the effects sends each entry of `data` exactly as it was given.
   */
  lemma InitialSendsData<V>(storeId: StoreId, data: Object<V>)
    requires DistinctKeys(data)
    ensures |Initial(storeId, data, ToMap(data))| == |data|
    ensures forall i :: 0 <= i < |data| ==>
      Initial(storeId, data, ToMap(data))[i] == Change(storeId, data[i].key, data[i].value)
  {
    ToMapEntries(data);
    forall i | 0 <= i < |data|
      ensures Initial(storeId, data, ToMap(data))[i] == Change(storeId, data[i].key, data[i].value)
    {
      InitialAt(storeId, data, ToMap(data), i);
    }
  }

  /** Each new effect runs once, in `Object.keys` order, calling `updateR` with its key's value. */
  function Register<V>(b: Bridge<V>, storeId: StoreId, data: Object<V>, contents: map<Key, V>): (r: Bridge<V>)
    requires Keys(data) <= contents.Keys
    ensures SameExceptOutbox(b, r)
    ensures r.outbox == b.outbox + (if b.ignoring then [] else Initial(storeId, data, contents))
    decreases |data|
  {
    if data == [] then b
    else
      KeysTail(data);
      var m := Change(storeId, data[0].key, contents[data[0].key]);
      var b1 := UpdateR(b, storeId, data[0].key, contents[data[0].key]);
      Register(b1, storeId, data[1..], contents)
  }

  /**
    `createStore`: replace the store by `data` and observe exactly its keys; with
    eager effects and the flag down, every key of `data` is sent once.
   */
  function Init<V>(b: Bridge<V>, storeId: StoreId, data: Object<V>): (r: Bridge<V>)
    ensures storeId in r.stores
    ensures r.stores[storeId].contents == ToMap(data)
    ensures r.stores[storeId].observed == Keys(data)
    ensures OthersUnchanged(b, r, storeId) && r.stores.Keys == b.stores.Keys + {storeId}
    ensures r.eagerEffects == b.eagerEffects && r.ignoring == b.ignoring && r.pending == b.pending
    ensures r.outbox == b.outbox
      + (if b.eagerEffects && !b.ignoring then Initial(storeId, data, ToMap(data)) else [])
    ensures Valid(b) ==> Valid(r)
  {
    var created := b.(stores := b.stores[storeId := Store(ToMap(data), Keys(data))]);
    if b.eagerEffects then Register(created, storeId, data, ToMap(data)) else created
  }

  /** One property write `store[key] = value`, with its observer firing if it has one. */
  function Write<V>(b: Bridge<V>, storeId: StoreId, key: Key, value: V): (r: Bridge<V>)
    requires storeId in b.stores
    ensures storeId in r.stores
    ensures r.stores[storeId].contents == b.stores[storeId].contents[key := value]
    ensures r.stores[storeId].observed == b.stores[storeId].observed
    ensures OthersUnchanged(b, r, storeId) && r.stores.Keys == b.stores.Keys
    ensures r.eagerEffects == b.eagerEffects && r.ignoring == b.ignoring && r.pending == b.pending
    ensures Sent(b, r, if key in b.stores[storeId].observed && !b.ignoring
                       then [Change(storeId, key, value)] else [])
  {
    var s := b.stores[storeId];
    var written := b.(stores := b.stores[storeId := s.(contents := s.contents[key := value])]);
    if key in s.observed then UpdateR(written, storeId, key, value) else written
  }

  /** `Object.assign(store, data)`: one `Write` per entry, in order. */
  function AssignStore<V>(b: Bridge<V>, storeId: StoreId, data: Object<V>): (r: Bridge<V>)
    requires storeId in b.stores
    ensures storeId in r.stores
    ensures r.stores[storeId].contents == Assign(b.stores[storeId].contents, data)
    ensures r.stores[storeId].observed == b.stores[storeId].observed
    ensures OthersUnchanged(b, r, storeId) && r.stores.Keys == b.stores.Keys
    ensures r.eagerEffects == b.eagerEffects && r.ignoring == b.ignoring && r.pending == b.pending
    ensures b.ignoring ==> r.outbox == b.outbox
    decreases |data|
  {
    if data == [] then b
    else AssignStore(Write(b, storeId, data[0].key, data[0].value), storeId, data[1..])
  }

  /**
    `updateStore`: throw for an unknown store; otherwise raise the flag, merge
    `data` into the store and schedule one release of the flag.
   */
  function Update<V>(b: Bridge<V>, storeId: StoreId, data: Object<V>): (r: Result<Bridge<V>, Error>)
    ensures r.Err? <==> storeId !in b.stores
    ensures r.Err? ==> r.error == StoreNotFound(storeId)
    ensures r.Ok? ==> (storeId in r.value.stores
      && r.value.stores[storeId].contents == b.stores[storeId].contents + ToMap(data)
      && r.value.stores[storeId].observed == b.stores[storeId].observed)
    ensures r.Ok? ==> OthersUnchanged(b, r.value, storeId) && r.value.stores.Keys == b.stores.Keys
    ensures r.Ok? ==> r.value.eagerEffects == b.eagerEffects
    ensures r.Ok? ==> r.value.ignoring && r.value.pending == b.pending + 1
    ensures r.Ok? ==> r.value.outbox == b.outbox
    ensures r.Ok? && Valid(b) ==> Valid(r.value)
  {
    if storeId !in b.stores then Err(StoreNotFound(storeId))
    else
      var merged := AssignStore(b.(ignoring := true), storeId, data);
      AssignIsOverride(b.stores[storeId].contents, data);
      var r := merged.(pending := merged.pending + 1);
      ValidAfterStoreChange(b, r, storeId);
      Ok(r)
  }

  /**
    `updateStore` is a shallow merge: each key of `data` takes the value of its
    last entry, and every other key of the store keeps its value.
   */
  lemma UpdateMerges<V>(b: Bridge<V>, storeId: StoreId, data: Object<V>)
    requires storeId in b.stores
    ensures var r := Update(b, storeId, data);
      && r.Ok?
      && r.value.stores[storeId].contents.Keys == b.stores[storeId].contents.Keys + Keys(data)
      && (forall i :: 0 <= i < |data| && LastWith(data, i) ==>
            r.value.stores[storeId].contents[data[i].key] == data[i].value)
      && (forall k :: k in b.stores[storeId].contents && k !in Keys(data) ==>
            r.value.stores[storeId].contents[k] == b.stores[storeId].contents[k])
  {
    var before := b.stores[storeId].contents;
    var merged := Update(b, storeId, data).value.stores[storeId].contents;
    AssignIsOverride(before, data);
    forall i | 0 <= i < |data| && LastWith(data, i) ensures merged[data[i].key] == data[i].value {
      AssignLastWins(before, data, i);
    }
  }

  /** A write made from the page (an Alpine binding assigning `$store.<id>.<key>`). */
  function LocalWrite<V>(b: Bridge<V>, storeId: StoreId, key: Key, value: V): (r: Result<Bridge<V>, Error>)
    ensures r.Err? <==> storeId !in b.stores
    ensures r.Err? ==> r.error == StoreNotFound(storeId)
    ensures r.Ok? ==> (storeId in r.value.stores
      && r.value.stores[storeId].contents == b.stores[storeId].contents[key := value]
      && r.value.stores[storeId].observed == b.stores[storeId].observed)
    ensures r.Ok? ==> OthersUnchanged(b, r.value, storeId) && r.value.stores.Keys == b.stores.Keys
    ensures r.Ok? ==> r.value.eagerEffects == b.eagerEffects
    ensures r.Ok? ==> r.value.ignoring == b.ignoring && r.value.pending == b.pending
    ensures r.Ok? ==> |b.outbox| <= |r.value.outbox| <= |b.outbox| + 1 && r.value.outbox[..|b.outbox|] == b.outbox
    ensures r.Ok? ==> (|r.value.outbox| == |b.outbox| + 1 <==> key in b.stores[storeId].observed && !b.ignoring)
    ensures r.Ok? && |r.value.outbox| == |b.outbox| + 1 ==> r.value.outbox[|b.outbox|] == Change(storeId, key, value)
    ensures r.Ok? && Valid(b) ==> Valid(r.value)
  {
    if storeId !in b.stores then Err(StoreNotFound(storeId))
    else Ok(Write(b, storeId, key, value))
  }

  /** The microtask queued by `updateStore` runs: the flag is cleared. */
  function FlushRelease<V>(b: Bridge<V>): (r: Bridge<V>)
    ensures b.pending == 0 ==> r == b
    ensures b.pending > 0 ==> !r.ignoring && r.pending == b.pending - 1
    ensures r.eagerEffects == b.eagerEffects && r.stores == b.stores && r.outbox == b.outbox
    ensures Valid(b) ==> Valid(r)
  {
    if b.pending == 0 then b
    else b.(ignoring := false, pending := b.pending - 1)
  }
}
