/**
  The bridge over time: the inbound `sherpa-store-init` and `sherpa-store-update`
  messages, writes made from the page, and the release microtasks, delivered
  one at a time. A `StoreNotFound` error, from `updateStore` or from a page
  write to a missing store, leaves the bridge as it was and does not stop later
  deliveries.
 */
module Lifecycle {
  import opened Results
  import opened Payload
  import opened Sherpa

  datatype Event<V> =
    | StoreInit(storeId: StoreId, data: Object<V>)
    | StoreUpdate(storeId: StoreId, data: Object<V>)
    | PageWrite(storeId: StoreId, key: Key, value: V)
    | Microtask

  /** The bridge after one event, and the error its handler threw, if any. */
  datatype Outcome<V> = Outcome(bridge: Bridge<V>, thrown: Option<Error>)

  function Deliver<V>(b: Bridge<V>, e: Event<V>): (o: Outcome<V>)
    ensures o.thrown.Some? ==> o.bridge == b
    ensures o.thrown.Some? <==> (e.StoreUpdate? || e.PageWrite?) && e.storeId !in b.stores
    ensures |b.outbox| <= |o.bridge.outbox| && o.bridge.outbox[..|b.outbox|] == b.outbox
    ensures e.StoreUpdate? || e.Microtask? ==> o.bridge.outbox == b.outbox
    ensures e.StoreInit? && !(b.eagerEffects && !b.ignoring) ==> o.bridge.outbox == b.outbox
    ensures |o.bridge.outbox| <= |b.outbox| + Sends(e)
    ensures o.bridge.eagerEffects == b.eagerEffects
    ensures b.stores.Keys <= o.bridge.stores.Keys
    ensures Valid(b) ==> Valid(o.bridge)
  {
    match e
    case StoreInit(id, data) =>
      InitSends(b, id, data);
      Outcome(Init(b, id, data), None)
    case StoreUpdate(id, data) =>
      (match Update(b, id, data)
       case Ok(r) => Outcome(r, None)
       case Err(err) => Outcome(b, Some(err)))
    case PageWrite(id, key, value) =>
      (match LocalWrite(b, id, key, value)
       case Ok(r) => Outcome(r, None)
       case Err(err) => Outcome(b, Some(err)))
    case Microtask => Outcome(FlushRelease(b), None)
  }

  /** Creating a store appends at most one message per key of `data`. */
  lemma InitSends<V>(b: Bridge<V>, storeId: StoreId, data: Object<V>)
    ensures var r := Init(b, storeId, data);
      |b.outbox| <= |r.outbox| <= |b.outbox| + |data| && r.outbox[..|b.outbox|] == b.outbox
  {
  }

  /** Deliver every event in order. */
  function Run<V>(b: Bridge<V>, es: seq<Event<V>>): Bridge<V>
    decreases |es|
  {
    if es == [] then b else Run(Deliver(b, es[0]).bridge, es[1..])
  }

  /** The most messages one event can send: one per page write, one per key of a new store. */
  function Sends<V>(e: Event<V>): nat {
    match e
    case StoreInit(_, data) => |data|
    case PageWrite(_, _, _) => 1
    case _ => 0
  }

  /** The most messages a run of `es` can send. */
  function SendBound<V>(es: seq<Event<V>>): nat
    decreases |es|
  {
    if es == [] then 0 else Sends(es[0]) + SendBound(es[1..])
  }

  /** `n` release microtasks. */
  function Releases<V>(n: nat): (es: seq<Event<V>>)
    ensures |es| == n
    ensures forall i :: 0 <= i < n ==> es[i] == Microtask
  {
    if n == 0 then [] else [Microtask] + Releases(n - 1)
  }

  /** The messages the observers send for a run of page writes. */
  function Changes<V>(es: seq<Event<V>>): seq<Message<V>>
    requires forall i :: 0 <= i < |es| ==> es[i].PageWrite?
    decreases |es|
  {
    if es == [] then [] else [Change(es[0].storeId, es[0].key, es[0].value)] + Changes(es[1..])
  }

  /** Every reachable bridge is `Valid`. */
  lemma {:induction false} RunPreservesValid<V>(b: Bridge<V>, es: seq<Event<V>>)
    requires Valid(b)
    ensures Valid(Run(b, es))
    decreases |es|
  {
    if es != [] {
      RunPreservesValid(Deliver(b, es[0]).bridge, es[1..]);
    }
  }

  /**
    Messages are only ever appended: at most one per page write and one per key
    of a created store; server updates and releases never send anything.
   */
  lemma {:induction false} RunOutbox<V>(b: Bridge<V>, es: seq<Event<V>>)
    ensures |b.outbox| <= |Run(b, es).outbox| <= |b.outbox| + SendBound(es)
    ensures Run(b, es).outbox[..|b.outbox|] == b.outbox
    decreases |es|
  {
    if es != [] {
      var o := Deliver(b, es[0]);
      RunOutbox(o.bridge, es[1..]);
      var r := Run(b, es);
      assert r.outbox[..|b.outbox|] == r.outbox[..|o.bridge.outbox|][..|b.outbox|];
    }
  }

  /**
    No echo: a run made only of server updates and releases sends nothing back,
    because each update raises the flag before it merges.
   */
  lemma {:induction false} NoEcho<V>(b: Bridge<V>, es: seq<Event<V>>)
    requires forall i :: 0 <= i < |es| ==> es[i].StoreUpdate? || es[i].Microtask?
    ensures Run(b, es).outbox == b.outbox
    decreases |es|
  {
    if es != [] {
      var b1 := Deliver(b, es[0]).bridge;
      assert b1.outbox == b.outbox;
      NoEcho(b1, es[1..]);
    }
  }

  /** Only a new `sherpa-store-init` for a store changes the keys it observes. */
  lemma {:induction false} ObservedFixed<V>(b: Bridge<V>, es: seq<Event<V>>, storeId: StoreId)
    requires storeId in b.stores
    requires forall i :: 0 <= i < |es| ==> !(es[i].StoreInit? && es[i].storeId == storeId)
    ensures storeId in Run(b, es).stores
    ensures Run(b, es).stores[storeId].observed == b.stores[storeId].observed
    decreases |es|
  {
    if es != [] {
      var b1 := Deliver(b, es[0]).bridge;
      assert storeId in b1.stores && b1.stores[storeId].observed == b.stores[storeId].observed by {
        if es[0].StoreInit? || (es[0].StoreUpdate? && es[0].storeId != storeId)
           || (es[0].PageWrite? && es[0].storeId != storeId) {
          assert storeId in b1.stores - {es[0].storeId};
          assert b1.stores[storeId] == (b1.stores - {es[0].storeId})[storeId];
        }
      }
      ObservedFixed(b1, es[1..], storeId);
    }
  }

  /**
    Suspension never persists: running the releases that are scheduled brings
    the flag down and leaves stores and outbox as they were.
   */
  lemma {:induction false} ReleasesDrain<V>(b: Bridge<V>)
    requires Valid(b)
    ensures var r := Run(b, Releases<V>(b.pending));
      !r.ignoring && r.pending == 0 && r.stores == b.stores && r.outbox == b.outbox
    decreases b.pending
  {
    if b.pending > 0 {
      var es: seq<Event<V>> := Releases(b.pending);
      assert es[0] == Microtask && es[1..] == Releases<V>(b.pending - 1);
      ReleasesDrain(FlushRelease(b));
    }
  }

  /**
    With the flag down, page writes to observed keys are forwarded one message
    each, in order, to their stores' channels.
   */
  lemma {:induction false} WritesForwarded<V>(b: Bridge<V>, es: seq<Event<V>>)
    requires !b.ignoring
    requires forall i :: 0 <= i < |es| ==>
      es[i].PageWrite? && es[i].storeId in b.stores && es[i].key in b.stores[es[i].storeId].observed
    ensures Run(b, es).outbox == b.outbox + Changes(es)
    decreases |es|
  {
    if es != [] {
      var b1 := Deliver(b, es[0]).bridge;
      assert b1.outbox == b.outbox + [Change(es[0].storeId, es[0].key, es[0].value)];
      assert b1.stores.Keys == b.stores.Keys;
      forall i | 0 <= i < |es[1..]|
        ensures es[1..][i].storeId in b1.stores
          && es[1..][i].key in b1.stores[es[1..][i].storeId].observed
      {
        var id := es[1..][i].storeId;
        if id != es[0].storeId {
          assert id in b1.stores - {es[0].storeId};
          assert b1.stores[id] == (b1.stores - {es[0].storeId})[id] == b.stores[id];
        }
      }
      WritesForwarded(b1, es[1..]);
    }
  }

  /**
    The flag is one shared boolean: after two overlapping updates, the first
    release brings it down although the second update's release is still
    pending, and a page write made then is forwarded.
   */
  lemma EarlyRelease<V>(b: Bridge<V>, storeId: StoreId, d1: Object<V>, d2: Object<V>, key: Key, value: V)
    requires storeId in b.stores && key in b.stores[storeId].observed
    ensures var r := Run(b, [StoreUpdate(storeId, d1), StoreUpdate(storeId, d2), Microtask]);
      && !r.ignoring && r.pending == b.pending + 1 && r.outbox == b.outbox
      && Run(r, [PageWrite(storeId, key, value)]).outbox == b.outbox + [Change(storeId, key, value)]
  {
    var b3 := OverlappingUpdates(b, storeId, d1, d2);
    assert Run(b3, [PageWrite(storeId, key, value)]).outbox == b.outbox + [Change(storeId, key, value)] by {
      RunStep(b3, PageWrite(storeId, key, value), []);
    }
  }

  /** The three-event prefix of `EarlyRelease`, step by step. */
  lemma OverlappingUpdates<V>(b: Bridge<V>, storeId: StoreId, d1: Object<V>, d2: Object<V>) returns (b3: Bridge<V>)
    requires storeId in b.stores
    ensures b3 == Run(b, [StoreUpdate(storeId, d1), StoreUpdate(storeId, d2), Microtask])
    ensures !b3.ignoring && b3.pending == b.pending + 1 && b3.outbox == b.outbox
    ensures storeId in b3.stores && b3.stores[storeId].observed == b.stores[storeId].observed
  {
    var b1 := Update(b, storeId, d1).value;
    var b2 := Update(b1, storeId, d2).value;
    b3 := FlushRelease(b2);
    RunStep(b2, Microtask, []);
    RunStep(b1, StoreUpdate(storeId, d2), [Microtask]);
    RunStep(b, StoreUpdate(storeId, d1), [StoreUpdate(storeId, d2), Microtask]);
  }

  lemma RunStep<V>(b: Bridge<V>, e: Event<V>, es: seq<Event<V>>)
    ensures Run(b, [e] + es) == Run(Deliver(b, e).bridge, es)
  {
    assert ([e] + es)[1..] == es;
  }

  /**
    A store created from `data` forwards a page write with the flag down exactly
    when the written key was in `data`, whatever its creation itself sent.
   */
  lemma InitThenWrite<V>(b: Bridge<V>, storeId: StoreId, data: Object<V>, key: Key, value: V)
    requires !b.ignoring
    ensures var r := Run(b, [StoreInit(storeId, data), PageWrite(storeId, key, value)]);
      r.outbox == Init(b, storeId, data).outbox
        + (if key in Keys(data) then [Change(storeId, key, value)] else [])
  {
    var b1 := Init(b, storeId, data);
    RunStep(b, StoreInit(storeId, data), [PageWrite(storeId, key, value)]);
    RunStep(b1, PageWrite(storeId, key, value), []);
  }
}
