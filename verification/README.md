# Sherpa store bridge, modelled in Dafny

Sherpa keeps named Alpine stores on the page in step with a Shiny (R) server.
The server sends `sherpa-store-init` to create a store and `sherpa-store-update`
to shallow-merge new values into it. Every key present when a store is created gets
an `Alpine.effect`. The effect calls `updateR`, which sends `{key, value}` back to
the server on the input `sherpa_update_<storeId>`. To keep the server's own updates
from echoing back, `updateStore` raises one shared `isIgnoringUpdates` flag before
merging. It clears the flag in a `Promise.resolve().then` microtask.

The model is an immutable `Sherpa.Bridge` record with these fields:
- whether Alpine runs each new effect once when it is registered (`eagerEffects`, fixed at construction);
- the stores, each holding its contents and the key set its effects observe;
- the ignoring flag;
- the number of release microtasks that are scheduled but have not run;
- an outbox of every `setInputValue` call.

The transitions are pure functions:
- `Fresh` is the constructor.
- `Init` is `createStore`.
- `Update` is `updateStore`. It returns `Err(StoreNotFound)` where the source throws.
- `UpdateR` is the gate on outbound messages.
- `LocalWrite` is a write made from the page.
- `FlushRelease` is the release microtask.

`Lifecycle` delivers sequences of these events and states the properties of whole
runs.

The two source files, `inst/js/sherpa.js` and `inst/js/alpine-shiny-bridge.js`,
hold the same `Sherpa` logic. The older file lacks only hot reloading, so one model
covers both.

Modelling assumptions:
- The model takes an effect to fire synchronously on every write to its key.
  The comment at `inst/js/sherpa.js:53-55` assumes less: only that the effects
  triggered by `Object.assign` finish before the release microtask runs. Synchronous
  firing is one way to meet that, and it is this model's choice about Alpine's
  scheduler, which the model does not contain.
- Whether an effect also runs once when `Alpine.effect` registers it is not
  settled by the source either. It is the parameter `eagerEffects`. When it is
  true, `createStore` calls `updateR` once per key of `data`, in order, and these
  calls are gated by the flag like any other.
- A payload object is a sequence of `Payload.Entry` values in the order
  `Object.keys` and `Object.assign` visit them. `Object.assign` is therefore a
  left-to-right sequence of single writes. A JavaScript object never repeats a key.
  If a sequence does repeat one, the last entry wins, as repeated assignment would.
- Values are a type parameter `V`. The model never inspects them.
- Two errors are modelled, both `StoreNotFound`, and both happen before any
  state changes, so the bridge is left as it was. One is the throw of
  `updateStore` for an unknown store id (inst/js/sherpa.js:46-48). The other is
  a page write to an unknown store: that failure is the page's own (its
  `$store.<id>` is undefined), not a throw in either source file. Later messages
  are still delivered.
- `data` is always a non-null object, so neither `Object.keys` nor
  `Object.assign` throws (see "## Left out").

## Model

| member | source | states |
|---|---|---|
| Sherpa.Fresh | inst/js/sherpa.js:2-4 | A new bridge has the flag down, no stores, nothing pending and an empty outbox, and it satisfies the invariant. Whether effects run at registration is fixed here (same in alpine-shiny-bridge.js:2-4) |
| Channel.Name | inst/js/sherpa.js:67 | The input name is exactly the prefix `sherpa_update_` followed by the store id |
| Channel.NameRoundTrip | inst/js/alpine-shiny-bridge.js:63 | Stripping the prefix from a store's input name gives back that store id |
| Channel.NameInjective | inst/js/sherpa.js:67 | Two stores share an input name only if they are the same store |
| Sherpa.Change | inst/js/sherpa.js:67-69 | The message for a change carries the key and value, and its channel decodes to the store id |
| Sherpa.UpdateR | inst/js/sherpa.js:65-71 | With the flag up, nothing changes. With the flag down, exactly one message is appended, with the store's channel, the key and the value. Stores, flag and pending count are untouched (same in alpine-shiny-bridge.js:61-67) |
| Sherpa.Init | inst/js/sherpa.js:25-38 | The store's contents become exactly `data`. Its observed keys become exactly the keys of `data`. Other stores, the flag and pending releases are unchanged, and the invariant is kept. The outbox gains the first-run messages of the new effects only when effects run at registration and the flag is down; otherwise it is unchanged |
| Sherpa.Register | inst/js/sherpa.js:30-36 | Running each new effect once calls `updateR` per key of `data` in order. With the flag up it sends nothing; with it down it sends exactly those first-run messages. Nothing else changes |
| Sherpa.InitialSendsData | inst/js/sherpa.js:33-35 | For a payload with distinct keys, the first-run message for entry `i` is that entry's key and value on the store's channel |
| Sherpa.Write | inst/js/sherpa.js:30-36 | One property write changes only that key of that store. It sends one message exactly when the key is observed and the flag is down |
| Sherpa.AssignStore | inst/js/sherpa.js:51 | `Object.assign` onto a store writes the payload's entries in order. The observed set, the other stores and the flag are untouched. With the flag up, the effects it fires send nothing |
| Sherpa.Update | inst/js/sherpa.js:43-59 | It errs exactly when the store id is unknown. Otherwise the contents become the old contents overridden by `data` and the flag is up. Exactly one more release is pending, no message is sent, no other store changes, and the invariant is kept |
| Sherpa.UpdateMerges | inst/js/alpine-shiny-bridge.js:45-46 | Per key: each key of `data` takes its (last) entry's value, and every other key of the store keeps its value |
| Sherpa.LocalWrite | inst/js/alpine-shiny-bridge.js:25-32 | A page write errs exactly on an unknown store. Otherwise it sets that key. It appends one message, which is that store's change for the key and value, exactly when the key is observed and the flag is down. Otherwise it appends nothing |
| Sherpa.FlushRelease | inst/js/sherpa.js:56-58 | A release with one pending clears the flag, whatever else is pending, and consumes one release. Stores and outbox are unchanged |
| Payload.Assign | inst/js/sherpa.js:51 | Merging adds the payload's keys to the target's keys and leaves the values of keys the payload lacks unchanged |
| Payload.AssignIsOverride | inst/js/alpine-shiny-bridge.js:46 | Writing entries one by one equals overriding the target map with the whole payload |
| Payload.AssignLastWins | inst/js/sherpa.js:51 | After a merge, a key holds the value of the payload's last entry for it |
| Payload.ToMapEntries | inst/js/sherpa.js:26 | In a payload with distinct keys, the store created from it maps every key to that key's value |
| Lifecycle.Deliver | inst/js/sherpa.js:7-14 | One inbound message, page write or microtask. A thrown error leaves the bridge unchanged and happens exactly for an update or write to an unknown store. Updates and releases never send. A store-init sends only when effects run at registration and the flag is down, at most one message per key. A page write sends at most one. Known stores stay known and the invariant is kept (same in alpine-shiny-bridge.js:7-13) |
| Lifecycle.RunPreservesValid | inst/js/alpine-shiny-bridge.js:38-53 | In every reachable bridge, observed keys are keys of their store, and a raised flag has a release pending |
| Lifecycle.RunOutbox | inst/js/sherpa.js:65-70 | Over any run the outbox only grows, by at most one message per page write plus one per key of each created store |
| Lifecycle.NoEcho | inst/js/sherpa.js:50-51 | A run of server updates and releases alone sends nothing back: the flag is raised before every merge |
| Lifecycle.ObservedFixed | inst/js/alpine-shiny-bridge.js:25-32 | A store's observed keys change only on a new `sherpa-store-init` for it, so keys added later never sync |
| Lifecycle.ReleasesDrain | inst/js/alpine-shiny-bridge.js:51-53 | With object payloads, running the scheduled releases always brings the flag down, so suspension never persists. Stores and outbox are unchanged |
| Lifecycle.WritesForwarded | inst/js/alpine-shiny-bridge.js:61-66 | With the flag down, a run of page writes to observed keys sends exactly one message per write, in order |
| Lifecycle.EarlyRelease | inst/js/sherpa.js:50-58 | Two overlapping updates and one release leave the flag down with a release still pending, and a page write made then is forwarded: the flag is not counted |
| Lifecycle.InitThenWrite | inst/js/sherpa.js:30-36 | After `createStore(id, data)` with the flag down, a page write adds one message to whatever the creation sent exactly when its key was a key of `data` |

## Left out

- `onHMR` (inst/js/sherpa.js:79-86) and its `sherpa-hmr` handler: parsing HTML and replacing `document.body` is DOM I/O.
- Registration of the Shiny message handlers and the `Shiny.setInputValue` transport. A call is an appended `Sherpa.Message`, and the `{ priority: 'event' }` option is not modelled.
- The `alpine:init` listener, the jQuery `shiny:connected` bootstrap that builds the single instance, and all `console.log` calls: they are I/O with no state.
- Alpine internals (`Alpine.store`, `Alpine.effect`, dependency tracking, effect scheduling) are not part of this model. Effects are taken to fire synchronously on each write.
- Sherpa.Register: with duplicate keys in a payload it runs one effect per entry. A JavaScript object never repeats a key, so this case cannot arise from the source.
- Lifecycle.ReleasesDrain: holds only when every payload is an object. `createStore` with `data` of `null` throws at `Object.keys` (inst/js/sherpa.js:30) after the store is installed. A later `updateStore` for it passes the check at line 46, raises the flag at line 50, and then throws in `Object.assign` at line 51. Line 56 never runs, so no release is scheduled and the flag stays up for good. There is no `try`/`finally`. The model assumes every `data` is an object and that the merge does not throw, so it cannot show this path, and `Lifecycle.ReleasesDrain` holds only under that assumption.
- Sherpa.Write: treats every write as a change. It does not model whether Alpine skips the effect when the written value equals the old one.
- The JavaScript event loop: the release microtask is the explicit `Microtask` event. Any order of deliveries may be modelled.
- Values are opaque, and their serialisation to the server is not modelled.
- The source has no lenient "create the store on update" mode. Both files throw when the store is missing, so the model has only the strict behaviour.
- The outbound payload is `{key, value}`, with the store id only in the input name, as the code sends it.
- A second `createStore` for an id replaces the store and its observed keys. The old effects watch an object the store no longer holds, so they are dropped.
