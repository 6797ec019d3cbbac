# StorageService, modelled in Dafny

`StorageService` (storage.service.ts) is an in-memory key/value store with a
broadcast bus for change events. Components share state by key: `set` writes
an entry and announces it, `get`/`checkData` read, `delete`/`clearData` remove
entries silently, `broadcastValue` re-announces a key, and `listen`/`listenMany`
return streams of the values announced for one key or for a list of keys.

Under the Angular and rxjs wrappers this is a small sequential state machine,
and that is what the model is:

- `outcomes.dfy` (`Outcomes`): `Option` for the optional `value?` argument and
  `Result` for an operation that returns or throws.
- `js_values.dfy` (`JsValues`): the JavaScript values the store holds, with
  `Truthy` (ToBoolean, section 7.1.2 of ECMA-262) and the `||` operator. The
  store never inspects a value except through `||`, so this is all it can see.
- `storage.dfy` (`StorageService`): the state `Store(data, log)` — the
  `dataMap` and every `{key, value}` event ever pushed onto `eventQueue`, in
  order — and each operation as a pure function on it. `get` and
  `broadcastValue` return `Failure` where the source throws, and they throw
  before changing anything.
- `subscriptions.dfy` (`Subscriptions`): a subscription is its key filter plus
  the log length when it was taken; what it receives is the `filter`-then-`map`
  projection of the log after that point. The store a subscription starts
  from is the store when the stream `listen`/`listenMany` returned is
  subscribed, not when it was created; each `.subscribe()` is a fresh one. `Dispatch` pushes events through the
  pipeline one at a time and is proved to deliver exactly that projection.
- `sessions.dfy` (`Sessions`): one `Step` per public call and `Run` for a
  sequence of calls. It covers last-write-wins, the append-only log and the
  fact that a subscription only ever receives more.

The truthiness behaviour of `broadcastValue` is modelled exactly as written.
The condition `checkData(key) || value` and the private `broadcast`'s
`value || this.get(key)` both treat a falsy explicit value (`0`, `''`, `false`,
`null`, `NaN`, `0n`) as "no value". With the key present, the stored value is
announced instead. With the key absent, the call throws.
`BroadcastFalsyArgument` states this for all inputs and `BroadcastZeroAnnouncesStored`
shows one instance. `set` is not affected. It calls `broadcast` without a value,
and the fallback `get` finds the entry just written, so even a falsy value is
announced as itself.

## Model

| member | source | states |
|---|---|---|
| JsValues.FalsyValues | storage.service.ts:56 | a value is falsy for the `||` tests exactly when it is one of undefined, null, false, 0, NaN, 0n or the empty string |
| JsValues.OrTruthiness | storage.service.ts:56 | the `if` on the disjunction of `checkData(key)` and `value` is taken exactly when the key is present or the value is truthy |
| StorageService.CheckData | storage.service.ts:97-99 | `checkData(key)` is true exactly when the key has an entry, that is exactly when `delete(key)` would change the store |
| StorageService.Broadcast | storage.service.ts:63-66 | the private `broadcast` fails with "Value doesn't exist" exactly when the value is falsy and the key absent; otherwise it leaves the map unchanged and appends one event for the key carrying the value if truthy, else the stored value |
| StorageService.Delete | storage.service.ts:46-48 | `delete` removes the key's entry, if any, keeps every other entry and emits no event |
| StorageService.Get | storage.service.ts:35-40 | `get` succeeds if and only if `checkData` is true, then returning the stored value; otherwise it fails with "Value doesn't exist" |
| StorageService.Set | storage.service.ts:25-28 | `set` upserts the entry and appends exactly one event, carrying the key and the value just stored, even a falsy one |
| StorageService.BroadcastValue | storage.service.ts:55-66 | fails with "Cannot broadcast a non-existent value" exactly when the key is absent and the argument is omitted or falsy; otherwise returns true, leaves the map unchanged and appends one event for the key carrying the argument if truthy, else the stored value |
| StorageService.ClearData | storage.service.ts:105-109 | afterwards the keys present are those present before minus the listed ones; every remaining entry keeps its value; nothing is broadcast; it never fails |
| StorageService.SetThenGet | storage.service.ts:25-40 | after `set(k, v)`, `checkData(k)` is true, `get(k)` returns `v`, and every other key answers `get` and `checkData` as before |
| StorageService.DeleteProperties | storage.service.ts:46-48 | after `delete(k)`, `checkData(k)` is false and `get(k)` fails; other keys are unchanged; no event is emitted; deleting an absent key is a no-op; deleting is idempotent |
| StorageService.ClearDataProperties | storage.service.ts:105-109 | after `clearData(ks)`, `get` fails for every listed key, whether it was present or not, and answers as before for every unlisted key; no event is emitted |
| StorageService.BroadcastOmittedIsUndefined | storage.service.ts:55 | omitting the optional value behaves exactly like passing `undefined` |
| StorageService.BroadcastFalsyArgument | storage.service.ts:55-66 | a falsy explicit value counts as no value: with the key present the stored value is announced instead, with the key absent the call fails |
| StorageService.BroadcastZeroAnnouncesStored | storage.service.ts:55-66 | `broadcastValue('n', 0)` on a store holding `'n' -> 'seven'` succeeds and announces `'seven'` |
| StorageService.RebroadcastAfterSet | storage.service.ts:55-66 | `broadcastValue(k)` after `set(k, v)` returns true, announces `v` once more and leaves the map as it was |
| Subscriptions.Matches | storage.service.ts:73-91 | a `listen` filter accepts exactly its own key (`===`); a `listenMany` filter accepts a key exactly when some element of its array equals it (`includes`) |
| Subscriptions.Delivered | storage.service.ts:73-91 | a subscriber has received at most one value per event broadcast since it subscribed, and nothing when nothing has been broadcast since |
| Subscriptions.Project | storage.service.ts:73-91 | the `filter`/`map` pipeline delivers at most one value per event |
| Subscriptions.Listen | storage.service.ts:73-79 | a `listen(key)` subscription accepts exactly the events for `key` and has received nothing at the moment it is taken: no replay |
| Subscriptions.ListenMany | storage.service.ts:85-91 | a `listenMany(keys)` subscription accepts exactly the events whose key is listed and has received nothing at the moment it is taken |
| Subscriptions.ProjectAppend | storage.service.ts:73-91 | delivery distributes over the log: the values received from two runs of events are those received from the first run followed by those from the second |
| Subscriptions.ProjectMembership | storage.service.ts:74-77 | a value is delivered if and only if some event in the run carries it under a key the filter accepts |
| Subscriptions.ProjectSameKeys | storage.service.ts:73-91 | two filters that accept the same keys deliver the same values in the same order |
| Subscriptions.ListenManySingleton | storage.service.ts:73-91 | `listenMany([k])` receives exactly what `listen(k)` receives, from any later store |
| Subscriptions.DeliveredExactly | storage.service.ts:73-91 | a subscription receives a value if and only if an event broadcast after it was taken carries that value under an accepted key |
| Subscriptions.DeliveredAfterAppend | storage.service.ts:73-91 | appending events to the log extends every subscription's received values by what its filter lets through of the new events, in order |
| Subscriptions.DeliveredAfterSet | storage.service.ts:25-28 | after `set(k, v)` a subscription accepting `k` receives exactly one more value, `v`; every other subscription receives nothing new |
| Subscriptions.ListenManyScenario | storage.service.ts:85-91 | `listenMany([k1, k2])` taken before `set(k1, a)`, `set(k2, b)`, `set(k3, c)` with `k3` unlisted receives `a` then `b` and nothing else |
| Subscriptions.Dispatch | storage.service.ts:63-91 | pushing the events through a subscription's pipeline one at a time delivers exactly the filtered, projected values in log order |
| Sessions.Step | storage.service.ts:25-109 | only `get` on an absent key and `broadcastValue` on an absent key with a falsy or missing value fail, and a failing call changes nothing; `get` and `checkData` never change the store; the log only grows, by one event exactly for `set` and a successful `broadcastValue`, and that event carries the call's key; a call that does not write a key leaves its entry as it was |
| Sessions.Run | storage.service.ts:25-109 | the event log is append-only over any sequence of calls and grows by at most one event per call |
| Sessions.RunAppend | storage.service.ts:25-109 | running two sequences of calls one after the other equals running their concatenation |
| Sessions.RunKeepsUnwritten | storage.service.ts:25-109 | calls that never write a key (`set`, `delete` or `clearData` of it) leave its `get` answer unchanged |
| Sessions.LastSetWins | storage.service.ts:25-40 | after `set(k, v)` and any later calls that do not write `k`, `get(k)` returns `v` (last write wins) |
| Sessions.LastDeleteWins | storage.service.ts:35-48 | after `delete(k)` and any later calls that do not write `k`, `get(k)` fails and `checkData(k)` is false |
| Sessions.DeliveryOnlyGrows | storage.service.ts:73-91 | whatever calls follow, what a subscription had received stays a prefix of what it receives later |
| Sessions.SilentStepsDeliverNothing | storage.service.ts:35-109 | `get`, `delete`, `checkData`, `clearData` and any failing call deliver nothing to any subscription |

## Left out

- Angular `@Injectable({providedIn: 'root'})` wiring (storage.service.ts:9-11): framework dependency injection with no behaviour. The model's `Fresh` store stands for the one instance the constructor creates.
- rxjs machinery (`Subject`, `asObservable`, subscribing, unsubscribing, scheduling). A stream is modelled as the filtered projection of the event log after the subscription point. Releasing a subscription is not modelled: it changes only what that holder observes, never the store.
- Code run by subscribers while an event is delivered is not modelled. That code could call back into the store or throw. `set` and `broadcastValue` are modelled as completing after the push.
- The `StorageKey` enum (storage.service.ts:4) is not part of this model. Keys are plain strings, so a numeric enum member would not be modelled.
- `listenMany` keeps a reference to the caller's keys array. The model takes the array's contents at subscription time, so later mutation of that array by the caller is not modelled.
- JavaScript values are modelled only as far as `||` can tell them apart. Numbers are finite reals, so `-0` is the same as `0`, and infinities are not represented. Like every non-zero number they are truthy. Objects, arrays, functions and symbols are one identity-only case. The `document.all` special case of ToBoolean is not modelled.
- Map key identity (SameValueZero) is string equality here, because every key is a string.
