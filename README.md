# blest-angular `BlestService`: a Dafny model of the request-batching engine

`BlestService` is an Angular service that collects the remote calls an
application makes in quick succession and sends them to a BLEST backend as a
few batched HTTP POSTs. Each call gets an id. `enqueue` marks that id as
loading in a shared store and appends the call to a queue. A debounce timer
is armed once per idle period. When it fires, `processQueue` drains the queue
and splits it into chunks of at most `maxBatchSize` calls. It sends one fetch
per chunk, and each fetch's completion publishes a new snapshot of the store
for that chunk's ids. Callers watch their id through a view that shows the
stored outcome, or `{data: null, error: null, loading: false}` when there is
none.

The repository holds the engine twice: the TypeScript source
`src/index.ts` and the compiled `dist/index.js`. The compiled file is a later
revision. It adds `makeBlestHeaders`, the `skip` option and `refresh`. The
engine code (`enqueue`, `processQueue`, the completion handlers, the
constructor) is the same in both, so it is modelled once. The handle layer
has one constructor per revision.

Modules:

- `JsValues` (`js.dfy`): JavaScript values as a datatype, truthiness and `v || null`.
- `Config` (`config.dfy`): the constructor's fallbacks, and `makeBlestHeaders`.
- `Batching` (`batching.dfy`): queue items, the chunking policy and its properties.
- `Store` (`store.dfy`): outcomes, snapshots, the success and failure demultiplexers, the per-id view and `distinctUntilChanged`.
- `Service` (`service.dfy`): the class `BlestService`, with its fields `queue`, `state`, `timeout` and the in-flight chunks.
- `Handles` (`handles.dfy`): the objects `request` and `lazyRequest` return, with the re-pointing of their id.

Modelling choices:

- The timer is two booleans. `timeout` stands for `this.timeout !== null`. `timerScheduled` says the host still holds the callback. `Fire` is the callback, i.e. `processQueue`.
- The ghost counter `armings` counts `setTimeout` calls.
- A fetch in flight is an entry of `inflight`, the chunk that fetch carries.
- `Resolve(k, results)` is the `.then` handler of chunk `k`. `Reject(k, err)` is its `.catch` handler.
- The subject `state$` is the ghost sequence `published` of every snapshot it carried. Each publish appends exactly one snapshot.
- `uuid()` is a caller-supplied id that is not yet a key of the store.

## Model

| member | source | states |
|---|---|---|
| `Config.RoundFixesExactlyIntegers` | src/index.ts:44 | `Math.round(x) === x` holds exactly when x is a whole number |
| `Config.ConfigNumber` | src/index.ts:44-45 | the stored `maxBatchSize`/`bufferDelay` is always a positive whole number; it is the configured value exactly when that value is a positive integer, and otherwise the default (25 or 10) |
| `Config.ConfigNumberMatchesSource` | dist/index.js:24-25 | for every configured value except positive infinity, the value the service stores equals the constructor's expression as written |
| `Config.ConfigHeaders` | src/index.ts:46 | `httpHeaders` is always an object: the configured one when it is an object or array, else `{}` |
| `Config.MakeBlestHeaders` | dist/index.js:14-22 | the result is an object with no key but `_s`; `_s` is present exactly when options are given and `select` is an array, and then it is that `select` |
| `Batching.CeilDiv` | src/index.ts:78 | `Math.ceil(L / n)` for whole numbers: the count r with L <= r*n < L+n |
| `Batching.CeilReal` | dist/index.js:52 | `Math.ceil(x)`: the integer r with r-1 < x <= r |
| `Batching.BatchCountAgrees` | dist/index.js:52 | for a positive whole batch size, `Math.ceil(L / n)` on numbers equals the integer ceiling the model uses |
| `Batching.ChunksCount` | src/index.ts:78-80 | a drained queue of length L gives exactly ceil(L / maxBatchSize) chunks |
| `Batching.ChunksBounded` | src/index.ts:81 | every chunk is non-empty and holds at most `maxBatchSize` items |
| `Batching.ChunksFlatten` | src/index.ts:75-82 | the chunks concatenate back to the drained queue, in order |
| `Batching.ChunkAt` | src/index.ts:80-81 | chunk i is exactly `copyQueue.slice(i * n, (i + 1) * n)`, and it starts inside the queue |
| `Batching.ChunksDisjoint` | dist/index.js:53-55 | when the queue's ids are distinct, the chunks' id sets are pairwise disjoint and drawn from the queue |
| `Store.LastFor` | src/index.ts:109-116 | for an id the response names, the position of the last item naming it: no later item has that id |
| `Store.ApplyResultsAt` | src/index.ts:106-119 | the success snapshot settles exactly the ids the response names, each with the data and error of the last item naming it (`loading: false`); every other key keeps its outcome, so a chunk id the response omits stays loading |
| `Store.ApplyResultsFrame` | dist/index.js:73-86 | after a success the keys are the old keys plus the response's ids, and every key the response does not name is unchanged |
| `Store.MarkFailedAt` | src/index.ts:120-132 | the failure snapshot sets every id of the chunk to `{loading: false, error, data: null}` and keeps every other key's outcome |
| `Store.MarkFailedFrame` | dist/index.js:87-99 | after a failure the keys are the old keys plus the chunk's ids, all of those carry the one error, and all other keys are unchanged |
| `Store.View` | src/index.ts:139-141 | a view shows the stored outcome of its id, or `{data: null, error: null, loading: false}` when the id has no entry |
| `Store.DistinctSpec` | src/index.ts:142 | `distinctUntilChanged` emits no value twice in a row, only values from its input, the first input value first and the latest input value last |
| `Store.DistinctIsChanges` | src/index.ts:142 | `distinctUntilChanged` emits exactly the first value and every value that differs from the one before it, in input order: no change is swallowed and no repeat is emitted |
| `Store.KeepChangedSnoc` | dist/index.js:113 | one more input value is emitted exactly when it differs from the value before it |
| `Store.ChangesSnoc` | src/index.ts:142 | for a non-empty input, one more value is emitted by the forward filter exactly when it differs from the input's last value |
| `Store.DistinctLast` | dist/index.js:113 | the last emission is the latest input value |
| `Store.DistinctOfConstant` | dist/index.js:113 | an unchanging view is emitted once |
| `Store.ViewStreamOfAbsentId` | dist/index.js:103-113 | the view of an id that no snapshot holds (a skipped request) emits the default outcome once and never changes |
| `Service.IdSeq` | src/index.ts:82 | `requestIds` holds the chunk's ids position by position |
| `Service.IdSeqHoldsIdsOf` | dist/index.js:55 | an id is in `requestIds` exactly when some item of the chunk has it |
| `Service.TrackedChunksDisjoint` | src/index.ts:121-129 | under the engine's bookkeeping, two different in-flight chunks share no id |
| `Service.TrackedAfterEnqueue` | src/index.ts:49-59 | enqueueing a fresh id keeps the bookkeeping (distinct queued ids, every pending id in the store, no id shared between queue and chunks), and keeps every pending id loading |
| `Service.TrackedAfterDrain` | src/index.ts:75-82 | draining the queue into chunks keeps the bookkeeping and keeps every pending id loading |
| `Service.TrackedAfterSettle` | src/index.ts:106-132 | retiring a settled chunk keeps the bookkeeping whenever the new snapshot keeps all old keys |
| `Service.AwaitingAfterSettle` | dist/index.js:87-99 | settling one chunk without touching other keys leaves every other queued or in-flight id loading |
| `Service.BlestService.constructor` | src/index.ts:42-47 | the service starts with an empty queue, an empty store, no timer, nothing in flight, and the normalised configuration |
| `Service.BlestService.Enqueue` | src/index.ts:49-64 | (through `Service.EnqueueEffect`) one publish, whose snapshot is the old one with `id` set to `{loading: true, error: null, data: null}`; one tuple of id, route, body-or-null and headers-or-null appended to the queue; the timer armed only when it was unarmed (no re-arm); bookkeeping and pending-loading preserved |
| `Service.BlestService.Fire` | src/index.ts:66-83 | the timer ends up cleared; the queue is drained into `Chunks(queue, maxBatchSize)`, appended in flight in order; the store and the published snapshots are untouched; on an empty queue nothing but the timer changes |
| `Service.BlestService.Resolve` | src/index.ts:106-119 | one publish of `ApplyResults(state, results)`; the chunk leaves the in-flight list; keys the response does not name keep their outcome; with a response naming only the chunk's ids, every other pending id stays loading |
| `Service.BlestService.Reject` | src/index.ts:120-132 | one publish in which every id of the chunk is `{loading: false, error, data: null}`; every other key, and in particular every id of every other in-flight chunk, keeps its outcome |
| `Service.BlestService.Destroy` | src/index.ts:159-163 | the host timer is cancelled; `timeout`, the queue and the store are left as they were |
| `Service.FlushCoversQueue` | dist/index.js:50-55 | with the service's batch size a non-empty flush dispatches at least one chunk, ceil(L / n) in all, covering the queue exactly |
| `Service.InfiniteBatchSizeDispatchesNothing` | src/index.ts:44 | as written, `maxBatchSize: Infinity` is kept, and `Math.ceil(L / Infinity)` (src/index.ts:78) is 0 for every non-empty queue |
| `Handles.Request.constructor` | src/index.ts:136-144 | `request(route, body, headers)` enqueues a fresh id with those arguments and its view starts loading |
| `Handles.Request.WithOptions` | dist/index.js:102-107 | with `options.skip` nothing in the service changes and the view shows the default outcome; otherwise the fresh id is enqueued with `makeBlestHeaders(options)` and the view shows loading |
| `Handles.Request.Refresh` | dist/index.js:108-113 | `refresh` enqueues a new fresh id with the same route, body and headers, re-points the view to it (loading), and leaves the old id's entry untouched |
| `Handles.LazyRequest.constructor` | src/index.ts:146-157 | before any `execute` the id is `''` and the view shows the default outcome |
| `Handles.LazyRequest.WithOptions` | dist/index.js:115-117 | as above, with the headers computed once from the options at creation |
| `Handles.LazyRequest.Execute` | dist/index.js:118-121 | each `execute(body)` enqueues a new fresh id with the creation-time headers and re-points the view to it |

## Left out

- The `fetch` call is not modelled, and neither are CORS, the POST method, the merging of `httpHeaders` with the JSON content headers, `JSON.stringify` and `result.json()`. A dispatched chunk is an entry of `inflight`. Its completion is `Resolve` with the parsed items, or `Reject` with the thrown value. `url` and `httpHeaders` are only stored.
- A success handler that throws is routed by the source's `.catch` to the failure path. A `null` body throws, and so does a `null` or missing entry below `length`. The partial snapshot it built is local and is dropped. In the model the caller then chooses `Reject`.
- A number, a boolean, or an object whose `length` is not greater than 0 gives zero iterations, and an unchanged copy is published. That is `Resolve(k, [])`. An object whose `length` compares greater than 0 is walked by index like an array: `Resolve` with the walked items, or `Reject` when an entry is missing. A string body is walked character by character: each character becomes a key with `loading: false` and undefined data and error. That is `Resolve` with one item per character, whose data and error are `Undefined`.
- A response item's id is a string. JavaScript's coercion of a non-string `item[0]` to a property key is not modelled.
- Real time is not modelled: `window.setTimeout` and `clearTimeout` become the `timeout`/`timerScheduled` flags and an explicit `Fire`. `bufferDelay` is only stored.
- RxJS is not modelled. Subscriptions, `pipe` and late subscribers become the ghost list `published`, the pure `View`, and `ViewStream` over a run of snapshots. lodash `isEqual` is value equality of `Outcome`.
- The compiled revision also puts the `refresh` function into every outcome that `request`'s view emits (the `lazyRequest` view emits plain copies). That field is omitted. `isEqual` compares it by reference, and it is always the same closure, so suppression is unaffected.
- `uuid()` is not modelled: every new id is passed in with the precondition that it is not yet a key of the store.
- The lazy handle's initial id `''` is assumed absent from the store. Its default view is stated under that condition.
- Numbers are reals plus the infinities and NaN. Rounding of floating-point division is not modelled. `Batching.BatchCountAgrees` shows that the exact quotient gives the model's ceiling.
- `options` is either absent or an object with `select` and `skip` properties. A truthy non-object value behaves like an object without them.
- `Handles.Request.Refresh` exists only in the compiled revision. The TypeScript `request` has no refresh.
- `Handles.Request.Refresh`: the captured `options` and `body` are treated as immutable values. The code recomputes `makeBlestHeaders(options)` from the live `options` object at every call and re-sends the same `body` reference. A caller who mutates `options.select` or `body` after `request` therefore changes what `refresh` enqueues. The model fixes the headers at construction instead.
- `Service.BlestService.Resolve`: the guarantee that every other pending id stays loading is stated only for responses that name ids of their own chunk. A response naming another chunk's id overwrites that id too, as the code does.
- `dist/index.d.ts` (types only), the Angular decorators and `InjectionToken`, and the example components under `example/` are not part of this model.

Behaviour the model keeps exactly as the code has it, although a reader might expect otherwise:

- The timer is armed only while `this.timeout` is null. `ngOnDestroy` clears the host timer but leaves `this.timeout` set. So a service destroyed while a timer was armed never arms one again. One destroyed with no timer pending arms on its next enqueue as before.
- Ids a response leaves out stay `loading: true` for good.
- The fourth tuple field is the caller's `headers` in the TypeScript revision and `makeBlestHeaders(options)` in the compiled one.

## Findings

| source | as written | input that shows it | evidently intended | confidence | as-written member | corrected member |
|---|---|---|---|---|---|---|
| src/index.ts:44 (also dist/index.js:24, with src/index.ts:78) | the "positive integer" test for `maxBatchSize` is `x > 0 && Math.round(x) === x`, which `Infinity` passes; `processQueue` then loops `Math.ceil(L / Infinity) = 0` times after emptying the queue | `maxBatchSize: Infinity` and any enqueue | `Infinity` is not a positive integer and falls back to 25, so every flushed call is dispatched | medium, not executed | `Service.InfiniteBatchSizeDispatchesNothing` | `Config.ConfigNumber` (with `Service.FlushCoversQueue`) |
