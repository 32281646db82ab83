# Group registry: lazy get-or-create with event fan-out

This project models the `Group` of package `common` (`group/group.go`) as
pure state transitions, and proves properties of that model in Dafny. A
`Group` holds two independent maps, key to Breaker and key to Cache. Each
map is filled lazily by a configured factory (the "template") the first
time a key is asked for. Every insertion is announced as a `GroupEvent` to
all subscribers. Each subscriber owns a buffered channel of 100 events fed
by a forwarder that drops the oldest event when the buffer is full.

Modules:

- `Wrappers`: `Option` (a factory's nil result, an empty channel) and
  `Result` (Go's `(value, error)` pair).
- `EventQueue`: the subscriber's output channel. `Capacity` is 100.
  `Receive` is a channel receive, `Forward` is one forwarder iteration
  (send, or drop the oldest and send), `ForwardAll` is the forwarder loop.
  `Window` is an independent reference: the newest 100 events of a history.
- `Registry`: get-or-create on one map, generic in the instance type. It
  has the fast path, the slow path with its double check, and callers
  racing for the exclusive lock.
- `Common`: the `Group` itself, with `NewGroup`, `WithBreaker`,
  `WithCache`, `GetOrNewBreaker`, `GetOrNewCache`, `sendEvent` (as
  `SendEvent`) and `Subscribe`.
- `Trace`: runs of operations and the properties that hold across many
  calls.
- `Locking`: the write lock across calls, for the error path that never
  unlocks.

Breaker and Cache instances are type parameters `B` and `C`. Their
equality is instance identity. A factory is a function
`string -> Option<T>`. A template that was never set is `None`. A
subscriber's channel handle is its index in `eventReceivers`.

Modelling choices that differ from a literal reading:

- The code's intake channel in `Subscribe` is unbuffered
  (`make(chan GroupEvent)`, group/group.go:125). So `sendEvent` waits for
  each forwarder to take the event. It is not an unbounded intake. With
  sequential execution both give the same queue contents, and the model
  delivers each event straight through the forwarder.
- Calling a nil template (a key missing with no factory configured) is a
  Go runtime panic. The model returns the distinct error `NilTemplatePanic`
  with the map unchanged.
- The slow path returns the instance this call built (group/group.go:93).
  It does not return the entry that is stored. `Registry.GetOrNew` follows
  the code. Without interleaving the slow path is only reached on an absent
  key, and there the two agree (`Registry.SlowPathsAgreeOnAbsentKey`). So
  every sequential property below holds for the corrected version as well.
  The race where they differ is under "## Findings".

## Model

| member | source | states |
|---|---|---|
| `EventQueue.Receive` | group/group.go:133 | a receive yields the oldest buffered event and the rest; None exactly when the buffer is empty |
| `EventQueue.Forward` | group/group.go:130-135 | one forwarder step keeps the queue within 100; the new event is last; the queue grows by one when there was room; otherwise exactly the head is dropped and the survivors keep their order |
| `EventQueue.ForwardAll` | group/group.go:129-136 | the forwarder loop never lets the output buffer exceed 100 entries |
| `EventQueue.ForwardIsWindow` | group/group.go:130-135 | one forwarder step leaves exactly the newest 100 of the old queue plus the new event |
| `EventQueue.ForwardAllIsWindow` | group/group.go:126-136 | with no reads, the buffer is exactly the newest 100 events of everything forwarded, in order |
| `EventQueue.OverflowDropsOldest` | group/group.go:126-136 | after more than 100 events with no reads, the first read yields the event 100 places from the end; all older ones were dropped |
| `EventQueue.HundredAndOneEvents` | group/group.go:126-136 | after 101 events with no reads, the first read yields the 2nd event and leaves events 3 to 101 |
| `Registry.Insert` | group/group.go:86-91 | the double check keeps every existing entry; it adds the key only if absent, bound to the built instance; it reports an insertion exactly when the key was absent |
| `Registry.SlowPath` | group/group.go:81-93 | as written: a nil build yields ErrCreateUnavailable with the map unchanged; a build is returned even when a stored entry was kept; an insertion, which is what triggers an event, happens exactly on a non-nil build for an absent key |
| `Registry.SlowPathCorrected` | group/group.go:81-93 | corrected slow path: a successful result is always the stored entry; if the key was already present, that earlier entry is returned |
| `Registry.SlowPathsAgreeOnAbsentKey` | group/group.go:86-93 | on an absent key the as-written and corrected slow paths give the same result |
| `Registry.GetOrNew` | group/group.go:74-94 | existing entries are never changed; only the requested key can be added; a successful result is the stored entry for the key; an error leaves the map unchanged; the factory runs exactly on a miss with a configured template; an insertion happens exactly when the key is new, and its value is the returned instance |
| `Registry.FastPath` | group/group.go:74-80 | a stored key returns its instance with no error, no factory call, no change and no event |
| `Registry.FactoryFailure` | group/group.go:82-85 | a nil build on an absent key fails with ErrCreateUnavailable, leaves the map unchanged and emits nothing; a retry calls the factory again (lock-free model; see `Locking`) |
| `Registry.CreateOnAbsentKey` | group/group.go:86-91 | a successful build on an absent key adds exactly that key with the new instance, leaves every other key alone, returns that instance and announces it |
| `Registry.Idempotent` | group/group.go:74-94 | two sequential calls return the same instance; the second changes nothing and does not call the factory; the factory runs exactly once when the key was absent |
| `Registry.Race` | group/group.go:81-93 | callers that queue on the exclusive lock, each with its own build, get one result each; the map never loses or overwrites an entry and only gains the key |
| `Registry.RaceResults` | group/group.go:81-93 | each racing caller errs exactly when its own build is nil; as written, a caller with a build gets its own build back (line 93) |
| `Registry.FirstWriterWins` | group/group.go:86-87 | on an absent key, the first non-nil build in lock order is the entry stored after the race, in either version |
| `Registry.RaceCorrectedSameInstance` | group/group.go:86-93 | with the corrected slow path, every racing caller that succeeds holds the single stored instance |
| `Registry.RaceAsWrittenSplits` | group/group.go:86-93 | as written, two racing callers with instances 1 and 2 leave 1 stored while the second caller holds 2 |
| `Common.NewGroup` | group/group.go:57-62 | a new group has empty maps, no templates and no subscribers, and its queue invariant holds |
| `Common.WithBreaker` | group/group.go:64-67 | installs the breaker factory; the maps, the cache factory and the subscriber queues are unchanged |
| `Common.WithCache` | group/group.go:69-72 | installs the cache factory; the maps, the breaker factory and the subscriber queues are unchanged |
| `Common.SendEvent` | group/group.go:118-122 | every subscriber registered now gets the event exactly once through its forwarder; the number of subscribers stays the same |
| `Common.GetOrNewBreaker` | group/group.go:74-94 | a stored key returns its instance with no factory call and no change; an error leaves the group unchanged and sends no event; the cache map and both templates are left alone; breaker entries are never overwritten; a success is the stored instance; the factory runs exactly on a miss with a template; a BreakerAdded event carrying the stored instance goes to every current subscriber exactly when a key was inserted; otherwise the queues are unchanged |
| `Common.GetOrNewCache` | group/group.go:96-116 | a stored key returns its instance with no factory call and no change; an error leaves the group unchanged and sends no event; otherwise the same as GetOrNewBreaker for the cache map, with CacheAdded events; the breaker map is left alone |
| `Common.Subscribe` | group/group.go:124-140 | adds one empty queue after all existing ones and returns its index; nothing else changes |
| `Common.WithBreakerIsUsed` | group/group.go:64-94 | after WithBreaker(f), the first call for a key runs f and returns its instance, or ErrCreateUnavailable when f returns nil |
| `Common.WithCacheIsUsed` | group/group.go:96-116 | after WithCache(f), the first call for a key runs f and returns its instance, or ErrCreateUnavailable when f returns nil |
| `Common.NamespaceIndependence` | group/group.go:74-116 | a breaker call for a key does not change the result, the factory use or the cache map of a cache call for the same key string |
| `Common.BreakerIgnoresCaches` | group/group.go:74-94 | the breaker call never reads the cache side: swapping the cache map and factory changes neither its answer, its factory use, its breaker map nor its event |
| `Common.CacheIgnoresBreakers` | group/group.go:96-116 | the cache call never reads the breaker side: swapping the breaker map and factory changes neither its answer, its factory use, its cache map nor its event |
| `Common.SubscriberSeesLaterEvent` | group/group.go:118-140 | a breaker inserted right after Subscribe leaves the new queue holding exactly its one event; earlier queues each receive it once |
| `Trace.RunNeverOverwrites` | group/group.go:86-113 | over any run of operations, no breaker or cache entry is ever removed or replaced |
| `Trace.ApplyQueues` | group/group.go:118-138 | one operation keeps every existing subscriber; each one's queue becomes the window of its old contents plus the events emitted |
| `Trace.QueuesAreWindows` | group/group.go:118-138 | after any run, an existing subscriber's queue is the newest 100 of its old contents followed by all events emitted, in emission order |
| `Trace.LateSubscriber` | group/group.go:124-140 | a subscriber added after any run of operations, whose handle is the subscriber count at that point, holds only the newest 100 of the events emitted after it subscribed |
| `Trace.ApplyCountsInsertion` | group/group.go:86-113 | one operation emits an event exactly when a map gained a key, and emits nothing otherwise |
| `Trace.EventsCountInsertions` | group/group.go:86-113 | over any run, the number of events emitted equals the number of keys the two maps gained |
| `Trace.AnswersAreStored` | group/group.go:74-116 | over any run, every successful answer for a key is the instance the group finally stores for that key; each answer has the kind of its call |
| `Locking.GetOrNewAsWritten` | group/group.go:74-94 | as written: a call blocks exactly when the write lock is held; when it returns, the write lock is still held exactly if it returned an error; map and result are those of the lock-free model |
| `Locking.GetOrNewCorrected` | group/group.go:74-94 | corrected: a call from a free lock returns with the lock free, with the map and result of the lock-free model |
| `Locking.FailedCreateBlocksLaterCalls` | group/group.go:81-85 | as written, after a nil build the error returns with the write lock held, and every later call blocks |
| `Locking.CorrectedFailureAllowsRetry` | group/group.go:81-85 | corrected, a failed build returns with the lock free and the map unchanged; a retry for the key returns and runs the factory again |
| `Locking.RunFrom` | group/group.go:74-116 | a sequence of calls, each starting from the lock state the previous call left, either completes with one result per call or stops at a call that blocks |
| `Locking.CorrectedNeverBlocks` | group/group.go:74-116 | corrected, with the lock threaded from call to call, no sequence of calls from a free lock ever blocks |
| `Locking.FailedCreateBlocksRun` | group/group.go:81-85 | as written, with the lock threaded from call to call, a run of two or more calls whose first call gets a nil build for an absent key never completes |

## Findings

| source | as written | input that shows it | evidently intended | confidence | as-written member | corrected member |
|---|---|---|---|---|---|---|
| group/group.go:86-93 | after the double check keeps an entry another caller stored first, the function still returns its own freshly built instance (line 93; same at line 115) | two callers both miss "svc-a", then take the lock in turn with builds 1 and 2: the map keeps 1 but the second caller holds 2 | return the stored entry, so every caller shares the one instance kept for the key | medium; not executed | `Registry.RaceAsWrittenSplits` | `Registry.RaceCorrectedSameInstance` |
| group/group.go:81-85 | when the factory returns nil, ErrCreateUnavailable is returned while the write lock taken at line 81 is still held (same at lines 103-107) | an absent key whose factory returns nil: the call returns, and the next get-or-create of either kind blocks forever in RLock | unlock before returning the error, so a later call retries the factory | high; not executed | `Locking.FailedCreateBlocksLaterCalls`, `Locking.FailedCreateBlocksRun` | `Locking.CorrectedFailureAllowsRetry`, `Locking.CorrectedNeverBlocks` |

The rest of the model uses the lock-free `Registry.GetOrNew`.
`Locking.GetOrNewCorrected` proves that this is the corrected locking
behaviour. For the first finding, the as-written and corrected slow paths
agree on every sequential call (`Registry.SlowPathsAgreeOnAbsentKey`).

## Left out

- Goroutines: `sendEvent` runs in its own goroutine (group/group.go:88-90, 110-112). The model delivers each event at the moment of insertion. Two such goroutines can interleave their deliveries. A subscriber added before the goroutine runs also receives the event. Neither case is modelled.
- Unsynchronised access: `Subscribe` appends to `eventReceivers` without the lock, and `sendEvent` reads it without the lock (group/group.go:119, 138). The resulting data races are not modelled.
- Concurrent reads: a subscriber read that happens between the forwarder's failed send and its drop (group/group.go:131-134) is not modelled. Runs in `Trace` contain no subscriber reads; `EventQueue.Receive` describes a single read.
- A factory is a pure function of the key and stays fixed for the group. So a `Trace` run cannot contain a factory that fails for a key and later succeeds, or one that builds a new instance on each call. `Registry.Race` and `Locking.CorrectedFailureAllowsRetry` take separate builds or factories per call for this reason.
- Interleaved callers are modelled only as the `Registry.Race` sequence, where several callers missed the fast path and then took the exclusive lock in turn. General thread schedules and the RWMutex itself are not modelled, apart from the write-lock flag in `Locking`.
- The Go panic on a nil template is the error value `NilTemplatePanic`. Process termination, and the write lock left held by the panic, are not modelled.
- Go interface nil-ness: a factory that returns a typed nil pointer passes the `== nil` check at group/group.go:83. The model's factory result is `Option`, which has no such case.
- Events carry the instance but not the key (group/group.go:48-51). So delivery order is stated over events, not keys, and `Trace.EventsCountInsertions` counts them.
- `NamedBreaker` and `NamedCache` (group/group.go:20-27) are declared but never used by the group.
- The Breaker and Cache capabilities (`Allow`, `MarkSuccess`, `MarkFailed`, `Get`, `Set`) are opaque instances here. breaker/breaker.go is not part of this model, because it wraps external circuit-breaker and backoff libraries. For the record, its `MarkSuccess` calls `Fail` and its `MarkFailed` calls `Success`. cache/store/cache_store.go is not part of this model either, because it is an interface with no behaviour.
- `time.Duration` and the `interface{}` payloads of the cache are not modelled.
