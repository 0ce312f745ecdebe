# async-reactivity in Dafny

A model of the reactive dependency-graph engine of `async-reactivity`, with
proofs about it. The model covers both generations of the engine:

- **The current engine (`src/`).** This is the main model. It is made of
  `Tracker`, `Ref`, `Computed`, `Watcher`, `Listener` and `Deferrer`.
- **The earlier engine.** These are the files `tracker.ts`, `ref.ts`,
  `computed.ts` and `watch.ts` at the top of the repository.

## The model

- **The arena.** A `Reactive.Graph` object holds every node of one program in
  `nodes`. A node's identity is its index in that sequence. A node is a
  `ReactiveNodes.Node`. It has the cached `_value`, the set of dependents and
  a `Kind`:
  - a `Ref`, with its `isEqual`;
  - a `Computed`, with its getter, state, tracked dependencies, flags,
    current placeholder promise and latest attempt;
  - a `Watcher`, with its dependency and state;
  - a `Listener`, with its `init` value and `listening` flag.
- **The tracked dependencies.** They are stored twice:
  - `keys` is what the JavaScript `Map` gives: the dependencies in
    insertion order.
  - `flags` is the map from each dependency to its "maybe changed" flag.
- **Beside the nodes.** The graph also keeps:
  - `promises`: the placeholder promises, which are `Pending`, `Fulfilled`
    or `Rejected`;
  - `attempts`: one entry per asynchronous compute;
  - `tasks`: the callbacks queued with `setImmediate` or as a microtask;
  - `log`: every call into user code, in order. A call is a getter run, an
    `onChange`, a `start`, a `stop` or an `init`.
- **The invariant.** Every operation preserves `Graph.Inv`. It says that
  the links are consistent both ways:
  - a Computed is a dependent of exactly the nodes it tracks
    (`ReactiveNodes.TrackedExactly`);
  - a Watcher is registered on its dependency only;
  - every Computed's placeholder is pending and belongs to no other node;
  - every queued task and every attempt names a node of the right kind.
- **User code.**
  - **A getter** is a read tree, `Values.Getter`. Given the value of each
    dependency it reads, the tree names the next dependency to read or ends
    with a result or a throw. A result that is a promise takes the
    asynchronous path.
  - **`isEqual`** is a function over `Values.Value`.
  - **`init`** is a value.
  - **`start`, `stop` and `onChange`** are only recorded in `log`.
- **The host.**
  - The host settles an asynchronous attempt by calling `SettleAttempt`.
  - It runs any queued callback by calling `RunTask`.
- **The call-stack bound.** Reads can recurse through other nodes, for
  example on a dependency cycle longer than one hop that the code does not
  detect. A read therefore takes a `depth`: how much call stack is left.
  When it runs out, the read throws `StackOverflow`, the model of
  JavaScript's `RangeError`.
- **Scenarios.** The module `ReactiveScenarios` chains several calls to
  state behaviours that take more than one operation. Examples are caching,
  equal sets, disposal followed by a read, the Listener restart, the short
  circuit along a chain, Watcher coalescing and suppression.

### The earlier engine

- **What it shares.** Module `Legacy` runs on the same arena, built with
  `trackFlag` false. The earlier engine's reads, computes, tracking,
  settlement, Watch construction, `validate` and `dispose` are the same as
  the current engine's. The one difference in tracking is the flag `0`,
  which is falsy, instead of `true`.
- **What it has of its own:**
  - `Ref` compares with `!==`.
  - `Computed.invalidate` only queues a compute when Computing. In any
    other state it forwards every time, even when already Uncertain.
  - `Watch.invalidate` re-reads and calls `onChange` synchronously, inside
    the call.
  - `Computed.dispose` only clears the dependencies.
- **What it lacks.** It has no Listener, and no Watch re-check is ever
  queued.
- **Termination.** The forwarding can repeat, so the legacy invalidation
  also takes a `depth`.

### The Deferrer

Module `Deferral` numbers the chains of a `Deferrer`.

- `Finally` starts a chain and makes it the latest.
- `Settle` marks the promise passed to `finally` as settled.
- `Complete` runs a chain's completion handler. Only the latest chain
  calls the callback and clears `lastPromise`.

The class invariant describes the current run of `finally` calls. With it,
`Deferral.RunCompleted` proves that when the latest chain completes, every
chain started so far has completed.

### Where the model follows the code rather than the tests

- **The missing `else` in `src/computed.ts:125`.** A Computing node that is
  invalidated queues a compute. It also becomes Uncertain and forwards the
  invalidation. `Reactive.Graph.ComputedInvalidate` states both.
- **`src/computed.test.ts:117-135`.** After `a` changes, the test expects
  `c` to keep its value without running its getter. `b1` recomputes to the
  same value and clears its flag in `c`. But `b2` is still Valid, and
  `src/computed.ts:51-57` sets every flag before the walk. Reading `b2`
  leaves its flag set, so the code counts `b2` as changed and recomputes
  `c`. `ReactiveScenarios.ValidDependencyRecomputes` proves this last step:
  a Valid dependency with its flag set makes the getter run once. The first
  step is a dependency that recomputes to the same value. It is not derived
  (see "Left out").
- **`src/watcher.test.ts:24-39`.** The test checks the Watcher
  synchronously. The `src` Watcher notifies in a microtask, which is the
  separate step `Reactive.Graph.WatcherRecheck` run by `RunTask`.
- **A re-check whose read throws.** It leaves the Watcher's value as it
  was. Its state is not stated. It usually stays Uncertain, and then later
  invalidations queue nothing. But a nested recompute of its dependency,
  reached through a cycle during the read, can validate it before the outer
  read throws.
- **An orphaned placeholder.** A placeholder that a pending attempt has
  handed out can be orphaned. This happens when the node is disposed, or
  finalizes through the short-circuit, before the attempt settles. The
  model keeps the old placeholder pending, as the code does.

## Model

| member | source | states |
|---|---|---|
| Values.Dedup | src/computed.ts:109 | the keys of a Map filled with a sequence of sets are distinct and are exactly the elements set |
| Values.DedupAppend | src/computed.ts:109 | setting one more key in a Map appends it if it is new and changes nothing otherwise |
| Values.QuietFires | src/watcher.ts:35-42 | a stretch of calls with no `onChange` adds nothing to any Watcher's notifications |
| ReactiveNodes.AttachIdempotent | src/tracker.ts:10-12 | adding the same dependent twice is adding it once, and adding a present one to a non-Listener changes nothing |
| ReactiveNodes.DetachIdempotent | src/tracker.ts:14-16 | removing twice is removing once, and removing an absent dependent from a non-Listener changes nothing |
| ReactiveNodes.TrackedExactly | src/computed.ts:105-112 | in a well-formed graph a Computed is a dependent of a node exactly when it tracks that node; a Watcher is registered on its own dependency only |
| Reactive.Graph.NewRef | src/ref.ts:9-13 | the Ref holds the initial value and its `isEqual`, with no dependents, and nothing else changes |
| Reactive.Graph.NewComputed | src/computed.ts:26-30 | the Computed is Invalid, tracks nothing, has a fresh pending placeholder, and its getter is not called |
| Reactive.Graph.NewListener | src/listener.ts:11-17 | the Listener is not listening and has no value; neither `init` nor `start` is called |
| Reactive.Graph.AddDependent | src/listener.ts:19-28 | the dependent joins the set, with no change if it is present, and nothing else changes; a Listener that is not listening calls `start` once and is listening; later additions call nothing (the same operation models src/tracker.ts:10-12 and the earlier tracker.ts:5-9) |
| Reactive.Graph.RemoveDependent | src/listener.ts:30-36 | exactly that dependent leaves the set and nothing else changes; a Listener left with no dependents calls `stop` and stops listening (the same operation models src/tracker.ts:14-16 and the earlier tracker.ts:11-13) |
| Reactive.Graph.Broadcast | src/tracker.ts:18-22 | every dependent registered at the start is invalidated exactly once and ends Uncertain; exactly one re-check is queued for each of them that was a Valid Watcher and one compute for each that was Computing; only states move, to Uncertain, and no value or dependent set changes |
| Reactive.Graph.DependentInvalidate | src/tracker.ts:19-21 | the dependent's own `invalidate` leaves it Uncertain |
| Reactive.Graph.ComputedInvalidate | src/computed.ts:122-129 | Uncertain already: nothing changes; Computing: a compute is queued; any state but Uncertain: Uncertain and every dependent invalidated, with one re-check queued per Valid Watcher and one compute per Computing node that became Uncertain |
| Reactive.Graph.WatcherInvalidate | src/watcher.ts:30-43 | Uncertain already: nothing changes (coalescing); Valid: Uncertain and exactly one re-check queued; `onChange` is not called |
| Reactive.Graph.Invalidate | src/tracker.ts:18-22 | a Computed or Watcher ends Uncertain, a Ref or Listener leaves every old dependent Uncertain; one re-check is queued per Watcher that was Valid and one compute per Computed that was Computing; only states move |
| Reactive.Graph.SetRef | src/ref.ts:15-21 | the value is always stored and the dependent set untouched; the dependents are invalidated if and only if `isEqual(old, new)` is false, and then each one is Uncertain and each Valid Watcher among them has exactly one re-check queued |
| Reactive.Graph.Emit | src/listener.ts:22-25 | the setter handed to `start` stores the value and invalidates every dependent without comparing: each one Uncertain, exactly one re-check queued per Valid Watcher among them |
| Reactive.Graph.ClearDependencies | src/computed.ts:84-89 | the Computed leaves the dependents of every node it tracked and tracks nothing; the `stop` calls are those of the detached Listeners |
| Reactive.Graph.DetachAll | src/computed.ts:85-87 | `removeDependent` on each tracked node in order, and nothing else |
| Reactive.Graph.Validate | src/computed.ts:131-133 | `validate(c)` clears c's flag in a Computed and makes a Watcher Valid |
| Reactive.Graph.ValidateDependents | src/computed.ts:135-139 | every dependent, and only they, is told the node did not change |
| Reactive.Graph.FinalizeComputing | src/computed.ts:116-120 | Valid, no attempt, a fresh pending placeholder, the rest untouched |
| Reactive.Graph.SettlePlaceholder | src/computed.ts:91-103 | the current placeholder settles as given, then the node finalizes |
| Reactive.Graph.Read | src/computed.ts:41-47 | a Valid or Computing Computed, a Ref or a Watcher returns its value and nothing changes; an Invalid Computed calls its getter exactly once; a Listener (src/listener.ts:38-43) calls `init` exactly when its value is undefined and then holds and returns what `init` gave; an Uncertain Computed with nothing tracked short-circuits with no user call, and so does one whose every dependency is such a node; a successful read returns the node's value (also the earlier computed.ts:37-43); an Uncertain Computed whose walk meets a current dependency (a Ref, a Valid or Computing node) after a prefix of dependencies with nothing tracked calls its getter exactly once |
| Reactive.Graph.Compute | src/computed.ts:49-82 | an Invalid node runs its getter once; an Uncertain one with nothing tracked short-circuits with no user call, and so does one whose every dependency is such a node, returning the cached value; a short-circuit returns the cached value, is Valid and validates every dependent (also the earlier computed.ts:45-78); an Uncertain node whose walk meets a current dependency after a prefix of dependencies with nothing tracked does not short-circuit and runs its getter exactly once |
| Reactive.Graph.Revalidate | src/computed.ts:50-61 | the verdict of the re-read decides: a throw ends the compute with that error, every dependency validating it keeps the cached value with no user call, a changed one leaves the getter to run; with nothing tracked, or only dependencies that have nothing tracked, the value is kept; when the walk meets a current dependency (a Ref, a Valid or Computing node) after a prefix of dependencies with nothing tracked, the verdict is changed, the compute goes on and no getter has been called yet |
| Reactive.Graph.KeepValue | src/computed.ts:58-60 | the cached value is kept and returned, the node is Valid with no attempt and a fresh placeholder, exactly its dependents are validated, and nothing else changes |
| Reactive.Graph.MarkAllChanged | src/computed.ts:51-53 | every tracked flag is set and nothing else changes |
| Reactive.Graph.CheckUnchanged | src/computed.ts:54-57 | every flag is set first; a changed verdict names the dependency whose flag was still set after its read; with nothing tracked it is vacuously unchanged; when every dependency is an Uncertain Computed with nothing tracked, each read clears its flag and the verdict is unchanged with no user call; when the j-th dependency is current (a Ref, a Valid or Computing node) and every earlier one is an Uncertain Computed with nothing tracked, the verdict is changed after exactly j + 1 reads, and at most that dependency's Listener `init` is logged |
| Reactive.Graph.RereadDependencies | src/computed.ts:53-56 | the `every` over the dependencies: the walk ends after the first read that throws or leaves its flag set, and an unchanged verdict means every dependency was read; a current dependency whose flag is set, reached after dependencies with nothing tracked, ends the walk with a changed verdict right after its own read; when every dependency is an Uncertain Computed with nothing tracked the walk reaches the end, unchanged, with no user call and the node's value and state untouched |
| Reactive.Graph.RereadDependency | src/computed.ts:54-55 | one step of the walk: the read of one dependency; a successful read returns that dependency's current value and leaves it Valid or Computing; a current dependency is read with no change to the node and at most its Listener `init` logged; when it and the later ones are Uncertain Computeds with nothing tracked, the read succeeds with no user call, clears that dependency's flag in the node and leaves the later ones as they were |
| Reactive.Graph.RunCompute | src/computed.ts:64-81 | the getter is called exactly once, after the old dependencies are released, and the tracked keys are then exactly the dependencies it read, in first-read order; a synchronous result is stored, Valid, fulfils the placeholder and validates the dependents when `===` the previous value; a promise result starts a new latest attempt, and the value is the placeholder, which stays the same while attempts are outstanding |
| Reactive.Graph.Evaluate | src/computed.ts:64-68 | Computing, the old value kept, the getter called once; the result is the getter's own for the answers it was given |
| Reactive.Graph.Conclude | src/computed.ts:69-80 | a promise result starts an attempt; any other result finalizes with that value |
| Reactive.Graph.BeginCompute | src/computed.ts:64-65 | Computing, then dependencies cleared, then the getter called |
| Reactive.Graph.ConcludeSync | src/computed.ts:75-80 | stored, the placeholder fulfilled, Valid; dependents validated when the value `===` the previous one |
| Reactive.Graph.ConcludeAsync | src/computed.ts:69-74 | a new pending attempt is the latest, and the value is the current placeholder |
| Reactive.Graph.RunGetter | src/computed.ts:68 | for getters that do not catch the error of their own reads (the only getters the model expresses): each read of the getter is tracked in turn; the run ends with the getter's result or throw, or the first read that throws |
| Reactive.Graph.Track | src/computed.ts:105-112 | a dependency that is already a dependent throws the circular error before anything changes, leaving the node Computing; otherwise it is flagged with `trackFlag` (falsy in the earlier computed.ts:101-108), registered, then read |
| Reactive.Graph.Register | src/computed.ts:109-110 | the dependency is flagged and the Computed joins its dependents |
| Reactive.Graph.ComputedDispose | src/computed.ts:141-147 | dependencies cleared, Invalid, value undefined, no attempt, fresh placeholder |
| Reactive.Graph.SettleAttempt | src/computed.ts:91-103 | only the latest attempt settles: its placeholder is fulfilled with the result or rejected with the error, and the node finalizes keeping its value; a superseded result or error changes nothing (also the earlier computed.ts:87-99) |
| Reactive.Graph.Capture | src/watcher.ts:37 | the Watcher takes the value it read |
| Reactive.Graph.Fire | src/watcher.ts:39 | one `onChange` call for this Watcher and none for any other |
| Reactive.Graph.AttachWatcher | src/watcher.ts:23 | the new Watcher is Valid and joins its dependency's dependents |
| Reactive.Graph.NewWatcher | src/watcher.ts:18-28 | registered first, and still registered at the end, then the dependency's value captured; `onChange(value)` called once if and only if `immediate`; Valid (also the earlier watch.ts:18-28) |
| Reactive.Graph.WatcherRecheck | src/watcher.ts:35-42 | the value is replaced by a fresh read; `onChange(new, old)` is called exactly when still Uncertain after the read, and then Valid; a current dependency always notifies; a dependency that short-circuits validates the Watcher during the read, so no call is made; the Watcher stays registered |
| Reactive.Graph.RecheckRead | src/watcher.ts:36 | the re-check's read leaves the Watcher as it was, except that a short-circuiting dependency validates it; a current dependency returns its value and leaves the Watcher Uncertain; no `onChange` is called |
| Reactive.Graph.Absorb | src/watcher.ts:37-41 | value captured, `onChange` called exactly when Uncertain, Valid |
| Reactive.Graph.WatcherValidate | src/watcher.ts:45-47 | Valid, and nothing else changes (also the earlier watch.ts:40-42) |
| Reactive.Graph.WatcherDispose | src/watcher.ts:49-51 | only this Watcher leaves its dependency's dependents (also the earlier watch.ts:44-46) |
| Reactive.Graph.RunTask | src/watcher.ts:35-42 | a queued re-check has the re-check's contract: its own Watcher's notifications grow by the one call made, if any, and no other's; Valid after a read that succeeds; a current dependency notifies; a short-circuiting one does not; a queued compute (src/computed.ts:124) calls the getter once unless the node is Uncertain, and calls no `onChange`; on an Uncertain node it has Compute's two directions: every dependency with nothing tracked keeps the cached value with no user call, and a current dependency after such a prefix makes the getter run once |
| ReactiveScenarios.ReadTwice | src/computed.ts:41-47 | the second read returns the first read's value and calls nothing; a Valid node never calls its getter, an Invalid one once |
| ReactiveScenarios.EqualSetKeepsCache | src/ref.ts:18-20 | a set that `isEqual` calls equal invalidates nothing, and a Valid Computed then answers from its cache |
| ReactiveScenarios.SameValueSet | src/ref.ts:4 | with the default equality, setting the current value changes nothing |
| ReactiveScenarios.AlwaysEqualSets | src/ref.ts:15-21 | with an `isEqual` that always holds, any series of sets changes only the Ref's value |
| ReactiveScenarios.DisposeThenRead | src/computed.ts:141-147 | after `dispose` the next read calls the getter again |
| ReactiveScenarios.ListenerRestart | src/computed.ts:64-65 | a Computed over one Listener makes it `stop`, then runs its getter, which makes it `start` again |
| ReactiveScenarios.InvalidateTwice | src/watcher.ts:30-34 | two invalidations before the re-check queue one re-check and call nothing |
| ReactiveScenarios.ValidateBeforeRecheck | src/watcher.ts:45-47 | a `validate` before the re-check suppresses `onChange` |
| ReactiveScenarios.InvalidateThenRecheck | src/watcher.ts:30-42 | an invalidation over a current dependency queues a re-check that, run from the queue, notifies exactly once with the dependency's value |
| ReactiveScenarios.ShortCircuitChain | src/computed.ts:50-61 | reading an Uncertain Computed whose one dependency is an Uncertain Computed with nothing tracked calls neither getter and returns the cached value |
| ReactiveScenarios.SetThenRead | src/ref.ts:14-21 | setting a Ref to a value its `isEqual` calls different and then reading a Valid Computed that depends only on it runs that Computed's getter exactly once |
| ReactiveScenarios.ValidDependencyRecomputes | src/computed.ts:50-68 | an Uncertain Computed whose one dependency is a Valid Computed recomputes: its getter runs exactly once, because reading a Valid node leaves its flag set |
| ReactiveScenarios.InvalidateLeaf | src/watcher.ts:35-42 | invalidating a Computed with nothing tracked queues one re-check of its Watcher; run from the queue, it ends Valid with no `onChange`, and no re-check of it is left over |
| Legacy.NewEngine | computed.ts:105 | an empty arena whose tracking flag is falsy |
| Legacy.NewRef | ref.ts:5-8 | the Ref holds the initial value and compares with `!==` |
| Legacy.SetRef | ref.ts:10-16 | the value is always stored; the dependents are invalidated, each once, if and only if the old value `!==` the new one; when none throws, each Watch among them calls `onChange(new, old)` exactly once with the new value, and no other Watch on a Ref is notified |
| Legacy.Invalidate | tracker.ts:16-20 | each dependent of the snapshot taken at the start is invalidated once, until one throws; when none throws, each Watch on a Ref among them is notified exactly once, with the Ref's value and its previous value; no other Watch on a Ref is notified; tasks are only appended, and every dependent visited that was Computing has a re-compute among the new tasks |
| Legacy.DependentInvalidate | tracker.ts:17-19 | the dependent's own `invalidate`: a Watch on a Ref is notified once with the Ref's value unless it throws; no other Watch on a Ref is touched; kinds and dependencies are kept, and a Computing node stays Computing; a Computing Computed only queues one re-compute and changes nothing else; any other Computed with no dependents only becomes Uncertain |
| Legacy.ComputedInvalidate | computed.ts:118-125 | Computing: only a compute is queued, with no propagation; in any other state, even Uncertain, every dependent is invalidated once unless one throws, and a node with no dependents just becomes Uncertain; no Watch on a Ref is touched |
| Legacy.WatchInvalidate | watch.ts:30-38 | synchronous: Uncertain, re-read, value captured, `onChange(new, old)` inside the call unless the re-read validated the Watch, then Valid; a current dependency notifies, a short-circuiting one validates the Watch with no call; no other Watch on a Ref changes |
| Legacy.Dispose | computed.ts:137-139 | only the dependencies are cleared: each node it tracked loses it as a dependent and nothing else changes there; its state and cached value stay, and no other node changes |
| Legacy.DisposeKeepsCache | computed.ts:37-43 | a disposed Valid Computed still answers from its cache without calling the getter |
| Legacy.InvalidateTwice | watch.ts:30-38 | two invalidations over a Ref notify twice: nothing coalesces |
| Deferral.Deferrer.Finally | src/deferrer.ts:6-15 | a new chain joining the previous latest and the given promise becomes the latest; nothing is called |
| Deferral.Deferrer.Complete | src/deferrer.ts:8-13 | the latest chain clears `lastPromise` and calls the callback once, after every chain started so far has completed; any other chain changes nothing |
| Deferral.RunCompleted | src/deferrer.ts:7 | a chain completes only after the chain before it, so the last completing implies all of the run completed |
| Deferral.TwoInARow | src/deferrer.ts:6-15 | two `finally` calls in a row call the callback exactly once |

## Left out

- **The host's scheduling order.** `setImmediate`, the microtask queue and
  promise timing are not modelled. `RunTask` runs any queued task. The
  model proves nothing that depends on the tasks running in FIFO order.
- **Iteration order.** `Broadcast`, `Legacy.Invalidate` and
  `ValidateDependents` visit the dependents in whatever order the model
  picks. The source visits them in insertion order.
- **A task that throws.** An exception escaping a queued callback is
  returned as the outcome of `RunTask`. It is not reported to the host.
- **User code beyond oracles.**
  - `onChange`, `start`, `stop` and `init` only appear in the log.
  - `start` is never modelled as calling the setter synchronously.
  - `Emit` may be called once `start` has been called.
- **Values.** A value is a number, `undefined` or a placeholder promise.
  A promise's adoption of a value that is itself a promise is not modelled.
- **Promise.all in the Deferrer.** A chain completes after both of its
  inputs have settled. When an input rejects, `Promise.all` can settle
  early. That case is not modelled.
- **Files outside the core.**
  - `src/asyncListener.ts` is promise plumbing.
  - `src/index.ts` only re-exports.
  - `src/dependency.ts`, `src/dependent.ts`, `dependency.ts` and
    `dependent.ts` are interfaces with no behaviour.
- **Test APIs that the source lacks.** These features appear in the tests
  but not in the source: Computed `isEqual`, TTL, `forceInvalidate` and
  `reset`, and the positional `Listener` constructor.
- **Nodes that do not exist.** Reading or tracking a node id outside the
  arena throws `Dangling`. This is the stand-in for JavaScript's
  `TypeError`.
- **The earlier engine's tasks.** By construction it queues only computes,
  never re-checks. That fact is not carried as an invariant.
- Legacy.ComputedInvalidate: the final state of the node is left unstated.
  A synchronous Watch further down may read the node and recompute it during
  the broadcast. The contract states that the node ends Uncertain only when
  it has no dependents.
- Legacy.SetRef: notifications are stated for the Watches on a Ref only.
  A Watch on a Computed may be reached several times through forwarding; its
  notifications, and the states that the broadcast changes, are left
  unstated.
- Legacy.WatchInvalidate: the zero-callback case is derived only for a
  dependency that is an Uncertain Computed with nothing tracked. A dependency
  that recomputes to the same value and validates the Watch during the
  re-read is covered through `validatedByRead`, not derived.
- ReactiveScenarios.ListenerRestart: only the start of the recompute is
  modelled, `BeginCompute` followed by the getter's first `Track`. The
  rest of the getter run is not.
- Reactive.Graph.NewComputed: requires its getter to be a finite read tree
  (`Values.Bounded`): one bound on the number of reads that holds whatever
  the reads answer, and the invariant keeps every getter so. A getter that
  reads for ever is not modelled, and neither is one that stops for every
  input but whose number of reads depends on the values read (one that reads
  a node as many times as another node's value says).
- Reactive.Graph.CheckUnchanged: the verdict is tied to the flags through
  the last read only. That every flag is clear after an unchanged verdict is
  not stated, because a read further down a cycle can recompute the node and
  set its flags again. For the same reason an unchanged verdict does not
  imply that no dependency was current. A read that recomputes the node
  replaces its dependencies, so `dependencies.get` of a later key is
  `undefined` and the walk goes on. The changed verdict is derived only for a
  current dependency reached after dependencies with nothing tracked. The
  value-level short circuit is derived only when every dependency is an
  Uncertain Computed with nothing tracked.
- Reactive.Graph.Compute: a dependency that recomputes to the value it had
  validates the node during the re-read (`src/index.test.ts:112-128`). This
  short circuit is not derived. Deriving it would mean following the values
  that the dependency's getter reads. The short circuit is proved only for
  dependencies with nothing tracked, and the recompute only for a current
  dependency reached after such a prefix.
- Reactive.Graph.Read: the same limit as Reactive.Graph.Compute, because a
  read of an Uncertain Computed is its compute.
- Reactive.Graph.RunGetter: a getter that catches the error thrown by one of
  its own reads is not modelled. Examples are the circular-dependency error
  of `src/computed.ts:104-106` and a dependency's own throw. In
  `Values.Getter` a read hands its continuation a value only, so in the model
  a failing read always ends the run with that error. In the source such a
  getter goes on. It can end Valid, and it can keep the failed dependency
  tracked when the throw came after `addDependent`. Modelling it would mean
  handing the continuation an `Outcome`, and then a getter's next read could
  depend on an error.
- Reactive.Graph.WatcherRecheck: the zero-callback case is derived only for a
  dependency that is an Uncertain Computed with nothing tracked. A dependency
  that recomputes to the same value and validates the Watcher during the read
  is covered through `validatedByRead`, not derived.
