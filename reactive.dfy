/** The current engine (src/): one arena holding every Ref, Computed, Watcher
    and Listener, the placeholder promises, the asynchronous compute attempts,
    the host task queue and the log of calls into user code. */
module Reactive {
  import opened Values
  import opened ReactiveNodes
  import opened ReactiveFrames

  /** How the short-circuit of an Uncertain compute ends: every dependency
      re-read and found validated, one found still changed, or a re-read that
      threw. */
  datatype Verdict = Unchanged | Changed | Failed(fault: Fault)

  class Graph {
    var nodes: seq<Node>
    var promises: seq<PromiseState>
    var attempts: seq<Attempt>
    var tasks: seq<Task>
    var log: seq<Event>
    /** The flag a tracked dependency gets in the map of its Computed. */
    const trackFlag: bool

    ghost predicate Inv()
      reads this
    {
      WellFormed(nodes, promises, attempts, tasks)
    }

    constructor (trackFlag: bool)
      ensures Inv() && this.trackFlag == trackFlag
      ensures nodes == [] && promises == [] && attempts == [] && tasks == [] && log == []
    {
      nodes, promises, attempts, tasks, log := [], [], [], [], [];
      this.trackFlag := trackFlag;
    }

    // -------------------------------------------------------------------------
    // Construction

    /** `new Ref(value, isEqual)`: the value is stored, nothing is registered. */
    method NewRef(v: Value, isEqual: (Value, Value) -> bool) returns (r: nat)
      requires Inv()
      modifies this
      ensures Inv()
      ensures r == old(|nodes|) && nodes == old(nodes) + [Node(v, {}, Ref(isEqual))]
      ensures promises == old(promises) && attempts == old(attempts)
      ensures tasks == old(tasks) && log == old(log)
    {
      r := |nodes|;
      assert promises + [] == promises;
      AppendKeeps(nodes, promises, attempts, tasks, Node(v, {}, Ref(isEqual)), []);
      nodes := nodes + [Node(v, {}, Ref(isEqual))];
    }

    /** `new Computed(getter)`: Invalid, nothing tracked, the getter not called,
        and a fresh pending placeholder promise. */
    method NewComputed(g: Getter) returns (c: nat)
      requires Inv() && exists b: nat :: Bounded(g, b)
      modifies this
      ensures Inv()
      ensures c == old(|nodes|)
      ensures nodes == old(nodes) + [Node(Undef, {}, Computed(g, Invalid, [], map[], old(|promises|), None))]
      ensures promises == old(promises) + [Pending]
      ensures attempts == old(attempts) && tasks == old(tasks) && log == old(log)
    {
      c := |nodes|;
      var n := Node(Undef, {}, Computed(g, Invalid, [], map[], |promises|, None));
      AppendKeeps(nodes, promises, attempts, tasks, n, [Pending]);
      nodes := nodes + [n];
      promises := promises + [Pending];
    }

    /** `new Listener({init, start, stop})`: neither `init` nor `start` is
        called and the listener is not listening. */
    method NewListener(init: Value) returns (l: nat)
      requires Inv()
      modifies this
      ensures Inv()
      ensures l == old(|nodes|) && nodes == old(nodes) + [Node(Undef, {}, Listener(init, false))]
      ensures promises == old(promises) && attempts == old(attempts)
      ensures tasks == old(tasks) && log == old(log)
    {
      l := |nodes|;
      assert promises + [] == promises;
      AppendKeeps(nodes, promises, attempts, tasks, Node(Undef, {}, Listener(init, false)), []);
      nodes := nodes + [Node(Undef, {}, Listener(init, false))];
    }

    // -------------------------------------------------------------------------
    // Registration

    /** `addDependent`: `d` joins the dependents of `n`, which stay as they
        were if it was there already; a Listener that is not listening calls
        `start` and is listening from then on. */
    method AddDependent(n: nat, d: nat)
      requires n < |nodes|
      modifies this
      ensures nodes == old(nodes)[n := Attached(old(nodes[n]), d)]
      ensures log == old(log) + StartOf(old(nodes), n)
      ensures promises == old(promises) && attempts == old(attempts) && tasks == old(tasks)
    {
      if nodes[n].kind.Listener? && !nodes[n].kind.listening {
        log := log + [Started(n)];
      }
      nodes := nodes[n := Attached(nodes[n], d)];
    }

    /** `removeDependent`: `d` leaves the dependents of `n`, and nothing else
        does; a Listener left with no dependents calls `stop` and stops
        listening, whether or not it was listening. */
    method RemoveDependent(n: nat, d: nat)
      requires n < |nodes|
      modifies this
      ensures nodes == old(nodes)[n := Detached(old(nodes[n]), d)]
      ensures log == old(log) + StopOf(old(nodes), n, d)
      ensures promises == old(promises) && attempts == old(attempts) && tasks == old(tasks)
    {
      if nodes[n].kind.Listener? && nodes[n].dependents - {d} == {} {
        log := log + [Stopped(n)];
      }
      nodes := nodes[n := Detached(nodes[n], d)];
    }

    // -------------------------------------------------------------------------
    // Invalidation

    /** Tracker's `invalidate`: every dependent registered when the broadcast
        starts is invalidated exactly once (`visited` is the snapshot, in the
        order the model takes it), and only states move, to Uncertain. */
    method Broadcast(n: nat) returns (ghost visited: seq<nat>)
      requires Inv() && n < |nodes|
      modifies this
      ensures Inv()
      ensures Distinct(visited) && Elems(visited) == old(nodes[n].dependents)
      ensures forall j | j in old(nodes[n].dependents) :: IsUncertain(nodes, j)
      ensures Raised(old(nodes), nodes) && Downstream(old(nodes), nodes)
      ensures Scheduled(old(nodes), nodes, old(tasks), tasks)
      ensures QueuedOnce(old(nodes), old(tasks), tasks, old(nodes[n].dependents))
      ensures promises == old(promises) && attempts == old(attempts) && log == old(log)
      decreases |NotUncertain(nodes)|, 3
    {
      ghost var nodes0, tasks0 := nodes, tasks;
      var pending := nodes[n].dependents;
      visited := [];
      RaisedRefl(nodes);
      DownstreamRefl(nodes);
      ScheduledRefl(nodes, tasks);
      assert NodeShape(nodes, n, |promises|, |attempts|);
      while pending != {}
        invariant Inv() && |nodes| == |nodes0|
        invariant Raised(nodes0, nodes) && Downstream(nodes0, nodes) && Scheduled(nodes0, nodes, tasks0, tasks)
        invariant |NotUncertain(nodes)| <= |NotUncertain(nodes0)|
        invariant promises == old(promises) && attempts == old(attempts) && log == old(log)
        invariant Distinct(visited) && pending !! Elems(visited)
        invariant pending + Elems(visited) == nodes0[n].dependents
        invariant forall j | j in Elems(visited) :: IsUncertain(nodes, j)
        invariant forall j | j in pending :: IsDependent(nodes, j)
        decreases pending
      {
        var d :| d in pending;
        ghost var before, tasksBefore := nodes, tasks;
        DependentInvalidate(d);
        InvalidationStep(nodes0, before, nodes, tasks0, tasksBefore, tasks, Elems(visited));
        VisitOne(visited, pending, d);
        pending := pending - {d};
        visited := visited + [d];
      }
      QueuedFromScheduled(nodes0, nodes, tasks0, tasks, nodes0[n].dependents);
    }

    /** `invalidate` on a dependent: the Computed's or the Watcher's own. */
    method DependentInvalidate(c: nat)
      requires Inv() && IsDependent(nodes, c)
      modifies this
      ensures Inv() && IsUncertain(nodes, c)
      ensures Raised(old(nodes), nodes) && Downstream(old(nodes), nodes)
      ensures Scheduled(old(nodes), nodes, old(tasks), tasks)
      ensures promises == old(promises) && attempts == old(attempts) && log == old(log)
      decreases |NotUncertain(nodes)|, 2
    {
      if nodes[c].kind.Watcher? {
        WatcherInvalidate(c);
      } else {
        ComputedInvalidate(c);
      }
    }

    /** A Computed's `invalidate`. When Computing it queues another `compute`;
        then, in every state but Uncertain, it moves to Uncertain and
        broadcasts; when already Uncertain nothing else happens. */
    method ComputedInvalidate(c: nat)
      requires Inv() && c < |nodes| && nodes[c].kind.Computed?
      modifies this
      ensures Inv() && IsUncertain(nodes, c)
      ensures Raised(old(nodes), nodes) && Downstream(old(nodes), nodes)
      ensures Scheduled(old(nodes), nodes, old(tasks), tasks)
      ensures promises == old(promises) && attempts == old(attempts) && log == old(log)
      ensures old(nodes[c].kind.state) == Uncertain ==> nodes == old(nodes) && tasks == old(tasks)
      ensures old(nodes[c].kind.state) == Computing ==>
                |tasks| > |old(tasks)| && tasks[|old(tasks)|] == Recompute(c)
      ensures old(nodes[c].kind.state) != Uncertain ==>
                forall j | j in old(nodes[c].dependents) :: IsUncertain(nodes, j)
      decreases |NotUncertain(nodes)|, 1
    {
      ghost var nodes0, tasks0 := nodes, tasks;
      if nodes[c].kind.state == Computing {
        AddTaskKeeps(nodes, promises, attempts, tasks, Recompute(c));
        tasks := tasks + [Recompute(c)];
      }
      if nodes[c].kind.state != Uncertain {
        RaiseOneDrops(nodes, c);
        ScheduledRaise(nodes, c, tasks0, tasks);
        SameLinksKeeps(nodes, promises, attempts, tasks, {}, c, WithState(nodes[c], Uncertain));
        nodes := nodes[c := WithState(nodes[c], Uncertain)];
        ghost var raised, tasks1 := nodes, tasks;
        ghost var visited := Broadcast(c);
        RaisedTrans(nodes0, raised, nodes);
        DownstreamAfterRaise(nodes0, c, nodes);
        ScheduledTrans(nodes0, raised, nodes, tasks0, tasks1, tasks);
      } else {
        RaisedRefl(nodes);
        DownstreamRefl(nodes);
        ScheduledRefl(nodes, tasks);
      }
    }

    /** A Watcher's `invalidate`. Already Uncertain, it does nothing, so
        invalidations coalesce; otherwise it moves to Uncertain and queues
        exactly one re-check, calling nothing now. */
    method WatcherInvalidate(w: nat)
      requires Inv() && w < |nodes| && nodes[w].kind.Watcher?
      modifies this
      ensures Inv() && IsUncertain(nodes, w)
      ensures |nodes| == old(|nodes|) && nodes == old(nodes)[w := WithWatchState(old(nodes[w]), Uncertain)]
      ensures tasks == old(tasks) + (if old(nodes[w].kind.watchState) == Uncertain then [] else [Recheck(w)])
      ensures promises == old(promises) && attempts == old(attempts) && log == old(log)
      ensures Raised(old(nodes), nodes) && Downstream(old(nodes), nodes)
      ensures Scheduled(old(nodes), nodes, old(tasks), tasks)
    {
      assert NodeShape(nodes, w, |promises|, |attempts|);
      if nodes[w].kind.watchState != Uncertain {
        ScheduledRecheck(nodes, w, tasks);
        SameLinksKeeps(nodes, promises, attempts, tasks, {}, w, WithWatchState(nodes[w], Uncertain));
        nodes := nodes[w := WithWatchState(nodes[w], Uncertain)];
        AddTaskKeeps(nodes, promises, attempts, tasks, Recheck(w));
        tasks := tasks + [Recheck(w)];
      } else {
        assert nodes[w] == WithWatchState(nodes[w], Uncertain);
        ScheduledRefl(nodes, tasks);
      }
    }

    /** The public `invalidate` of any node: Tracker's broadcast for a Ref or a
        Listener, the dependent's own `invalidate` for a Computed or a Watcher. */
    method Invalidate(n: nat)
      requires Inv() && n < |nodes|
      modifies this
      ensures Inv()
      ensures Raised(old(nodes), nodes) && Downstream(old(nodes), nodes)
      ensures Scheduled(old(nodes), nodes, old(tasks), tasks)
      ensures promises == old(promises) && attempts == old(attempts) && log == old(log)
      ensures old(nodes[n].kind.Computed? || nodes[n].kind.Watcher?) ==>
                IsUncertain(nodes, n) && QueuedOnce(old(nodes), old(tasks), tasks, {n})
      ensures old(nodes[n].kind.Ref? || nodes[n].kind.Listener?) ==>
                && (forall j | j in old(nodes[n].dependents) :: IsUncertain(nodes, j))
                && QueuedOnce(old(nodes), old(tasks), tasks, old(nodes[n].dependents))
    {
      if nodes[n].kind.Computed? || nodes[n].kind.Watcher? {
        ghost var n0, t0 := nodes, tasks;
        DependentInvalidate(n);
        QueuedFromScheduled(n0, nodes, t0, tasks, {n});
      } else {
        ghost var visited := Broadcast(n);
      }
    }

    /** The Ref setter: the value is always stored; the dependents are
        invalidated exactly when `isEqual(old, new)` is false. */
    method SetRef(r: nat, v: Value)
      requires Inv() && r < |nodes| && nodes[r].kind.Ref?
      modifies this
      ensures Inv()
      ensures |nodes| == old(|nodes|) && nodes[r] == old(nodes[r]).(value := v)
      ensures Raised(old(nodes)[r := nodes[r]], nodes) && Downstream(old(nodes)[r := nodes[r]], nodes)
      ensures Scheduled(old(nodes)[r := nodes[r]], nodes, old(tasks), tasks)
      ensures promises == old(promises) && attempts == old(attempts) && log == old(log)
      ensures old(nodes[r].kind.isEqual(nodes[r].value, v)) ==>
                nodes == old(nodes)[r := nodes[r]] && tasks == old(tasks)
      ensures !old(nodes[r].kind.isEqual(nodes[r].value, v)) ==>
                && (forall j | j in old(nodes[r].dependents) :: IsUncertain(nodes, j))
                && QueuedOnce(old(nodes), old(tasks), tasks, old(nodes[r].dependents))
    {
      var last := nodes[r].value;
      SameLinksKeeps(nodes, promises, attempts, tasks, {}, r, nodes[r].(value := v));
      nodes := nodes[r := nodes[r].(value := v)];
      if !nodes[r].kind.isEqual(last, v) {
        ghost var visited := Broadcast(r);
        assert forall j | 0 <= j < |nodes| :: old(nodes)[r := old(nodes[r]).(value := v)][j].kind == old(nodes[j].kind);
      } else {
        RaisedRefl(nodes);
        DownstreamRefl(nodes);
        ScheduledRefl(nodes, tasks);
      }
    }

    /** The setter that a Listener hands to `start`: the value is stored and
        every dependent is invalidated, with no equality test. It exists once
        `start` has been called. */
    method Emit(l: nat, v: Value)
      requires Inv() && l < |nodes| && nodes[l].kind.Listener? && Started(l) in log
      modifies this
      ensures Inv()
      ensures |nodes| == old(|nodes|) && nodes[l] == old(nodes[l]).(value := v)
      ensures Raised(old(nodes)[l := nodes[l]], nodes) && Downstream(old(nodes)[l := nodes[l]], nodes)
      ensures Scheduled(old(nodes)[l := nodes[l]], nodes, old(tasks), tasks)
      ensures forall j | j in old(nodes[l].dependents) :: IsUncertain(nodes, j)
      ensures QueuedOnce(old(nodes), old(tasks), tasks, old(nodes[l].dependents))
      ensures promises == old(promises) && attempts == old(attempts) && log == old(log)
    {
      SameLinksKeeps(nodes, promises, attempts, tasks, {}, l, nodes[l].(value := v));
      nodes := nodes[l := nodes[l].(value := v)];
      ghost var visited := Broadcast(l);
      assert forall j | 0 <= j < |nodes| :: old(nodes)[l := old(nodes[l]).(value := v)][j].kind == old(nodes[j].kind);
    }

    // -------------------------------------------------------------------------
    // Steps of a compute

    /** `clearDependencies`: this Computed leaves the dependents of every node
        it tracked, in the order it tracked them (a Listener left with none
        calls `stop`), and its own map is emptied. Nothing else changes. */
    method ClearDependencies(c: nat)
      requires Inv() && c < |nodes| && nodes[c].kind.Computed?
      modifies this
      ensures Inv() && |nodes| == old(|nodes|)
      ensures forall x | 0 <= x < |nodes| && x != c ::
                nodes[x] == if x in old(nodes[c].kind.keys) then Detached(old(nodes[x]), c) else old(nodes[x])
      ensures var n := if c in old(nodes[c].kind.keys) then Detached(old(nodes[c]), c) else old(nodes[c]);
                nodes[c] == n.(kind := n.kind.(keys := [], flags := map[]))
      ensures forall x | 0 <= x < |nodes| :: c !in nodes[x].dependents
      ensures log == old(log) + StopsOf(old(nodes), old(nodes[c].kind.keys), old(|nodes[c].kind.keys|), c)
      ensures promises == old(promises) && attempts == old(attempts) && tasks == old(tasks)
    {
      ghost var nodes0 := nodes;
      assert NodeShape(nodes, c, |promises|, |attempts|);
      DetachAll(c);
      DetachAllKeeps(nodes0, nodes, promises, attempts, tasks, c);
      ClearKeeps(nodes, promises, attempts, tasks, c);
      nodes := nodes[c := nodes[c].(kind := nodes[c].kind.(keys := [], flags := map[]))];
    }

    /** The loop of `clearDependencies`: `removeDependent(this)` on each tracked
        node in turn. */
    method DetachAll(c: nat)
      requires c < |nodes| && nodes[c].kind.Computed?
      requires Distinct(nodes[c].kind.keys) && forall x | x in nodes[c].kind.keys :: x < |nodes|
      modifies this
      ensures |nodes| == old(|nodes|)
      ensures forall x | 0 <= x < |nodes| ::
                nodes[x] == if x in old(nodes[c].kind.keys) then Detached(old(nodes[x]), c) else old(nodes[x])
      ensures log == old(log) + StopsOf(old(nodes), old(nodes[c].kind.keys), old(|nodes[c].kind.keys|), c)
      ensures promises == old(promises) && attempts == old(attempts) && tasks == old(tasks)
    {
      var keys := nodes[c].kind.keys;
      ghost var nodes0, log0 := nodes, log;
      var k := 0;
      ghost var done: set<nat> := {};
      while k < |keys|
        invariant 0 <= k <= |keys| && |nodes| == |nodes0| && done == Elems(keys[..k])
        invariant forall x | 0 <= x < |nodes| :: nodes[x] == if x in done then Detached(nodes0[x], c) else nodes0[x]
        invariant log == log0 + StopsOf(nodes0, keys, k, c)
        invariant promises == old(promises) && attempts == old(attempts) && tasks == old(tasks)
      {
        ghost var before := nodes;
        assert keys[k] in keys;
        RemoveDependent(keys[k], c);
        DetachStep(nodes0, before, nodes, keys, k, c, done);
        done := done + {keys[k]};
        k := k + 1;
      }
      assert keys[..k] == keys;
    }

    /** `validate(c)` sent by `c` to its dependent `j`. */
    method Validate(j: nat, c: nat)
      requires Inv() && c < |nodes| && j in nodes[c].dependents
      modifies this
      ensures Inv() && |nodes| == old(|nodes|) && nodes == old(nodes)[j := Validated(old(nodes[j]), c)]
      ensures promises == old(promises) && attempts == old(attempts) && tasks == old(tasks) && log == old(log)
    {
      assert LinkedBack(nodes, c, j) && NodeShape(nodes, c, |promises|, |attempts|);
      assert IsDependent(nodes, j) && NodeShape(nodes, j, |promises|, |attempts|);
      SameLinksKeeps(nodes, promises, attempts, tasks, {}, j, Validated(nodes[j], c));
      nodes := nodes[j := Validated(nodes[j], c)];
    }

    /** `validateDependents`: every dependent is told that `c` did not change. */
    method ValidateDependents(c: nat)
      requires Inv() && c < |nodes|
      modifies this
      ensures Inv() && |nodes| == old(|nodes|)
      ensures forall x | 0 <= x < |nodes| ::
                nodes[x] == if x in old(nodes[c].dependents) then Validated(old(nodes[x]), c) else old(nodes[x])
      ensures promises == old(promises) && attempts == old(attempts) && tasks == old(tasks) && log == old(log)
    {
      ghost var nodes0 := nodes;
      var pending := nodes[c].dependents;
      ghost var done: set<nat> := {};
      while pending != {}
        invariant Inv() && |nodes| == |nodes0| && nodes[c].dependents == nodes0[c].dependents
        invariant pending + done == nodes0[c].dependents && pending !! done
        invariant forall x | 0 <= x < |nodes| :: nodes[x] == if x in done then Validated(nodes0[x], c) else nodes0[x]
        invariant promises == old(promises) && attempts == old(attempts) && tasks == old(tasks) && log == old(log)
        decreases pending
      {
        var j :| j in pending;
        Validate(j, c);
        pending := pending - {j};
        done := done + {j};
      }
    }

    /** `finalizeComputing`: Valid, no attempt outstanding, a fresh pending
        placeholder; the old placeholder is left as it is. */
    method FinalizeComputing(c: nat)
      requires Inv() && c < |nodes| && nodes[c].kind.Computed?
      modifies this
      ensures Inv() && |nodes| == old(|nodes|)
      ensures nodes == old(nodes)[c := old(nodes[c]).(kind := old(nodes[c].kind).(state := Valid, lastAttempt := None, placeholder := old(|promises|)))]
      ensures promises == old(promises) + [Pending]
      ensures attempts == old(attempts) && tasks == old(tasks) && log == old(log)
    {
      var n := nodes[c].(kind := nodes[c].kind.(state := Valid, lastAttempt := None, placeholder := |promises|));
      ReplacePlaceholderKeeps(nodes, promises, attempts, tasks, c, Pending, n);
      assert promises[nodes[c].kind.placeholder := Pending] == promises;
      nodes := nodes[c := n];
      promises := promises + [Pending];
    }

    /** `handlePromiseThen` / `handlePromiseCatch` once the attempt guard has
        passed: the current placeholder settles to `s`, then finalize. */
    method SettlePlaceholder(c: nat, s: PromiseState)
      requires Inv() && c < |nodes| && nodes[c].kind.Computed?
      modifies this
      ensures Inv() && |nodes| == old(|nodes|)
      ensures nodes == old(nodes)[c := old(nodes[c]).(kind := old(nodes[c].kind).(state := Valid, lastAttempt := None, placeholder := old(|promises|)))]
      ensures promises == old(promises)[old(nodes[c].kind.placeholder) := s] + [Pending]
      ensures attempts == old(attempts) && tasks == old(tasks) && log == old(log)
    {
      var n := nodes[c].(kind := nodes[c].kind.(state := Valid, lastAttempt := None, placeholder := |promises|));
      ReplacePlaceholderKeeps(nodes, promises, attempts, tasks, c, s, n);
      promises := promises[nodes[c].kind.placeholder := s] + [Pending];
      nodes := nodes[c := n];
    }

    // -------------------------------------------------------------------------
    // Reading

    /** `value` of any node. A Listener whose value is `undefined` calls `init`
        and stores what it gives, on every such read; a Ref, a Watcher, any
        other Listener and a Valid or Computing Computed return what they hold
        and change nothing; an Invalid or Uncertain Computed computes. A
        successful read returns the node's value, and the node is then
        pinned. */
    method Read(n: nat, depth: nat) returns (r: Outcome)
      requires Inv()
      modifies this
      decreases depth, 5
      ensures Inv()
      ensures Advance(old(nodes), nodes, old(promises), promises, old(attempts), attempts, old(tasks), tasks, old(log), log, {})
      ensures n >= old(|nodes|) ==>
                r == Thrown(Dangling) && nodes == old(nodes) && promises == old(promises) &&
                attempts == old(attempts) && log == old(log)
      ensures n < old(|nodes|) && old(Pinned(nodes[n])) && !old(Uninitialised(nodes[n])) ==>
                r == Ok(old(nodes[n].value)) && nodes == old(nodes) && promises == old(promises) &&
                attempts == old(attempts) && log == old(log)
      ensures n < old(|nodes|) && old(Uninitialised(nodes[n])) ==>
                r == Ok(old(nodes[n].kind.init)) && nodes == old(nodes)[n := old(nodes[n]).(value := old(nodes[n].kind.init))] &&
                promises == old(promises) && attempts == old(attempts) && log == old(log) + [Initialised(n)]
      ensures n < old(|nodes|) && old(nodes[n].kind.Computed?) && old(nodes[n].kind.state) == Invalid ==>
                Count(log, GetterCalled(n)) == Count(old(log), GetterCalled(n)) + 1
      ensures n < old(|nodes|) && old(Settled(nodes, n)) ==>
                && r == Ok(old(nodes[n].value)) && ShortCircuited(old(nodes), nodes, n, old(|promises|))
                && promises == old(promises) + [Pending] && attempts == old(attempts) && log == old(log)
      ensures 0 < depth && n < old(|nodes|) && old(nodes[n].kind.Computed?) && old(nodes[n].kind.state) == Uncertain &&
              old(DependenciesSettled(nodes, n)) ==>
                r == Ok(old(nodes[n].value)) && log == old(log)
      ensures 0 < depth && old(ChangeFound(nodes, n)) ==>
                Count(log, GetterCalled(n)) == Count(old(log), GetterCalled(n)) + 1
      ensures r.Ok? ==> n < |nodes| && Pinned(nodes[n]) && r.value == nodes[n].value
    {
      if n >= |nodes| {
        AdvanceRefl(nodes, promises, attempts, tasks, log);
        return Thrown(Dangling);
      }
      if Uninitialised(nodes[n]) {
        ghost var n0, l0 := nodes, log;
        var init := nodes[n].kind.init;
        SameLinksKeeps(nodes, promises, attempts, tasks, {}, n, nodes[n].(value := init));
        EvolvesOne(nodes, n, nodes[n].(value := init), {});
        nodes := nodes[n := nodes[n].(value := init)];
        log := log + [Initialised(n)];
        assert log[|l0|] == Initialised(n);
        return Ok(init);
      }
      if Pinned(nodes[n]) {
        AdvanceRefl(nodes, promises, attempts, tasks, log);
        return Ok(nodes[n].value);
      }
      ghost var shortCircuit;
      r, shortCircuit := Compute(n, depth);
    }

    /** `compute` from a read of an Invalid or Uncertain Computed. An Uncertain
        one first re-reads its dependencies; if all of them validated it, it
        becomes Valid without calling the getter, validates its own
        dependents and returns its cached value. Otherwise the getter runs. */
    method Compute(c: nat, depth: nat) returns (r: Outcome, ghost shortCircuit: bool)
      requires Inv() && c < |nodes| && nodes[c].kind.Computed?
      requires nodes[c].kind.state == Invalid || nodes[c].kind.state == Uncertain
      modifies this
      decreases depth, 4
      ensures Inv()
      ensures Advance(old(nodes), nodes, old(promises), promises, old(attempts), attempts, old(tasks), tasks, old(log), log, {})
      ensures r.Ok? ==> Pinned(nodes[c]) && r.value == nodes[c].value
      ensures old(nodes[c].kind.state) == Invalid ==>
                !shortCircuit && Count(log, GetterCalled(c)) == Count(old(log), GetterCalled(c)) + 1
      ensures old(Settled(nodes, c)) ==>
                && shortCircuit && r == Ok(old(nodes[c].value)) && ShortCircuited(old(nodes), nodes, c, old(|promises|))
                && promises == old(promises) + [Pending] && attempts == old(attempts) && log == old(log)
      ensures 0 < depth && old(nodes[c].kind.state) == Uncertain && old(DependenciesSettled(nodes, c)) ==>
                shortCircuit && r == Ok(old(nodes[c].value)) && log == old(log)
      ensures 0 < depth && old(ChangeFound(nodes, c)) ==>
                !shortCircuit && Count(log, GetterCalled(c)) == Count(old(log), GetterCalled(c)) + 1
      ensures shortCircuit ==>
                && old(nodes[c].kind.state) == Uncertain && r == Ok(nodes[c].value)
                && nodes[c].kind.state == Valid && nodes[c].kind.lastAttempt == None
                && nodes[c].kind.placeholder == |promises| - 1
                && forall j | j in nodes[c].dependents :: IsValidated(nodes, c, j)
    {
      ghost var n0, ps0, as0, l0 := nodes, promises, attempts, log;
      shortCircuit := false;
      if nodes[c].kind.state == Uncertain {
        var stop;
        ghost var verdict;
        r, stop, shortCircuit, verdict := Revalidate(c, depth);
        if stop {
          return;
        }
      } else {
        AdvanceRefl(nodes, promises, attempts, tasks, log);
      }
      ghost var n1, ps1, as1, l1 := nodes, promises, attempts, log;
      ghost var answers, extra;
      r, answers, extra := RunCompute(c, depth);
      AdvanceThrough(n0, n1, nodes, ps0, ps1, promises, as0, as1, attempts, tasks, l0, l1, log, c);
    }

    /** The first part of an Uncertain compute (src/computed.ts:50-61): the
        dependencies are re-read (`verdict`); a read that throws ends the
        compute with that fault, and if every dependency validated the node
        it keeps its value (`shortCircuit`). Otherwise (`!stop`) the getter is
        still to run. */
    method Revalidate(c: nat, depth: nat) returns (r: Outcome, stop: bool, ghost shortCircuit: bool, ghost verdict: Verdict)
      requires Inv() && c < |nodes| && nodes[c].kind.Computed? && nodes[c].kind.state == Uncertain
      modifies this
      decreases depth, 3
      ensures Inv() && |nodes| == old(|nodes|) && nodes[c].kind.Computed?
      ensures Advance(old(nodes), nodes, old(promises), promises, old(attempts), attempts, old(tasks), tasks, old(log), log, {})
      ensures shortCircuit <==> verdict == Unchanged
      ensures stop <==> verdict != Changed
      ensures verdict.Failed? ==> r == Thrown(verdict.fault)
      ensures old(Settled(nodes, c)) ==>
                && shortCircuit && r == Ok(old(nodes[c].value)) && ShortCircuited(old(nodes), nodes, c, old(|promises|))
                && promises == old(promises) + [Pending] && attempts == old(attempts) && log == old(log)
      ensures 0 < depth && old(DependenciesSettled(nodes, c)) ==>
                shortCircuit && r == Ok(old(nodes[c].value)) && log == old(log)
      ensures 0 < depth && old(ChangeFound(nodes, c)) ==>
                && !stop && verdict == Changed
                && Count(log, GetterCalled(c)) == Count(old(log), GetterCalled(c))
      ensures shortCircuit ==>
                && r == Ok(nodes[c].value)
                && nodes[c].kind.state == Valid && nodes[c].kind.lastAttempt == None
                && nodes[c].kind.placeholder == |promises| - 1
                && forall j | j in nodes[c].dependents :: IsValidated(nodes, c, j)
    {
      ghost var n0, ps0, as0, l0 := nodes, promises, attempts, log;
      ghost var checked;
      var v;
      v, checked := CheckUnchanged(c, depth);
      verdict := v;
      if 0 < depth && ChangeFound(n0, c) {
        ghost var j: nat :| ChangedAt(n0, c, j);
        CountAppend(l0, [Initialised(n0[c].kind.keys[j])], GetterCalled(c));
      }
      if v.Failed? {
        return Thrown(v.fault), true, false, verdict;
      }
      if v == Unchanged {
        ghost var n1, ps1, as1, l1 := nodes, promises, attempts, log;
        r := KeepValue(c);
        AdvanceThrough(n0, n1, nodes, ps0, ps1, promises, as0, as1, attempts, tasks, l0, l1, log, c);
        return r, true, true, verdict;
      }
      r, stop, shortCircuit := Thrown(Dangling), false, false;
    }

    /** The short circuit of an Uncertain compute whose dependencies all kept
        their values: the current value is final, and the dependents that
        were made Uncertain by this node are Valid again. */
    method KeepValue(c: nat) returns (r: Outcome)
      requires Inv() && c < |nodes| && nodes[c].kind.Computed?
      modifies this
      ensures Inv() && |nodes| == old(|nodes|)
      ensures Advance(old(nodes), nodes, old(promises), promises, old(attempts), attempts, old(tasks), tasks, old(log), log, {c})
      ensures attempts == old(attempts) && log == old(log)
      ensures r == Ok(old(nodes[c].value)) && nodes[c].value == old(nodes[c].value) && nodes[c].kind.Computed?
      ensures nodes[c].kind.state == Valid && nodes[c].kind.lastAttempt == None
      ensures nodes[c].kind.placeholder == |promises| - 1
      ensures forall j | j in nodes[c].dependents :: IsValidated(nodes, c, j)
      ensures ShortCircuited(old(nodes), nodes, c, old(|promises|)) && promises == old(promises) + [Pending]
    {
      ghost var n1 := nodes;
      FinalizeComputing(c);
      EvolvesOne(n1, c, nodes[c], {c});
      ghost var n2 := nodes;
      ValidateDependents(c);
      ValidatedEvolves(n2, nodes, n2[c].dependents, c);
      EvolvesTrans(n1, n2, nodes, {c}, {});
      assert {c} + {} == {c};
      ValidatedAll(n2, nodes, c);
      r := Ok(nodes[c].value);
    }

    /** The first loop of an Uncertain compute: every tracked dependency is
        marked as possibly changed, and nothing else changes. */
    method MarkAllChanged(c: nat)
      requires Inv() && c < |nodes| && nodes[c].kind.Computed?
      modifies this
      ensures Inv() && |nodes| == old(|nodes|) && nodes[c].kind.Computed?
      ensures nodes == old(nodes)[c := old(nodes[c]).(kind := old(nodes[c].kind).(flags := nodes[c].kind.flags))]
      ensures nodes[c].kind.flags.Keys == old(nodes[c].kind.flags.Keys)
      ensures forall d | d in nodes[c].kind.flags :: nodes[c].kind.flags[d]
      ensures promises == old(promises) && attempts == old(attempts) && tasks == old(tasks) && log == old(log)
    {
      ghost var n0 := nodes;
      assert NodeShape(nodes, c, |promises|, |attempts|);
      var keys := nodes[c].kind.keys;
      var k := 0;
      while k < |keys|
        invariant 0 <= k <= |keys| && |nodes| == |n0| && nodes[c].kind.Computed?
        invariant nodes == n0[c := n0[c].(kind := n0[c].kind.(flags := nodes[c].kind.flags))]
        invariant promises == old(promises) && attempts == old(attempts) && tasks == old(tasks) && log == old(log)
        invariant nodes[c].kind.flags.Keys == n0[c].kind.flags.Keys
        invariant forall d | d in nodes[c].kind.flags :: nodes[c].kind.flags[d] == (d in keys[..k] || n0[c].kind.flags[d])
      {
        assert keys[..k + 1] == keys[..k] + [keys[k]];
        nodes := nodes[c := nodes[c].(kind := nodes[c].kind.(flags := nodes[c].kind.flags[keys[k] := true]))];
        k := k + 1;
      }
      assert keys[..k] == keys;
      SameLinksKeeps(n0, promises, attempts, tasks, {}, c, nodes[c]);
    }

    /** The short-circuit of an Uncertain compute: after marking every flag,
        the dependencies are re-read in their tracking order, and the walk
        stops at the first one whose flag is still set once its read is done
        (a validate during the read clears it), or at a read that throws.
        `checked` is how many were read. */
    method CheckUnchanged(c: nat, depth: nat) returns (v: Verdict, ghost checked: nat)
      requires Inv() && c < |nodes| && nodes[c].kind.Computed? && nodes[c].kind.state == Uncertain
      modifies this
      decreases depth, 2
      ensures Inv() && |nodes| == old(|nodes|) && nodes[c].kind.Computed?
      ensures Advance(old(nodes), nodes, old(promises), promises, old(attempts), attempts, old(tasks), tasks, old(log), log, {})
      ensures checked <= |old(nodes[c].kind.keys)|
      ensures v == Unchanged ==> checked == |old(nodes[c].kind.keys)|
      ensures v == Changed ==> 0 < checked && Flagged(nodes[c], old(nodes[c].kind.keys)[checked - 1])
      ensures v.Failed? ==> 0 < checked
      ensures old(nodes[c].kind.keys) == [] ==>
                v == Unchanged && nodes == old(nodes) && promises == old(promises) &&
                attempts == old(attempts) && log == old(log)
      ensures 0 < depth && old(DependenciesSettled(nodes, c)) ==>
                && v == Unchanged && log == old(log)
                && nodes[c].value == old(nodes[c].value) && nodes[c].kind.state == Uncertain
      ensures forall j: nat | old(ChangedAt(nodes, c, j)) ::
                0 < depth ==>
                  && v == Changed && checked == j + 1
                  && (log == old(log) || log == old(log) + [Initialised(old(nodes[c].kind.keys)[j])])
    {
      ghost var n0, ps0, as0, l0 := nodes, promises, attempts, log;
      assert NodeShape(nodes, c, |promises|, |attempts|);
      var keys := nodes[c].kind.keys;
      MarkAllChanged(c);
      if keys == [] {
        assert nodes[c].kind.flags == map[];
        assert nodes == n0;
        return Unchanged, 0;
      }
      EvolvesOne(n0, c, nodes[c], {});
      assert Distinct(keys);
      if DependenciesSettled(n0, c) {
        SettledMarked(n0, nodes, c, nodes[c].kind.flags);
      }
      ChangedMarked(n0, nodes, c, nodes[c].kind.flags);
      v, checked := RereadDependencies(c, keys, depth, n0, ps0, as0, l0);
    }

    /** The walk of `CheckUnchanged` over the dependencies `keys` of `c`, in
        order: it stops after the first read that throws or that leaves the
        flag of its dependency set. While every dependency is settled, no read
        calls user code and the walk gets to the end. */
    method RereadDependencies(c: nat, keys: seq<nat>, depth: nat,
                              ghost a0: seq<Node>, ghost ps0: seq<PromiseState>, ghost as0: seq<Attempt>, ghost l0: seq<Event>)
      returns (v: Verdict, ghost checked: nat)
      requires Inv() && c < |nodes| && nodes[c].kind.Computed? && keys != [] && Distinct(keys)
      requires Advance(a0, nodes, ps0, promises, as0, attempts, tasks, tasks, l0, log, {})
      modifies this
      decreases depth, 1
      ensures Inv() && |nodes| == old(|nodes|) && nodes[c].kind.Computed? && tasks == old(tasks)
      ensures Advance(a0, nodes, ps0, promises, as0, attempts, tasks, tasks, l0, log, {})
      ensures checked <= |keys|
      ensures v == Unchanged ==> checked == |keys|
      ensures v == Changed ==> 0 < checked && Flagged(nodes[c], keys[checked - 1])
      ensures v.Failed? ==> 0 < checked
      ensures 0 < depth && old(log) == l0 && old(SettledFrom(a0, nodes, c, keys, 0)) ==>
                v == Unchanged && log == l0 && SettledFrom(a0, nodes, c, keys, |keys|)
      ensures forall j: nat | old(ChangedFrom(nodes, c, keys, 0, j)) ::
                0 < depth ==>
                  && v == Changed && checked == j + 1
                  && (log == old(log) || log == old(log) + [Initialised(keys[j])])
    {
      if depth == 0 {
        return Failed(StackOverflow), 1;
      }
      ghost var settled := log == l0 && SettledFrom(a0, nodes, c, keys, 0);
      ghost var changing := exists j: nat :: ChangedFrom(nodes, c, keys, 0, j);
      ghost var j: nat := 0;
      ghost var l1 := log;
      if changing {
        j :| ChangedFrom(nodes, c, keys, 0, j);
        forall j' : nat | ChangedFrom(nodes, c, keys, 0, j') ensures j' == j {
          ChangedFromUnique(nodes, c, keys, 0, j, j');
        }
      }
      var k := 0;
      while k < |keys|
        invariant Inv() && k <= |keys| && c < |nodes| && |nodes| == old(|nodes|) && nodes[c].kind.Computed?
        invariant tasks == old(tasks)
        invariant Advance(a0, nodes, ps0, promises, as0, attempts, tasks, tasks, l0, log, {})
        invariant settled ==> log == l0 && SettledFrom(a0, nodes, c, keys, k)
        invariant changing ==> k <= j && log == l1 && ChangedFrom(nodes, c, keys, k, j)
      {
        ghost var met := changing && k == j;
        if met {
          assert keys[k] < |nodes| && Current(nodes[keys[k]]) && Flagged(nodes[c], keys[k]);
        }
        var x := RereadDependency(c, keys, k, depth, a0, ps0, as0, l0);
        if x.Thrown? {
          return Failed(x.fault), k + 1;
        }
        if Flagged(nodes[c], keys[k]) {
          return Changed, k + 1;
        }
        assert !met;
        k := k + 1;
      }
      return Unchanged, k;
    }

    /** One step of the walk of `CheckUnchanged`: the re-read of `keys[k]`, a
        dependency of `c`. While the dependencies from the `k`-th on are
        settled, the read succeeds, clears that dependency's flag in `c` and
        calls no user code. */
    method RereadDependency(c: nat, keys: seq<nat>, k: nat, depth: nat,
                            ghost a0: seq<Node>, ghost ps0: seq<PromiseState>, ghost as0: seq<Attempt>, ghost l0: seq<Event>)
      returns (x: Outcome)
      requires Inv() && c < |nodes| && nodes[c].kind.Computed? && k < |keys| && Distinct(keys) && 0 < depth
      requires Advance(a0, nodes, ps0, promises, as0, attempts, tasks, tasks, l0, log, {})
      modifies this
      decreases depth, 0
      ensures Inv() && |nodes| == old(|nodes|) && nodes[c].kind.Computed? && tasks == old(tasks)
      ensures Advance(a0, nodes, ps0, promises, as0, attempts, tasks, tasks, l0, log, {})
      ensures x.Ok? ==> keys[k] < |nodes| && Pinned(nodes[keys[k]]) && x.value == nodes[keys[k]].value
      ensures old(SettledFrom(a0, nodes, c, keys, k)) ==>
                && x.Ok? && log == old(log) && SettledFrom(a0, nodes, c, keys, k + 1)
                && !Flagged(nodes[c], keys[k])
      ensures forall j: nat | k < j && old(ChangedFrom(nodes, c, keys, k, j)) ::
                && x.Ok? && log == old(log) && ChangedFrom(nodes, c, keys, k + 1, j)
                && !Flagged(nodes[c], keys[k])
      ensures keys[k] < old(|nodes|) && old(Current(nodes[keys[k]])) ==>
                && x.Ok? && nodes[c] == old(nodes[c])
                && (log == old(log) || log == old(log) + [Initialised(keys[k])])
    {
      ghost var n1, ps1, as1, l1 := nodes, promises, attempts, log;
      ghost var settled := SettledFrom(a0, nodes, c, keys, k);
      if settled || exists j: nat :: k < j && ChangedFrom(nodes, c, keys, k, j) {
        assert Settled(nodes, keys[k]);
      }
      x := Read(keys[k], depth - 1);
      AdvanceTrans(a0, n1, nodes, ps0, ps1, promises, as0, as1, attempts, tasks, tasks, tasks,
                   l0, l1, log, {}, {});
      if settled {
        SettledRead(a0, n1, nodes, ps1, as1, tasks, c, keys, k, |ps1|);
      }
      forall j: nat | k < j && ChangedFrom(n1, c, keys, k, j)
        ensures ChangedFrom(nodes, c, keys, k + 1, j) && !Flagged(nodes[c], keys[k])
      {
        ChangedRead(n1, nodes, ps1, as1, tasks, c, keys, k, j, |ps1|);
      }
    }

    /** The getter run of `compute`: Computing, the old dependencies cleared,
        the previous value kept aside, the getter called with the tracking
        callback. A synchronous result finalizes to Valid, fulfils the current
        placeholder with that result and, if it `===` the previous value,
        validates the dependents; a promise starts a new attempt and the value
        becomes the current placeholder; a throw leaves the state Computing and
        the previous value in place. The dependencies are then exactly those
        the getter named, in first-read order (`extra` is the one whose read
        threw after registering, if any). */
    method RunCompute(c: nat, depth: nat) returns (r: Outcome, ghost answers: seq<Value>, ghost extra: seq<nat>)
      requires Inv() && c < |nodes| && nodes[c].kind.Computed?
      modifies this
      decreases depth, 3
      ensures Inv() && |nodes| == old(|nodes|) && nodes[c].kind.Computed?
      ensures Advance(old(nodes), nodes, old(promises), promises, old(attempts), attempts, old(tasks), tasks, old(log), log, {c})
      ensures var stops := StopsOf(old(nodes), old(nodes[c].kind.keys), |old(nodes[c].kind.keys)|, c);
                |log| > |old(log)| + |stops| && log[..|old(log)| + |stops| + 1] == old(log) + stops + [GetterCalled(c)]
      ensures Count(log, GetterCalled(c)) == Count(old(log), GetterCalled(c)) + 1
      ensures var g := old(nodes[c].kind.getter); var w := Walk(g, answers);
                && nodes[c].kind.getter == g
                && nodes[c].kind.keys == Dedup(ReadIds(g, answers) + extra) && |extra| <= 1
                && Answered(nodes, ReadIds(g, answers), answers, c)
                && (w.Read? ==> r.Thrown?)
                && (w.Throw? ==> r == Thrown(UserError(w.code)) && extra == [])
                && (w.Return? ==> r.Ok? && extra == [])
                && (w.Return? && !IsPromise(w.result) ==> r == Ok(w.result))
                && (w.Return? && IsPromise(w.result) ==> r == Ok(Promise(old(nodes[c].kind.placeholder))))
      ensures r.Thrown? ==>
                && nodes[c].value == old(nodes[c].value) && nodes[c].kind.state == Computing
                && nodes[c].kind.placeholder == old(nodes[c].kind.placeholder)
                && nodes[c].kind.lastAttempt == old(nodes[c].kind.lastAttempt)
      ensures r.Ok? && !IsPromise(r.value) ==>
                && nodes[c].value == r.value && nodes[c].kind.state == Valid && nodes[c].kind.lastAttempt == None
                && promises[old(nodes[c].kind.placeholder)] == Fulfilled(r.value)
                && nodes[c].kind.placeholder == |promises| - 1
      ensures r.Ok? && !IsPromise(r.value) && r.value == old(nodes[c].value) ==>
                forall j | j in nodes[c].dependents :: IsValidated(nodes, c, j)
      ensures r.Ok? && IsPromise(r.value) ==>
                && nodes[c].value == r.value && nodes[c].kind.state == Computing
                && nodes[c].kind.placeholder == old(nodes[c].kind.placeholder)
                && |attempts| > 0 && nodes[c].kind.lastAttempt == Some(|attempts| - 1)
                && attempts[|attempts| - 1] == Attempt(c, false)
    {
      var lastValue := nodes[c].value;
      ghost var n0, ps0, as0, l0 := nodes, promises, attempts, log;
      r, answers, extra := Evaluate(c, depth);
      if r.Ok? {
        ghost var n1, ps1, as1, l1 := nodes, promises, attempts, log;
        r := Conclude(c, r.value, lastValue, ReadIds(n0[c].kind.getter, answers), answers);
        AdvanceTrans(n0, n1, nodes, ps0, ps1, promises, as0, as1, attempts, tasks, tasks, tasks,
                     l0, l1, log, {c}, {c});
        assert {c} + {c} == {c};
      }
    }

    /** The getter run of a compute, up to its result: the node is Computing
        with its previous value, untracked and then tracking what the getter
        reads. */
    method Evaluate(c: nat, depth: nat) returns (r: Outcome, ghost answers: seq<Value>, ghost extra: seq<nat>)
      requires Inv() && c < |nodes| && nodes[c].kind.Computed?
      modifies this
      decreases depth, 2
      ensures Inv() && |nodes| == old(|nodes|) && nodes[c].kind.Computed?
      ensures Advance(old(nodes), nodes, old(promises), promises, old(attempts), attempts, old(tasks), tasks, old(log), log, {c})
      ensures var stops := StopsOf(old(nodes), old(nodes[c].kind.keys), |old(nodes[c].kind.keys)|, c);
                |log| > |old(log)| + |stops| && log[..|old(log)| + |stops| + 1] == old(log) + stops + [GetterCalled(c)]
      ensures Count(log, GetterCalled(c)) == Count(old(log), GetterCalled(c)) + 1
      ensures var g := old(nodes[c].kind.getter); var ids := ReadIds(g, answers); var w := Walk(g, answers);
                && nodes[c].value == old(nodes[c].value)
                && nodes[c].kind == old(nodes[c].kind).(state := Computing, keys := Dedup(ids + extra), flags := nodes[c].kind.flags)
                && |extra| <= 1 && Answered(nodes, ids, answers, c)
                && (r.Ok? <==> w.Return?)
                && (w.Return? ==> r == Ok(w.result) && extra == [])
                && (w.Throw? ==> r == Thrown(UserError(w.code)) && extra == [])
    {
      ghost var n0, ps0, as0, l0 := nodes, promises, attempts, log;
      ghost var stops := StopsOf(n0, n0[c].kind.keys, |n0[c].kind.keys|, c);
      BeginCompute(c);
      ghost var n1, ps1, as1, l1 := nodes, promises, attempts, log;
      r, answers, extra := RunGetter(c, depth);
      AdvanceTrans(n0, n1, nodes, ps0, ps1, promises, as0, as1, attempts, tasks, tasks, tasks,
                   l0, l1, log, {c}, {c});
      assert {c} + {c} == {c};
      GetterCountedOnce(l0, stops, log, c);
    }

    /** The getter returned `v`: a promise starts an attempt, any other value
        is the new result. */
    method Conclude(c: nat, v: Value, lastValue: Value, ghost ids: seq<nat>, ghost answers: seq<Value>) returns (r: Outcome)
      requires Inv() && c < |nodes| && nodes[c].kind.Computed? && Answered(nodes, ids, answers, c)
      modifies this
      ensures Inv() && |nodes| == old(|nodes|) && nodes[c].kind.Computed?
      ensures Advance(old(nodes), nodes, old(promises), promises, old(attempts), attempts, old(tasks), tasks, old(log), log, {c})
      ensures log == old(log) && Answered(nodes, ids, answers, c)
      ensures nodes[c].kind.getter == old(nodes[c].kind.getter) && nodes[c].kind.keys == old(nodes[c].kind.keys)
      ensures !IsPromise(v) ==>
                && r == Ok(v) && nodes[c].value == v && nodes[c].kind.state == Valid && nodes[c].kind.lastAttempt == None
                && promises[old(nodes[c].kind.placeholder)] == Fulfilled(v)
                && nodes[c].kind.placeholder == |promises| - 1 && attempts == old(attempts)
      ensures !IsPromise(v) && v == lastValue ==> forall j | j in nodes[c].dependents :: IsValidated(nodes, c, j)
      ensures IsPromise(v) ==>
                && r == Ok(Promise(old(nodes[c].kind.placeholder))) && nodes[c].value == r.value
                && nodes[c].kind.state == old(nodes[c].kind.state)
                && nodes[c].kind.placeholder == old(nodes[c].kind.placeholder)
                && |attempts| > 0 && nodes[c].kind.lastAttempt == Some(|attempts| - 1)
                && attempts[|attempts| - 1] == Attempt(c, false)
    {
      ghost var n0 := nodes;
      if v.Promise? {
        r := ConcludeAsync(c);
      } else {
        ConcludeSync(c, v, lastValue);
        r := Ok(v);
      }
      AnsweredStays(n0, nodes, {c}, ids, answers, c);
    }

    /** The start of a getter run: Computing, then `clearDependencies`, then
        the getter is called. */
    method BeginCompute(c: nat)
      requires Inv() && c < |nodes| && nodes[c].kind.Computed?
      modifies this
      ensures Inv() && |nodes| == old(|nodes|)
      ensures nodes[c].value == old(nodes[c].value)
      ensures nodes[c].kind == old(nodes[c].kind).(state := Computing, keys := [], flags := map[])
      ensures forall x | 0 <= x < |nodes| && x != c ::
                nodes[x] == if x in old(nodes[c].kind.keys) then Detached(old(nodes[x]), c) else old(nodes[x])
      ensures forall x | 0 <= x < |nodes| :: c !in nodes[x].dependents
      ensures log == old(log) + StopsOf(old(nodes), old(nodes[c].kind.keys), |old(nodes[c].kind.keys)|, c) + [GetterCalled(c)]
      ensures promises == old(promises) && attempts == old(attempts) && tasks == old(tasks)
      ensures Advance(old(nodes), nodes, old(promises), promises, old(attempts), attempts, old(tasks), tasks, old(log), log, {c})
    {
      ghost var n0, l0 := nodes, log;
      var keys := nodes[c].kind.keys;
      SameLinksKeeps(nodes, promises, attempts, tasks, {}, c, WithState(nodes[c], Computing));
      nodes := nodes[c := WithState(nodes[c], Computing)];
      StopsOfOther(n0, keys, |keys|, c, c, nodes[c]);
      ClearDependencies(c);
      log := log + [GetterCalled(c)];
      DetachedEvolves(n0, nodes, keys, c);
      StopsThenGetter(n0, l0, StopsOf(n0, keys, |keys|, c), c);
    }

    /** A synchronous getter result `v`: stored, the placeholder fulfilled with
        it, finalized; the dependents validated if `v === lastValue`. */
    method ConcludeSync(c: nat, v: Value, lastValue: Value)
      requires Inv() && c < |nodes| && nodes[c].kind.Computed?
      modifies this
      ensures Inv() && |nodes| == old(|nodes|) && nodes[c].kind.Computed?
      ensures Advance(old(nodes), nodes, old(promises), promises, old(attempts), attempts, old(tasks), tasks, old(log), log, {c})
      ensures nodes[c].value == v && nodes[c].kind.state == Valid && nodes[c].kind.lastAttempt == None
      ensures nodes[c].kind.getter == old(nodes[c].kind.getter) && nodes[c].kind.keys == old(nodes[c].kind.keys)
      ensures promises[old(nodes[c].kind.placeholder)] == Fulfilled(v) && nodes[c].kind.placeholder == |promises| - 1
      ensures attempts == old(attempts) && log == old(log)
      ensures v == lastValue ==> forall j | j in nodes[c].dependents :: IsValidated(nodes, c, j)
    {
      ghost var n0, ps0 := nodes, promises;
      assert NodeShape(nodes, c, |promises|, |attempts|);
      SameLinksKeeps(nodes, promises, attempts, tasks, {}, c, nodes[c].(value := v));
      nodes := nodes[c := nodes[c].(value := v)];
      SettlePlaceholder(c, Fulfilled(v));
      EvolvesOne(n0, c, nodes[c], {c});
      assert n0[c := nodes[c]] == nodes;
      if v == lastValue {
        ghost var n1 := nodes;
        ValidateDependents(c);
        ValidatedEvolves(n1, nodes, n1[c].dependents, c);
        EvolvesTrans(n0, n1, nodes, {c}, {});
        assert {c} + {} == {c};
        ValidatedAll(n1, nodes, c);
      }
    }

    /** A promise from the getter: a new attempt becomes the latest and the
        value is the current placeholder, which stays pending. */
    method ConcludeAsync(c: nat) returns (r: Outcome)
      requires Inv() && c < |nodes| && nodes[c].kind.Computed?
      modifies this
      ensures Inv()
      ensures nodes == old(nodes)[c := Node(Promise(old(nodes[c].kind.placeholder)), old(nodes[c].dependents),
                                            old(nodes[c].kind).(lastAttempt := Some(old(|attempts|))))]
      ensures attempts == old(attempts) + [Attempt(c, false)]
      ensures r == Ok(Promise(old(nodes[c].kind.placeholder)))
      ensures promises == old(promises) && tasks == old(tasks) && log == old(log)
      ensures Advance(old(nodes), nodes, old(promises), promises, old(attempts), attempts, old(tasks), tasks, old(log), log, {c})
    {
      var n := Node(Promise(nodes[c].kind.placeholder), nodes[c].dependents, nodes[c].kind.(lastAttempt := Some(|attempts|)));
      AttemptKeeps(nodes, promises, attempts, tasks, c);
      EvolvesOne(nodes, c, n, {c});
      nodes := nodes[c := n];
      attempts := attempts + [Attempt(c, false)];
      r := Ok(n.value);
      assert old(attempts) <= attempts;
      assert PromisesGrow(promises, promises);
      assert Evolves(old(nodes), nodes, {c});
      assert tasks == old(tasks) && log == old(log);
    }

    /** The getter called with the tracking callback: each read names a
        dependency, which is tracked and read; the getter ends when it
        returns or throws, or when a read throws. `answers` are the values it
        was given. */
    method RunGetter(c: nat, depth: nat) returns (r: Outcome, ghost answers: seq<Value>, ghost extra: seq<nat>)
      requires Inv() && c < |nodes| && nodes[c].kind.Computed? && nodes[c].kind.state == Computing
      requires nodes[c].kind.keys == []
      modifies this
      decreases depth, 1
      ensures Inv() && |nodes| == old(|nodes|)
      ensures Advance(old(nodes), nodes, old(promises), promises, old(attempts), attempts, old(tasks), tasks, old(log), log, {c})
      ensures forall k | old(|log|) <= k < |log| :: log[k] != GetterCalled(c)
      ensures var g := old(nodes[c].kind.getter); var ids := ReadIds(g, answers); var w := Walk(g, answers);
                && nodes[c].value == old(nodes[c].value)
                && nodes[c].kind == old(nodes[c].kind).(keys := Dedup(ids + extra), flags := nodes[c].kind.flags)
                && |extra| <= 1 && Answered(nodes, ids, answers, c)
                && (r.Ok? <==> w.Return?)
                && (w.Return? ==> r == Ok(w.result) && extra == [])
                && (w.Throw? ==> r == Thrown(UserError(w.code)) && extra == [])
    {
      ghost var n0, ps0, as0, l0 := nodes, promises, attempts, log;
      ghost var k0, v0 := nodes[c].kind, nodes[c].value;
      var g := nodes[c].kind.getter;
      assert NodeShape(nodes, c, |promises|, |attempts|);
      ghost var b: nat :| Bounded(g, b);
      answers, extra := [], [];
      AdvanceRefl(nodes, promises, attempts, tasks, log);
      assert k0.(keys := Dedup([]), flags := nodes[c].kind.flags) == nodes[c].kind;
      while g.Read?
        invariant Inv() && |nodes| == |n0| && |answers| <= b && tasks == old(tasks)
        invariant g == Walk(k0.getter, answers) && Bounded(g, b - |answers|)
        invariant RunSoFar(n0, nodes, ps0, promises, as0, attempts, tasks, l0, log, c, k0, v0, answers)
        decreases b - |answers|
      {
        ghost var n1, ps1, as1, l1 := nodes, promises, attempts, log;
        ghost var registers := g.dep < |nodes| && g.dep !in nodes[c].dependents;
        var x := Track(c, g.dep, depth);
        if x.Thrown? {
          extra := if registers then [g.dep] else [];
          GetterStop(n0, n1, nodes, ps0, ps1, promises, as0, as1, attempts, tasks, l0, l1, log, c, k0, v0, answers, g.dep, extra);
          return x, answers, extra;
        }
        GetterStep(n0, n1, nodes, ps0, ps1, promises, as0, as1, attempts, tasks, l0, l1, log, c, k0, v0, answers, x.value);
        BoundedStep(g, b - |answers|, x.value);
        WalkExtend(k0.getter, answers, x.value);
        answers := answers + [x.value];
        g := g.next(x.value);
      }
      assert ReadIds(k0.getter, answers) + [] == ReadIds(k0.getter, answers);
      if g.Return? {
        r := Ok(g.result);
      } else {
        r := Thrown(UserError(g.code));
      }
    }

    /** `trackDependency(d)` during the getter run of `c`: a dependency that is
        already a dependent of `c` throws the circular-dependency error before
        anything changes; otherwise `d` is flagged in the map, `c` joins its
        dependents and `d` is read. */
    method Track(c: nat, d: nat, depth: nat) returns (r: Outcome)
      requires Inv() && c < |nodes| && nodes[c].kind.Computed? && nodes[c].kind.state == Computing
      modifies this
      decreases depth, 0
      ensures Inv() && |nodes| == old(|nodes|)
      ensures Advance(old(nodes), nodes, old(promises), promises, old(attempts), attempts, old(tasks), tasks, old(log), log, {c})
      ensures forall k | old(|log|) <= k < |log| :: log[k] != GetterCalled(c)
      ensures nodes[c].value == old(nodes[c].value)
      ensures var keys := old(nodes[c].kind.keys);
                nodes[c].kind == old(nodes[c].kind).(keys := nodes[c].kind.keys, flags := nodes[c].kind.flags) &&
                nodes[c].kind.keys == if d < old(|nodes|) && d !in old(nodes[c].dependents) then AddKey(keys, d) else keys
      ensures d >= old(|nodes|) ==>
                r == Thrown(Dangling) && nodes == old(nodes) && promises == old(promises) &&
                attempts == old(attempts) && log == old(log)
      ensures d < old(|nodes|) && d in old(nodes[c].dependents) ==>
                r == Thrown(CircularDependency) && nodes == old(nodes) && promises == old(promises) &&
                attempts == old(attempts) && log == old(log)
      ensures d < old(|nodes|) && d !in old(nodes[c].dependents) ==>
                |log| >= |old(log)| + |StartOf(old(nodes), d)| &&
                log[..|old(log)| + |StartOf(old(nodes), d)|] == old(log) + StartOf(old(nodes), d)
      ensures r.Ok? ==> d < |nodes| && Pinned(nodes[d]) && r.value == nodes[d].value
    {
      if d >= |nodes| {
        AdvanceRefl(nodes, promises, attempts, tasks, log);
        return Thrown(Dangling);
      }
      if d in nodes[c].dependents {
        AdvanceRefl(nodes, promises, attempts, tasks, log);
        return Thrown(CircularDependency);
      }
      ghost var n0, ps0, as0, l0 := nodes, promises, attempts, log;
      Register(c, d);
      if depth == 0 {
        return Thrown(StackOverflow);
      }
      ghost var n1, ps1, as1, l1 := nodes, promises, attempts, log;
      r := Read(d, depth - 1);
      ReadWhileComputing(n0, n1, nodes, ps0, ps1, promises, as0, as1, attempts, tasks, l0, l1, log, c);
    }

    /** The registration half of `trackDependency(d)`: `d` is flagged in the
        map of `c` and `c` joins the dependents of `d` (a Listener calls
        `start` if it was not listening). */
    method Register(c: nat, d: nat)
      requires Inv() && c < |nodes| && nodes[c].kind.Computed? && nodes[c].kind.state == Computing
      requires d < |nodes|
      modifies this
      ensures Inv() && |nodes| == old(|nodes|)
      ensures Advance(old(nodes), nodes, old(promises), promises, old(attempts), attempts, old(tasks), tasks, old(log), log, {c})
      ensures forall k | old(|log|) <= k < |log| :: log[k] != GetterCalled(c)
      ensures log == old(log) + StartOf(old(nodes), d)
      ensures promises == old(promises) && attempts == old(attempts)
      ensures nodes[c].value == old(nodes[c].value) && nodes[c].kind == Tracked(old(nodes[c]), d, trackFlag).kind
    {
      ghost var n0, l0 := nodes, log;
      TrackKeeps(nodes, promises, attempts, tasks, c, d, trackFlag);
      EvolvesOne(nodes, c, Tracked(nodes[c], d, trackFlag), {c});
      nodes := nodes[c := Tracked(nodes[c], d, trackFlag)];
      ghost var m := nodes;
      AttachKeeps(nodes, promises, attempts, tasks, d, c);
      AttachedPersists(nodes[d], c);
      EvolvesOne(nodes, d, Attached(nodes[d], c), {c});
      assert StartOf(m, d) == StartOf(n0, d);
      AddDependent(d, c);
      EvolvesTrans(n0, m, nodes, {c}, {c});
      assert {c} + {c} == {c};
      forall k | |l0| <= k < |log| ensures log[k] != GetterCalled(c) && ReadEvent(n0, {c}, log[k]) {
        assert log[k] in StartOf(n0, d);
      }
    }

    // -------------------------------------------------------------------------
    // Disposal and settlement

    /** `dispose` of a Computed: its dependencies are cleared, it is Invalid
        with an `undefined` value and no attempt, and it gets a fresh
        placeholder; the previous placeholder is left as it was. The next read
        computes again. */
    method ComputedDispose(c: nat)
      requires Inv() && c < |nodes| && nodes[c].kind.Computed?
      modifies this
      ensures Inv() && |nodes| == old(|nodes|)
      ensures forall x | 0 <= x < |nodes| && x != c ::
                nodes[x] == if x in old(nodes[c].kind.keys) then Detached(old(nodes[x]), c) else old(nodes[x])
      ensures var n := if c in old(nodes[c].kind.keys) then Detached(old(nodes[c]), c) else old(nodes[c]);
                nodes[c] == Node(Undef, n.dependents, n.kind.(state := Invalid, keys := [], flags := map[],
                                                              placeholder := old(|promises|), lastAttempt := None))
      ensures forall x | 0 <= x < |nodes| :: c !in nodes[x].dependents
      ensures promises == old(promises) + [Pending]
      ensures log == old(log) + StopsOf(old(nodes), old(nodes[c].kind.keys), old(|nodes[c].kind.keys|), c)
      ensures attempts == old(attempts) && tasks == old(tasks)
    {
      ClearDependencies(c);
      var n := Node(Undef, nodes[c].dependents,
                    nodes[c].kind.(state := Invalid, placeholder := |promises|, lastAttempt := None));
      ReplacePlaceholderKeeps(nodes, promises, attempts, tasks, c, Pending, n);
      assert promises[nodes[c].kind.placeholder := Pending] == promises;
      nodes := nodes[c := n];
      promises := promises + [Pending];
    }

    /** The `then` / `catch` handler of attempt `a`, run when the getter's
        promise settles with `result`. Only while `a` is its Computed's latest
        attempt does it settle the placeholder and finalize; a superseded
        attempt changes nothing but its own settled mark. */
    method SettleAttempt(a: nat, result: Outcome)
      requires Inv() && a < |attempts|
      modifies this
      ensures Inv() && |nodes| == old(|nodes|)
      ensures attempts == old(attempts)[a := old(attempts[a]).(settled := true)]
      ensures tasks == old(tasks) && log == old(log)
      ensures var c := old(attempts[a].owner);
                old(nodes[c].kind.lastAttempt) == Some(a) ==>
                  && nodes == old(nodes)[c := old(nodes[c]).(kind := old(nodes[c].kind).(state := Valid, lastAttempt := None,
                                                                                        placeholder := old(|promises|)))]
                  && promises == old(promises)[old(nodes[c].kind.placeholder) := Settlement(result)] + [Pending]
      ensures var c := old(attempts[a].owner);
                old(nodes[c].kind.lastAttempt) != Some(a) ==> nodes == old(nodes) && promises == old(promises)
      ensures var c := old(attempts[a].owner); var p := old(nodes[c].kind.placeholder);
                old(nodes[c].kind.lastAttempt) == Some(a) ==>
                  && p < |promises| && nodes[c].value == old(nodes[c].value)
                  && (result.Ok? ==> promises[p] == Fulfilled(result.value))
                  && (result.Thrown? ==> promises[p] == Rejected(result.fault))
    {
      var c := attempts[a].owner;
      assert attempts[a] in attempts;
      if nodes[c].kind.lastAttempt == Some(a) {
        SettlePlaceholder(c, Settlement(result));
      }
      SettledKeeps(nodes, promises, attempts, tasks, a);
      attempts := attempts[a := attempts[a].(settled := true)];
    }

    // -------------------------------------------------------------------------
    // Watchers

    /** The Watcher `w` captures `v` as its value. */
    method Capture(w: nat, v: Value)
      requires Inv() && w < |nodes| && nodes[w].kind.Watcher?
      modifies this
      ensures Inv() && nodes == old(nodes)[w := old(nodes[w]).(value := v)]
      ensures promises == old(promises) && attempts == old(attempts) && tasks == old(tasks) && log == old(log)
    {
      assert NodeShape(nodes, w, |promises|, |attempts|);
      SameLinksKeeps(nodes, promises, attempts, tasks, {}, w, nodes[w].(value := v));
      nodes := nodes[w := nodes[w].(value := v)];
    }

    /** The Watcher `w` calls `onChange(args)`: one more call for `w`, none for
        any other Watcher. */
    method Fire(w: nat, args: seq<Value>)
      modifies this
      ensures log == old(log) + [Fired(w, args)]
      ensures forall x :: Fires(log, x) == Fires(old(log), x) + (if x == w then [args] else [])
      ensures nodes == old(nodes) && promises == old(promises) && attempts == old(attempts) && tasks == old(tasks)
    {
      ghost var l0 := log;
      log := log + [Fired(w, args)];
      forall x ensures Fires(log, x) == Fires(l0, x) + (if x == w then [args] else []) {
        FiresAppend(l0, Fired(w, args), x);
      }
    }

    /** The registration half of `new Watcher(dependency, ...)`: a Valid
        Watcher of `dep` with no value yet joins the dependents of `dep`. */
    method AttachWatcher(dep: nat) returns (w: nat)
      requires Inv() && dep < |nodes|
      modifies this
      ensures Inv() && w == old(|nodes|) && |nodes| == w + 1
      ensures nodes == (old(nodes) + [Node(Undef, {}, Watcher(dep, Valid))])[dep := Attached(old(nodes[dep]), w)]
      ensures log == old(log) + StartOf(old(nodes), dep)
      ensures promises == old(promises) && attempts == old(attempts) && tasks == old(tasks)
    {
      w := |nodes|;
      var n := Node(Undef, {}, Watcher(dep, Valid));
      assert promises + [] == promises;
      AppendKeeps(nodes, promises, attempts, tasks, n, []);
      ghost var n0 := nodes;
      nodes := nodes + [n];
      WatchKeeps(nodes, promises, attempts, tasks, dep, w);
      AttachKeeps(nodes, promises, attempts, tasks, dep, w);
      assert StartOf(nodes, dep) == StartOf(n0, dep);
      AddDependent(dep, w);
    }

    /** `new Watcher(dependency, onChange, immediate)`: registered on `dep`
        first, then the value of `dep` is read and captured, and `onChange` is
        called once with it exactly when `immediate`. The Watcher is Valid. A
        read that throws leaves it registered with no value. */
    method NewWatcher(dep: nat, immediate: bool, depth: nat) returns (w: nat, r: Outcome)
      requires Inv() && dep < |nodes|
      modifies this
      decreases depth, 6
      ensures Inv() && w == old(|nodes|) && |nodes| == w + 1
      ensures nodes[w].kind == Watcher(dep, Valid) && w in nodes[dep].dependents
      ensures r.Ok? ==> Pinned(nodes[dep]) && r.value == nodes[dep].value && nodes[w].value == r.value
      ensures r.Thrown? ==> nodes[w].value == Undef
      ensures |log| >= |old(log)| + |StartOf(old(nodes), dep)| &&
              log[..|old(log)| + |StartOf(old(nodes), dep)|] == old(log) + StartOf(old(nodes), dep)
      ensures Fires(log, w) == Fires(old(log), w) + (if immediate && r.Ok? then [[r.value]] else [])
      ensures forall x | x != w :: Fires(log, x) == Fires(old(log), x)
      ensures tasks == old(tasks)
    {
      ghost var l0 := log;
      w := AttachWatcher(dep);
      QuietFires(l0, log);
      ghost var n1, ps1, as1, l1 := nodes, promises, attempts, log;
      assert w in n1[dep].dependents;
      r := Read(dep, depth);
      AdvanceQuiet(n1, nodes, ps1, promises, as1, attempts, tasks, tasks, l1, log, {});
      WatcherPersists(n1, nodes, {}, w, dep);
      assert NodeShape(nodes, w, |promises|, |attempts|);
      if r.Ok? {
        Capture(w, r.value);
        if immediate {
          Fire(w, [r.value]);
        }
      }
    }

    /** The deferred re-check a Watcher's `invalidate` queued: the captured
        value is replaced by a fresh read of the dependency; `onChange(new,
        old)` is called only if the Watcher is still Uncertain after that read
        (a `validate` that arrived before, or during the read, suppresses it),
        and then it is Valid. A read that throws leaves the value as it was
        and calls nothing; the state is left to the read, since a nested
        recompute of the dependency can validate the Watcher. */
    method WatcherRecheck(w: nat, depth: nat) returns (r: Outcome, ghost fired: bool, ghost validatedByRead: bool)
      requires Inv() && w < |nodes| && nodes[w].kind.Watcher?
      modifies this
      decreases depth, 7
      ensures Inv() && |nodes| == old(|nodes|) && nodes[w].kind.Watcher?
      ensures nodes[w].kind.dependency == old(nodes[w].kind.dependency)
      ensures fired ==> r.Ok? && |log| > 0 && log[|log| - 1] == Fired(w, [r.value, old(nodes[w].value)])
      ensures Advance(old(nodes), nodes, old(promises), promises, old(attempts), attempts, old(tasks), tasks,
                      old(log), if fired then log[..|log| - 1] else log, {w})
      ensures Fires(log, w) == Fires(old(log), w) + (if fired then [[r.value, old(nodes[w].value)]] else [])
      ensures forall x | x != w :: Fires(log, x) == Fires(old(log), x)
      ensures r.Ok? ==>
                var d := nodes[w].kind.dependency;
                d < |nodes| && Pinned(nodes[d]) && r.value == nodes[d].value &&
                nodes[w].value == r.value && nodes[w].kind.watchState == Valid
      ensures r.Thrown? ==> !fired && nodes[w].value == old(nodes[w].value)
      ensures fired ==> old(nodes[w].kind.watchState) == Uncertain
      ensures r.Ok? ==> (fired <==> old(nodes[w].kind.watchState) == Uncertain && !validatedByRead)
      ensures validatedByRead ==> old(nodes[w].kind.watchState) == Uncertain
      ensures var d := old(nodes[w].kind.dependency);
                d < old(|nodes|) && old(nodes[w].kind.watchState) == Uncertain && old(Pinned(nodes[d])) ==> fired
      ensures var d := old(nodes[w].kind.dependency);
                d < old(|nodes|) && old(Settled(nodes, d)) && w in old(nodes[d].dependents) &&
                old(nodes[w].kind.watchState) == Uncertain ==>
                  validatedByRead && !fired && r == Ok(old(nodes[d].value)) && nodes[w].kind.watchState == Valid
      ensures forall x | 0 <= x < |nodes| && w in old(nodes[x].dependents) :: w in nodes[x].dependents
    {
      ghost var n0, ps0, as0, l0 := nodes, promises, attempts, log;
      assert NodeShape(nodes, w, |promises|, |attempts|);
      var dep := nodes[w].kind.dependency;
      r := RecheckRead(w, depth);
      AdvanceWiden(n0, nodes, ps0, promises, as0, attempts, tasks, tasks, l0, log, {w});
      assert NodeShape(nodes, w, |promises|, |attempts|);
      fired := false;
      validatedByRead := old(nodes[w].kind.watchState) == Uncertain && nodes[w].kind.watchState == Valid;
      if r.Thrown? {
        return;
      }
      ghost var n1, l1 := nodes, log;
      fired := Absorb(w, r.value);
      assert log[..|l1|] == l1;
      AdvanceReplace(n0, n1, ps0, promises, as0, attempts, tasks, l0, l1, w, nodes[w], {w});
      assert n1[w := nodes[w]] == nodes;
    }

    /** The first half of a re-check: the Watcher reads its dependency. The
        read leaves the Watcher as it was, except that the short circuit of
        its dependency may validate it. */
    method RecheckRead(w: nat, depth: nat) returns (r: Outcome)
      requires Inv() && w < |nodes| && nodes[w].kind.Watcher?
      modifies this
      decreases depth, 6
      ensures Inv() && |nodes| == old(|nodes|)
      ensures Advance(old(nodes), nodes, old(promises), promises, old(attempts), attempts, old(tasks), tasks, old(log), log, {})
      ensures nodes[w].kind.Watcher? && Persists(old(nodes[w]), nodes[w])
      ensures forall x :: Fires(log, x) == Fires(old(log), x)
      ensures var d := old(nodes[w].kind.dependency);
                r.Ok? ==> d < |nodes| && Pinned(nodes[d]) && r.value == nodes[d].value
      ensures var d := old(nodes[w].kind.dependency);
                d < old(|nodes|) && old(nodes[w].kind.watchState) == Uncertain && old(Pinned(nodes[d])) ==>
                  r.Ok? && nodes[w].kind.watchState == Uncertain
      ensures var d := old(nodes[w].kind.dependency);
                d < old(|nodes|) && old(Settled(nodes, d)) && w in old(nodes[d].dependents) ==>
                  r == Ok(old(nodes[d].value)) && nodes[w].kind.watchState == Valid
    {
      ghost var n0, ps0, as0, l0 := nodes, promises, attempts, log;
      assert NodeShape(nodes, w, |promises|, |attempts|);
      var dep := nodes[w].kind.dependency;
      r := Read(dep, depth);
      AdvanceQuiet(n0, nodes, ps0, promises, as0, attempts, tasks, tasks, l0, log, {});
      assert Persists(n0[w], nodes[w]);
      if dep < |n0| && Settled(n0, dep) && w in n0[dep].dependents {
        SettledValidates(n0, nodes, w, dep, |ps0|);
      }
    }

    /** The second half of a re-check: the Watcher takes the value `v` it has
        just read, calls `onChange(v, previous)` exactly when it is still
        Uncertain, and is Valid. */
    method Absorb(w: nat, v: Value) returns (fired: bool)
      requires Inv() && w < |nodes| && nodes[w].kind.Watcher?
      modifies this
      ensures Inv() && (fired <==> old(nodes[w].kind.watchState) == Uncertain)
      ensures nodes == old(nodes)[w := Node(v, old(nodes[w].dependents), Watcher(old(nodes[w].kind.dependency), Valid))]
      ensures log == old(log) + (if fired then [Fired(w, [v, old(nodes[w].value)])] else [])
      ensures forall x :: Fires(log, x) == Fires(old(log), x) + (if fired && x == w then [[v, old(nodes[w].value)]] else [])
      ensures promises == old(promises) && attempts == old(attempts) && tasks == old(tasks)
    {
      assert NodeShape(nodes, w, |promises|, |attempts|);
      var previous := nodes[w].value;
      Capture(w, v);
      fired := nodes[w].kind.watchState == Uncertain;
      if fired {
        Fire(w, [v, previous]);
        WatcherValidate(w);
      }
    }

    /** The Watcher's `validate`: Valid, so a pending re-check does not call
        `onChange`. */
    method WatcherValidate(w: nat)
      requires Inv() && w < |nodes| && nodes[w].kind.Watcher?
      modifies this
      ensures Inv() && nodes == old(nodes)[w := WithWatchState(old(nodes[w]), Valid)]
      ensures promises == old(promises) && attempts == old(attempts) && tasks == old(tasks) && log == old(log)
    {
      assert NodeShape(nodes, w, |promises|, |attempts|);
      SameLinksKeeps(nodes, promises, attempts, tasks, {}, w, WithWatchState(nodes[w], Valid));
      nodes := nodes[w := WithWatchState(nodes[w], Valid)];
    }

    /** The Watcher's `dispose`: it leaves the dependents of its dependency
        (a Listener left with none calls `stop`), and nothing else changes. */
    method WatcherDispose(w: nat)
      requires Inv() && w < |nodes| && nodes[w].kind.Watcher?
      modifies this
      ensures Inv() && |nodes| == old(|nodes|) && old(nodes[w].kind.dependency) < |nodes|
      ensures var d := old(nodes[w].kind.dependency); nodes == old(nodes)[d := Detached(old(nodes)[d], w)]
      ensures log == old(log) + StopOf(old(nodes), old(nodes[w].kind.dependency), w)
      ensures promises == old(promises) && attempts == old(attempts) && tasks == old(tasks)
    {
      WatcherDetachKeeps(nodes, promises, attempts, tasks, w);
      RemoveDependent(nodes[w].kind.dependency, w);
    }

    // -------------------------------------------------------------------------
    // Tasks

    /** The host runs the queued task `k` (in whatever order it picks): a
        queued `compute` of a Computed in any state, which goes through the
        short circuit only when the Computed is Uncertain, or a Watcher's
        re-check. */
    method RunTask(k: nat, depth: nat) returns (r: Outcome, ghost fired: bool)
      requires Inv() && k < |tasks|
      modifies this
      decreases depth, 8
      ensures Inv() && |nodes| == old(|nodes|)
      ensures tasks == old(tasks[..k] + tasks[k + 1..])
      ensures old(TaskFits(nodes, tasks[k]))
      ensures var t := old(tasks[k]);
                t.Recompute? && old(TaskFits(nodes, t)) && old(nodes[t.node].kind.state) != Uncertain ==>
                  Count(log, GetterCalled(t.node)) == Count(old(log), GetterCalled(t.node)) + 1
      ensures var t := old(tasks[k]);
                t.Recompute? && old(TaskFits(nodes, t)) && 0 < depth && old(nodes[t.node].kind.state) == Uncertain &&
                old(DependenciesSettled(nodes, t.node)) ==>
                  r == Ok(old(nodes[t.node].value)) && log == old(log)
      ensures var t := old(tasks[k]);
                t.Recompute? && old(TaskFits(nodes, t)) && 0 < depth && old(ChangeFound(nodes, t.node)) ==>
                  Count(log, GetterCalled(t.node)) == Count(old(log), GetterCalled(t.node)) + 1
      ensures old(tasks[k]).Recompute? ==> forall x :: Fires(log, x) == Fires(old(log), x)
      ensures var t := old(tasks[k]);
                t.Recheck? && old(TaskFits(nodes, t)) && old(nodes[t.node].kind.watchState) == Valid ==>
                  forall x :: Fires(log, x) == Fires(old(log), x)
      ensures old(tasks[k]).Recheck? ==> forall x | x != old(tasks[k].node) :: Fires(log, x) == Fires(old(log), x)
      ensures old(tasks[k]).Recompute? ==> !fired
      ensures fired ==> r.Ok? && old(nodes[tasks[k].node].kind.watchState) == Uncertain
      ensures var t := old(tasks[k]);
                t.Recheck? ==>
                  var w := t.node; var d := old(nodes[w].kind.dependency);
                  && nodes[w].kind.Watcher? && nodes[w].kind.dependency == d
                  && Fires(log, w) == Fires(old(log), w) + (if fired then [[r.value, old(nodes[w].value)]] else [])
                  && (r.Ok? ==> d < |nodes| && Pinned(nodes[d]) && r.value == nodes[d].value &&
                                nodes[w].value == r.value && nodes[w].kind.watchState == Valid)
                  && (d < old(|nodes|) && old(nodes[w].kind.watchState) == Uncertain && old(Pinned(nodes[d])) ==> fired)
                  && (d < old(|nodes|) && old(Settled(nodes, d)) && w in old(nodes[d].dependents) &&
                      old(nodes[w].kind.watchState) == Uncertain ==>
                        !fired && r == Ok(old(nodes[d].value)) && nodes[w].kind.watchState == Valid)
    {
      var t := tasks[k];
      assert t in tasks;
      RemoveTaskKeeps(nodes, promises, attempts, tasks, k);
      tasks := tasks[..k] + tasks[k + 1..];
      ghost var n0, ps0, as0, t0, l0 := nodes, promises, attempts, tasks, log;
      fired := false;
      match t
      case Recompute(c) =>
        if nodes[c].kind.state == Invalid || nodes[c].kind.state == Uncertain {
          ghost var shortCircuit;
          r, shortCircuit := Compute(c, depth);
          AdvanceQuiet(n0, nodes, ps0, promises, as0, attempts, t0, tasks, l0, log, {});
        } else {
          ghost var answers, extra;
          r, answers, extra := RunCompute(c, depth);
          AdvanceQuiet(n0, nodes, ps0, promises, as0, attempts, t0, tasks, l0, log, {c});
        }
      case Recheck(w) =>
        ghost var validatedByRead;
        r, fired, validatedByRead := WatcherRecheck(w, depth);
    }
  }
}
