/** The earlier engine (tracker.ts, ref.ts, computed.ts and watch.ts at the
    top of the repository). Its reads, computes, tracking, settlement and
    disposal of watchers are those of the current engine with the tracking
    flag `0` (falsy), so they run on the same arena with `trackFlag` false;
    what differs is invalidation: a Ref compares with `!==`, a Computed that
    is Computing only queues a compute, any other Computed forwards every
    time, and a Watch re-reads and notifies synchronously inside its own
    `invalidate`. The earlier engine has no Listener. */
module Legacy {
  import opened Values
  import opened ReactiveNodes
  import opened ReactiveFrames
  import opened Reactive

  /** An arena of the earlier engine. */
  ghost predicate IsLegacy(g: Graph)
    reads g
  {
    g.Inv() && !g.trackFlag
  }

  /** What an invalidation keeps of every node: its kind, a Ref's value and
      comparison, a Computed's getter, a Watcher's dependency. */
  ghost predicate SameKind(p: Node, q: Node)
  {
    match p.kind
    case Ref(eq) => q.kind == Ref(eq) && q.value == p.value
    case Computed(getter, st, _, _, _, _) =>
      q.kind.Computed? && q.kind.getter == getter && (st == Computing ==> q.kind.state == Computing)
    case Watcher(dep, _) => q.kind.Watcher? && q.kind.dependency == dep
    case Listener(init, _) => q.kind.Listener? && q.kind.init == init
  }

  ghost predicate Kept(a: seq<Node>, b: seq<Node>)
  {
    |a| == |b| && forall x | 0 <= x < |a| :: SameKind(a[x], b[x])
  }

  lemma KeptRefl(a: seq<Node>)
    ensures Kept(a, a)
  {
  }

  lemma KeptTrans(a: seq<Node>, b: seq<Node>, c: seq<Node>)
    requires Kept(a, b) && Kept(b, c)
    ensures Kept(a, c)
  {
    forall x | 0 <= x < |a| ensures SameKind(a[x], c[x]) {
      assert SameKind(a[x], b[x]) && SameKind(b[x], c[x]);
    }
  }

  /** What a read or a re-check leaves of the nodes it may change. */
  lemma EvolvesKept(a: seq<Node>, b: seq<Node>, free: set<nat>)
    requires Evolves(a, b, free)
    requires forall x | x in free && x < |a| :: SameKind(a[x], b[x])
    ensures Kept(a, b)
  {
    forall x | 0 <= x < |a| ensures SameKind(a[x], b[x]) {
      if x !in free {
        assert Persists(a[x], b[x]) && Frozen(a[x], b[x]);
      }
    }
  }

  lemma KeptDependent(a: seq<Node>, b: seq<Node>, j: nat)
    requires Kept(a, b) && IsDependent(a, j)
    ensures IsDependent(b, j)
  {
    assert SameKind(a[j], b[j]);
  }

  /** A Computed whose getter is running. */
  ghost predicate Busy(nodes: seq<Node>, j: nat)
  {
    j < |nodes| && nodes[j].kind.Computed? && nodes[j].kind.state == Computing
  }

  /** A task queued after `t0` is still there once more tasks are queued. */
  lemma QueuedStays(t0: seq<Task>, t1: seq<Task>, t2: seq<Task>, e: Task)
    requires t0 <= t1 <= t2 && e in t1[|t0|..]
    ensures e in t2[|t0|..]
  {
    var i :| |t0| <= i < |t1| && t1[i] == e;
    assert t2[|t0|..][i - |t0|] == e;
  }

  /** One more dependent `d` invalidated: the re-computes already queued for
      the Computing dependents visited stay queued, and `d` has its own if it
      was Computing. */
  lemma QueuedStep(n0: seq<Node>, t0: seq<Task>, tb: seq<Task>, t1: seq<Task>, visited: set<nat>, d: nat)
    requires t0 <= tb <= t1
    requires forall j | j in visited && Busy(n0, j) :: Recompute(j) in tb[|t0|..]
    requires Busy(n0, d) ==> t1 == tb + [Recompute(d)]
    ensures forall j | j in visited + {d} && Busy(n0, j) :: Recompute(j) in t1[|t0|..]
  {
    forall j | j in visited && Busy(n0, j) ensures Recompute(j) in t1[|t0|..] {
      QueuedStays(t0, tb, t1, Recompute(j));
    }
    if Busy(n0, d) {
      assert t1[|t0|..][|t1| - 1 - |t0|] == Recompute(d);
    }
  }

  /** A Watch on a Ref. Only that Ref's own broadcast reaches it: a Computed
      forwards an invalidation to its own dependents, and a Watch is a
      dependent of its dependency alone. */
  ghost predicate OnRef(nodes: seq<Node>, y: nat)
  {
    y < |nodes| && nodes[y].kind.Watcher? && nodes[y].kind.dependency < |nodes| &&
    nodes[nodes[y].kind.dependency].kind.Ref?
  }

  /** The notification a Watch on a Ref gets from that Ref's broadcast: the
      Ref's value and the Watch's previous value. */
  ghost function RefNotice(nodes: seq<Node>, y: nat): seq<Value>
    requires OnRef(nodes, y)
  {
    [nodes[nodes[y].kind.dependency].value, nodes[y].value]
  }

  /** Every Watch on a Ref outside `s` kept its value and was not notified
      from `a`, `l0` to `b`, `l1`. */
  ghost predicate Untouched(a: seq<Node>, b: seq<Node>, l0: seq<Event>, l1: seq<Event>, s: set<nat>)
  {
    |b| == |a| && forall y: nat | OnRef(a, y) && y !in s :: b[y].value == a[y].value && Fires(l1, y) == Fires(l0, y)
  }

  lemma KeptOnRef(a: seq<Node>, b: seq<Node>, y: nat)
    requires Kept(a, b) && OnRef(a, y)
    ensures OnRef(b, y) && b[y].kind.dependency == a[y].kind.dependency
    ensures b[b[y].kind.dependency].value == a[a[y].kind.dependency].value
  {
    assert SameKind(a[y], b[y]);
    assert SameKind(a[a[y].kind.dependency], b[a[y].kind.dependency]);
  }

  /** One more dependent `d` invalidated in a broadcast: the Watches on a Ref
      already visited keep their one notification, `d` has its own if it is
      one of them and the invalidation succeeded (`ok`), and the rest are
      still untouched. */
  lemma UntouchedStep(n0: seq<Node>, a: seq<Node>, b: seq<Node>, l0: seq<Event>, la: seq<Event>, lb: seq<Event>,
                      s: set<nat>, d: nat, ok: bool)
    requires Kept(n0, a) && Untouched(n0, a, l0, la, s) && Untouched(a, b, la, lb, {d}) && d !in s
    requires forall y | y in s && OnRef(n0, y) :: Fires(la, y) == Fires(l0, y) + [RefNotice(n0, y)]
    requires ok && OnRef(a, d) ==> Fires(lb, d) == Fires(la, d) + [RefNotice(a, d)]
    ensures Untouched(n0, b, l0, lb, s + {d})
    ensures ok ==> forall y | y in s + {d} && OnRef(n0, y) :: Fires(lb, y) == Fires(l0, y) + [RefNotice(n0, y)]
  {
    forall y: nat | OnRef(n0, y) && y !in s + {d} ensures b[y].value == n0[y].value && Fires(lb, y) == Fires(l0, y) {
      KeptOnRef(n0, a, y);
    }
    if ok {
      forall y | y in s + {d} && OnRef(n0, y) ensures Fires(lb, y) == Fires(l0, y) + [RefNotice(n0, y)] {
        KeptOnRef(n0, a, y);
      }
    }
  }

  /** A re-check of the Watch `w` leaves every other Watch on a Ref as it
      was. */
  lemma RecheckUntouched(n0: seq<Node>, n1: seq<Node>, b: seq<Node>, l0: seq<Event>, l1: seq<Event>, w: nat)
    requires w < |n0| && n0[w].kind.Watcher? && n1 == n0[w := WithWatchState(n0[w], Uncertain)]
    requires Evolves(n1, b, {w}) && forall y | y != w :: Fires(l1, y) == Fires(l0, y)
    ensures Untouched(n0, b, l0, l1, {w})
  {
    forall y: nat | OnRef(n0, y) && y != w ensures b[y].value == n0[y].value {
      WatcherPersists(n1, b, {w}, y, y);
    }
  }

  /** A fresh arena of the earlier engine. */
  method NewEngine() returns (g: Graph)
    ensures fresh(g) && IsLegacy(g)
    ensures g.nodes == [] && g.promises == [] && g.attempts == [] && g.tasks == [] && g.log == []
  {
    g := new Graph(false);
  }

  /** `new Ref(value)`: the value is stored and the Ref compares with `!==`. */
  method NewRef(g: Graph, v: Value) returns (r: nat)
    requires IsLegacy(g)
    modifies g
    ensures IsLegacy(g) && r == old(|g.nodes|) && |g.nodes| == r + 1 && g.nodes[..r] == old(g.nodes)
    ensures g.nodes[r].value == v && g.nodes[r].dependents == {} && g.nodes[r].kind.Ref?
    ensures forall a, b :: g.nodes[r].kind.isEqual(a, b) == StrictEquals(a, b)
    ensures g.promises == old(g.promises) && g.attempts == old(g.attempts) && g.tasks == old(g.tasks) && g.log == old(g.log)
  {
    r := g.NewRef(v, (a, b) => StrictEquals(a, b));
  }

  /** The Ref setter: the value is always stored; the dependents registered at
      that moment are each invalidated once exactly when the old value `!==`
      the new one (`invalidated` is that snapshot, in the order taken). A
      dependent's `invalidate` that throws ends the broadcast and the set. */
  method SetRef(g: Graph, r: nat, v: Value, depth: nat) returns (x: Option<Fault>, ghost invalidated: seq<nat>)
    requires IsLegacy(g) && r < |g.nodes| && g.nodes[r].kind.Ref?
    modifies g
    ensures IsLegacy(g) && Kept(old(g.nodes)[r := old(g.nodes[r]).(value := v)], g.nodes)
    ensures g.nodes[r].value == v
    ensures StrictEquals(old(g.nodes[r].value), v) ==>
              x == None && invalidated == [] && g.nodes == old(g.nodes)[r := old(g.nodes[r]).(value := v)] &&
              g.tasks == old(g.tasks) && g.log == old(g.log)
    ensures !StrictEquals(old(g.nodes[r].value), v) ==>
              Distinct(invalidated) && Elems(invalidated) <= old(g.nodes[r].dependents)
    ensures !StrictEquals(old(g.nodes[r].value), v) && x == None ==> Elems(invalidated) == old(g.nodes[r].dependents)
    ensures !StrictEquals(old(g.nodes[r].value), v) && x == None ==>
              forall w | w in old(g.nodes[r].dependents) && old(g.nodes[w].kind.Watcher?) ::
                Fires(g.log, w) == Fires(old(g.log), w) + [[v, old(g.nodes[w].value)]]
    ensures Untouched(old(g.nodes), g.nodes, old(g.log), g.log, old(g.nodes[r].dependents))
  {
    ghost var o := g.nodes;
    var last := g.nodes[r].value;
    ghost var n0 := g.nodes[r := g.nodes[r].(value := v)];
    SameLinksKeeps(g.nodes, g.promises, g.attempts, g.tasks, {}, r, g.nodes[r].(value := v));
    g.nodes := g.nodes[r := g.nodes[r].(value := v)];
    forall y: nat | OnRef(o, y) ensures OnRef(n0, y) && n0[y] == o[y] {
      assert o[y].kind.dependency != r ==> n0[o[y].kind.dependency] == o[o[y].kind.dependency];
    }
    if !StrictEquals(last, v) {
      x, invalidated := Invalidate(g, r, depth);
      assert SameKind(n0[r], g.nodes[r]);
      forall w | w in n0[r].dependents && n0[w].kind.Watcher? ensures OnRef(n0, w) {
        assert LinkedBack(n0, r, w);
      }
    } else {
      x, invalidated := None, [];
    }
  }

  /** Tracker's `invalidate`: `invalidate()` on each dependent of the snapshot
      taken at the start, each once, until one throws. */
  method Invalidate(g: Graph, n: nat, depth: nat) returns (x: Option<Fault>, ghost visited: seq<nat>)
    requires IsLegacy(g) && n < |g.nodes|
    modifies g
    decreases depth, 2
    ensures IsLegacy(g) && Kept(old(g.nodes), g.nodes)
    ensures Distinct(visited) && Elems(visited) <= old(g.nodes[n].dependents)
    ensures x == None ==> Elems(visited) == old(g.nodes[n].dependents)
    ensures old(g.nodes[n].dependents) == {} ==>
              x == None && g.nodes == old(g.nodes) && g.tasks == old(g.tasks) && g.log == old(g.log)
    ensures Untouched(old(g.nodes), g.nodes, old(g.log), g.log, old(g.nodes[n].dependents))
    ensures x == None ==>
              forall y | y in old(g.nodes[n].dependents) && OnRef(old(g.nodes), y) ::
                Fires(g.log, y) == Fires(old(g.log), y) + [RefNotice(old(g.nodes), y)]
    ensures old(g.tasks) <= g.tasks
    ensures forall j | j in Elems(visited) && Busy(old(g.nodes), j) :: Recompute(j) in g.tasks[|old(g.tasks)|..]
  {
    ghost var n0, l0 := g.nodes, g.log;
    var pending := g.nodes[n].dependents;
    x, visited := None, [];
    KeptRefl(g.nodes);
    assert NodeShape(g.nodes, n, |g.promises|, |g.attempts|);
    while pending != {} && x == None
      invariant IsLegacy(g) && Kept(n0, g.nodes)
      invariant Distinct(visited) && pending !! Elems(visited)
      invariant pending + Elems(visited) == n0[n].dependents
      invariant forall j | j in pending :: IsDependent(n0, j)
      invariant pending == n0[n].dependents ==> x == None && g.nodes == n0 && g.tasks == old(g.tasks) && g.log == old(g.log)
      invariant Untouched(n0, g.nodes, l0, g.log, Elems(visited))
      invariant x == None ==> forall y | y in Elems(visited) && OnRef(n0, y) :: Fires(g.log, y) == Fires(l0, y) + [RefNotice(n0, y)]
      invariant old(g.tasks) <= g.tasks
      invariant forall j | j in Elems(visited) && Busy(n0, j) :: Recompute(j) in g.tasks[|old(g.tasks)|..]
      decreases pending
    {
      var d :| d in pending;
      KeptDependent(n0, g.nodes, d);
      ghost var before, lb, tb := g.nodes, g.log, g.tasks;
      assert Busy(n0, d) ==> Busy(before, d) by {
        assert SameKind(n0[d], before[d]);
      }
      x := DependentInvalidate(g, d, depth);
      QueuedStep(n0, old(g.tasks), tb, g.tasks, Elems(visited), d);
      UntouchedStep(n0, before, g.nodes, l0, lb, g.log, Elems(visited), d, x == None);
      assert Elems(visited + [d]) == Elems(visited) + {d};
      KeptTrans(n0, before, g.nodes);
      pending := pending - {d};
      visited := visited + [d];
    }
  }

  /** `invalidate()` on a dependent: the Computed's or the Watch's own. */
  method DependentInvalidate(g: Graph, d: nat, depth: nat) returns (x: Option<Fault>)
    requires IsLegacy(g) && IsDependent(g.nodes, d)
    modifies g
    decreases depth, 1
    ensures IsLegacy(g) && Kept(old(g.nodes), g.nodes)
    ensures Untouched(old(g.nodes), g.nodes, old(g.log), g.log, {d})
    ensures OnRef(old(g.nodes), d) && x == None ==> Fires(g.log, d) == Fires(old(g.log), d) + [RefNotice(old(g.nodes), d)]
    ensures old(g.tasks) <= g.tasks
    ensures old(Busy(g.nodes, d)) ==>
              x == None && g.nodes == old(g.nodes) && g.tasks == old(g.tasks) + [Recompute(d)] && g.log == old(g.log)
    ensures old(g.nodes[d].kind.Computed? && g.nodes[d].kind.state != Computing && g.nodes[d].dependents == {}) ==>
              x == None && g.nodes == old(g.nodes)[d := WithState(old(g.nodes[d]), Uncertain)] &&
              g.tasks == old(g.tasks) && g.log == old(g.log)
  {
    if g.nodes[d].kind.Watcher? {
      var r;
      ghost var fired, validatedByRead;
      r, fired, validatedByRead := WatchInvalidate(g, d, depth);
      x := if r.Thrown? then Some(r.fault) else None;
      if OnRef(old(g.nodes), d) {
        KeptOnRef(old(g.nodes), g.nodes, d);
      }
    } else {
      ghost var forwarded;
      x, forwarded := ComputedInvalidate(g, d, depth);
    }
  }

  /** A Computed's `invalidate`. When Computing, a `compute` is queued and
      nothing else happens; in any other state, already Uncertain included,
      it becomes Uncertain and invalidates each of its dependents
      (`forwarded`) until one throws. */
  method ComputedInvalidate(g: Graph, c: nat, depth: nat) returns (x: Option<Fault>, ghost forwarded: seq<nat>)
    requires IsLegacy(g) && c < |g.nodes| && g.nodes[c].kind.Computed?
    modifies g
    decreases depth, 0
    ensures IsLegacy(g) && Kept(old(g.nodes), g.nodes)
    ensures old(g.nodes[c].kind.state) == Computing ==>
              x == None && forwarded == [] && g.nodes == old(g.nodes) &&
              g.tasks == old(g.tasks) + [Recompute(c)] && g.log == old(g.log)
    ensures old(g.nodes[c].kind.state) != Computing ==>
              Distinct(forwarded) && Elems(forwarded) <= old(g.nodes[c].dependents)
    ensures old(g.nodes[c].kind.state) != Computing && x == None ==>
              Elems(forwarded) == old(g.nodes[c].dependents)
    ensures old(g.nodes[c].kind.state) != Computing && old(g.nodes[c].dependents) == {} ==>
              x == None && g.nodes == old(g.nodes)[c := WithState(old(g.nodes[c]), Uncertain)] &&
              g.tasks == old(g.tasks) && g.log == old(g.log)
    ensures Untouched(old(g.nodes), g.nodes, old(g.log), g.log, {})
    ensures old(g.tasks) <= g.tasks
  {
    if g.nodes[c].kind.state == Computing {
      AddTaskKeeps(g.nodes, g.promises, g.attempts, g.tasks, Recompute(c));
      g.tasks := g.tasks + [Recompute(c)];
      KeptRefl(g.nodes);
      return None, [];
    }
    ghost var n0 := g.nodes;
    SameLinksKeeps(g.nodes, g.promises, g.attempts, g.tasks, {}, c, WithState(g.nodes[c], Uncertain));
    g.nodes := g.nodes[c := WithState(g.nodes[c], Uncertain)];
    assert Kept(n0, g.nodes) by {
      forall y | 0 <= y < |n0| ensures SameKind(n0[y], g.nodes[y]) {
      }
    }
    assert Untouched(n0, g.nodes, g.log, g.log, {}) by {
      forall y: nat | OnRef(n0, y) ensures g.nodes[y] == n0[y] {
      }
    }
    if depth == 0 {
      if g.nodes[c].dependents == {} {
        return None, [];
      }
      return Some(StackOverflow), [];
    }
    ghost var n1 := g.nodes;
    forall y | y in n1[c].dependents ensures !OnRef(n1, y) {
      assert LinkedBack(n1, c, y);
    }
    x, forwarded := Invalidate(g, c, depth - 1);
    KeptTrans(n0, n1, g.nodes);
  }

  /** The Watch's `invalidate`, all of it synchronous: Uncertain, the
      dependency re-read and its value captured, and `onChange(new, old)`
      called inside this call unless the re-read validated the Watch; then
      Valid. Every call re-reads and may notify: nothing coalesces. */
  method WatchInvalidate(g: Graph, w: nat, depth: nat) returns (r: Outcome, ghost fired: bool, ghost validatedByRead: bool)
    requires IsLegacy(g) && w < |g.nodes| && g.nodes[w].kind.Watcher?
    modifies g
    ensures IsLegacy(g) && Kept(old(g.nodes), g.nodes) && (fired ==> r.Ok?)
    ensures Fires(g.log, w) == Fires(old(g.log), w) + (if fired then [[r.value, old(g.nodes[w].value)]] else [])
    ensures forall y | y != w :: Fires(g.log, y) == Fires(old(g.log), y)
    ensures r.Ok? ==>
              var d := g.nodes[w].kind.dependency;
              d < |g.nodes| && r.value == g.nodes[d].value && g.nodes[w].value == r.value && g.nodes[w].kind.watchState == Valid
    ensures r.Ok? ==> (fired <==> !validatedByRead)
    ensures r.Thrown? ==> !fired && g.nodes[w].value == old(g.nodes[w].value)
    ensures var d := old(g.nodes[w].kind.dependency); d < old(|g.nodes|) && old(Pinned(g.nodes[d])) ==> fired
    ensures g.tasks == old(g.tasks)
    ensures Untouched(old(g.nodes), g.nodes, old(g.log), g.log, {w})
    ensures var d := old(g.nodes[w].kind.dependency);
              d < old(|g.nodes|) && old(Settled(g.nodes, d)) && w in old(g.nodes[d].dependents) ==>
                validatedByRead && !fired && r == Ok(old(g.nodes[d].value)) && g.nodes[w].kind.watchState == Valid
  {
    ghost var n0 := g.nodes;
    assert NodeShape(g.nodes, w, |g.promises|, |g.attempts|);
    SameLinksKeeps(g.nodes, g.promises, g.attempts, g.tasks, {}, w, WithWatchState(g.nodes[w], Uncertain));
    g.nodes := g.nodes[w := WithWatchState(g.nodes[w], Uncertain)];
    ghost var n1 := g.nodes;
    assert Kept(n0, n1) by {
      forall y | 0 <= y < |n0| ensures SameKind(n0[y], n1[y]) {
      }
    }
    ghost var d := n1[w].kind.dependency;
    assert d != w ==> n1[d] == n0[d];
    r, fired, validatedByRead := g.WatcherRecheck(w, depth);
    RecheckUntouched(n0, n1, g.nodes, old(g.log), g.log, w);
    EvolvesKept(n1, g.nodes, {w});
    KeptTrans(n0, n1, g.nodes);
  }

  /** The Computed's `dispose`: only `clearDependencies`. The state and the
      cached value stay as they were, so a Valid Computed still answers
      reads from its cache. */
  method Dispose(g: Graph, c: nat)
    requires IsLegacy(g) && c < |g.nodes| && g.nodes[c].kind.Computed?
    modifies g
    ensures IsLegacy(g) && |g.nodes| == old(|g.nodes|)
    ensures g.nodes[c].value == old(g.nodes[c].value)
    ensures g.nodes[c].kind == old(g.nodes[c].kind).(keys := [], flags := map[])
    ensures forall y | 0 <= y < |g.nodes| :: c !in g.nodes[y].dependents
    ensures forall y | 0 <= y < |g.nodes| && y != c ::
              g.nodes[y] == if y in old(g.nodes[c].kind.keys) then Detached(old(g.nodes[y]), c) else old(g.nodes[y])
    ensures g.log == old(g.log) + StopsOf(old(g.nodes), old(g.nodes[c].kind.keys), old(|g.nodes[c].kind.keys|), c)
    ensures g.promises == old(g.promises) && g.attempts == old(g.attempts) && g.tasks == old(g.tasks)
  {
    g.ClearDependencies(c);
  }

  // ---------------------------------------------------------------------------
  // Behaviours over several calls.

  /** A disposed Computed that was Valid returns its cached value on the next
      read and calls no getter. */
  method DisposeKeepsCache(g: Graph, c: nat, depth: nat) returns (x: Outcome)
    requires IsLegacy(g) && c < |g.nodes| && g.nodes[c].kind.Computed? && g.nodes[c].kind.state == Valid
    modifies g
    ensures IsLegacy(g) && x == Ok(old(g.nodes[c].value))
    ensures Count(g.log, GetterCalled(c)) == Count(old(g.log), GetterCalled(c))
  {
    ghost var stops := StopsOf(g.nodes, g.nodes[c].kind.keys, |g.nodes[c].kind.keys|, c);
    Dispose(g, c);
    ghost var l1 := g.log;
    x := g.Read(c, depth);
    assert g.log == l1;
    GetterNotInStops(old(g.log), stops, c);
  }

  /** `stop` calls are no getter call. */
  lemma GetterNotInStops(l0: seq<Event>, stops: seq<Event>, c: nat)
    requires forall e | e in stops :: e.Stopped?
    ensures Count(l0 + stops, GetterCalled(c)) == Count(l0, GetterCalled(c))
  {
    CountAppend(l0, stops, GetterCalled(c));
  }

  /** Two invalidations of a Watch whose dependency is current notify twice:
      nothing coalesces. */
  method InvalidateTwice(g: Graph, w: nat, depth: nat) returns (r1: Outcome, r2: Outcome)
    requires IsLegacy(g) && w < |g.nodes| && g.nodes[w].kind.Watcher?
    requires var d := g.nodes[w].kind.dependency; d < |g.nodes| && g.nodes[d].kind.Ref?
    modifies g
    ensures IsLegacy(g) && r1.Ok? && r2.Ok?
    ensures Fires(g.log, w) == Fires(old(g.log), w) + [[r1.value, old(g.nodes[w].value)], [r2.value, r1.value]]
  {
    ghost var fired, validatedByRead;
    ghost var d := g.nodes[w].kind.dependency;
    r1, fired, validatedByRead := WatchInvalidate(g, w, depth);
    assert SameKind(old(g.nodes[d]), g.nodes[d]) && SameKind(old(g.nodes[w]), g.nodes[w]);
    ghost var l1 := g.log;
    r2, fired, validatedByRead := WatchInvalidate(g, w, depth);
  }
}
