/** The node records of the current engine (src/) and the invariant that makes
    a sequence of them a graph: every id names a node, every `dependents` link
    has its matching `dependencies` entry and the other way round, and every
    Computed's current placeholder promise is pending and its own. */
module ReactiveNodes {
  import opened Values

  /** ComputedState of src/computed.ts:9-14; a Watcher uses Valid and Uncertain
      only (WatchState of src/watcher.ts:5-8). */
  datatype State = Invalid | Valid | Uncertain | Computing

  /** One node of the arena: Tracker's `_value` and `dependents` Set
      (src/tracker.ts:7-8) and what the subclass adds. */
  datatype Node = Node(value: Value, dependents: set<nat>, kind: Kind)

  /** The subclass part. A Computed's `dependencies` Map is split into its key
      order `keys` and its entries `flags`; `placeholder` is `computePromise`
      and `lastAttempt` is `lastComputeAttemptPromise` (src/computed.ts:20-24).
      A Watcher keeps its `dependency` and `state` (src/watcher.ts:15-16), a
      Listener the result of its `init` callback and `listening`
      (src/listener.ts:6-9). */
  datatype Kind =
    | Ref(isEqual: (Value, Value) -> bool)
    | Computed(getter: Getter, state: State, keys: seq<nat>, flags: map<nat, bool>,
               placeholder: nat, lastAttempt: Option<nat>)
    | Watcher(dependency: nat, watchState: State)
    | Listener(init: Value, listening: bool)

  function WithState(n: Node, s: State): Node
    requires n.kind.Computed?
  {
    n.(kind := n.kind.(state := s))
  }

  function WithWatchState(n: Node, s: State): Node
    requires n.kind.Watcher?
  {
    n.(kind := n.kind.(watchState := s))
  }

  /** The `Dependent` type of src/tracker.ts:4: a Computed or a Watcher. */
  predicate IsDependent(nodes: seq<Node>, d: nat)
  {
    d < |nodes| && (nodes[d].kind.Computed? || nodes[d].kind.Watcher?)
  }

  /** A Computed whose change flag for dependency `d` is set. */
  predicate Flagged(n: Node, d: nat)
  {
    n.kind.Computed? && d in n.kind.flags && n.kind.flags[d]
  }

  ghost predicate NodeShape(nodes: seq<Node>, i: nat, promiseCount: nat, attemptCount: nat)
    requires i < |nodes|
  {
    (forall d | d in nodes[i].dependents :: IsDependent(nodes, d)) &&
    match nodes[i].kind
    case Computed(g, _, keys, flags, p, last) =>
      && (exists b: nat :: Bounded(g, b))
      && Distinct(keys)
      && (forall k | k in keys :: k < |nodes|)
      && flags.Keys == Elems(keys)
      && p < promiseCount
      && (last.Some? ==> last.value < attemptCount)
    case Watcher(dep, st) => dep < |nodes| && (st == Valid || st == Uncertain)
    case _ => true
  }

  ghost predicate TaskFits(nodes: seq<Node>, t: Task)
  {
    t.node < |nodes| &&
    (t.Recompute? ==> nodes[t.node].kind.Computed?) &&
    (t.Recheck? ==> nodes[t.node].kind.Watcher?)
  }

  /** Every Computed's current placeholder is pending, and no two Computed nodes
      share one. */
  ghost predicate Placeholders(nodes: seq<Node>, promises: seq<PromiseState>)
  {
    && (forall i | 0 <= i < |nodes| && nodes[i].kind.Computed? ::
          nodes[i].kind.placeholder < |promises| && promises[nodes[i].kind.placeholder] == Pending)
    && (forall i, j | 0 <= i < |nodes| && 0 <= j < |nodes| && i != j && nodes[i].kind.Computed? && nodes[j].kind.Computed? ::
          nodes[i].kind.placeholder != nodes[j].kind.placeholder)
  }

  ghost predicate Shaped(nodes: seq<Node>, promises: seq<PromiseState>, attempts: seq<Attempt>, tasks: seq<Task>)
  {
    && (forall i | 0 <= i < |nodes| :: NodeShape(nodes, i, |promises|, |attempts|))
    && (forall t | t in tasks :: TaskFits(nodes, t))
    && (forall a | a in attempts :: a.owner < |nodes| && nodes[a.owner].kind.Computed?)
    && Placeholders(nodes, promises)
  }

  /** The dependent `j` registered on `i` knows `i`: a Computed lists it among
      its dependencies, a Watcher has it as its dependency. */
  predicate LinkedBack(nodes: seq<Node>, i: nat, j: nat)
  {
    j < |nodes| &&
    (nodes[j].kind.Computed? ==> i in nodes[j].kind.keys) &&
    (nodes[j].kind.Watcher? ==> nodes[j].kind.dependency == i)
  }

  /** The dependency `i` of `j` has `j` registered as a dependent. */
  predicate LinkedForward(nodes: seq<Node>, j: nat, i: nat)
  {
    i < |nodes| && j in nodes[i].dependents
  }

  ghost predicate BackLinked(nodes: seq<Node>)
  {
    forall i: nat, j: nat | i < |nodes| && j in nodes[i].dependents :: LinkedBack(nodes, i, j)
  }

  /** Every Computed outside `except` is registered on each of its dependencies. */
  ghost predicate ForwardLinked(nodes: seq<Node>, except: set<nat>)
  {
    forall j: nat, i: nat | j < |nodes| && j !in except && nodes[j].kind.Computed? && i in nodes[j].kind.keys ::
      LinkedForward(nodes, j, i)
  }

  /** Well formed, except that the Computed nodes in `except` may be missing
      from the dependents of some of their dependencies. */
  ghost predicate LinkedExcept(nodes: seq<Node>, promises: seq<PromiseState>, attempts: seq<Attempt>, tasks: seq<Task>, except: set<nat>)
  {
    Shaped(nodes, promises, attempts, tasks) && BackLinked(nodes) && ForwardLinked(nodes, except)
  }

  ghost predicate WellFormed(nodes: seq<Node>, promises: seq<PromiseState>, attempts: seq<Attempt>, tasks: seq<Task>)
  {
    LinkedExcept(nodes, promises, attempts, tasks, {})
  }

  // ---------------------------------------------------------------------------
  // Invalidation only raises states to Uncertain.

  /** `b` is `a` with some Computed and Watcher nodes moved to Uncertain. */
  ghost predicate Raised(a: seq<Node>, b: seq<Node>)
  {
    |a| == |b| &&
    forall i | 0 <= i < |a| ::
      || b[i] == a[i]
      || (a[i].kind.Computed? && b[i] == WithState(a[i], Uncertain))
      || (a[i].kind.Watcher? && b[i] == WithWatchState(a[i], Uncertain))
  }

  /** The Computed nodes that an invalidation could still move to Uncertain. */
  ghost function NotUncertain(nodes: seq<Node>): set<nat>
  {
    set i | 0 <= i < |nodes| && nodes[i].kind.Computed? && nodes[i].kind.state != Uncertain
  }

  lemma RaisedRefl(a: seq<Node>)
    ensures Raised(a, a)
  {
  }

  lemma RaisedTrans(a: seq<Node>, b: seq<Node>, c: seq<Node>)
    requires Raised(a, b) && Raised(b, c)
    ensures Raised(a, c)
  {
  }

  /** Invalidation never makes the measure grow ... */
  lemma RaisedShrinks(a: seq<Node>, b: seq<Node>)
    requires Raised(a, b)
    ensures NotUncertain(b) <= NotUncertain(a)
    ensures |NotUncertain(b)| <= |NotUncertain(a)|
  {
    assert NotUncertain(b) <= NotUncertain(a);
    SubsetCard(NotUncertain(b), NotUncertain(a));
  }

  /** ... and each Computed it moves to Uncertain makes it drop: this is why
      the recursion of src/computed.ts:122-129 through src/tracker.ts:18-22
      terminates on every graph, cyclic or not. */
  lemma {:induction false} RaiseOneDrops(a: seq<Node>, c: nat)
    requires c < |a| && a[c].kind.Computed? && a[c].kind.state != Uncertain
    ensures NotUncertain(a[c := WithState(a[c], Uncertain)]) == NotUncertain(a) - {c}
    ensures |NotUncertain(a[c := WithState(a[c], Uncertain)])| < |NotUncertain(a)|
  {
    var b := a[c := WithState(a[c], Uncertain)];
    assert NotUncertain(b) == NotUncertain(a) - {c};
    assert c in NotUncertain(a);
  }

  lemma {:induction false} SubsetCard(s: set<nat>, t: set<nat>)
    requires s <= t
    ensures |s| <= |t|
  {
    if s != {} {
      var x :| x in s;
      SubsetCard(s - {x}, t - {x});
    }
  }

  lemma RaisedKeepsWellFormed(a: seq<Node>, b: seq<Node>, promises: seq<PromiseState>, attempts: seq<Attempt>, tasks: seq<Task>)
    requires WellFormed(a, promises, attempts, tasks) && Raised(a, b)
    ensures WellFormed(b, promises, attempts, tasks)
  {
    forall i | 0 <= i < |b| ensures NodeShape(b, i, |promises|, |attempts|) {
      assert NodeShape(a, i, |promises|, |attempts|);
    }
    forall j: nat, i: nat | j < |b| && b[j].kind.Computed? && i in b[j].kind.keys
      ensures LinkedForward(b, j, i)
    {
      assert LinkedForward(a, j, i);
    }
    forall i: nat, j: nat | i < |b| && j in b[i].dependents
      ensures LinkedBack(b, i, j)
    {
      assert LinkedBack(a, i, j);
    }
  }


  ghost predicate IsUncertain(nodes: seq<Node>, j: nat)
  {
    j < |nodes| &&
    ((nodes[j].kind.Computed? && nodes[j].kind.state == Uncertain) ||
     (nodes[j].kind.Watcher? && nodes[j].kind.watchState == Uncertain))
  }

  /** Invalidation reached everything below what it changed: each Computed
      whose record changed has all of its dependents Uncertain afterwards (a
      Watcher forwards nothing). */
  ghost predicate Downstream(a: seq<Node>, b: seq<Node>)
  {
    |a| == |b| &&
    forall i: nat, j: nat | i < |b| && b[i] != a[i] && a[i].kind.Computed? && j in b[i].dependents :: IsUncertain(b, j)
  }

  lemma DownstreamRefl(a: seq<Node>)
    ensures Downstream(a, a)
  {
  }

  lemma DownstreamTrans(a: seq<Node>, b: seq<Node>, c: seq<Node>)
    requires Raised(a, b) && Raised(b, c) && Downstream(a, b) && Downstream(b, c)
    ensures Downstream(a, c)
  {
    forall i: nat, j: nat | i < |c| && c[i] != a[i] && a[i].kind.Computed? && j in c[i].dependents
      ensures IsUncertain(c, j)
    {
      assert c[i].dependents == b[i].dependents;
      if b[i] != a[i] {
        assert IsUncertain(b, j);
      }
    }
  }

  /** How many re-checks of `x` an invalidation from `a` to `b` queues: one
      for a Watcher that was Valid and is now Uncertain, none otherwise. */
  ghost function RechecksDue(a: seq<Node>, b: seq<Node>, x: nat): nat
    requires x < |a|
  {
    if a[x].kind.Watcher? && a[x].kind.watchState == Valid && IsUncertain(b, x) then 1 else 0
  }

  /** How many `compute` tasks of `x` it queues: one for a Computed that was
      Computing and is now Uncertain, none otherwise. */
  ghost function RecomputesDue(a: seq<Node>, b: seq<Node>, x: nat): nat
    requires x < |a|
  {
    if a[x].kind.Computed? && a[x].kind.state == Computing && IsUncertain(b, x) then 1 else 0
  }

  /** The tasks invalidation appended to `t0`: a `compute` for a Computed that
      was Computing, a re-check for a Watcher that was Valid and is now
      Uncertain, and for each node exactly as many of each as are due. */
  ghost predicate Scheduled(a: seq<Node>, b: seq<Node>, t0: seq<Task>, t1: seq<Task>)
  {
    |a| == |b| && t0 <= t1 &&
    (forall k | |t0| <= k < |t1| ::
      t1[k].node < |a| &&
      (t1[k].Recompute? ==> a[t1[k].node].kind.Computed? && a[t1[k].node].kind.state == Computing) &&
      (t1[k].Recheck? ==> a[t1[k].node].kind.Watcher? && a[t1[k].node].kind.watchState == Valid &&
                          IsUncertain(b, t1[k].node))) &&
    forall x | 0 <= x < |a| ::
      Count(t1[|t0|..], Recheck(x)) == RechecksDue(a, b, x) &&
      Count(t1[|t0|..], Recompute(x)) == RecomputesDue(a, b, x)
  }

  lemma ScheduledRefl(a: seq<Node>, t: seq<Task>)
    ensures Scheduled(a, a, t, t)
  {
    assert t[|t|..] == [];
  }

  /** A Valid Watcher moved to Uncertain, with its re-check queued. */
  lemma ScheduledRecheck(a: seq<Node>, w: nat, t: seq<Task>)
    requires w < |a| && a[w].kind.Watcher? && a[w].kind.watchState == Valid
    ensures Scheduled(a, a[w := WithWatchState(a[w], Uncertain)], t, t + [Recheck(w)])
  {
    var b := a[w := WithWatchState(a[w], Uncertain)];
    assert (t + [Recheck(w)])[|t|..] == [Recheck(w)];
    forall x | 0 <= x < |a|
      ensures Count([Recheck(w)], Recheck(x)) == RechecksDue(a, b, x)
      ensures Count([Recheck(w)], Recompute(x)) == RecomputesDue(a, b, x)
    {
      assert [Recheck(w)][1..] == [];
    }
  }

  /** A Computed that was not Uncertain moved to Uncertain, with a `compute`
      queued when it was Computing. */
  lemma ScheduledRaise(a: seq<Node>, c: nat, t0: seq<Task>, t1: seq<Task>)
    requires c < |a| && a[c].kind.Computed? && a[c].kind.state != Uncertain
    requires t1 == t0 + (if a[c].kind.state == Computing then [Recompute(c)] else [])
    ensures Scheduled(a, a[c := WithState(a[c], Uncertain)], t0, t1)
  {
    var b := a[c := WithState(a[c], Uncertain)];
    var added := if a[c].kind.state == Computing then [Recompute(c)] else [];
    assert t1[|t0|..] == added;
    forall x | 0 <= x < |a|
      ensures Count(added, Recheck(x)) == RechecksDue(a, b, x)
      ensures Count(added, Recompute(x)) == RecomputesDue(a, b, x)
    {
      if added != [] {
        assert added[1..] == [];
      }
    }
  }

  lemma ScheduledTrans(a: seq<Node>, b: seq<Node>, c: seq<Node>, t0: seq<Task>, t1: seq<Task>, t2: seq<Task>)
    requires Raised(a, b) && Raised(b, c) && Scheduled(a, b, t0, t1) && Scheduled(b, c, t1, t2)
    ensures Scheduled(a, c, t0, t2)
  {
    forall k | |t0| <= k < |t2|
      ensures t2[k].node < |a| &&
        (t2[k].Recompute? ==> a[t2[k].node].kind.Computed? && a[t2[k].node].kind.state == Computing) &&
        (t2[k].Recheck? ==> a[t2[k].node].kind.Watcher? && a[t2[k].node].kind.watchState == Valid &&
                            IsUncertain(c, t2[k].node))
    {
      if k < |t1| {
        assert t2[k] == t1[k];
      }
    }
    assert t2[|t0|..] == t1[|t0|..] + t2[|t1|..];
    forall x | 0 <= x < |a|
      ensures Count(t2[|t0|..], Recheck(x)) == RechecksDue(a, c, x)
      ensures Count(t2[|t0|..], Recompute(x)) == RecomputesDue(a, c, x)
    {
      CountAppend(t1[|t0|..], t2[|t1|..], Recheck(x));
      CountAppend(t1[|t0|..], t2[|t1|..], Recompute(x));
    }
  }

  /** Each dependent in `s` that was a Valid Watcher has exactly one re-check
      among the tasks added to `t0`, and each that was a Computing Computed
      exactly one `compute`. */
  ghost predicate QueuedOnce(a: seq<Node>, t0: seq<Task>, t1: seq<Task>, s: set<nat>)
  {
    t0 <= t1 &&
    forall j | j in s && j < |a| ::
      (a[j].kind.Watcher? && a[j].kind.watchState == Valid ==> Count(t1[|t0|..], Recheck(j)) == 1) &&
      (a[j].kind.Computed? && a[j].kind.state == Computing ==> Count(t1[|t0|..], Recompute(j)) == 1)
  }

  /** An invalidation that left every node of `s` Uncertain queued what
      `QueuedOnce` says for them. */
  lemma QueuedFromScheduled(a: seq<Node>, b: seq<Node>, t0: seq<Task>, t1: seq<Task>, s: set<nat>)
    requires Scheduled(a, b, t0, t1) && forall j | j in s :: IsUncertain(b, j)
    ensures QueuedOnce(a, t0, t1, s)
  {
    forall j | j in s && j < |a|
      ensures (a[j].kind.Watcher? && a[j].kind.watchState == Valid ==> Count(t1[|t0|..], Recheck(j)) == 1)
      ensures (a[j].kind.Computed? && a[j].kind.state == Computing ==> Count(t1[|t0|..], Recompute(j)) == 1)
    {
      assert IsUncertain(b, j);
    }
  }

  /** Adding a dependent that already knows the node: the graph is well formed
      once the link is in place. */
  function WithDependent(n: Node, d: nat): Node
  {
    n.(dependents := n.dependents + {d})
  }


  // ---------------------------------------------------------------------------
  // Updates that keep the graph well formed.

  /** `q` replaces `p` without touching any link, promise or attempt: same
      dependents, kind, getter, dependencies, placeholder and attempt. */
  ghost predicate SameLinks(p: Node, q: Node)
  {
    q.dependents == p.dependents &&
    match p.kind
    case Ref(_) => q.kind.Ref?
    case Computed(g, _, keys, flags, ph, last) =>
      q.kind.Computed? && q.kind.getter == g && q.kind.keys == keys && q.kind.flags.Keys == flags.Keys &&
      q.kind.placeholder == ph && q.kind.lastAttempt == last
    case Watcher(dep, _) =>
      q.kind.Watcher? && q.kind.dependency == dep && (q.kind.watchState == Valid || q.kind.watchState == Uncertain)
    case Listener(_, _) => q.kind.Listener?
  }

  lemma SameLinksKeeps(nodes: seq<Node>, promises: seq<PromiseState>, attempts: seq<Attempt>, tasks: seq<Task>, except: set<nat>, i: nat, n: Node)
    requires LinkedExcept(nodes, promises, attempts, tasks, except) && i < |nodes| && SameLinks(nodes[i], n)
    ensures LinkedExcept(nodes[i := n], promises, attempts, tasks, except)
  {
    var b := nodes[i := n];
    forall x | 0 <= x < |b| ensures NodeShape(b, x, |promises|, |attempts|) {
      assert NodeShape(nodes, x, |promises|, |attempts|);
      forall d | d in b[x].dependents ensures IsDependent(b, d) {
        assert IsDependent(nodes, d);
      }
    }
    forall j: nat, k: nat | j < |b| && j !in except && b[j].kind.Computed? && k in b[j].kind.keys
      ensures LinkedForward(b, j, k)
    {
      assert LinkedForward(nodes, j, k);
    }
    forall k: nat, j: nat | k < |b| && j in b[k].dependents
      ensures LinkedBack(b, k, j)
    {
      assert LinkedBack(nodes, k, j);
    }
  }

  lemma AddTaskKeeps(nodes: seq<Node>, promises: seq<PromiseState>, attempts: seq<Attempt>, tasks: seq<Task>, t: Task)
    requires WellFormed(nodes, promises, attempts, tasks) && TaskFits(nodes, t)
    ensures WellFormed(nodes, promises, attempts, tasks + [t])
  {
  }

  /** A new node with no links joins the arena; a new Computed brings its own
      fresh placeholder. */
  lemma AppendKeeps(nodes: seq<Node>, promises: seq<PromiseState>, attempts: seq<Attempt>, tasks: seq<Task>, n: Node, extra: seq<PromiseState>)
    requires WellFormed(nodes, promises, attempts, tasks) && n.dependents == {}
    requires match n.kind
      case Computed(g, _, keys, flags, ph, last) =>
        (exists b: nat :: Bounded(g, b)) && keys == [] && flags == map[] && ph == |promises| && last == None &&
        extra == [Pending]
      case Watcher(dep, st) => dep < |nodes| && (st == Valid || st == Uncertain) && extra == []
      case _ => extra == []
    ensures WellFormed(nodes + [n], promises + extra, attempts, tasks)
  {
    var b := nodes + [n];
    var ps := promises + extra;
    forall x | 0 <= x < |b| ensures NodeShape(b, x, |ps|, |attempts|) {
      if x < |nodes| {
        assert NodeShape(nodes, x, |promises|, |attempts|);
        assert b[x] == nodes[x];
        forall d | d in b[x].dependents ensures IsDependent(b, d) {
          assert IsDependent(nodes, d);
        }
      }
    }
    forall t | t in tasks ensures TaskFits(b, t) {
      assert TaskFits(nodes, t);
    }
    forall a | a in attempts ensures a.owner < |b| && b[a.owner].kind.Computed? {
    }
    forall x | 0 <= x < |b| && b[x].kind.Computed? ensures b[x].kind.placeholder < |ps| && ps[b[x].kind.placeholder] == Pending {
      if x < |nodes| {
        assert nodes[x].kind.placeholder < |promises|;
      }
    }
    forall x, y | 0 <= x < |b| && 0 <= y < |b| && x != y && b[x].kind.Computed? && b[y].kind.Computed?
      ensures b[x].kind.placeholder != b[y].kind.placeholder
    {
      if x < |nodes| {
        assert nodes[x].kind.placeholder < |promises|;
      }
      if y < |nodes| {
        assert nodes[y].kind.placeholder < |promises|;
      }
    }
    forall j: nat, k: nat | j < |b| && b[j].kind.Computed? && k in b[j].kind.keys
      ensures LinkedForward(b, j, k)
    {
      assert LinkedForward(nodes, j, k);
    }
    forall k: nat, j: nat | k < |b| && j in b[k].dependents
      ensures LinkedBack(b, k, j)
    {
      assert LinkedBack(nodes, k, j);
    }
  }

  lemma UncertainStays(a: seq<Node>, b: seq<Node>, s: set<nat>)
    requires Raised(a, b) && forall j | j in s :: IsUncertain(a, j)
    ensures forall j | j in s :: IsUncertain(b, j)
  {
  }

  /** Two invalidation steps in a row are one: what was raised, reached and
      scheduled composes, the measure does not grow, and what was Uncertain
      stays so. */
  lemma InvalidationStep(a: seq<Node>, b: seq<Node>, c: seq<Node>, t0: seq<Task>, t1: seq<Task>, t2: seq<Task>, s: set<nat>)
    requires Raised(a, b) && Downstream(a, b) && Scheduled(a, b, t0, t1)
    requires Raised(b, c) && Downstream(b, c) && Scheduled(b, c, t1, t2)
    requires forall j | j in s :: IsUncertain(b, j)
    ensures Raised(a, c) && Downstream(a, c) && Scheduled(a, c, t0, t2)
    ensures |NotUncertain(c)| <= |NotUncertain(a)|
    ensures forall j | j in s :: IsUncertain(c, j)
  {
    RaisedTrans(a, b, c);
    DownstreamTrans(a, b, c);
    ScheduledTrans(a, b, c, t0, t1, t2);
    RaisedShrinks(a, c);
    UncertainStays(b, c, s);
  }

  /** A Computed raised to Uncertain whose dependents were then all
      invalidated leaves nothing changed with a dependent still certain. */
  lemma DownstreamAfterRaise(a: seq<Node>, c: nat, b: seq<Node>)
    requires c < |a| && a[c].kind.Computed?
    requires Raised(a[c := WithState(a[c], Uncertain)], b) && Downstream(a[c := WithState(a[c], Uncertain)], b)
    requires forall j | j in a[c].dependents :: IsUncertain(b, j)
    ensures Downstream(a, b)
  {
    var r := a[c := WithState(a[c], Uncertain)];
    forall i: nat, j: nat | i < |b| && b[i] != a[i] && a[i].kind.Computed? && j in b[i].dependents
      ensures IsUncertain(b, j)
    {
      if i != c {
        assert r[i] == a[i];
      } else {
        assert b[c].dependents == a[c].dependents;
      }
    }
  }

  /** Dropping `d` from the dependents of `n` can only break links of `d`. */
  lemma RemoveKeeps(nodes: seq<Node>, promises: seq<PromiseState>, attempts: seq<Attempt>, tasks: seq<Task>, n: nat, d: nat)
    requires n < |nodes| && LinkedExcept(nodes, promises, attempts, tasks, {d})
    ensures LinkedExcept(nodes[n := nodes[n].(dependents := nodes[n].dependents - {d})], promises, attempts, tasks, {d})
  {
    var b := nodes[n := nodes[n].(dependents := nodes[n].dependents - {d})];
    forall x | 0 <= x < |b| ensures NodeShape(b, x, |promises|, |attempts|) {
      assert NodeShape(nodes, x, |promises|, |attempts|);
      forall e | e in b[x].dependents ensures IsDependent(b, e) {
        assert IsDependent(nodes, e);
      }
    }
    forall j: nat, k: nat | j < |b| && j !in {d} && b[j].kind.Computed? && k in b[j].kind.keys
      ensures LinkedForward(b, j, k)
    {
      assert LinkedForward(nodes, j, k);
    }
    forall k: nat, j: nat | k < |b| && j in b[k].dependents
      ensures LinkedBack(b, k, j)
    {
      assert LinkedBack(nodes, k, j);
    }
  }

  // ---------------------------------------------------------------------------
  // Updates made by a compute.

  /** `dependencies.set(d, flag)` on the Computed `n`: a new key goes last,
      an existing key keeps its place. The current engine stores `true`
      (src/computed.ts:109), the earlier one `0`, which is falsy
      (computed.ts:105). */
  function Tracked(n: Node, d: nat, flag: bool): (r: Node)
    requires n.kind.Computed?
    ensures r.kind.Computed? && d in r.kind.flags && r.kind.flags[d] == flag && d in r.kind.keys
  {
    n.(kind := n.kind.(keys := AddKey(n.kind.keys, d), flags := n.kind.flags[d := flag]))
  }

  /** Tracking `d` and then registering on it keeps the graph well formed. */
  lemma TrackKeeps(nodes: seq<Node>, promises: seq<PromiseState>, attempts: seq<Attempt>, tasks: seq<Task>, c: nat, d: nat, flag: bool)
    requires WellFormed(nodes, promises, attempts, tasks) && c < |nodes| && nodes[c].kind.Computed? && d < |nodes|
    ensures var m := nodes[c := Tracked(nodes[c], d, flag)];
      WellFormed(m[d := WithDependent(m[d], c)], promises, attempts, tasks)
  {
    var m := nodes[c := Tracked(nodes[c], d, flag)];
    var b := m[d := WithDependent(m[d], c)];
    assert NodeShape(nodes, c, |promises|, |attempts|);
    forall x | 0 <= x < |b| ensures NodeShape(b, x, |promises|, |attempts|) {
      assert NodeShape(nodes, x, |promises|, |attempts|);
      forall e | e in b[x].dependents ensures IsDependent(b, e) {
        if e != c {
          assert IsDependent(nodes, e);
        }
      }
    }
    forall j: nat, k: nat | j < |b| && b[j].kind.Computed? && k in b[j].kind.keys
      ensures LinkedForward(b, j, k)
    {
      if j != c || k != d {
        assert LinkedForward(nodes, j, k);
      }
    }
    forall k: nat, j: nat | k < |b| && j in b[k].dependents
      ensures LinkedBack(b, k, j)
    {
      if j != c || k != d {
        assert LinkedBack(nodes, k, j);
      }
    }
  }

  /** The current placeholder is settled to `s` (or left as it is) and the
      Computed gets a record `n` with a fresh placeholder and no attempt. */
  lemma ReplacePlaceholderKeeps(nodes: seq<Node>, promises: seq<PromiseState>, attempts: seq<Attempt>, tasks: seq<Task>, c: nat, s: PromiseState, n: Node)
    requires WellFormed(nodes, promises, attempts, tasks) && c < |nodes| && nodes[c].kind.Computed?
    requires n.kind.Computed? && n.dependents == nodes[c].dependents && n.kind.getter == nodes[c].kind.getter
    requires n.kind.keys == nodes[c].kind.keys && n.kind.flags.Keys == nodes[c].kind.flags.Keys
    requires n.kind.placeholder == |promises| && n.kind.lastAttempt == None
    ensures WellFormed(nodes[c := n], promises[nodes[c].kind.placeholder := s] + [Pending], attempts, tasks)
  {
    var b := nodes[c := n];
    var ps := promises[nodes[c].kind.placeholder := s] + [Pending];
    forall x | 0 <= x < |b| ensures NodeShape(b, x, |ps|, |attempts|) {
      assert NodeShape(nodes, x, |promises|, |attempts|);
      forall e | e in b[x].dependents ensures IsDependent(b, e) {
        assert IsDependent(nodes, e);
      }
    }
    forall t | t in tasks ensures TaskFits(b, t) {
      assert TaskFits(nodes, t);
    }
    forall x | 0 <= x < |b| && b[x].kind.Computed? ensures b[x].kind.placeholder < |ps| && ps[b[x].kind.placeholder] == Pending {
      if x != c {
        assert nodes[x].kind.placeholder != nodes[c].kind.placeholder;
      }
    }
    forall x, y | 0 <= x < |b| && 0 <= y < |b| && x != y && b[x].kind.Computed? && b[y].kind.Computed?
      ensures b[x].kind.placeholder != b[y].kind.placeholder
    {
      assert nodes[x].kind.placeholder < |promises| && nodes[y].kind.placeholder < |promises|;
    }
    forall j: nat, k: nat | j < |b| && b[j].kind.Computed? && k in b[j].kind.keys
      ensures LinkedForward(b, j, k)
    {
      assert LinkedForward(nodes, j, k);
    }
    forall k: nat, j: nat | k < |b| && j in b[k].dependents
      ensures LinkedBack(b, k, j)
    {
      assert LinkedBack(nodes, k, j);
    }
  }

  /** An async getter result: a new attempt owned by `c` becomes the latest and
      the Computed's value is its current placeholder. */
  lemma AttemptKeeps(nodes: seq<Node>, promises: seq<PromiseState>, attempts: seq<Attempt>, tasks: seq<Task>, c: nat)
    requires WellFormed(nodes, promises, attempts, tasks) && c < |nodes| && nodes[c].kind.Computed?
    ensures WellFormed(nodes[c := Node(Promise(nodes[c].kind.placeholder), nodes[c].dependents,
                                       nodes[c].kind.(lastAttempt := Some(|attempts|)))],
                       promises, attempts + [Attempt(c, false)], tasks)
  {
    var b := nodes[c := Node(Promise(nodes[c].kind.placeholder), nodes[c].dependents,
                             nodes[c].kind.(lastAttempt := Some(|attempts|)))];
    var ats := attempts + [Attempt(c, false)];
    forall x | 0 <= x < |b| ensures NodeShape(b, x, |promises|, |ats|) {
      assert NodeShape(nodes, x, |promises|, |attempts|);
      forall e | e in b[x].dependents ensures IsDependent(b, e) {
        assert IsDependent(nodes, e);
      }
    }
    forall t | t in tasks ensures TaskFits(b, t) {
      assert TaskFits(nodes, t);
    }
    forall j: nat, k: nat | j < |b| && b[j].kind.Computed? && k in b[j].kind.keys
      ensures LinkedForward(b, j, k)
    {
      assert LinkedForward(nodes, j, k);
    }
    forall k: nat, j: nat | k < |b| && j in b[k].dependents
      ensures LinkedBack(b, k, j)
    {
      assert LinkedBack(nodes, k, j);
    }
  }

  // ---------------------------------------------------------------------------
  // Registration and validation on one node.

  /** Tracker's `addDependent`, with the Listener override: a Listener that is
      not yet listening is listening from now on. */
  function Attached(n: Node, d: nat): (r: Node)
    ensures r.dependents == n.dependents + {d} && r.value == n.value
  {
    var m := n.(dependents := n.dependents + {d});
    if m.kind.Listener? then m.(kind := m.kind.(listening := true)) else m
  }

  /** Tracker's `removeDependent`, with the Listener override: a Listener left
      with no dependent stops listening. */
  function Detached(n: Node, d: nat): (r: Node)
    ensures r.dependents == n.dependents - {d} && r.value == n.value
  {
    var m := n.(dependents := n.dependents - {d});
    if m.kind.Listener? && m.dependents == {} then m.(kind := m.kind.(listening := false)) else m
  }

  /** `addDependent` is idempotent: adding the same dependent again changes
      nothing, and on a node that is not a Listener, adding one that is
      already there changes nothing either. */
  lemma AttachIdempotent(n: Node, d: nat)
    ensures Attached(Attached(n, d), d) == Attached(n, d)
    ensures d in n.dependents && !n.kind.Listener? ==> Attached(n, d) == n
  {
    assert n.dependents + {d} + {d} == n.dependents + {d};
    if d in n.dependents {
      assert n.dependents + {d} == n.dependents;
    }
  }

  /** `removeDependent` of a dependent that is not there changes nothing on a
      node that is not a Listener, and removing twice is removing once. */
  lemma DetachIdempotent(n: Node, d: nat)
    ensures Detached(Detached(n, d), d) == Detached(n, d)
    ensures d !in n.dependents && !n.kind.Listener? ==> Detached(n, d) == n
  {
    assert n.dependents - {d} - {d} == n.dependents - {d};
    if d !in n.dependents {
      assert n.dependents - {d} == n.dependents;
    }
  }

  /** The `start` call that attaching `d` to `nodes[x]` makes. */
  function StartOf(nodes: seq<Node>, x: nat): (r: seq<Event>)
    ensures forall e | e in r :: e == Started(x)
  {
    if x < |nodes| && nodes[x].kind.Listener? && !nodes[x].kind.listening then [Started(x)] else []
  }

  /** The `stop` call that detaching `d` from `nodes[x]` makes. */
  function StopOf(nodes: seq<Node>, x: nat, d: nat): (r: seq<Event>)
    ensures forall e | e in r :: e == Stopped(x)
  {
    if x < |nodes| && nodes[x].kind.Listener? && nodes[x].dependents - {d} == {} then [Stopped(x)] else []
  }

  /** The `stop` calls that detaching `d` from `keys[0]`, ..., `keys[k - 1]` in
      turn makes. */
  function StopsOf(nodes: seq<Node>, keys: seq<nat>, k: nat, d: nat): (r: seq<Event>)
    requires k <= |keys|
    ensures forall e | e in r :: e.Stopped?
  {
    if k == 0 then [] else StopsOf(nodes, keys, k - 1, d) + StopOf(nodes, keys[k - 1], d)
  }

  /** Replacing a node that is not a Listener by another that is not one
      changes no `stop` call. */
  lemma {:induction false} StopsOfOther(nodes: seq<Node>, keys: seq<nat>, k: nat, d: nat, c: nat, n: Node)
    requires k <= |keys| && c < |nodes| && !nodes[c].kind.Listener? && !n.kind.Listener?
    ensures StopsOf(nodes[c := n], keys, k, d) == StopsOf(nodes, keys, k, d)
  {
    if k > 0 {
      StopsOfOther(nodes, keys, k - 1, d, c, n);
    }
  }

  /** `validate(c)` on a dependent: a Computed marks `c` as unchanged, a
      Watcher becomes Valid. */
  function Validated(n: Node, c: nat): Node
  {
    match n.kind
    case Computed(_, _, _, flags, _, _) => n.(kind := n.kind.(flags := flags[c := false]))
    case Watcher(_, _) => WithWatchState(n, Valid)
    case _ => n
  }

  /** The dependent `j` has been told that `c` did not change. */
  ghost predicate IsValidated(nodes: seq<Node>, c: nat, j: nat)
  {
    j < |nodes| &&
    (nodes[j].kind.Computed? ==> c in nodes[j].kind.flags && !nodes[j].kind.flags[c]) &&
    (nodes[j].kind.Watcher? ==> nodes[j].kind.watchState == Valid)
  }

  /** An Uncertain Computed that tracks nothing: its short circuit has no
      dependency to re-read, so a read of it keeps its value. */
  ghost predicate Settled(nodes: seq<Node>, d: nat)
  {
    d < |nodes| && nodes[d].kind.Computed? && nodes[d].kind.state == Uncertain && nodes[d].kind.keys == []
  }

  /** The Computed `c` depends only on `Settled` nodes. */
  ghost predicate DependenciesSettled(nodes: seq<Node>, c: nat)
  {
    c < |nodes| && nodes[c].kind.Computed? && forall d | d in nodes[c].kind.keys :: Settled(nodes, d)
  }

  /** `finalizeComputing` with the fresh placeholder `p`. */
  function Finalized(n: Node, p: nat): Node
    requires n.kind.Computed?
  {
    n.(kind := n.kind.(state := Valid, lastAttempt := None, placeholder := p))
  }

  /** `b` is `a` after the short circuit of `c`: `c` finalized with the fresh
      placeholder `p`, then every dependent of `c` validated by it. */
  ghost predicate ShortCircuited(a: seq<Node>, b: seq<Node>, c: nat, p: nat)
    requires c < |a| && a[c].kind.Computed?
  {
    |b| == |a| &&
    forall x | 0 <= x < |a| ::
      b[x] == (var y := if x == c then Finalized(a[c], p) else a[x];
               if x in a[c].dependents then Validated(y, c) else y)
  }

  /** After `validateDependents` of `c`, every dependent of `c` has been told. */
  lemma ValidatedAll(a: seq<Node>, b: seq<Node>, c: nat)
    requires |a| == |b| && c < |a| && forall j | j in a[c].dependents :: j < |a|
    requires forall x | 0 <= x < |a| :: b[x] == if x in a[c].dependents then Validated(a[x], c) else a[x]
    ensures forall j | j in b[c].dependents :: IsValidated(b, c, j)
  {
    assert b[c].dependents == a[c].dependents;
  }

  /** Counting the getter calls of `c` in a log that gained `stop` calls, the
      getter call, and calls of anything else. */
  lemma GetterCountedOnce(l0: seq<Event>, stops: seq<Event>, log: seq<Event>, c: nat)
    requires forall e | e in stops :: e.Stopped?
    requires |log| > |l0| + |stops| && log[..|l0| + |stops| + 1] == l0 + stops + [GetterCalled(c)]
    requires forall k | |l0| + |stops| + 1 <= k < |log| :: log[k] != GetterCalled(c)
    ensures Count(log, GetterCalled(c)) == Count(l0, GetterCalled(c)) + 1
  {
    var n := |l0| + |stops| + 1;
    var rest := log[n..];
    assert log == l0 + stops + [GetterCalled(c)] + rest by {
      assert log == log[..n] + log[n..];
    }
    assert GetterCalled(c) !in stops;
    assert GetterCalled(c) !in rest by {
      forall i | 0 <= i < |rest| ensures rest[i] != GetterCalled(c) {
        assert rest[i] == log[n + i];
      }
    }
    CountAppend(l0 + stops + [GetterCalled(c)], rest, GetterCalled(c));
    CountAppend(l0 + stops, [GetterCalled(c)], GetterCalled(c));
    CountAppend(l0, stops, GetterCalled(c));
    assert [GetterCalled(c)][1..] == [];
  }

  /** Emptying the map of a Computed registered nowhere. */
  lemma ClearKeeps(nodes: seq<Node>, promises: seq<PromiseState>, attempts: seq<Attempt>, tasks: seq<Task>, c: nat)
    requires LinkedExcept(nodes, promises, attempts, tasks, {c}) && c < |nodes| && nodes[c].kind.Computed?
    requires forall x | 0 <= x < |nodes| :: c !in nodes[x].dependents
    ensures WellFormed(nodes[c := nodes[c].(kind := nodes[c].kind.(keys := [], flags := map[]))], promises, attempts, tasks)
  {
    var b := nodes[c := nodes[c].(kind := nodes[c].kind.(keys := [], flags := map[]))];
    forall x | 0 <= x < |b| ensures NodeShape(b, x, |promises|, |attempts|) {
      assert NodeShape(nodes, x, |promises|, |attempts|);
      forall e | e in b[x].dependents ensures IsDependent(b, e) {
        assert IsDependent(nodes, e);
      }
    }
    forall j: nat, k: nat | j < |b| && b[j].kind.Computed? && k in b[j].kind.keys
      ensures LinkedForward(b, j, k)
    {
      assert LinkedForward(nodes, j, k);
    }
    forall k: nat, j: nat | k < |b| && j in b[k].dependents
      ensures LinkedBack(b, k, j)
    {
      assert LinkedBack(nodes, k, j);
    }
  }

  /** One step of `clearDependencies`: `keys[k]` is detached from as well. */
  lemma DetachStep(nodes0: seq<Node>, before: seq<Node>, after: seq<Node>, keys: seq<nat>, k: nat, c: nat, done: set<nat>)
    requires k < |keys| && Distinct(keys) && |before| == |nodes0| && keys[k] < |before| && done == Elems(keys[..k])
    requires forall x | 0 <= x < |before| :: before[x] == if x in done then Detached(nodes0[x], c) else nodes0[x]
    requires after == before[keys[k] := Detached(before[keys[k]], c)]
    ensures done + {keys[k]} == Elems(keys[..k + 1])
    ensures forall x | 0 <= x < |after| :: after[x] == if x in done + {keys[k]} then Detached(nodes0[x], c) else nodes0[x]
    ensures StopsOf(nodes0, keys, k + 1, c) == StopsOf(nodes0, keys, k, c) + StopOf(before, keys[k], c)
  {
    assert keys[..k + 1] == keys[..k] + [keys[k]];
    assert keys[k] !in done by {
      forall i | 0 <= i < k ensures keys[..k][i] != keys[k] {}
    }
    assert before[keys[k]] == nodes0[keys[k]];
  }

  /** After `removeDependent(c)` on every dependency of `c`, `c` is registered
      nowhere and every other link is intact. */
  lemma DetachAllKeeps(nodes0: seq<Node>, nodes: seq<Node>, promises: seq<PromiseState>, attempts: seq<Attempt>, tasks: seq<Task>, c: nat)
    requires WellFormed(nodes0, promises, attempts, tasks) && c < |nodes0| && nodes0[c].kind.Computed?
    requires |nodes| == |nodes0|
    requires forall x | 0 <= x < |nodes| ::
               nodes[x] == if x in nodes0[c].kind.keys then Detached(nodes0[x], c) else nodes0[x]
    ensures LinkedExcept(nodes, promises, attempts, tasks, {c})
    ensures nodes[c].kind.Computed? && nodes[c].kind.keys == nodes0[c].kind.keys
    ensures forall x | 0 <= x < |nodes| :: c !in nodes[x].dependents
  {
    forall x | 0 <= x < |nodes| ensures nodes[x].kind == nodes0[x].kind || (nodes0[x].kind.Listener? && nodes[x].kind.Listener?) {
    }
    forall x | 0 <= x < |nodes| ensures NodeShape(nodes, x, |promises|, |attempts|) {
      assert NodeShape(nodes0, x, |promises|, |attempts|);
      forall e | e in nodes[x].dependents ensures IsDependent(nodes, e) {
        assert IsDependent(nodes0, e);
      }
    }
    forall t | t in tasks ensures TaskFits(nodes, t) {
      assert TaskFits(nodes0, t);
    }
    forall j: nat, k: nat | j < |nodes| && j !in {c} && nodes[j].kind.Computed? && k in nodes[j].kind.keys
      ensures LinkedForward(nodes, j, k)
    {
      assert LinkedForward(nodes0, j, k);
    }
    forall k: nat, j: nat | k < |nodes| && j in nodes[k].dependents
      ensures LinkedBack(nodes, k, j)
    {
      assert LinkedBack(nodes0, k, j);
    }
    forall x | 0 <= x < |nodes| ensures c !in nodes[x].dependents {
      if c in nodes0[x].dependents {
        assert LinkedBack(nodes0, x, c);
      }
    }
  }

  /** Attaching to a node once the other side knows it keeps the graph well
      formed, whatever the Listener flag does. */
  lemma AttachKeeps(nodes: seq<Node>, promises: seq<PromiseState>, attempts: seq<Attempt>, tasks: seq<Task>, n: nat, d: nat)
    requires n < |nodes| && WellFormed(nodes[n := WithDependent(nodes[n], d)], promises, attempts, tasks)
    ensures WellFormed(nodes[n := Attached(nodes[n], d)], promises, attempts, tasks)
  {
    var m := nodes[n := WithDependent(nodes[n], d)];
    assert NodeShape(m, n, |promises|, |attempts|);
    SameLinksKeeps(m, promises, attempts, tasks, {}, n, Attached(nodes[n], d));
    assert m[n := Attached(nodes[n], d)] == nodes[n := Attached(nodes[n], d)];
  }

  /** Detaching `d` from one node can only break links of `d`. */
  lemma DetachKeeps(nodes: seq<Node>, promises: seq<PromiseState>, attempts: seq<Attempt>, tasks: seq<Task>, n: nat, d: nat)
    requires n < |nodes| && LinkedExcept(nodes, promises, attempts, tasks, {d})
    ensures LinkedExcept(nodes[n := Detached(nodes[n], d)], promises, attempts, tasks, {d})
  {
    RemoveKeeps(nodes, promises, attempts, tasks, n, d);
    var m := nodes[n := nodes[n].(dependents := nodes[n].dependents - {d})];
    assert NodeShape(nodes, n, |promises|, |attempts|);
    SameLinksKeeps(m, promises, attempts, tasks, {d}, n, Detached(nodes[n], d));
    assert m[n := Detached(nodes[n], d)] == nodes[n := Detached(nodes[n], d)];
  }

  // ---------------------------------------------------------------------------
  // Watchers, attempts and tasks.

  /** A Watcher registered on its own dependency keeps the graph well formed. */
  lemma WatchKeeps(nodes: seq<Node>, promises: seq<PromiseState>, attempts: seq<Attempt>, tasks: seq<Task>, d: nat, w: nat)
    requires WellFormed(nodes, promises, attempts, tasks) && w < |nodes| && d < |nodes|
    requires nodes[w].kind.Watcher? && nodes[w].kind.dependency == d
    ensures WellFormed(nodes[d := WithDependent(nodes[d], w)], promises, attempts, tasks)
  {
    var b := nodes[d := WithDependent(nodes[d], w)];
    forall x | 0 <= x < |b| ensures NodeShape(b, x, |promises|, |attempts|) {
      assert NodeShape(nodes, x, |promises|, |attempts|);
      forall e | e in b[x].dependents ensures IsDependent(b, e) {
        if e != w {
          assert IsDependent(nodes, e);
        }
      }
    }
    forall j: nat, k: nat | j < |b| && b[j].kind.Computed? && k in b[j].kind.keys
      ensures LinkedForward(b, j, k)
    {
      assert LinkedForward(nodes, j, k);
    }
    forall k: nat, j: nat | k < |b| && j in b[k].dependents
      ensures LinkedBack(b, k, j)
    {
      if j != w || k != d {
        assert LinkedBack(nodes, k, j);
      }
    }
  }

  /** A Watcher leaving the dependents of its dependency keeps the graph well
      formed: nothing else points at it. */
  lemma WatcherDetachKeeps(nodes: seq<Node>, promises: seq<PromiseState>, attempts: seq<Attempt>, tasks: seq<Task>, w: nat)
    requires WellFormed(nodes, promises, attempts, tasks) && w < |nodes| && nodes[w].kind.Watcher?
    ensures nodes[w].kind.dependency < |nodes|
    ensures WellFormed(nodes[nodes[w].kind.dependency := Detached(nodes[nodes[w].kind.dependency], w)], promises, attempts, tasks)
  {
    assert NodeShape(nodes, w, |promises|, |attempts|);
    var d := nodes[w].kind.dependency;
    DetachKeeps(nodes, promises, attempts, tasks, d, w);
    var b := nodes[d := Detached(nodes[d], w)];
    forall j: nat, k: nat | j < |b| && b[j].kind.Computed? && k in b[j].kind.keys
      ensures LinkedForward(b, j, k)
    {
      assert j != w;
    }
  }

  /** Marking an attempt settled keeps the graph well formed. */
  lemma SettledKeeps(nodes: seq<Node>, promises: seq<PromiseState>, attempts: seq<Attempt>, tasks: seq<Task>, a: nat)
    requires WellFormed(nodes, promises, attempts, tasks) && a < |attempts|
    ensures WellFormed(nodes, promises, attempts[a := attempts[a].(settled := true)], tasks)
  {
    var ats := attempts[a := attempts[a].(settled := true)];
    forall x | x in ats ensures x.owner < |nodes| && nodes[x.owner].kind.Computed? {
      var i :| 0 <= i < |ats| && ats[i] == x;
      assert attempts[i] in attempts;
    }
    forall x | 0 <= x < |nodes| ensures NodeShape(nodes, x, |promises|, |ats|) {
      assert NodeShape(nodes, x, |promises|, |attempts|);
    }
  }

  /** Taking a task off the queue keeps the graph well formed. */
  lemma RemoveTaskKeeps(nodes: seq<Node>, promises: seq<PromiseState>, attempts: seq<Attempt>, tasks: seq<Task>, k: nat)
    requires WellFormed(nodes, promises, attempts, tasks) && k < |tasks|
    ensures WellFormed(nodes, promises, attempts, tasks[..k] + tasks[k + 1..])
  {
    var rest := tasks[..k] + tasks[k + 1..];
    forall t | t in rest ensures TaskFits(nodes, t) {
      var i :| 0 <= i < |rest| && rest[i] == t;
      if i < k {
        assert tasks[i] == t;
      } else {
        assert tasks[i + 1] == t;
      }
    }
  }

  // ---------------------------------------------------------------------------
  // What well-formedness promises about tracking.

  /** In a well-formed graph a Computed is registered as a dependent of a node
      exactly when that node is one of its tracked dependencies; a Watcher is
      registered on its dependency only (a disposed one on none). */
  lemma TrackedExactly(nodes: seq<Node>, promises: seq<PromiseState>, attempts: seq<Attempt>, tasks: seq<Task>, c: nat, d: nat)
    requires WellFormed(nodes, promises, attempts, tasks) && c < |nodes| && d < |nodes|
    ensures nodes[c].kind.Computed? ==> (c in nodes[d].dependents <==> d in nodes[c].kind.keys)
    ensures nodes[c].kind.Watcher? && c in nodes[d].dependents ==> d == nodes[c].kind.dependency
    ensures c in nodes[d].dependents ==> nodes[c].kind.Computed? || nodes[c].kind.Watcher?
  {
    if c in nodes[d].dependents {
      assert LinkedBack(nodes, d, c);
      assert NodeShape(nodes, d, |promises|, |attempts|);
    }
    if nodes[c].kind.Computed? && d in nodes[c].kind.keys {
      assert LinkedForward(nodes, c, d);
    }
  }
}
