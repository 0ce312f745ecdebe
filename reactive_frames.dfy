/** What a read of the current engine (src/) may change. A read recomputes
    Invalid and Uncertain Computed nodes, registers and unregisters dependents,
    initialises Listeners and settles placeholders; it never invalidates,
    never queues a task and never touches a Ref, a Watcher's captured value, a
    Valid Computed's result or a Computed in the middle of its own compute. */
module ReactiveFrames {
  import opened Values
  import opened ReactiveNodes

  /** A node whose value no read changes, so that a read returns what it
      holds: a Ref, a Watcher, a Computed that is Valid or Computing
      (src/computed.ts:41-47), and a Listener that has its value or whose
      `init` gives `undefined` again. */
  predicate Pinned(n: Node)
  {
    match n.kind
    case Computed(_, st, _, _, _, _) => st == Valid || st == Computing
    case Listener(init, _) => n.value != Undef || init == Undef
    case _ => true
  }

  /** A Listener whose value is `undefined`: each read calls `init`
      (src/listener.ts:38-43), even when that gives `undefined` again. */
  predicate Uninitialised(n: Node)
  {
    n.kind.Listener? && n.value == Undef
  }

  /** What no read changes about a node: its kind and the fields fixed at
      construction, a Ref's value, a Watcher's captured value, a Valid
      Computed's result and tracking; a Listener's value is set at most once,
      to what `init` gives; and a Watcher becomes Uncertain only by
      invalidation. */
  ghost predicate Persists(p: Node, q: Node)
  {
    match p.kind
    case Ref(eq) => q.kind == Ref(eq) && q.value == p.value
    case Computed(g, st, _, _, _, _) =>
      q.kind.Computed? && q.kind.getter == g &&
      (st == Valid ==> q.value == p.value && q.kind == p.kind.(flags := q.kind.flags))
    case Watcher(dep, st) =>
      q.kind.Watcher? && q.value == p.value && q.kind.dependency == dep &&
      (q.kind.watchState == Uncertain ==> st == Uncertain)
    case Listener(init, _) =>
      q.kind.Listener? && q.kind.init == init && (q.value == p.value || (p.value == Undef && q.value == init))
  }

  /** A Computed in the middle of its own compute keeps everything but its
      dependents and its flags. */
  ghost predicate Frozen(p: Node, q: Node)
  {
    p.kind.Computed? && p.kind.state == Computing ==>
      q.value == p.value && q.kind.Computed? && q.kind == p.kind.(flags := q.kind.flags)
  }

  /** A Computed that is being computed stays a Computed of the same getter; a
      Watcher being re-checked stays a Watcher. */
  ghost predicate FreeStep(p: Node, q: Node)
  {
    (p.kind.Computed? ==> q.kind.Computed? && q.kind.getter == p.kind.getter) &&
    (p.kind.Watcher? ==> q.kind.Watcher?)
  }

  /** No Watcher leaves a dependents set it was in: the only
      `removeDependent` a read makes is the `clearDependencies` of a Computed
      that recomputes, which removes that Computed. */
  ghost predicate WatchersStay(a: seq<Node>, b: seq<Node>)
  {
    forall x, w | 0 <= x < |a| && 0 <= w < |a| && a[w].kind.Watcher? && w in a[x].dependents ::
      x < |b| && w in b[x].dependents
  }

  /** The nodes in `free` are the Computed nodes being computed (or the
      Watcher being re-checked); every other node persists and, if Computing,
      stays frozen; and every Watcher stays registered. */
  ghost predicate Evolves(a: seq<Node>, b: seq<Node>, free: set<nat>)
  {
    |a| == |b| &&
    (forall x | 0 <= x < |a| ::
      if x in free then FreeStep(a[x], b[x]) else Persists(a[x], b[x]) && Frozen(a[x], b[x])) &&
    WatchersStay(a, b)
  }

  /** A call into user code that a read may make: never an `onChange`, and
      no getter of a Computed that was already Computing outside `free`. */
  ghost predicate ReadEvent(n0: seq<Node>, free: set<nat>, e: Event)
  {
    && !e.Fired?
    && (e.GetterCalled? && e.node < |n0| && e.node !in free ==>
          !(n0[e.node].kind.Computed? && n0[e.node].kind.state == Computing))
  }

  /** A settled promise stays settled as the pool grows. */
  ghost predicate PromisesGrow(a: seq<PromiseState>, b: seq<PromiseState>)
  {
    |a| <= |b| && forall p | 0 <= p < |a| && a[p] != Pending :: b[p] == a[p]
  }

  /** What a read may do to the whole engine state: nodes evolve as `Evolves`
      allows, promises only settle or are added, attempts and the log only grow,
      no Computing node outside `free` has its getter called, and no task is
      queued. */
  ghost predicate Advance(n0: seq<Node>, n1: seq<Node>, ps0: seq<PromiseState>, ps1: seq<PromiseState>,
                          as0: seq<Attempt>, as1: seq<Attempt>, t0: seq<Task>, t1: seq<Task>,
                          l0: seq<Event>, l1: seq<Event>, free: set<nat>)
  {
    && Evolves(n0, n1, free) && PromisesGrow(ps0, ps1) && as0 <= as1 && t1 == t0 && l0 <= l1
    && forall k | |l0| <= k < |l1| :: ReadEvent(n0, free, l1[k])
  }

  lemma PersistsRefl(p: Node)
    ensures Persists(p, p) && Frozen(p, p)
  {
    match p.kind
    case Ref(_) =>
    case Computed(_, _, _, _, _, _) =>
    case Watcher(_, _) =>
    case Listener(_, _) =>
  }

  lemma EvolvesRefl(a: seq<Node>)
    ensures Evolves(a, a, {})
  {
    forall x | 0 <= x < |a| ensures Persists(a[x], a[x]) && Frozen(a[x], a[x]) {
      PersistsRefl(a[x]);
    }
  }

  lemma EvolvesTrans(a: seq<Node>, b: seq<Node>, c: seq<Node>, f: set<nat>, g: set<nat>)
    requires Evolves(a, b, f) && Evolves(b, c, g)
    ensures Evolves(a, c, f + g)
  {
    forall x | 0 <= x < |a|
      ensures if x in f + g then FreeStep(a[x], c[x]) else Persists(a[x], c[x]) && Frozen(a[x], c[x])
    {
    }
    forall x, w | 0 <= x < |a| && 0 <= w < |a| && a[w].kind.Watcher? && w in a[x].dependents
      ensures w in c[x].dependents
    {
      assert b[w].kind.Watcher? by {
        if w in f {
          assert FreeStep(a[w], b[w]);
        } else {
          assert Persists(a[w], b[w]);
        }
      }
    }
  }

  lemma AdvanceRefl(n0: seq<Node>, ps0: seq<PromiseState>, as0: seq<Attempt>, t0: seq<Task>, l0: seq<Event>)
    ensures Advance(n0, n0, ps0, ps0, as0, as0, t0, t0, l0, l0, {})
  {
    EvolvesRefl(n0);
  }

  lemma AdvanceTrans(n0: seq<Node>, n1: seq<Node>, n2: seq<Node>, ps0: seq<PromiseState>, ps1: seq<PromiseState>, ps2: seq<PromiseState>,
                     as0: seq<Attempt>, as1: seq<Attempt>, as2: seq<Attempt>, t0: seq<Task>, t1: seq<Task>, t2: seq<Task>,
                     l0: seq<Event>, l1: seq<Event>, l2: seq<Event>, f: set<nat>, g: set<nat>)
    requires Advance(n0, n1, ps0, ps1, as0, as1, t0, t1, l0, l1, f)
    requires Advance(n1, n2, ps1, ps2, as1, as2, t1, t2, l1, l2, g)
    ensures Advance(n0, n2, ps0, ps2, as0, as2, t0, t2, l0, l2, f + g)
  {
    EvolvesTrans(n0, n1, n2, f, g);
    forall k | |l0| <= k < |l2| ensures ReadEvent(n0, f + g, l2[k]) {
      if k < |l1| {
        assert l2[k] == l1[k];
        assert ReadEvent(n0, f, l1[k]);
      } else {
        assert ReadEvent(n1, g, l2[k]);
      }
    }
  }

  /** What a read allows with nothing free it allows with anything free. */
  lemma AdvanceWiden(n0: seq<Node>, n1: seq<Node>, ps0: seq<PromiseState>, ps1: seq<PromiseState>,
                     as0: seq<Attempt>, as1: seq<Attempt>, t0: seq<Task>, t1: seq<Task>,
                     l0: seq<Event>, l1: seq<Event>, free: set<nat>)
    requires Advance(n0, n1, ps0, ps1, as0, as1, t0, t1, l0, l1, {})
    ensures Advance(n0, n1, ps0, ps1, as0, as1, t0, t1, l0, l1, free)
  {
    forall x | 0 <= x < |n0| && x in free ensures FreeStep(n0[x], n1[x]) {
      assert Persists(n0[x], n1[x]);
    }
  }

  /** A read calls no `onChange`. */
  lemma AdvanceQuiet(n0: seq<Node>, n1: seq<Node>, ps0: seq<PromiseState>, ps1: seq<PromiseState>,
                     as0: seq<Attempt>, as1: seq<Attempt>, t0: seq<Task>, t1: seq<Task>,
                     l0: seq<Event>, l1: seq<Event>, free: set<nat>)
    requires Advance(n0, n1, ps0, ps1, as0, as1, t0, t1, l0, l1, free)
    ensures forall w :: Fires(l1, w) == Fires(l0, w)
  {
    QuietFires(l0, l1);
  }

  /** A compute that started from Invalid or Uncertain leaves its Computed
      persisting, so it need not be named free. */
  lemma AdvanceTighten(n0: seq<Node>, n1: seq<Node>, ps0: seq<PromiseState>, ps1: seq<PromiseState>,
                       as0: seq<Attempt>, as1: seq<Attempt>, t0: seq<Task>, t1: seq<Task>,
                       l0: seq<Event>, l1: seq<Event>, c: nat)
    requires Advance(n0, n1, ps0, ps1, as0, as1, t0, t1, l0, l1, {c})
    requires c < |n0| && n0[c].kind.Computed? && (n0[c].kind.state == Invalid || n0[c].kind.state == Uncertain)
    ensures Advance(n0, n1, ps0, ps1, as0, as1, t0, t1, l0, l1, {})
  {
    assert FreeStep(n0[c], n1[c]);
    forall k | |l0| <= k < |l1| ensures ReadEvent(n0, {}, l1[k]) {
      assert ReadEvent(n0, {c}, l1[k]);
    }
  }

  /** A read followed by the compute of `c`, which started from Invalid or
      Uncertain, is a read with nothing free. */
  lemma AdvanceThrough(n0: seq<Node>, n1: seq<Node>, n2: seq<Node>, ps0: seq<PromiseState>, ps1: seq<PromiseState>, ps2: seq<PromiseState>,
                       as0: seq<Attempt>, as1: seq<Attempt>, as2: seq<Attempt>, t: seq<Task>,
                       l0: seq<Event>, l1: seq<Event>, l2: seq<Event>, c: nat)
    requires Advance(n0, n1, ps0, ps1, as0, as1, t, t, l0, l1, {})
    requires Advance(n1, n2, ps1, ps2, as1, as2, t, t, l1, l2, {c})
    requires c < |n0| && n0[c].kind.Computed? && (n0[c].kind.state == Invalid || n0[c].kind.state == Uncertain)
    ensures Advance(n0, n2, ps0, ps2, as0, as2, t, t, l0, l2, {})
  {
    AdvanceTrans(n0, n1, n2, ps0, ps1, ps2, as0, as1, as2, t, t, t, l0, l1, l2, {}, {c});
    assert {} + {c} == {c};
    AdvanceTighten(n0, n2, ps0, ps2, as0, as2, t, t, l0, l2, c);
  }

  /** One node replaced in a way that `Evolves` allows. */
  lemma EvolvesOne(a: seq<Node>, i: nat, n: Node, free: set<nat>)
    requires i < |a| && a[i].dependents <= n.dependents
    requires if i in free then FreeStep(a[i], n) else Persists(a[i], n) && Frozen(a[i], n)
    ensures Evolves(a, a[i := n], free)
  {
    forall x | 0 <= x < |a| && x != i ensures Persists(a[x], a[x]) && Frozen(a[x], a[x]) {
      PersistsRefl(a[x]);
    }
  }

  /** A read that is followed by replacing one of its free nodes, in a way
      `FreeStep` allows, is still such a read. */
  lemma AdvanceReplace(n0: seq<Node>, n1: seq<Node>, ps0: seq<PromiseState>, ps1: seq<PromiseState>,
                       as0: seq<Attempt>, as1: seq<Attempt>, t: seq<Task>, l0: seq<Event>, l1: seq<Event>,
                       i: nat, n: Node, free: set<nat>)
    requires Advance(n0, n1, ps0, ps1, as0, as1, t, t, l0, l1, free)
    requires i < |n1| && i in free && FreeStep(n1[i], n) && n1[i].dependents <= n.dependents
    ensures Advance(n0, n1[i := n], ps0, ps1, as0, as1, t, t, l0, l1, free)
  {
    forall x | 0 <= x < |n0|
      ensures if x in free then FreeStep(n0[x], n1[i := n][x]) else Persists(n0[x], n1[i := n][x]) && Frozen(n0[x], n1[i := n][x])
    {
      if x == i {
        assert FreeStep(n0[x], n1[x]);
      }
    }
  }

  /** The `stop` calls of releasing the dependencies, then the getter call of
      `c` itself, are calls a compute of `c` may make. */
  lemma StopsThenGetter(n0: seq<Node>, l0: seq<Event>, stops: seq<Event>, c: nat)
    requires forall e | e in stops :: e.Stopped?
    ensures var l1 := l0 + stops + [GetterCalled(c)];
              forall k | |l0| <= k < |l1| :: ReadEvent(n0, {c}, l1[k])
  {
    var l1 := l0 + stops + [GetterCalled(c)];
    forall k | |l0| <= k < |l1| ensures ReadEvent(n0, {c}, l1[k]) {
      if k < |l1| - 1 {
        assert l1[k] == stops[k - |l0|] && l1[k] in stops;
      }
    }
  }

  /** A pinned node outside `free` keeps its value and stays pinned. */
  lemma PinnedStays(a: seq<Node>, b: seq<Node>, free: set<nat>, x: nat)
    requires Evolves(a, b, free) && x < |a| && x !in free && Pinned(a[x])
    ensures Pinned(b[x]) && b[x].value == a[x].value
  {
    assert Persists(a[x], b[x]) && Frozen(a[x], b[x]);
  }

  /** What a read leaves of a Watcher outside `free`: its captured value and
      its dependency, a state that became Uncertain only if it was, and every
      registration `w` had. */
  lemma WatcherPersists(a: seq<Node>, b: seq<Node>, free: set<nat>, w: nat, x: nat)
    requires Evolves(a, b, free) && w < |a| && w !in free && a[w].kind.Watcher? && x < |a|
    ensures b[w].kind.Watcher? && b[w].value == a[w].value && b[w].kind.dependency == a[w].kind.dependency
    ensures b[w].kind.watchState == Uncertain ==> a[w].kind.watchState == Uncertain
    ensures w in a[x].dependents ==> w in b[x].dependents
  {
    assert Persists(a[w], b[w]);
  }

  /** While `c` re-reads its settled dependencies `keys` from the `k`-th on:
      `c` is still the Uncertain Computed it was in `a` apart from its flags,
      and the dependencies not yet read are still settled. */
  ghost predicate SettledFrom(a: seq<Node>, b: seq<Node>, c: nat, keys: seq<nat>, k: nat)
  {
    && c < |a| && c < |b| && a[c].kind.Computed? && b[c].kind.Computed?
    && b[c].value == a[c].value && b[c].kind.state == a[c].kind.state && b[c].kind.keys == keys
    && forall i | k <= i < |keys| :: Settled(b, keys[i])
  }

  /** Re-flagging a Computed whose dependencies are settled leaves them
      settled: none of them is the Computed itself. */
  lemma SettledMarked(a: seq<Node>, b: seq<Node>, c: nat, m: map<nat, bool>)
    requires DependenciesSettled(a, c) && b == a[c := a[c].(kind := a[c].kind.(flags := m))]
    ensures SettledFrom(a, b, c, a[c].kind.keys, 0)
  {
    var keys := a[c].kind.keys;
    forall i | 0 <= i < |keys| ensures Settled(b, keys[i]) {
      assert keys[i] in keys && Settled(a, keys[i]);
    }
  }

  /** The short circuit of the settled `k`-th dependency of the Computed `c`
      clears the flag of that dependency in `c` and changes nothing else of
      `c`, and the later dependencies stay settled: none of them depends on
      the one read. */
  lemma SettledRead(a0: seq<Node>, a: seq<Node>, b: seq<Node>, ps: seq<PromiseState>, ats: seq<Attempt>, ts: seq<Task>,
                    c: nat, keys: seq<nat>, k: nat, p: nat)
    requires WellFormed(a, ps, ats, ts) && SettledFrom(a0, a, c, keys, k)
    requires Distinct(keys) && k < |keys| && Settled(a, keys[k]) && ShortCircuited(a, b, keys[k], p)
    ensures SettledFrom(a0, b, c, keys, k + 1)
    ensures keys[k] in b[c].kind.flags ==> !b[c].kind.flags[keys[k]]
  {
    var d := keys[k];
    assert LinkedForward(a, c, d);
    assert c != d;
    assert b[c] == Validated(a[c], d);
    forall i | k < i < |keys| ensures Settled(b, keys[i]) {
      assert Settled(a, keys[i]) && keys[i] != d;
    }
  }

  /** The short circuit of a settled dependency validates each Watcher
      registered on it. */
  lemma SettledValidates(a: seq<Node>, b: seq<Node>, w: nat, d: nat, p: nat)
    requires w < |a| && a[w].kind.Watcher? && Settled(a, d) && w in a[d].dependents && ShortCircuited(a, b, d, p)
    ensures b[w] == WithWatchState(a[w], Valid)
  {
    assert b[w] == Validated(a[w], d);
  }

  /** A node whose read runs no getter and validates nobody: anything but an
      Invalid or Uncertain Computed. */
  ghost predicate Current(n: Node)
  {
    !n.kind.Computed? || n.kind.state == Valid || n.kind.state == Computing
  }

  /** The re-read of the Computed `c` meets a change at its `j`-th
      dependency: the ones before it are settled, and it is current, so its
      read leaves its flag set. */
  ghost predicate ChangedAt(a: seq<Node>, c: nat, j: nat)
  {
    && c < |a| && a[c].kind.Computed? && a[c].kind.state == Uncertain && j < |a[c].kind.keys|
    && (forall i | 0 <= i < j :: Settled(a, a[c].kind.keys[i]))
    && a[c].kind.keys[j] < |a| && Current(a[a[c].kind.keys[j]])
  }

  /** Some dependency of `c` is where its re-read meets a change. */
  ghost predicate ChangeFound(a: seq<Node>, c: nat)
  {
    exists j: nat :: ChangedAt(a, c, j)
  }

  /** While `c` re-reads its dependencies `keys` from the `k`-th on: the ones
      up to the `j`-th are settled, and the `j`-th is current and flagged. */
  ghost predicate ChangedFrom(b: seq<Node>, c: nat, keys: seq<nat>, k: nat, j: nat)
  {
    && c < |b| && b[c].kind.Computed? && b[c].kind.keys == keys
    && k <= j < |keys| && (forall i | k <= i < j :: Settled(b, keys[i]))
    && keys[j] < |b| && Current(b[keys[j]]) && Flagged(b[c], keys[j])
  }

  /** Two indices where the re-read meets a change are the same: a current
      node is not settled. */
  lemma ChangedFromUnique(b: seq<Node>, c: nat, keys: seq<nat>, k: nat, j1: nat, j2: nat)
    requires ChangedFrom(b, c, keys, k, j1) && ChangedFrom(b, c, keys, k, j2)
    ensures j1 == j2
  {
  }

  /** After every flag of `c` is set, a change met at the `j`-th dependency is
      flagged. */
  lemma ChangedMarked(a: seq<Node>, b: seq<Node>, c: nat, m: map<nat, bool>)
    requires c < |a| && a[c].kind.Computed? && a[c].kind.flags.Keys == Elems(a[c].kind.keys)
    requires b == a[c := a[c].(kind := a[c].kind.(flags := m))]
    requires m.Keys == a[c].kind.flags.Keys && forall d | d in m :: m[d]
    ensures forall j: nat | ChangedAt(a, c, j) :: ChangedFrom(b, c, a[c].kind.keys, 0, j)
  {
    var keys := a[c].kind.keys;
    forall j: nat | ChangedAt(a, c, j) ensures ChangedFrom(b, c, keys, 0, j) {
      assert keys[j] in keys && keys[j] != c;
      forall i | 0 <= i < j ensures Settled(b, keys[i]) {
        assert Settled(a, keys[i]) && keys[i] != c;
      }
    }
  }

  /** The short circuit of the settled `k`-th dependency before the change at
      the `j`-th: that dependency's flag is cleared, and the change is still
      ahead, current and flagged. */
  lemma ChangedRead(a: seq<Node>, b: seq<Node>, ps: seq<PromiseState>, ats: seq<Attempt>, ts: seq<Task>,
                    c: nat, keys: seq<nat>, k: nat, j: nat, p: nat)
    requires WellFormed(a, ps, ats, ts) && ChangedFrom(a, c, keys, k, j) && k < j && Distinct(keys)
    requires Settled(a, keys[k]) && ShortCircuited(a, b, keys[k], p)
    ensures ChangedFrom(b, c, keys, k + 1, j) && !Flagged(b[c], keys[k])
  {
    var d := keys[k];
    assert LinkedForward(a, c, d);
    assert c != d;
    assert b[c] == Validated(a[c], d);
    assert keys[j] != d;
    forall i | k < i < j ensures Settled(b, keys[i]) {
      assert Settled(a, keys[i]) && keys[i] != d;
    }
  }

  /** Registration and `stop` keep every node persisting. */
  lemma AttachedPersists(p: Node, d: nat)
    ensures Persists(p, Attached(p, d)) && Frozen(p, Attached(p, d))
  {
  }

  lemma DetachedPersists(p: Node, d: nat)
    ensures Persists(p, Detached(p, d)) && Frozen(p, Detached(p, d))
  {
  }

  /** `clearDependencies` of `c`: only `c` itself is free. */
  lemma DetachedEvolves(a: seq<Node>, b: seq<Node>, keys: seq<nat>, c: nat)
    requires |a| == |b| && c < |a| && a[c].kind.Computed? && FreeStep(a[c], b[c])
    requires a[c].dependents - {c} <= b[c].dependents
    requires forall x | 0 <= x < |a| && x != c :: b[x] == if x in keys then Detached(a[x], c) else a[x]
    ensures Evolves(a, b, {c})
  {
    forall x | 0 <= x < |a| && x != c ensures Persists(a[x], b[x]) && Frozen(a[x], b[x]) {
      PersistsRefl(a[x]);
      DetachedPersists(a[x], c);
    }
  }

  /** `validateDependents` of `c`: every node persists. */
  lemma ValidatedEvolves(a: seq<Node>, b: seq<Node>, s: set<nat>, c: nat)
    requires |a| == |b|
    requires forall x | 0 <= x < |a| :: b[x] == if x in s then Validated(a[x], c) else a[x]
    ensures Evolves(a, b, {})
  {
    forall x | 0 <= x < |a| ensures Persists(a[x], b[x]) && Frozen(a[x], b[x]) {
      PersistsRefl(a[x]);
    }
  }

  /** Each value a getter was given is the current value of the dependency it
      read, which is pinned; the Computed `c` that ran the getter is exempt. */
  ghost predicate Answered(nodes: seq<Node>, ids: seq<nat>, answers: seq<Value>, c: nat)
  {
    |ids| == |answers| &&
    forall i | 0 <= i < |ids| ::
      ids[i] < |nodes| && (ids[i] != c ==> Pinned(nodes[ids[i]]) && answers[i] == nodes[ids[i]].value)
  }

  lemma AnsweredStays(a: seq<Node>, b: seq<Node>, free: set<nat>, ids: seq<nat>, answers: seq<Value>, c: nat)
    requires Evolves(a, b, free) && free <= {c} && Answered(a, ids, answers, c)
    ensures Answered(b, ids, answers, c)
  {
    forall i | 0 <= i < |ids| && ids[i] != c
      ensures Pinned(b[ids[i]]) && answers[i] == b[ids[i]].value
    {
      PinnedStays(a, b, free, ids[i]);
    }
  }

  /** A read made while `c` is Computing leaves `c` frozen and calls no getter
      of `c`. */
  lemma ReadWhileComputing(n0: seq<Node>, n1: seq<Node>, n2: seq<Node>, ps0: seq<PromiseState>, ps1: seq<PromiseState>, ps2: seq<PromiseState>,
                           as0: seq<Attempt>, as1: seq<Attempt>, as2: seq<Attempt>, t: seq<Task>,
                           l0: seq<Event>, l1: seq<Event>, l2: seq<Event>, c: nat)
    requires Advance(n0, n1, ps0, ps1, as0, as1, t, t, l0, l1, {c})
    requires Advance(n1, n2, ps1, ps2, as1, as2, t, t, l1, l2, {})
    requires c < |n1| && n1[c].kind.Computed? && n1[c].kind.state == Computing
    requires forall k | |l0| <= k < |l1| :: l1[k] != GetterCalled(c)
    ensures Advance(n0, n2, ps0, ps2, as0, as2, t, t, l0, l2, {c})
    ensures forall k | |l0| <= k < |l2| :: l2[k] != GetterCalled(c)
    ensures n2[c].value == n1[c].value && n2[c].kind == n1[c].kind.(flags := n2[c].kind.flags)
  {
    AdvanceTrans(n0, n1, n2, ps0, ps1, ps2, as0, as1, as2, t, t, t, l0, l1, l2, {c}, {});
    assert {c} + {} == {c};
    assert Frozen(n1[c], n2[c]);
    forall k | |l0| <= k < |l2| ensures l2[k] != GetterCalled(c) {
      if k < |l1| {
        assert l2[k] == l1[k];
      } else {
        assert ReadEvent(n1, {}, l2[k]);
      }
    }
  }

  /** Two steps of a getter run compose. */
  lemma RunSteps(n0: seq<Node>, n1: seq<Node>, n2: seq<Node>, ps0: seq<PromiseState>, ps1: seq<PromiseState>, ps2: seq<PromiseState>,
                 as0: seq<Attempt>, as1: seq<Attempt>, as2: seq<Attempt>, t: seq<Task>,
                 l0: seq<Event>, l1: seq<Event>, l2: seq<Event>, c: nat)
    requires Advance(n0, n1, ps0, ps1, as0, as1, t, t, l0, l1, {c})
    requires Advance(n1, n2, ps1, ps2, as1, as2, t, t, l1, l2, {c})
    requires forall k | |l0| <= k < |l1| :: l1[k] != GetterCalled(c)
    requires forall k | |l1| <= k < |l2| :: l2[k] != GetterCalled(c)
    ensures Advance(n0, n2, ps0, ps2, as0, as2, t, t, l0, l2, {c})
    ensures forall k | |l0| <= k < |l2| :: l2[k] != GetterCalled(c)
  {
    AdvanceTrans(n0, n1, n2, ps0, ps1, ps2, as0, as1, as2, t, t, t, l0, l1, l2, {c}, {c});
    assert {c} + {c} == {c};
    forall k | |l0| <= k < |l2| ensures l2[k] != GetterCalled(c) {
      if k < |l1| {
        assert l2[k] == l1[k];
      }
    }
  }

  /** How far a getter run of `c` has got from the state `n0`..`l0`: the
      Computed kept its value and everything but its map, whose keys are the
      dependencies named so far in first-read order; each answer is the value
      of the dependency it came from; no getter of `c` was called. */
  ghost predicate RunSoFar(n0: seq<Node>, n: seq<Node>, ps0: seq<PromiseState>, ps: seq<PromiseState>,
                           as0: seq<Attempt>, ats: seq<Attempt>, t: seq<Task>, l0: seq<Event>, l: seq<Event>,
                           c: nat, k0: Kind, v0: Value, answers: seq<Value>)
    requires k0.Computed?
  {
    && Advance(n0, n, ps0, ps, as0, ats, t, t, l0, l, {c})
    && (forall k | |l0| <= k < |l| :: l[k] != GetterCalled(c))
    && c < |n| && n[c].value == v0 && n[c].kind.Computed?
    && n[c].kind == k0.(keys := Dedup(ReadIds(k0.getter, answers)), flags := n[c].kind.flags)
    && Answered(n, ReadIds(k0.getter, answers), answers, c)
  }

  /** One answered read of a getter run. */
  lemma GetterStep(n0: seq<Node>, n1: seq<Node>, n2: seq<Node>, ps0: seq<PromiseState>, ps1: seq<PromiseState>, ps2: seq<PromiseState>,
                   as0: seq<Attempt>, as1: seq<Attempt>, as2: seq<Attempt>, t: seq<Task>,
                   l0: seq<Event>, l1: seq<Event>, l2: seq<Event>, c: nat, k0: Kind, v0: Value, answers: seq<Value>, x: Value)
    requires k0.Computed? && Walk(k0.getter, answers).Read?
    requires RunSoFar(n0, n1, ps0, ps1, as0, as1, t, l0, l1, c, k0, v0, answers)
    requires Advance(n1, n2, ps1, ps2, as1, as2, t, t, l1, l2, {c})
    requires forall k | |l1| <= k < |l2| :: l2[k] != GetterCalled(c)
    requires var d := Walk(k0.getter, answers).dep;
               && n2[c].value == n1[c].value
               && n2[c].kind == n1[c].kind.(keys := AddKey(n1[c].kind.keys, d), flags := n2[c].kind.flags)
               && d < |n2| && Pinned(n2[d]) && x == n2[d].value
    ensures RunSoFar(n0, n2, ps0, ps2, as0, as2, t, l0, l2, c, k0, v0, answers + [x])
  {
    var ids := ReadIds(k0.getter, answers);
    RunSteps(n0, n1, n2, ps0, ps1, ps2, as0, as1, as2, t, l0, l1, l2, c);
    AnsweredStays(n1, n2, {c}, ids, answers, c);
    WalkExtend(k0.getter, answers, x);
    DedupAppend(ids, Walk(k0.getter, answers).dep);
  }

  /** A read of a getter run that threw: the dependency stays tracked if it
      was registered before its read threw. */
  lemma GetterStop(n0: seq<Node>, n1: seq<Node>, n2: seq<Node>, ps0: seq<PromiseState>, ps1: seq<PromiseState>, ps2: seq<PromiseState>,
                   as0: seq<Attempt>, as1: seq<Attempt>, as2: seq<Attempt>, t: seq<Task>,
                   l0: seq<Event>, l1: seq<Event>, l2: seq<Event>, c: nat, k0: Kind, v0: Value, answers: seq<Value>,
                   d: nat, extra: seq<nat>)
    requires k0.Computed?
    requires RunSoFar(n0, n1, ps0, ps1, as0, as1, t, l0, l1, c, k0, v0, answers)
    requires Advance(n1, n2, ps1, ps2, as1, as2, t, t, l1, l2, {c})
    requires forall k | |l1| <= k < |l2| :: l2[k] != GetterCalled(c)
    requires n2[c].value == n1[c].value
    requires n2[c].kind == n1[c].kind.(keys := if extra == [d] then AddKey(n1[c].kind.keys, d) else n1[c].kind.keys,
                                       flags := n2[c].kind.flags)
    requires extra == [] || extra == [d]
    ensures Advance(n0, n2, ps0, ps2, as0, as2, t, t, l0, l2, {c})
    ensures forall k | |l0| <= k < |l2| :: l2[k] != GetterCalled(c)
    ensures n2[c].value == v0
    ensures n2[c].kind == k0.(keys := Dedup(ReadIds(k0.getter, answers) + extra), flags := n2[c].kind.flags)
    ensures Answered(n2, ReadIds(k0.getter, answers), answers, c)
  {
    var ids := ReadIds(k0.getter, answers);
    RunSteps(n0, n1, n2, ps0, ps1, ps2, as0, as1, as2, t, l0, l1, l2, c);
    AnsweredStays(n1, n2, {c}, ids, answers, c);
    DedupAppend(ids, d);
    assert ids + [] == ids;
  }
}
