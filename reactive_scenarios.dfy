/** Behaviours of the current engine that take more than one operation: each
    method performs the sequence of calls a user of the library would make and
    states what the library promises about the whole sequence. */
module ReactiveScenarios {
  import opened Values
  import opened ReactiveNodes
  import opened ReactiveFrames
  import opened Reactive

  /** Two reads of a Computed in a row: the second returns what the first
      returned and calls no user code. A Computed that was Valid calls no
      getter at all, one that was Invalid calls it exactly once. */
  method ReadTwice(g: Graph, c: nat, depth: nat) returns (r1: Outcome, r2: Outcome)
    requires g.Inv() && c < |g.nodes| && g.nodes[c].kind.Computed?
    modifies g
    ensures g.Inv()
    ensures r1.Ok? ==> r2 == r1
    ensures old(g.nodes[c].kind.state) == Valid ==>
              r1 == Ok(old(g.nodes[c].value)) && r2 == r1 && g.nodes == old(g.nodes) && g.log == old(g.log)
    ensures old(g.nodes[c].kind.state) == Invalid && r1.Ok? ==>
              Count(g.log, GetterCalled(c)) == Count(old(g.log), GetterCalled(c)) + 1
  {
    r1 := g.Read(c, depth);
    ghost var l1 := g.log;
    r2 := g.Read(c, depth);
    assert r1.Ok? ==> g.log == l1;
  }

  /** Setting a Ref to a value its `isEqual` calls equal to the current one
      invalidates nothing, so a Valid Computed over it reads its cached value
      without calling its getter. */
  method EqualSetKeepsCache(g: Graph, r: nat, c: nat, v: Value, depth: nat) returns (x: Outcome)
    requires g.Inv() && r < |g.nodes| && g.nodes[r].kind.Ref? && c < |g.nodes| && c != r
    requires g.nodes[c].kind.Computed? && g.nodes[c].kind.state == Valid
    requires g.nodes[r].kind.isEqual(g.nodes[r].value, v)
    modifies g
    ensures g.Inv() && x == Ok(old(g.nodes[c].value))
    ensures g.nodes == old(g.nodes)[r := old(g.nodes[r]).(value := v)]
    ensures g.log == old(g.log) && g.tasks == old(g.tasks)
  {
    g.SetRef(r, v);
    x := g.Read(c, depth);
  }

  /** With the default equality, setting a Ref to its current value changes
      nothing at all. */
  method SameValueSet(g: Graph, r: nat)
    requires g.Inv() && r < |g.nodes| && g.nodes[r].kind.Ref?
    requires forall a, b :: g.nodes[r].kind.isEqual(a, b) == StrictEquals(a, b)
    modifies g
    ensures g.Inv() && g.nodes == old(g.nodes) && g.tasks == old(g.tasks) && g.log == old(g.log)
  {
    g.SetRef(r, g.nodes[r].value);
    assert old(g.nodes)[r := g.nodes[r]] == old(g.nodes);
  }

  /** A Ref whose `isEqual` always holds never invalidates: after any series of
      sets it holds the last value and no other node, task or call changed. */
  method AlwaysEqualSets(g: Graph, r: nat, vs: seq<Value>)
    requires g.Inv() && r < |g.nodes| && g.nodes[r].kind.Ref?
    requires forall a, b :: g.nodes[r].kind.isEqual(a, b)
    modifies g
    ensures g.Inv() && |g.nodes| == old(|g.nodes|)
    ensures forall x | 0 <= x < |g.nodes| && x != r :: g.nodes[x] == old(g.nodes[x])
    ensures g.nodes[r] == old(g.nodes[r]).(value := if vs == [] then old(g.nodes[r].value) else vs[|vs| - 1])
    ensures g.tasks == old(g.tasks) && g.log == old(g.log)
  {
    var k := 0;
    while k < |vs|
      invariant 0 <= k <= |vs| && g.Inv() && |g.nodes| == old(|g.nodes|)
      invariant forall x | 0 <= x < |g.nodes| && x != r :: g.nodes[x] == old(g.nodes[x])
      invariant g.nodes[r] == old(g.nodes[r]).(value := if k == 0 then old(g.nodes[r].value) else vs[k - 1])
      invariant g.tasks == old(g.tasks) && g.log == old(g.log)
    {
      g.SetRef(r, vs[k]);
      k := k + 1;
    }
  }

  /** After `dispose` the next read of a Computed calls its getter again. */
  method DisposeThenRead(g: Graph, c: nat, depth: nat) returns (x: Outcome)
    requires g.Inv() && c < |g.nodes| && g.nodes[c].kind.Computed?
    modifies g
    ensures g.Inv()
    ensures Count(g.log, GetterCalled(c)) == Count(old(g.log), GetterCalled(c)) + 1
  {
    ghost var l0 := g.log;
    ghost var stops := StopsOf(g.nodes, g.nodes[c].kind.keys, |g.nodes[c].kind.keys|, c);
    g.ComputedDispose(c);
    CountAppend(l0, stops, GetterCalled(c));
    assert GetterCalled(c) !in stops;
    x := g.Read(c, depth);
  }

  /** A Computed whose only dependency is a Listener that nothing else
      depends on, recomputing with a getter that reads the Listener first:
      `clearDependencies` makes the Listener call `stop`, then the getter is
      called, and its first read makes the Listener call `start` again. */
  method ListenerRestart(g: Graph, c: nat, l: nat, depth: nat) returns (x: Outcome)
    requires g.Inv() && c < |g.nodes| && g.nodes[c].kind.Computed? && l < |g.nodes| && l != c
    requires g.nodes[l].kind.Listener? && g.nodes[l].dependents == {c}
    requires g.nodes[c].kind.keys == [l] && g.nodes[c].kind.getter.Read? && g.nodes[c].kind.getter.dep == l
    modifies g
    ensures g.Inv()
    ensures |g.log| >= |old(g.log)| + 3
    ensures g.log[|old(g.log)|..|old(g.log)| + 3] == [Stopped(l), GetterCalled(c), Started(l)]
  {
    ghost var l0 := g.log;
    ghost var n0 := g.nodes;
    assert StopsOf(n0, [l], 1, c) == StopOf(n0, l, c);
    g.BeginCompute(c);
    ghost var n1, l1 := g.nodes, g.log;
    assert l1 == l0 + [Stopped(l), GetterCalled(c)];
    assert n1[l] == Detached(n0[l], c) && !n1[l].kind.listening;
    TrackedExactly(n1, g.promises, g.attempts, g.tasks, l, c);
    x := g.Track(c, l, depth);
    assert StartOf(n1, l) == [Started(l)];
    RestartLog(l0, l1, g.log, c, l);
  }

  /** The log of a restart: the `stop` and the getter call, then the `start`
      the getter's first read made. */
  lemma RestartLog(l0: seq<Event>, l1: seq<Event>, l2: seq<Event>, c: nat, l: nat)
    requires l1 == l0 + [Stopped(l), GetterCalled(c)]
    requires |l2| >= |l1| + 1 && l2[..|l1| + 1] == l1 + [Started(l)]
    ensures |l2| >= |l0| + 3 && l2[|l0|..|l0| + 3] == [Stopped(l), GetterCalled(c), Started(l)]
  {
    assert l2[|l0|..|l0| + 3] == (l2[..|l1| + 1])[|l0|..];
  }

  /** A Watcher that is invalidated twice before its re-check runs has one
      re-check queued, and `onChange` has not been called. */
  method InvalidateTwice(g: Graph, w: nat)
    requires g.Inv() && w < |g.nodes| && g.nodes[w].kind.Watcher? && g.nodes[w].kind.watchState == Valid
    modifies g
    ensures g.Inv() && g.tasks == old(g.tasks) + [Task.Recheck(w)] && g.log == old(g.log)
    ensures g.nodes == old(g.nodes)[w := WithWatchState(old(g.nodes[w]), Uncertain)]
  {
    g.WatcherInvalidate(w);
    g.WatcherInvalidate(w);
  }

  /** An invalidation followed by a `validate` before the re-check: when the
      queued re-check runs, no `onChange` is called. */
  method ValidateBeforeRecheck(g: Graph, w: nat, depth: nat)
    requires g.Inv() && w < |g.nodes| && g.nodes[w].kind.Watcher? && g.nodes[w].kind.watchState == Valid
    modifies g
    ensures g.Inv() && g.tasks == old(g.tasks)
    ensures forall x :: Fires(g.log, x) == Fires(old(g.log), x)
  {
    g.WatcherInvalidate(w);
    g.WatcherValidate(w);
    assert g.tasks[|g.tasks| - 1] == Task.Recheck(w);
    ghost var t1 := g.tasks;
    assert t1[..|t1| - 1] == old(g.tasks) && t1[|t1|..] == [];
    var r, fired := g.RunTask(|g.tasks| - 1, depth);
  }

  /** An invalidation while the dependency is current: when the queued
      re-check runs, it calls `onChange(new, old)` exactly once, with the
      dependency's value. */
  method InvalidateThenRecheck(g: Graph, w: nat, depth: nat) returns (r: Outcome)
    requires g.Inv() && w < |g.nodes| && g.nodes[w].kind.Watcher? && g.nodes[w].kind.watchState == Valid
    requires var d := g.nodes[w].kind.dependency; d < |g.nodes| && d != w && Pinned(g.nodes[d])
    modifies g
    ensures g.Inv() && g.tasks == old(g.tasks)
    ensures r.Ok? && Fires(g.log, w) == Fires(old(g.log), w) + [[r.value, old(g.nodes[w].value)]]
    ensures |g.nodes| == old(|g.nodes|) && g.nodes[w].kind.Watcher? && g.nodes[w].kind.watchState == Valid
    ensures var d := g.nodes[w].kind.dependency; d < |g.nodes| && r.value == g.nodes[d].value
  {
    g.WatcherInvalidate(w);
    assert g.tasks[|g.tasks| - 1] == Task.Recheck(w);
    ghost var t1 := g.tasks;
    assert t1[..|t1| - 1] == old(g.tasks) && t1[|t1|..] == [];
    ghost var fired;
    r, fired := g.RunTask(|g.tasks| - 1, depth);
  }

  /** The short circuit along a chain: `c` depends only on `b`, whose own
      dependencies were all dropped, and both are Uncertain. Reading `c`
      re-reads `b`, which validates `c`, and neither getter is called: `c`
      keeps its value. */
  method ShortCircuitChain(g: Graph, b: nat, c: nat, depth: nat) returns (x: Outcome)
    requires g.Inv() && b < |g.nodes| && c < |g.nodes| && 0 < depth
    requires Settled(g.nodes, b)
    requires g.nodes[c].kind.Computed? && g.nodes[c].kind.state == Uncertain && g.nodes[c].kind.keys == [b]
    modifies g
    ensures g.Inv() && x == Ok(old(g.nodes[c].value)) && g.log == old(g.log)
    ensures Count(g.log, GetterCalled(c)) == Count(old(g.log), GetterCalled(c))
    ensures Count(g.log, GetterCalled(b)) == Count(old(g.log), GetterCalled(b))
  {
    assert DependenciesSettled(g.nodes, c);
    x := g.Read(c, depth);
  }

  /** Setting a Ref to an unequal value and then reading a Computed that
      depends only on it runs the getter once: the Ref is the first
      dependency re-read, its flag is still set, so the walk stops there. */
  method SetThenRead(g: Graph, a: nat, b: nat, v: Value, depth: nat) returns (x: Outcome)
    requires g.Inv() && a < |g.nodes| && b < |g.nodes| && 0 < depth
    requires g.nodes[a].kind.Ref? && !g.nodes[a].kind.isEqual(g.nodes[a].value, v)
    requires g.nodes[b].kind.Computed? && g.nodes[b].kind.state == Valid && g.nodes[b].kind.keys == [a]
    modifies g
    ensures g.Inv()
    ensures Count(g.log, GetterCalled(b)) == Count(old(g.log), GetterCalled(b)) + 1
  {
    assert LinkedForward(g.nodes, b, a);
    g.SetRef(a, v);
    assert g.nodes[b].kind.keys == [a] && g.nodes[a].kind.Ref?;
    assert ChangedAt(g.nodes, b, 0);
    x := g.Read(b, depth);
  }

  /** An Uncertain Computed whose one dependency is a Valid Computed counts
      that dependency as changed: its flag was set before the re-read and the
      read of a Valid node leaves it set, so the getter runs once although the
      dependency's value is the one cached. */
  method ValidDependencyRecomputes(g: Graph, b: nat, c: nat, depth: nat) returns (x: Outcome)
    requires g.Inv() && b < |g.nodes| && c < |g.nodes| && 0 < depth
    requires g.nodes[b].kind.Computed? && g.nodes[b].kind.state == Valid
    requires g.nodes[c].kind.Computed? && g.nodes[c].kind.state == Uncertain && g.nodes[c].kind.keys == [b]
    modifies g
    ensures g.Inv()
    ensures Count(g.log, GetterCalled(c)) == Count(old(g.log), GetterCalled(c)) + 1
  {
    assert ChangedAt(g.nodes, c, 0);
    x := g.Read(c, depth);
  }

  /** A Computed with no dependencies left, watched by `w`, is invalidated:
      one re-check of `w` is queued, and when it runs, the re-read validates
      `w` and `onChange` is not called; no re-check of `w` is left over. */
  method InvalidateLeaf(g: Graph, c: nat, w: nat, depth: nat) returns (r: Outcome)
    requires g.Inv() && c < |g.nodes| && w < |g.nodes|
    requires g.nodes[c].kind.Computed? && g.nodes[c].kind.state == Valid && g.nodes[c].kind.keys == []
    requires g.nodes[w].kind.Watcher? && g.nodes[w].kind.watchState == Valid && w in g.nodes[c].dependents
    modifies g
    ensures g.Inv() && Count(g.tasks, Task.Recheck(w)) == Count(old(g.tasks), Task.Recheck(w))
    ensures r == Ok(old(g.nodes[c].value)) && Fires(g.log, w) == Fires(old(g.log), w)
    ensures w < |g.nodes| && g.nodes[w].kind.Watcher? && g.nodes[w].kind.watchState == Valid
  {
    ghost var n0, t0 := g.nodes, g.tasks;
    var start := |g.tasks|;
    g.ComputedInvalidate(c);
    ghost var n1, t1 := g.nodes, g.tasks;
    assert IsUncertain(n1, w) && n1[w] == WithWatchState(n0[w], Uncertain);
    assert n1[c] == WithState(n0[c], Uncertain);
    assert RechecksDue(n0, n1, w) == 1;
    assert Task.Recheck(w) in t1[start..];
    var k :| start <= k < |g.tasks| && g.tasks[k] == Task.Recheck(w);
    assert t1 == t0 + t1[start..];
    CountAppend(t0, t1[start..], Task.Recheck(w));
    CountRemove(t1, k);
    ghost var fired;
    r, fired := g.RunTask(k, depth);
  }
}
