/** `Deferrer` (src/deferrer.ts): each `finally(promise)` starts a chain that
    waits for the previous latest chain and for `promise`, and becomes the
    latest; when a chain completes, the callback runs only if that chain is
    still the latest. Promises are numbered; a chain is numbered by the order
    of the `finally` calls. */
module Deferral {
  import opened Values

  /** A chain: the latest chain when it was started (`lastPromise` at that
      moment), the promise it was given, and whether its completion handler
      has run. */
  datatype Chain = Chain(prev: Option<nat>, input: nat, completed: bool)

  class Deferrer {
    /** `lastPromise`: the latest chain, if one is outstanding. */
    var lastPromise: Option<nat>
    var chains: seq<Chain>
    /** The promises given to `finally` that have settled. */
    var settled: set<nat>
    /** How many times the callback has been called. */
    var calls: nat
    /** The first chain of the current run of `finally` calls: every earlier
        chain has completed. */
    ghost var start: nat

    ghost predicate Valid()
      reads this
    {
      && start <= |chains|
      && (forall k | 0 <= k < start :: chains[k].completed)
      && (forall k | start < k < |chains| :: chains[k].prev == Some(k - 1))
      && (start < |chains| ==> chains[start].prev == None)
      && lastPromise == (if start < |chains| then Some(|chains| - 1) else None)
      && (lastPromise.Some? ==> !chains[|chains| - 1].completed)
      && (forall k | 0 <= k < |chains| && chains[k].prev.Some? :: chains[k].prev.value < k)
      && (forall k | 0 <= k < |chains| && chains[k].completed && chains[k].prev.Some? ::
            chains[chains[k].prev.value].completed)
    }

    constructor ()
      ensures Valid() && lastPromise == None && chains == [] && settled == {} && calls == 0
    {
      lastPromise, chains, settled, calls := None, [], {}, 0;
      start := 0;
    }

    /** `finally(promise)`: a chain joining the latest one and `promise`
        becomes the latest. Nothing is called. */
    method Finally(p: nat) returns (k: nat)
      requires Valid()
      modifies this
      ensures Valid() && k == old(|chains|)
      ensures chains == old(chains) + [Chain(old(lastPromise), p, false)]
      ensures lastPromise == Some(k)
      ensures settled == old(settled) && calls == old(calls)
    {
      k := |chains|;
      chains := chains + [Chain(lastPromise, p, false)];
      lastPromise := Some(k);
    }

    /** The host settles the promise `p` (fulfilled or rejected alike). */
    method Settle(p: nat)
      requires Valid()
      modifies this
      ensures Valid() && settled == old(settled) + {p}
      ensures chains == old(chains) && lastPromise == old(lastPromise) && calls == old(calls)
    {
      settled := settled + {p};
    }

    /** `Promise.all([lastPromise, promise])` of chain `k` has settled: its
        promise has and so has the chain before it. */
    ghost predicate Ready(k: nat)
      reads this
      requires k < |chains|
    {
      chains[k].input in settled && (chains[k].prev.Some? ==> chains[k].prev.value < |chains| && chains[chains[k].prev.value].completed)
    }

    /** The completion handler of chain `k`. If `k` is still the latest,
        `lastPromise` is cleared and the callback runs once; by then every
        chain started so far has completed. A chain that is no longer the
        latest changes nothing but its own completion. */
    method Complete(k: nat)
      requires Valid() && k < |chains| && !chains[k].completed && Ready(k)
      modifies this
      ensures Valid() && chains == old(chains)[k := old(chains[k]).(completed := true)] && settled == old(settled)
      ensures old(lastPromise) == Some(k) ==>
                lastPromise == None && calls == old(calls) + 1 && forall j | 0 <= j < |chains| :: chains[j].completed
      ensures old(lastPromise) != Some(k) ==> lastPromise == old(lastPromise) && calls == old(calls)
    {
      ghost var c0 := chains;
      chains := chains[k := chains[k].(completed := true)];
      if lastPromise == Some(k) {
        RunCompleted(chains, start, k);
        lastPromise := None;
        calls := calls + 1;
        start := |chains|;
      } else {
        assert k < |chains| - 1 || lastPromise == None;
      }
    }
  }

  /** In a run of chains each joined to the one before it, the completion of
      a chain implies that of every earlier chain of the run. */
  lemma {:induction false} RunCompleted(chains: seq<Chain>, start: nat, k: nat)
    requires start <= k < |chains| && chains[k].completed
    requires forall j | start < j < |chains| :: chains[j].prev == Some(j - 1)
    requires forall j | 0 <= j < |chains| && chains[j].completed && chains[j].prev.Some? ::
               chains[j].prev.value < |chains| && chains[chains[j].prev.value].completed
    ensures forall j | start <= j <= k :: chains[j].completed
    decreases k
  {
    if k > start {
      assert chains[k].prev == Some(k - 1);
      RunCompleted(chains, start, k - 1);
    }
  }

  /** Two `finally` calls in a row, both promises settled and both chains
      completed in order: the callback runs exactly once, for the second. */
  method TwoInARow(d: Deferrer, p1: nat, p2: nat)
    requires d.Valid() && d.lastPromise == None
    modifies d
    ensures d.Valid() && d.lastPromise == None && d.calls == old(d.calls) + 1
  {
    var k1 := d.Finally(p1);
    var k2 := d.Finally(p2);
    d.Settle(p1);
    d.Settle(p2);
    d.Complete(k1);
    d.Complete(k2);
  }
}
