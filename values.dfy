/** Values, faults and the oracles that stand for user code, shared by both
    generations of the dependency-graph engine. */
module Values {

  datatype Option<T> = None | Some(value: T)

  /** A JavaScript value as the engine sees it: `undefined`, a number, or the
      identity of a promise (placeholder promises are numbered by the graph). */
  datatype Value = Undef | Num(n: int) | Promise(id: nat)

  /** `x instanceof Promise` */
  predicate IsPromise(v: Value) { v.Promise? }

  /** `===` on the values above: numbers by value, promises by identity. It
      is also the default equality of a Ref (src/ref.ts:4). */
  predicate StrictEquals(a: Value, b: Value) { a == b }

  /** What a read may throw: the 1-hop cycle error, the JavaScript call stack
      running out (RangeError), a read of a node that does not exist (the
      TypeError of calling a method on `undefined`), or an error thrown by user
      code, identified by a number. */
  datatype Fault = CircularDependency | StackOverflow | Dangling | UserError(code: int)

  /** A synchronous call either returns a value or throws. */
  datatype Outcome = Ok(value: Value) | Thrown(fault: Fault)

  /** A user getter as a read tree: given the value of each dependency it
      reads, it names the next dependency to read, or ends by returning a
      value (a promise when it is async) or by throwing.
      `value(a) < 10 ? value(b) : 0` is
      `Read(a, x => if x.Num? && x.n < 10 then Read(b, y => Return(y)) else Return(Num(0)))`. */
  datatype Getter =
    | Read(dep: nat, next: Value -> Getter)
    | Return(result: Value)
    | Throw(code: int)

  /** The getter ends after at most `n` reads, whatever values it is given. */
  ghost predicate Bounded(g: Getter, n: nat)
    decreases n
  {
    match g
    case Read(_, next) => n > 0 && forall v :: Bounded(next(v), n - 1)
    case _ => true
  }

  /** Where the getter stands after being answered with `answers`, one value
      per read, starting from `g`. */
  function Walk(g: Getter, answers: seq<Value>): Getter
    decreases |answers|
  {
    if answers == [] then g
    else match g
      case Read(_, next) => Walk(next(answers[0]), answers[1..])
      case _ => g
  }

  /** The dependencies the getter names while being answered with `answers`. */
  function ReadIds(g: Getter, answers: seq<Value>): seq<nat>
    decreases |answers|
  {
    if answers == [] then []
    else match g
      case Read(d, next) => [d] + ReadIds(next(answers[0]), answers[1..])
      case _ => []
  }

  /** Answering one more read moves the getter to that read's continuation, and
      the dependency it named is the next one in the trace. */
  lemma {:induction false} WalkExtend(g: Getter, answers: seq<Value>, v: Value)
    requires Walk(g, answers).Read?
    ensures Walk(g, answers + [v]) == Walk(g, answers).next(v)
    ensures ReadIds(g, answers + [v]) == ReadIds(g, answers) + [Walk(g, answers).dep]
    decreases |answers|
  {
    if answers == [] {
      assert [v][1..] == [];
    } else {
      assert g.Read?;
      assert (answers + [v])[1..] == answers[1..] + [v];
      WalkExtend(g.next(answers[0]), answers[1..], v);
    }
  }

  /** A bounded getter that has been answered along its reads still has a bound. */
  lemma {:induction false} BoundedStep(g: Getter, n: nat, v: Value)
    requires Bounded(g, n) && g.Read?
    ensures n > 0 && Bounded(g.next(v), n - 1)
  {
  }

  function Elems(s: seq<nat>): (r: set<nat>)
    ensures forall x :: x in r <==> x in s
  {
    set x | x in s
  }

  predicate Distinct(s: seq<nat>)
  {
    forall i, j | 0 <= i < j < |s| :: s[i] != s[j]
  }

  /** Moving `d` from a pending set to the end of a list of visited ids keeps
      the list distinct, the two disjoint and their union the same. */
  lemma VisitOne(visited: seq<nat>, pending: set<nat>, d: nat)
    requires Distinct(visited) && pending !! Elems(visited) && d in pending
    ensures Distinct(visited + [d]) && Elems(visited + [d]) == Elems(visited) + {d}
    ensures (pending - {d}) !! Elems(visited + [d])
    ensures (pending - {d}) + Elems(visited + [d]) == pending + Elems(visited)
  {
    assert Elems(visited + [d]) == Elems(visited) + {d};
  }

  /** The distinct elements of `s` in order of first occurrence: the key order
      of a JavaScript Map into which `s` was inserted. */
  function Dedup(s: seq<nat>): (r: seq<nat>)
    ensures Distinct(r) && Elems(r) == Elems(s)
    decreases |s|
  {
    if s == [] then []
    else
      var p := Dedup(s[..|s| - 1]);
      assert s == s[..|s| - 1] + [s[|s| - 1]];
      if s[|s| - 1] in p then p else p + [s[|s| - 1]]
  }

  /** `Map.set` on the key order of a JavaScript Map: a new key goes last, an
      existing key keeps its place. */
  function AddKey(keys: seq<nat>, d: nat): (r: seq<nat>)
    ensures d in r && Elems(r) == Elems(keys) + {d}
    ensures Distinct(keys) ==> Distinct(r)
  {
    if d in keys then keys else keys + [d]
  }

  /** Inserting the reads one by one into a Map gives the order `Dedup` states. */
  lemma DedupAppend(s: seq<nat>, d: nat)
    ensures Dedup(s + [d]) == AddKey(Dedup(s), d)
  {
    assert (s + [d])[..|s + [d]| - 1] == s;
  }

  /** The state of a placeholder promise. */
  datatype PromiseState = Pending | Fulfilled(value: Value) | Rejected(reason: Fault)

  /** A call the engine makes into user code, in the order it makes them:
      a getter run, an `onChange` call with its arguments, a Listener's
      `start`, `stop` or `init`. */
  datatype Event =
    | GetterCalled(node: nat)
    | Fired(node: nat, args: seq<Value>)
    | Started(node: nat)
    | Stopped(node: nat)
    | Initialised(node: nat)

  /** How many times `e` occurs in `s` (a log of calls, a task queue). */
  function Count<T(==)>(s: seq<T>, e: T): (k: nat)
    ensures k <= |s|
    ensures k == 0 <==> e !in s
  {
    if s == [] then 0 else (if s[0] == e then 1 else 0) + Count(s[1..], e)
  }

  /** Taking the `k`-th entry out of `s` removes one occurrence of it. */
  lemma {:induction false} CountRemove<T>(s: seq<T>, k: nat)
    requires k < |s|
    ensures Count(s[..k] + s[k + 1..], s[k]) + 1 == Count(s, s[k])
  {
    var a, e, b := s[..k], s[k], s[k + 1..];
    assert s == a + ([e] + b);
    CountAppend(a, [e] + b, e);
    CountAppend([e], b, e);
    CountAppend(a, b, e);
    assert [e][1..] == [];
  }

  lemma {:induction false} CountAppend<T>(a: seq<T>, b: seq<T>, e: T)
    ensures Count(a + b, e) == Count(a, e) + Count(b, e)
  {
    if a == [] {
      assert a + b == b;
    } else {
      assert (a + b)[1..] == a[1..] + b;
      CountAppend(a[1..], b, e);
    }
  }

  /** The arguments of the `onChange` calls that the Watcher `w` made along the
      log, in order. */
  function Fires(log: seq<Event>, w: nat): (r: seq<seq<Value>>)
    ensures |r| <= |log|
    ensures (forall k | 0 <= k < |log| :: !log[k].Fired?) ==> r == []
    decreases |log|
  {
    if log == [] then []
    else
      var e := log[|log| - 1];
      Fires(log[..|log| - 1], w) + (if e.Fired? && e.node == w then [e.args] else [])
  }

  /** One more call in the log is one more `onChange` of `w` exactly when it
      is one. */
  lemma FiresAppend(log: seq<Event>, e: Event, w: nat)
    ensures Fires(log + [e], w) == Fires(log, w) + (if e.Fired? && e.node == w then [e.args] else [])
  {
    assert (log + [e])[..|log|] == log;
  }

  /** A stretch of log with no `onChange` call adds nothing to any Watcher's
      calls. */
  lemma {:induction false} QuietFires(l0: seq<Event>, l1: seq<Event>)
    requires l0 <= l1 && forall k | |l0| <= k < |l1| :: !l1[k].Fired?
    ensures forall w :: Fires(l1, w) == Fires(l0, w)
    decreases |l1|
  {
    if |l1| > |l0| {
      var p := l1[..|l1| - 1];
      assert l0 <= p;
      QuietFires(l0, p);
      forall w ensures Fires(l1, w) == Fires(l0, w) {
        FiresAppend(p, l1[|l1| - 1], w);
        assert p + [l1[|l1| - 1]] == l1;
      }
    } else {
      assert l1 == l0;
    }
  }

  /** How a placeholder promise settles for the outcome of its attempt. */
  function Settlement(o: Outcome): PromiseState
  {
    match o
    case Ok(v) => Fulfilled(v)
    case Thrown(f) => Rejected(f)
  }

  /** A callback queued on the host scheduler: `setImmediate(compute)` of a
      Computed, or the microtask re-check of a Watcher. */
  datatype Task = Recompute(node: nat) | Recheck(node: nat)

  /** An asynchronous compute attempt of the Computed `owner`; `settled` once the
      getter's promise has fulfilled or rejected and its handler has run. */
  datatype Attempt = Attempt(owner: nat, settled: bool)
}
