/**
 * The per-plan lock (AsyncLock and withPlanLock in agent-gateway/jobPlanner.ts) and what it is
 * for: bodies run under it take effect one after the other, in the order they asked for it,
 * however their steps interleave with each other's requests.
 */
module PlanLock {
  import opened Collections

  /** `granted` lists, in order, the requests whose promise has been resolved. */
  datatype Lock<!P(==)> = Lock(locked: bool, queue: seq<P>, granted: seq<P>)

  /** The closure queued for a request: take the lock if it is free, else wait (again). */
  function Attempt<P>(lock: Lock<P>, p: P): Lock<P> {
    if !lock.locked then Lock(true, lock.queue, lock.granted + [p])
    else lock.(queue := lock.queue + [p])
  }

  function Release<P>(lock: Lock<P>): Lock<P> {
    var freed := lock.(locked := false);
    if freed.queue == [] then freed
    else Attempt(freed.(queue := freed.queue[1..]), freed.queue[0])
  }

  class AsyncLock<P(==)> {
    var locked: bool
    var queue: seq<P>
    ghost var granted: seq<P>

    ghost function View(): Lock<P>
      reads this
    {
      Lock(locked, queue, granted)
    }

    constructor ()
      ensures View() == Lock(false, [], [])
    {
      locked, queue, granted := false, [], [];
    }

    method TryOrWait(p: P) returns (resolved: bool)
      modifies this
      ensures View() == Attempt(old(View()), p)
      ensures resolved <==> !old(locked)
    {
      resolved := !locked;
      if resolved {
        locked := true;
        granted := granted + [p];
      } else {
        queue := queue + [p];
      }
    }

    method ReleaseLock()
      modifies this
      ensures View() == Release(old(View()))
    {
      locked := false;
      if |queue| > 0 {
        var next := queue[0];
        queue := queue[1..];
        var _ := TryOrWait(next);
      }
    }
  }

  /** The bodies run under the lock: `steps(p)` steps, each taking the shared state to a new one. */
  datatype Bodies<!P(==), !S> = Bodies(steps: P -> nat, step: (P, nat, S) -> S)

  /**
   * One lock with its clients.  `requested` and `left` list the clients that asked and that are
   * done, `progress` counts the steps taken of each body.
   */
  datatype World<!P(==), !S> =
    World(lock: Lock<P>, requested: seq<P>, left: seq<P>, progress: map<P, nat>, shared: S)

  datatype Event<P> = Request(p: P) | Work(p: P) | Leave(p: P)

  /** A client goes on only once its request is granted, and it lets go once, after its last step. */
  ghost predicate Legal<P, S>(b: Bodies<P, S>, w: World<P, S>, e: Event<P>) {
    match e
    case Request(p) => p !in w.requested
    case Work(p) => p in w.lock.granted && p !in w.left && p in w.progress && w.progress[p] < b.steps(p)
    case Leave(p) => p in w.lock.granted && p !in w.left && p in w.progress && w.progress[p] == b.steps(p)
  }

  function Step<P, S>(b: Bodies<P, S>, w: World<P, S>, e: Event<P>): World<P, S> {
    match e
    case Request(p) =>
      w.(lock := Attempt(w.lock, p), requested := w.requested + [p], progress := w.progress[p := 0])
    case Work(p) =>
      var done := if p in w.progress then w.progress[p] else 0;
      w.(shared := b.step(p, done, w.shared), progress := w.progress[p := done + 1])
    case Leave(p) =>
      w.(lock := Release(w.lock), left := w.left + [p])
  }

  function Start<P, S>(shared: S): World<P, S> {
    World(Lock(false, [], []), [], [], map[], shared)
  }

  function Run<P, S>(b: Bodies<P, S>, shared: S, events: seq<Event<P>>): World<P, S> {
    if events == [] then Start(shared) else Step(b, Run(b, shared, Front(events)), Last(events))
  }

  ghost predicate LegalRun<P, S>(b: Bodies<P, S>, shared: S, events: seq<Event<P>>) {
    events == [] ||
    (LegalRun(b, shared, Front(events)) && Legal(b, Run(b, shared, Front(events)), Last(events)))
  }

  /** The first `n` steps of one body, on their own. */
  function Partial<P, S>(b: Bodies<P, S>, p: P, n: nat, s: S): S {
    if n == 0 then s else b.step(p, n - 1, Partial(b, p, n - 1, s))
  }

  /** Whole bodies, one after the other. */
  function Serial<P, S>(b: Bodies<P, S>, ps: seq<P>, s: S): S {
    if ps == [] then s else Partial(b, Last(ps), b.steps(Last(ps)), Serial(b, Front(ps), s))
  }

  ghost predicate Inv<P(!new), S>(b: Bodies<P, S>, shared: S, w: World<P, S>) {
    && w.requested == w.lock.granted + w.lock.queue
    && NoDup(w.requested)
    && (w.lock.queue != [] ==> w.lock.locked)
    && |w.left| + (if w.lock.locked then 1 else 0) == |w.lock.granted|
    && w.left == w.lock.granted[..|w.left|]
    && (forall p :: p in w.requested ==> p in w.progress)
    && (forall p :: p in w.lock.queue ==> w.progress[p] == 0)
    && (if w.lock.locked
        then w.shared == Partial(b, Last(w.lock.granted), w.progress[Last(w.lock.granted)], Serial(b, w.left, shared))
        else w.shared == Serial(b, w.left, shared))
  }

  /** The client that may act is the only one holding the lock. */
  lemma ActorHoldsLock<P(!new), S>(b: Bodies<P, S>, shared: S, w: World<P, S>, e: Event<P>)
    requires Inv(b, shared, w) && Legal(b, w, e) && !e.Request?
    ensures w.lock.locked && w.lock.granted == w.left + [e.p] && e.p !in w.lock.queue
  {
    var i :| 0 <= i < |w.lock.granted| && w.lock.granted[i] == e.p;
    assert i >= |w.left|;
    assert w.lock.granted == w.left + [e.p];
    forall k | 0 <= k < |w.lock.queue|
      ensures w.lock.queue[k] != e.p
    {
      assert w.requested[|w.lock.granted| + k] == w.lock.queue[k] && w.requested[|w.left|] == e.p;
    }
  }

  lemma RequestKeepsInv<P(!new), S>(b: Bodies<P, S>, shared: S, w: World<P, S>, e: Event<P>)
    requires Inv(b, shared, w) && Legal(b, w, e) && e.Request?
    ensures Inv(b, shared, Step(b, w, e))
  {
    assert forall q :: q in w.lock.granted || q in w.lock.queue ==> q in w.requested;
    if !w.lock.locked {
      assert w.lock.granted == w.left && Front(w.left + [e.p]) == w.left;
    }
  }

  lemma LeaveKeepsInv<P(!new), S>(b: Bodies<P, S>, shared: S, w: World<P, S>, e: Event<P>)
    requires Inv(b, shared, w) && Legal(b, w, e) && e.Leave?
    ensures Inv(b, shared, Step(b, w, e))
  {
    var w' := Step(b, w, e);
    ActorHoldsLock(b, shared, w, e);
    assert Front(w'.left) == w.left;
    if w.lock.queue != [] {
      assert w'.requested == w.requested == w.lock.granted + [w.lock.queue[0]] + w.lock.queue[1..];
      assert w.lock.queue[0] in w.lock.queue;
    }
  }

  lemma StepKeepsInv<P(!new), S>(b: Bodies<P, S>, shared: S, w: World<P, S>, e: Event<P>)
    requires Inv(b, shared, w) && Legal(b, w, e)
    ensures Inv(b, shared, Step(b, w, e))
  {
    match e {
      case Request(_) => RequestKeepsInv(b, shared, w, e);
      case Work(_) => ActorHoldsLock(b, shared, w, e);
      case Leave(_) => LeaveKeepsInv(b, shared, w, e);
    }
  }

  /**
   * For every legal interleaving: grants follow the order of requests and nobody waiting is lost,
   * a non-empty queue means the lock is held, at most one granted client has not left, and the
   * shared state is that of whole bodies run one after the other plus a part of the holder's.
   */
  lemma {:induction false} LockSerialises<P(!new), S>(b: Bodies<P, S>, shared: S, events: seq<Event<P>>)
    requires LegalRun(b, shared, events)
    ensures var w := Run(b, shared, events);
            && w.requested == w.lock.granted + w.lock.queue
            && (w.lock.queue != [] ==> w.lock.locked)
            && |w.lock.granted| == |w.left| + (if w.lock.locked then 1 else 0)
            && w.left == w.lock.granted[..|w.left|]
            && (!w.lock.locked ==> w.shared == Serial(b, w.requested, shared))
            && (w.lock.locked ==>
                  var holder := Last(w.lock.granted);
                  holder in w.progress &&
                  w.shared == Partial(b, holder, w.progress[holder], Serial(b, Front(w.lock.granted), shared)))
    ensures Inv(b, shared, Run(b, shared, events))
  {
    if events != [] {
      LockSerialises(b, shared, Front(events));
      StepKeepsInv(b, shared, Run(b, shared, Front(events)), Last(events));
    }
    var w := Run(b, shared, events);
    if w.lock.locked {
      assert Front(w.lock.granted) == w.left;
    } else {
      assert w.requested == w.left;
    }
  }
}
