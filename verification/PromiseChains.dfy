/**
 Serialisation by chaining promises, as the policy loader does it for installs and the
 orchestrator does it for the decisions of one actor.  Both keep, per key, the promise
 that the next body must wait for.  The loader keeps the body's own promise; the
 orchestrator keeps the one that `finally` returned.  A body's promise settles before
 its `finally` has run.
 */
module PromiseChains {
  import opened Options
  import opened Logs
  import Jsons

  datatype Kind = Loader | Orchestrator

  datatype Promise = OfBody(body: nat) | OfFinally(body: nat)

  datatype Phase = Waiting | Active | Ended(ok: bool) | Passed(ok: bool)

  /** One body: its key, the promise it was queued behind, and how far it is. */
  datatype Body = Body(key: string, after: Option<Promise>, phase: Phase)

  datatype Chains = Chains(bodies: seq<Body>, tail: map<string, Promise>)

  function Stored(kind: Kind, i: nat): Promise { if kind.Loader? then OfBody(i) else OfFinally(i) }

  predicate Over(b: Body) { b.phase.Ended? || b.phase.Passed? }

  predicate Started(b: Body) { !b.phase.Waiting? }

  predicate Settled(c: Chains, p: Promise) {
    p.body < |c.bodies| && (if p.OfBody? then Over(c.bodies[p.body]) else c.bodies[p.body].phase.Passed?)
  }

  function Queue(c: Chains, key: string): Option<Promise> { if key in c.tail then Some(c.tail[key]) else None }

  /** A body arrives.  With nothing to wait for, the loader runs it at once; a `then` never does. */
  function Arrive(kind: Kind, c: Chains, key: string): Chains {
    var after := Queue(c, key);
    Chains(c.bodies + [Body(key, after, if kind.Loader? && after.None? then Active else Waiting)],
           c.tail[key := Stored(kind, |c.bodies|)])
  }

  /** What a waiting body waits for has settled, well or badly. */
  predicate CanStart(c: Chains, i: nat) {
    i < |c.bodies| && c.bodies[i].phase.Waiting? && (c.bodies[i].after.None? || Settled(c, c.bodies[i].after.value))
  }

  function WithPhase(c: Chains, i: nat, p: Phase): Chains
    requires i < |c.bodies|
  {
    c.(bodies := c.bodies[i := c.bodies[i].(phase := p)])
  }

  /** The `finally` of body `i`: delete the slot if it holds the body's own promise. */
  function Pass(c: Chains, i: nat): Chains
    requires i < |c.bodies| && c.bodies[i].phase.Ended?
  {
    var key := c.bodies[i].key;
    var c1 := WithPhase(c, i, Passed(c.bodies[i].phase.ok));
    if Queue(c, key) == Some(OfBody(i)) then c1.(tail := c1.tail - {key}) else c1
  }

  datatype Event = Arrives(key: string) | Starts(body: nat) | Ends(body: nat, ok: bool) | Passes(body: nat)

  function Next(kind: Kind, c: Chains, e: Event): Chains {
    match e
    case Arrives(key) => Arrive(kind, c, key)
    case Starts(i) => if CanStart(c, i) then WithPhase(c, i, Active) else c
    case Ends(i, ok) => if i < |c.bodies| && c.bodies[i].phase.Active? then WithPhase(c, i, Ended(ok)) else c
    case Passes(i) => if i < |c.bodies| && c.bodies[i].phase.Ended? then Pass(c, i) else c
  }

  function Reach(kind: Kind, run: Log<Event>): Chains {
    match run
    case Start => Chains([], map[])
    case Then(past, e) => Next(kind, Reach(kind, past), e)
  }

  /** The map `actorChain` of the orchestrator, with the bodies queued on it. */
  class ActorChain {
    var bodies: seq<Body>
    var tail: map<string, Promise>

    function Snapshot(): Chains
      reads this
    {
      Chains(bodies, tail)
    }

    constructor ()
      ensures Snapshot() == Chains([], map[])
    {
      bodies, tail := [], map[];
    }

    /** `withActorLock(actor, fn)`; without an actor, `fn` is not queued at all. */
    method WithActorLock(actor: string) returns (queued: Option<nat>)
      modifies this
      ensures queued == if actor == "" then None else Some(|old(bodies)|)
      ensures Snapshot() ==
              if actor == "" then old(Snapshot()) else Arrive(Orchestrator, old(Snapshot()), Jsons.Lower(actor))
    {
      if actor == "" { return None; }
      var key, i := Jsons.Lower(actor), |bodies|;
      var prev := if key in tail then Some(tail[key]) else None;
      bodies := bodies + [Body(key, prev, Waiting)];
      tail := tail[key := OfFinally(i)];
      return Some(i);
    }

    /** The callback given to `finally`. */
    method Release(i: nat)
      requires i < |bodies| && bodies[i].phase.Ended?
      modifies this
      ensures Snapshot() == Pass(old(Snapshot()), i)
    {
      var key := bodies[i].key;
      bodies := bodies[i := bodies[i].(phase := Passed(bodies[i].phase.ok))];
      if key in tail && tail[key] == OfBody(i) { tail := tail - {key}; }
    }
  }

  // ---- what holds in every reachable state ----

  /** All bodies of `key` before body `n` are over. */
  ghost predicate AllOver(c: Chains, key: string, n: nat) {
    forall i :: 0 <= i < n && i < |c.bodies| && c.bodies[i].key == key ==> Over(c.bodies[i])
  }

  /** Promise `p` belongs to the last body of `key` before body `n`. */
  ghost predicate LastBefore(kind: Kind, c: Chains, key: string, p: Promise, n: nat) {
    && p == Stored(kind, p.body) && p.body < n && p.body < |c.bodies| && c.bodies[p.body].key == key
    && forall i :: p.body < i < n && i < |c.bodies| ==> c.bodies[i].key != key
  }

  /** A body waits for the last one of its key before it, or for nothing when all those are over. */
  ghost predicate BodyRight(kind: Kind, c: Chains, j: nat)
    requires j < |c.bodies|
  {
    var b := c.bodies[j];
    && (b.after.None? ==> AllOver(c, b.key, j))
    && (b.after.Some? ==> LastBefore(kind, c, b.key, b.after.value, j))
    && (Started(b) ==> AllOver(c, b.key, j))
  }

  ghost predicate TailRight(kind: Kind, c: Chains, key: string) {
    && (key !in c.tail ==> AllOver(c, key, |c.bodies|))
    && (key in c.tail ==> LastBefore(kind, c, key, c.tail[key], |c.bodies|))
  }

  ghost predicate Invariant(kind: Kind, c: Chains) {
    && (forall j :: 0 <= j < |c.bodies| ==> BodyRight(kind, c, j))
    && (forall key :: TailRight(kind, c, key))
  }

  lemma ArriveKeeps(kind: Kind, c: Chains, key: string)
    requires Invariant(kind, c)
    ensures Invariant(kind, Arrive(kind, c, key))
  {
    var d, n := Arrive(kind, c, key), |c.bodies|;
    assert forall i :: 0 <= i < n ==> d.bodies[i] == c.bodies[i];
    forall j | 0 <= j < |d.bodies| ensures BodyRight(kind, d, j) {
      if j < n { assert BodyRight(kind, c, j); } else { assert TailRight(kind, c, key); }
    }
    forall k ensures TailRight(kind, d, k) { assert TailRight(kind, c, k); }
  }

  /** All earlier bodies of the key of a body that can start are over. */
  lemma CanStartMeansAllOver(kind: Kind, c: Chains, i: nat)
    requires Invariant(kind, c) && CanStart(c, i)
    ensures AllOver(c, c.bodies[i].key, i)
  {
    assert BodyRight(kind, c, i);
    if c.bodies[i].after.Some? {
      var p := c.bodies[i].after.value;
      assert BodyRight(kind, c, p.body);
      forall j | 0 <= j < i && c.bodies[j].key == c.bodies[i].key ensures Over(c.bodies[j]) {
        if j < p.body { assert AllOver(c, c.bodies[i].key, p.body); }
      }
    }
  }

  /** A body moves on; it never becomes less over than it was. */
  lemma PhaseKeeps(kind: Kind, c: Chains, i: nat, p: Phase)
    requires Invariant(kind, c) && i < |c.bodies| && !p.Waiting?
    requires Over(c.bodies[i]) ==> p.Ended? || p.Passed?
    requires AllOver(c, c.bodies[i].key, i)
    ensures Invariant(kind, WithPhase(c, i, p))
  {
    var d := WithPhase(c, i, p);
    assert forall j :: 0 <= j < |c.bodies| ==>
             d.bodies[j].key == c.bodies[j].key && d.bodies[j].after == c.bodies[j].after;
    assert forall j :: 0 <= j < |c.bodies| && Over(c.bodies[j]) ==> Over(d.bodies[j]);
    forall j | 0 <= j < |d.bodies| ensures BodyRight(kind, d, j) { assert BodyRight(kind, c, j); }
    forall k ensures TailRight(kind, d, k) { assert TailRight(kind, c, k); }
  }

  lemma PassKeeps(kind: Kind, c: Chains, i: nat)
    requires Invariant(kind, c) && i < |c.bodies| && c.bodies[i].phase.Ended?
    ensures Invariant(kind, Pass(c, i))
  {
    assert BodyRight(kind, c, i);
    var key := c.bodies[i].key;
    var d := WithPhase(c, i, Passed(c.bodies[i].phase.ok));
    PhaseKeeps(kind, c, i, Passed(c.bodies[i].phase.ok));
    var t := Pass(c, i);
    assert TailRight(kind, d, key);
    forall j | 0 <= j < |t.bodies| ensures BodyRight(kind, t, j) { assert BodyRight(kind, d, j); }
    forall k ensures TailRight(kind, t, k) {
      assert TailRight(kind, d, k);
      if k == key && key !in t.tail && key in d.tail { assert AllOver(d, key, |d.bodies|); }
    }
  }

  lemma NextKeeps(kind: Kind, c: Chains, e: Event)
    requires Invariant(kind, c)
    ensures Invariant(kind, Next(kind, c, e))
  {
    match e
    case Arrives(key) => ArriveKeeps(kind, c, key);
    case Starts(i) => if CanStart(c, i) { CanStartMeansAllOver(kind, c, i); PhaseKeeps(kind, c, i, Active); }
    case Ends(i, ok) =>
      if i < |c.bodies| && c.bodies[i].phase.Active? {
        assert BodyRight(kind, c, i);
        PhaseKeeps(kind, c, i, Ended(ok));
      }
    case Passes(i) => if i < |c.bodies| && c.bodies[i].phase.Ended? { PassKeeps(kind, c, i); }
  }

  lemma {:induction false} InvariantHolds(kind: Kind, run: Log<Event>)
    ensures Invariant(kind, Reach(kind, run))
  {
    if run.Then? {
      InvariantHolds(kind, run.past);
      NextKeeps(kind, Reach(kind, run.past), run.last);
    }
  }

  // ---- the serialisation theorems ----

  /**
   Bodies of one key start in arrival order and one at a time: when one has started,
   every earlier body of its key is over.
   */
  lemma StartsInOrder(kind: Kind, run: Log<Event>, i: nat, j: nat)
    requires i < j < |Reach(kind, run).bodies|
    requires Reach(kind, run).bodies[i].key == Reach(kind, run).bodies[j].key && Started(Reach(kind, run).bodies[j])
    ensures Over(Reach(kind, run).bodies[i])
  {
    InvariantHolds(kind, run);
    assert BodyRight(kind, Reach(kind, run), j);
  }

  lemma AtMostOneActive(kind: Kind, run: Log<Event>, i: nat, j: nat)
    requires i < |Reach(kind, run).bodies| && j < |Reach(kind, run).bodies|
    requires Reach(kind, run).bodies[i].key == Reach(kind, run).bodies[j].key
    requires Reach(kind, run).bodies[i].phase.Active? && Reach(kind, run).bodies[j].phase.Active?
    ensures i == j
  {
    if i < j { StartsInOrder(kind, run, i, j); }
    if j < i { StartsInOrder(kind, run, j, i); }
  }

  /**
   A failed body does not block its successor: once the earlier bodies of its key have
   passed, however they ended, a waiting body can start.
   */
  lemma FailureDoesNotBlock(kind: Kind, run: Log<Event>, j: nat)
    requires j < |Reach(kind, run).bodies| && Reach(kind, run).bodies[j].phase.Waiting?
    requires
      var c := Reach(kind, run);
      forall i :: 0 <= i < j && c.bodies[i].key == c.bodies[j].key ==> c.bodies[i].phase.Passed?
    ensures CanStart(Reach(kind, run), j)
  {
    InvariantHolds(kind, run);
    assert BodyRight(kind, Reach(kind, run), j);
  }

  /**
   The orchestrator's slot is never released: what it stores is the promise that
   `finally` returned, and what it compares that with is the body's own.
   */
  lemma {:induction false} ActorSlotStays(run: Log<Event>, key: string)
    ensures key in Reach(Orchestrator, run).tail <==>
            exists i :: 0 <= i < |Reach(Orchestrator, run).bodies| && Reach(Orchestrator, run).bodies[i].key == key
  {
    if run.Then? {
      ActorSlotStays(run.past, key);
      InvariantHolds(Orchestrator, run.past);
      var c, d := Reach(Orchestrator, run.past), Reach(Orchestrator, run);
      assert forall i :: 0 <= i < |c.bodies| ==> d.bodies[i].key == c.bodies[i].key;
      if run.last.Arrives? {
        assert d.bodies[|c.bodies|].key == run.last.key;
      } else if run.last.Passes? && run.last.body < |c.bodies| {
        assert TailRight(Orchestrator, c, c.bodies[run.last.body].key);
      }
    }
  }

  /** The loader's slot is free once every body of the key has passed. */
  lemma LoaderSlotFreed(run: Log<Event>, key: string)
    requires
      var c := Reach(Loader, run);
      forall i :: 0 <= i < |c.bodies| && c.bodies[i].key == key ==> c.bodies[i].phase.Passed?
    ensures key !in Reach(Loader, run).tail
  {
    InvariantHolds(Loader, run);
    LoaderTailNotPassed(run);
    assert TailNotPassed(Reach(Loader, run), key) && TailRight(Loader, Reach(Loader, run), key);
  }

  ghost predicate TailNotPassed(c: Chains, key: string) {
    key in c.tail ==> c.tail[key].body < |c.bodies| && !c.bodies[c.tail[key].body].phase.Passed?
  }

  lemma NextKeepsTail(c: Chains, e: Event, key: string)
    requires Invariant(Loader, c) && TailNotPassed(c, key)
    ensures TailNotPassed(Next(Loader, c, e), key)
  {
    assert TailRight(Loader, c, key);
    hide Invariant, AllOver, CanStart;
    match e
    case Arrives(_) =>
    case Starts(_) =>
    case Ends(_, _) =>
    case Passes(i) =>
      if i < |c.bodies| && c.bodies[i].phase.Ended? && key in c.tail && c.tail[key].body == i {
        assert Queue(c, c.bodies[i].key) == Some(OfBody(i));
      }
  }

  lemma {:induction false} LoaderTailNotPassed(run: Log<Event>)
    ensures forall key :: TailNotPassed(Reach(Loader, run), key)
  {
    if run.Then? {
      LoaderTailNotPassed(run.past);
      InvariantHolds(Loader, run.past);
      forall key ensures TailNotPassed(Reach(Loader, run), key) {
        NextKeepsTail(Reach(Loader, run.past), run.last, key);
      }
    }
  }
}
