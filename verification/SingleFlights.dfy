/**
 Coalescing of concurrent reads of one key.  A promise is known by its number; the
 map `inflight` says which promise a caller of a key joins.  Settling a promise and
 resuming those who await it are separate steps, so anything may happen in between.
 */
module SingleFlights {
  import opened Options
  import opened Logs

  /** All promises made so far: `key[p]` for each, and `outcome[p]` once settled. */
  datatype Flights<O> = Flights(inflight: map<string, nat>, key: seq<string>, outcome: map<nat, O>)

  function NoFlights<O>(): Flights<O> { Flights(map[], [], map[]) }

  /** The promise that a caller of `key` is given. */
  function Joined<O>(f: Flights<O>, key: string): nat {
    if key in f.inflight then f.inflight[key] else |f.key|
  }

  /**
   `run(key, fn)`.  `thrown` is what `fn` throws before it returns a promise, if it
   does: the promise is then settled, and its key deleted, before the key is set.
   */
  function Run<O>(f: Flights<O>, key: string, thrown: Option<O>): Flights<O> {
    if key in f.inflight then f
    else
      Flights(f.inflight[key := |f.key|], f.key + [key],
              if thrown.Some? then f.outcome[|f.key| := thrown.value] else f.outcome)
  }

  predicate Running<O>(f: Flights<O>, p: nat) { p < |f.key| && p !in f.outcome }

  /** The promise's body ends: the key is deleted and the promise settles. */
  function Settle<O>(f: Flights<O>, p: nat, o: O): Flights<O>
    requires Running(f, p)
  {
    Flights(f.inflight - {f.key[p]}, f.key, f.outcome[p := o])
  }

  class SingleFlight<O> {
    var inflight: map<string, nat>
    var key: seq<string>
    var outcome: map<nat, O>

    function Snapshot(): Flights<O>
      reads this
    {
      Flights(inflight, key, outcome)
    }

    constructor ()
      ensures Snapshot() == NoFlights()
    {
      inflight, key, outcome := map[], [], map[];
    }

    method RunRead(k: string, thrown: Option<O>) returns (promise: nat)
      modifies this
      ensures promise == Joined(old(Snapshot()), k)
      ensures Snapshot() == Run(old(Snapshot()), k, thrown)
    {
      if k in inflight { return inflight[k]; }
      promise := |key|;
      key := key + [k];
      if thrown.Some? {
        inflight := inflight - {k};
        outcome := outcome[promise := thrown.value];
      }
      inflight := inflight[k := promise];
    }

    method Finish(p: nat, o: O)
      requires Running(Snapshot(), p)
      modifies this
      ensures Snapshot() == Settle(old(Snapshot()), p, o)
    {
      inflight := inflight - {key[p]};
      outcome := outcome[p := o];
    }
  }

  // ---- all runs ----

  datatype Step<O> = Called(key: string, thrown: Option<O>) | Ended(promise: nat, o: O)

  function After<O>(f: Flights<O>, e: Step<O>): Flights<O> {
    match e
    case Called(k, thrown) => Run(f, k, thrown)
    case Ended(p, o) => if Running(f, p) then Settle(f, p, o) else f
  }

  function Reach<O>(run: Log<Step<O>>): Flights<O> {
    match run
    case Start => NoFlights()
    case Then(past, e) => After(Reach(past), e)
  }

  /** The promises whose `fn` threw instead of returning a promise. */
  function Stillborn<O>(run: Log<Step<O>>): set<nat> {
    match run
    case Start => {}
    case Then(past, Called(k, Some(o))) =>
      Stillborn(past) + if k in Reach(past).inflight then {} else {|Reach(past).key|}
    case Then(past, _) => Stillborn(past)
  }

  /** The promises a key leads to, and which of them still run. */
  ghost predicate Coherent<O>(f: Flights<O>, stillborn: set<nat>) {
    && (forall p :: p in f.outcome ==> p < |f.key|)
    && (forall k :: k in f.inflight ==> f.inflight[k] < |f.key| && f.key[f.inflight[k]] == k)
    && (forall p: nat :: Running(f, p) ==> f.key[p] in f.inflight && f.inflight[f.key[p]] == p)
    && (forall k :: k in f.inflight ==> (f.inflight[k] in f.outcome <==> f.inflight[k] in stillborn))
    && (forall p :: p in stillborn ==>
        p < |f.key| && p in f.outcome && f.key[p] in f.inflight && f.inflight[f.key[p]] == p)
  }

  lemma RunKeepsCoherent<O>(f: Flights<O>, stillborn: set<nat>, k: string, thrown: Option<O>)
    requires Coherent(f, stillborn)
    ensures Coherent(Run(f, k, thrown),
                     if thrown.Some? && k !in f.inflight then stillborn + {|f.key|} else stillborn)
  {
    var g := Run(f, k, thrown);
    if k !in f.inflight {
      assert forall p :: 0 <= p < |f.key| ==> g.key[p] == f.key[p];
      assert forall p: nat :: Running(g, p) ==> p == |f.key| || Running(f, p);
    }
  }

  lemma SettleKeepsCoherent<O>(f: Flights<O>, stillborn: set<nat>, p: nat, o: O)
    requires Coherent(f, stillborn) && Running(f, p)
    ensures Coherent(Settle(f, p, o), stillborn)
  {
    assert forall q: nat :: Running(Settle(f, p, o), q) ==> Running(f, q);
  }

  /**
   In every reachable state a running read is the one its key leads to, so each key
   has at most one; and a key leads to a settled promise exactly when that
   promise's `fn` threw synchronously.
   */
  lemma {:induction false} ReachIsCoherent<O>(run: Log<Step<O>>)
    ensures Coherent(Reach(run), Stillborn(run))
  {
    match run
    case Start =>
    case Then(past, Called(k, thrown)) =>
      ReachIsCoherent(past);
      RunKeepsCoherent(Reach(past), Stillborn(past), k, thrown);
    case Then(past, Ended(p, o)) =>
      ReachIsCoherent(past);
      if Running(Reach(past), p) { SettleKeepsCoherent(Reach(past), Stillborn(past), p, o); }
  }

  lemma AtMostOneReadPerKey<O>(run: Log<Step<O>>, p: nat, q: nat)
    requires Running(Reach(run), p) && Running(Reach(run), q)
    requires Reach(run).key[p] == Reach(run).key[q]
    ensures p == q
  {
    ReachIsCoherent(run);
  }

  /** A caller is given a running read of its key, or a promise whose `fn` threw. */
  lemma CallerJoinsRunningRead<O>(run: Log<Step<O>>, k: string, thrown: Option<O>)
    ensures
      var p, after := Joined(Reach(run), k), Then(run, Called(k, thrown));
      && p < |Reach(after).key| && Reach(after).key[p] == k
      && (Running(Reach(after), p) || p in Stillborn(after))
  {
    ReachIsCoherent(run);
    ReachIsCoherent(Then(run, Called(k, thrown)));
  }

  /** An outcome never changes, so all who joined a read see the same one. */
  lemma OutcomeIsFinal<O>(run: Log<Step<O>>, e: Step<O>, p: nat)
    requires p in Reach(run).outcome
    ensures p in Reach(Then(run, e)).outcome && Reach(Then(run, e)).outcome[p] == Reach(run).outcome[p]
  {
    ReachIsCoherent(run);
  }

  /** After a read settles, the next caller of its key starts a fresh one. */
  lemma SettledReadIsNotJoined<O>(run: Log<Step<O>>, p: nat, o: O)
    requires Running(Reach(run), p)
    ensures
      var after := Reach(Then(run, Ended(p, o)));
      after.outcome[p] == o && Joined(after, Reach(run).key[p]) == |after.key|
  {
  }

  /** A key whose `fn` threw leads to that dead promise for ever. */
  lemma StillbornStays<O>(run: Log<Step<O>>, e: Step<O>, p: nat)
    requires p in Stillborn(run)
    ensures p in Stillborn(Then(run, e))
    ensures p < |Reach(Then(run, e)).key| && Joined(Reach(Then(run, e)), Reach(Then(run, e)).key[p]) == p
    ensures p in Reach(Then(run, e)).outcome
  {
    ReachIsCoherent(run);
    ReachIsCoherent(Then(run, e));
  }
}
