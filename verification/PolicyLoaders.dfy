/**
 The policy loader: boot installs and reinstalls, each run through `withSerialization`.
 A boot install does nothing if the engine has already been installed when its body
 starts.
 */
module PolicyLoaders {
  import opened Options
  import opened Logs
  import opened PromiseChains

  datatype Work = Boot | Reinstall(ids: seq<string>)

  /** What a body did to the engine. */
  datatype Effect = Pending | Skipped | Installed | Failed

  datatype Job = Job(work: Work, effect: Effect)

  /** All work is serialised under one key. */
  const KEY := ""

  datatype State = State(
    chain: Chains,
    installed: bool,
    engine: Option<nat>,     // the body that installed last
    jobs: seq<Job>           // one per body
  )

  datatype Event =
    | EnsureDefaultPoliciesInstalled
    | ReinstallAllPolicies(ids: seq<string>)
    | BodyStarts(body: nat)
    | BodyEnds(body: nat, ok: bool)
    | BodyPasses(body: nat)

  /** A boot body returns at once when the engine is installed by then. */
  function AtStart(installed: bool, work: Work): Effect { if work.Boot? && installed then Skipped else Pending }

  function Enqueue(s: State, work: Work): State {
    var c := Arrive(Loader, s.chain, KEY);
    var startsNow := c.bodies[|s.chain.bodies|].phase.Active?;
    s.(chain := c, jobs := s.jobs + [Job(work, if startsNow then AtStart(s.installed, work) else Pending)])
  }

  /** The body of job `i` runs to its end. */
  function Finish(s: State, i: nat, ok: bool): State
    requires i < |s.jobs|
  {
    var s1 := s.(chain := PromiseChains.Next(Loader, s.chain, Ends(i, ok || s.jobs[i].effect.Skipped?)));
    if s.jobs[i].effect.Skipped? then s1
    else if ok then s1.(installed := true, engine := Some(i), jobs := s.jobs[i := s.jobs[i].(effect := Installed)])
    else s1.(installed := false, jobs := s.jobs[i := s.jobs[i].(effect := Failed)])
  }

  function Step(s: State, e: Event): State {
    match e
    case EnsureDefaultPoliciesInstalled => if s.installed then s else Enqueue(s, Boot)
    case ReinstallAllPolicies(ids) => Enqueue(s, Reinstall(ids))
    case BodyStarts(i) =>
      if CanStart(s.chain, i) && i < |s.jobs| then
        s.(chain := PromiseChains.Next(Loader, s.chain, Starts(i)),
           jobs := s.jobs[i := s.jobs[i].(effect := AtStart(s.installed, s.jobs[i].work))])
      else s
    case BodyEnds(i, ok) =>
      if i < |s.jobs| && i < |s.chain.bodies| && s.chain.bodies[i].phase.Active? then Finish(s, i, ok) else s
    case BodyPasses(i) => s.(chain := PromiseChains.Next(Loader, s.chain, Passes(i)))
  }

  function Initial(): State { State(Chains([], map[]), false, None, []) }

  function Reach(run: Log<Event>): State {
    match run
    case Start => Initial()
    case Then(past, e) => Step(Reach(past), e)
  }

  /** The module's variables; each method is the code between two suspensions. */
  class PolicyLoader {
    var chain: Chains
    var installed: bool
    var engine: Option<nat>
    var jobs: seq<Job>

    function Snapshot(): State
      reads this
    {
      State(chain, installed, engine, jobs)
    }

    constructor ()
      ensures Snapshot() == Initial()
    {
      chain, installed, engine, jobs := Chains([], map[]), false, None, [];
    }

    method EnsureDefaultPoliciesInstalled()
      modifies this
      ensures Snapshot() == Step(old(Snapshot()), Event.EnsureDefaultPoliciesInstalled)
    {
      if installed { return; }
      WithSerialization(Boot);
    }

    method ReinstallAllPolicies(ids: seq<string>)
      modifies this
      ensures Snapshot() == Step(old(Snapshot()), Event.ReinstallAllPolicies(ids))
    {
      WithSerialization(Reinstall(ids));
    }

    /** `withSerialization`, up to its first suspension. */
    method WithSerialization(work: Work)
      modifies this
      ensures Snapshot() == Enqueue(old(Snapshot()), work)
    {
      var previous, i := Queue(chain, KEY), |chain.bodies|;
      var phase, effect := Waiting, Pending;
      if previous.None? {
        phase := Active;
        if work.Boot? && installed { effect := Skipped; }
      }
      chain := Chains(chain.bodies + [Body(KEY, previous, phase)], chain.tail[KEY := OfBody(i)]);
      jobs := jobs + [Job(work, effect)];
    }

    /** The previous body has settled; what it threw, if anything, is dropped. */
    method Resume(i: nat)
      requires CanStart(chain, i) && i < |jobs|
      modifies this
      ensures Snapshot() == Step(old(Snapshot()), BodyStarts(i))
    {
      chain := WithPhase(chain, i, Active);
      if jobs[i].work.Boot? && installed {
        jobs := jobs[i := jobs[i].(effect := Skipped)];
      } else {
        jobs := jobs[i := jobs[i].(effect := Pending)];
      }
    }

    /** The install made by body `i` ends; a skipped body ends well. */
    method InstallEnds(i: nat, ok: bool)
      requires i < |jobs| && i < |chain.bodies| && chain.bodies[i].phase.Active?
      modifies this
      ensures Snapshot() == Step(old(Snapshot()), BodyEnds(i, ok))
    {
      if jobs[i].effect.Skipped? {
        chain := WithPhase(chain, i, Ended(true));
        return;
      }
      chain := WithPhase(chain, i, Ended(ok));
      installed := ok;
      if ok {
        engine := Some(i);
        jobs := jobs[i := jobs[i].(effect := Installed)];
      } else {
        jobs := jobs[i := jobs[i].(effect := Failed)];
      }
    }
  }

  // ---- what holds in every reachable state ----

  /** The engine holds what the latest-arrived installing body put there. */
  ghost predicate EngineRight(s: State) {
    && (s.engine.Some? ==> s.engine.value < |s.jobs| && s.jobs[s.engine.value].effect.Installed?)
    && (forall j :: 0 <= j < |s.jobs| && s.jobs[j].effect.Installed? ==> s.engine.Some? && j <= s.engine.value)
  }

  ghost predicate Invariant(s: State) {
    && PromiseChains.Invariant(Loader, s.chain)
    && |s.jobs| == |s.chain.bodies|
    && (forall j :: 0 <= j < |s.chain.bodies| ==> s.chain.bodies[j].key == KEY)
    && (forall j :: 0 <= j < |s.jobs| && s.jobs[j].effect.Installed? ==> Over(s.chain.bodies[j]))
    && (forall j :: 0 <= j < |s.jobs| && s.chain.bodies[j].phase.Waiting? ==> s.jobs[j].effect.Pending?)
    && EngineRight(s)
  }

  /** No later body has even started while one is active. */
  lemma LaterBodiesWait(c: Chains, i: nat, j: nat)
    requires PromiseChains.Invariant(Loader, c) && i < j < |c.bodies|
    requires c.bodies[i].key == c.bodies[j].key && c.bodies[i].phase.Active?
    ensures c.bodies[j].phase.Waiting?
  {
    assert BodyRight(Loader, c, j);
  }

  lemma FinishKeeps(s: State, i: nat, ok: bool)
    requires Invariant(s) && i < |s.jobs| && s.chain.bodies[i].phase.Active?
    ensures Invariant(Finish(s, i, ok))
  {
    NextKeeps(Loader, s.chain, Ends(i, ok || s.jobs[i].effect.Skipped?));
    forall j | i < j < |s.jobs| ensures s.jobs[j].effect.Pending? { LaterBodiesWait(s.chain, i, j); }
    hide PromiseChains.Invariant;
    var t := Finish(s, i, ok);
    assert EngineRight(t);
  }

  lemma EnqueueKeeps(s: State, work: Work)
    requires Invariant(s)
    ensures Invariant(Enqueue(s, work))
  {
    NextKeeps(Loader, s.chain, Arrives(KEY));
    hide PromiseChains.Invariant;
  }

  lemma StartKeeps(s: State, i: nat)
    requires Invariant(s)
    ensures Invariant(Step(s, BodyStarts(i)))
  {
    NextKeeps(Loader, s.chain, Starts(i));
    hide PromiseChains.Invariant, CanStart;
  }

  lemma PassesKeeps(s: State, i: nat)
    requires Invariant(s)
    ensures Invariant(Step(s, BodyPasses(i)))
  {
    NextKeeps(Loader, s.chain, Passes(i));
    hide PromiseChains.Invariant;
  }

  lemma StepKeeps(s: State, e: Event)
    requires Invariant(s)
    ensures Invariant(Step(s, e))
  {
    match e
    case EnsureDefaultPoliciesInstalled => EnqueueKeeps(s, Boot);
    case ReinstallAllPolicies(ids) => EnqueueKeeps(s, Reinstall(ids));
    case BodyStarts(i) => StartKeeps(s, i);
    case BodyEnds(i, ok) =>
      if i < |s.jobs| && s.chain.bodies[i].phase.Active? {
        FinishKeeps(s, i, ok);
        hide Invariant;
      }
    case BodyPasses(i) => PassesKeeps(s, i);
  }

  lemma {:induction false} InvariantHolds(run: Log<Event>)
    ensures Invariant(Reach(run))
  {
    if run.Then? {
      InvariantHolds(run.past);
      StepKeeps(Reach(run.past), run.last);
    }
  }

  /** Installs run one at a time and in arrival order, however the earlier ones ended. */
  lemma InstallsAreSerial(run: Log<Event>, i: nat, j: nat)
    requires i < j < |Reach(run).chain.bodies| && Started(Reach(run).chain.bodies[j])
    ensures Over(Reach(run).chain.bodies[i])
  {
    InvariantHolds(run);
    assert BodyRight(Loader, Reach(run).chain, j);
  }

  /**
   At any time the engine holds the install of the latest-arrived body that installed;
   so when the last body that did not skip has succeeded, the engine is its.
   */
  lemma EngineIsLastArrival(run: Log<Event>, i: nat)
    requires i < |Reach(run).jobs| && Reach(run).jobs[i].effect.Installed?
    requires forall j :: i < j < |Reach(run).jobs| ==> !Reach(run).jobs[j].effect.Installed?
    ensures Reach(run).engine == Some(i)
  {
    InvariantHolds(run);
  }

  /** The flag `installed` says how the last body to end without skipping ended. */
  ghost predicate FlagRight(s: State) {
    (s.installed ==> s.engine.Some?)
    && (s.installed && s.engine.Some? ==> forall j :: s.engine.value < j < |s.jobs| ==> !s.jobs[j].effect.Failed?)
  }

  /** When the flag is set something is installed, and no body after it has failed. */
  lemma {:induction false} InstalledFlag(run: Log<Event>)
    ensures FlagRight(Reach(run))
  {
    if run.Then? {
      InstalledFlag(run.past);
      InvariantHolds(run.past);
      var s, e := Reach(run.past), run.last;
      if e.BodyEnds? && e.body < |s.jobs| && s.chain.bodies[e.body].phase.Active? {
        forall j | e.body < j < |s.jobs| ensures s.jobs[j].effect.Pending? { LaterBodiesWait(s.chain, e.body, j); }
      }
    }
  }

  /** An install that arrived after job `j` and before job `n` failed. */
  ghost predicate FailedBetween(jobs: seq<Job>, j: nat, n: nat) {
    exists k :: j < k < n && k < |jobs| && jobs[k].effect.Failed?
  }

  /** Body `i` is a boot install that really runs, or ran. */
  predicate BootRuns(s: State, i: nat) {
    && i < |s.jobs| && i < |s.chain.bodies|
    && s.jobs[i].work.Boot? && Started(s.chain.bodies[i]) && !s.jobs[i].effect.Skipped?
  }

  predicate InstalledAt(jobs: seq<Job>, j: nat) { j < |jobs| && jobs[j].effect.Installed? }

  ghost predicate BootRight(s: State) {
    && (!s.installed ==> forall j: nat :: InstalledAt(s.jobs, j) ==> FailedBetween(s.jobs, j, |s.jobs|))
    && (forall i: nat, j: nat :: BootRuns(s, i) && j < i && InstalledAt(s.jobs, j) ==> FailedBetween(s.jobs, j, i))
  }

  /** What has failed when body `i` starts, failed before it. */
  lemma FailedIsBefore(s: State, i: nat, j: nat)
    requires Invariant(s) && i < |s.jobs| && !Over(s.chain.bodies[i]) && s.jobs[i].effect.Pending?
    requires FailedBetween(s.jobs, j, |s.jobs|)
    ensures FailedBetween(s.jobs, j, i)
  {
    var k :| j < k < |s.jobs| && s.jobs[k].effect.Failed?;
    assert BodyRight(Loader, s.chain, k);
  }

  /** More jobs, and jobs that move on from `Pending` or `Skipped`, undo no failure. */
  lemma FailureStays(before: seq<Job>, jobs: seq<Job>, j: nat, n: nat)
    requires FailedBetween(before, j, n) && |before| <= |jobs|
    requires forall k :: 0 <= k < |before| && k < n && before[k].effect.Failed? ==> jobs[k].effect.Failed?
    ensures FailedBetween(jobs, j, n)
  {
    var k :| j < k < n && k < |before| && before[k].effect.Failed?;
    assert jobs[k].effect.Failed?;
  }

  lemma BootEnqueue(s: State, work: Work)
    requires Invariant(s) && BootRight(s)
    ensures BootRight(Enqueue(s, work))
  {
    hide PromiseChains.Invariant, EngineRight, FailedBetween;
    var t := Enqueue(s, work);
    forall j: nat | !t.installed && InstalledAt(t.jobs, j) ensures FailedBetween(t.jobs, j, |t.jobs|) {
      assert InstalledAt(s.jobs, j);
      FailureStays(s.jobs, t.jobs, j, |s.jobs|);
      FailedWider(t.jobs, j, |s.jobs|, |t.jobs|);
    }
    forall i: nat, j: nat | BootRuns(t, i) && j < i && InstalledAt(t.jobs, j) ensures FailedBetween(t.jobs, j, i) {
      assert InstalledAt(s.jobs, j);
      assert i < |s.jobs| ==> BootRuns(s, i);
      FailureStays(s.jobs, t.jobs, j, i);
    }
  }

  lemma FailedWider(jobs: seq<Job>, j: nat, n: nat, m: nat)
    requires FailedBetween(jobs, j, n) && n <= m
    ensures FailedBetween(jobs, j, m)
  {
    var k :| j < k < n && k < |jobs| && jobs[k].effect.Failed?;
    assert j < k < m;
  }

  lemma BootStart(s: State, b: nat)
    requires Invariant(s) && BootRight(s)
    ensures BootRight(Step(s, BodyStarts(b)))
  {
    hide PromiseChains.Invariant, EngineRight, FailedBetween;
    var t := Step(s, BodyStarts(b));
    if CanStart(s.chain, b) && b < |s.jobs| {
      forall j: nat | !t.installed && InstalledAt(t.jobs, j) ensures FailedBetween(t.jobs, j, |t.jobs|) {
        assert InstalledAt(s.jobs, j);
        FailureStays(s.jobs, t.jobs, j, |s.jobs|);
      }
      forall i: nat, j: nat | BootRuns(t, i) && j < i && InstalledAt(t.jobs, j) ensures FailedBetween(t.jobs, j, i) {
        assert InstalledAt(s.jobs, j);
        if i == b { FailedIsBefore(s, i, j); } else { assert BootRuns(s, i); }
        FailureStays(s.jobs, t.jobs, j, i);
      }
    }
  }

  lemma BootFinish(s: State, b: nat, ok: bool)
    requires Invariant(s) && BootRight(s) && b < |s.jobs| && s.chain.bodies[b].phase.Active?
    ensures BootRight(Finish(s, b, ok))
  {
    var t := Finish(s, b, ok);
    forall j | b < j < |s.jobs| ensures s.chain.bodies[j].phase.Waiting? && s.jobs[j].effect.Pending? {
      LaterBodiesWait(s.chain, b, j);
    }
    hide PromiseChains.Invariant, EngineRight, FailedBetween;
    forall j: nat | !t.installed && InstalledAt(t.jobs, j) ensures FailedBetween(t.jobs, j, |t.jobs|) {
      assert InstalledAt(s.jobs, j);
      if s.jobs[b].effect.Skipped? { FailureStays(s.jobs, t.jobs, j, |s.jobs|); } else { FailedHere(t.jobs, j, b); }
    }
    forall i: nat, j: nat | BootRuns(t, i) && j < i && InstalledAt(t.jobs, j) ensures FailedBetween(t.jobs, j, i) {
      assert i <= b;
      assert BootRuns(s, i) && InstalledAt(s.jobs, j);
      FailureStays(s.jobs, t.jobs, j, i);
    }
  }

  lemma FailedHere(jobs: seq<Job>, j: nat, b: nat)
    requires j < b < |jobs| && jobs[b].effect.Failed?
    ensures FailedBetween(jobs, j, |jobs|)
  {
  }

  lemma BootStep(s: State, e: Event)
    requires Invariant(s) && BootRight(s)
    ensures BootRight(Step(s, e))
  {
    hide Invariant, BootRight, Enqueue, Finish;
    match e
    case EnsureDefaultPoliciesInstalled => BootEnqueue(s, Boot);
    case ReinstallAllPolicies(ids) => BootEnqueue(s, Reinstall(ids));
    case BodyStarts(i) => BootStart(s, i);
    case BodyEnds(i, ok) =>
      if i < |s.jobs| && i < |s.chain.bodies| && s.chain.bodies[i].phase.Active? { BootFinish(s, i, ok); }
    case BodyPasses(i) => BootPasses(s, i);
  }

  lemma {:induction false} BootRightHolds(run: Log<Event>)
    ensures BootRight(Reach(run))
  {
    if run.Then? {
      BootRightHolds(run.past);
      InvariantHolds(run.past);
      BootStep(Reach(run.past), run.last);
    }
  }

  lemma BootPasses(s: State, b: nat)
    requires Invariant(s) && BootRight(s)
    ensures BootRight(Step(s, BodyPasses(b)))
  {
    hide PromiseChains.Invariant, EngineRight, FailedBetween;
    var t := Step(s, BodyPasses(b));
    forall i: nat | BootRuns(t, i) ensures BootRuns(s, i) {
    }
  }

  /**
   Once an install has succeeded, a later boot body does not install over it, nor even
   try to, unless an install that arrived in between has failed.
   */
  lemma BootSkipsUnlessFailed(run: Log<Event>, i: nat, j: nat)
    requires j < i && BootRuns(Reach(run), i) && InstalledAt(Reach(run).jobs, j)
    ensures exists k :: j < k < i && k < |Reach(run).jobs| && Reach(run).jobs[k].effect.Failed?
  {
    BootRightHolds(run);
    assert FailedBetween(Reach(run).jobs, j, i);
  }
}
