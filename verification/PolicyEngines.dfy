/**
 The apply queue and the policy loader together, as they share one engine: a run of the
 queue reinstalls by queueing a body with the loader, and goes on when that body has
 passed; boot installs go to the loader on their own.
 */
module PolicyEngines {
  import opened Options
  import opened Logs
  import Q = ApplyQueues
  import L = PolicyLoaders
  import C = PromiseChains
  import SortedIds

  /** `awaited` is the loader's body that the run in flight waits for. */
  datatype State = State(q: Q.State, l: L.State, awaited: Option<nat>)

  datatype Event =
    | Called(ids: seq<string>)
    | Awaited(ok: bool)          // an await of the run in flight, other than its reinstall, ends
    | Reinstalled                // the run in flight goes on after its reinstall
    | Continued                  // the loop goes on after its run
    | Boot
    | BodyStarts(body: nat)
    | BodyEnds(body: nat, ok: bool)
    | BodyPasses(body: nat)

  function Loop(s: State): Option<Q.Loop> {
    if s.q.inflight.Some? && s.q.inflight.value in s.q.loops && s.q.loops[s.q.inflight.value].Running? then
      Some(s.q.loops[s.q.inflight.value])
    else None
  }

  predicate AtStorage(loop: Q.Loop) {
    loop.Running? && (loop.stage.AskingUser? || loop.stage.WritingEnabled? || loop.stage.WritingApplied?)
  }

  /** The step after which a run calls `reinstall`. */
  predicate StartsReinstall(user: bool, loop: Q.Loop, ok: bool) {
    loop.Running? && ((loop.stage.AskingUser? && !user) || (loop.stage.WritingEnabled? && ok))
  }

  predicate ReinstallPassed(s: State) {
    && s.awaited.Some? && s.awaited.value < |s.l.chain.bodies| && s.l.chain.bodies[s.awaited.value].phase.Passed?
    && Loop(s).Some? && Loop(s).value.Running? && Loop(s).value.stage.Reinstalling?
  }

  function Next(user: bool, s: State, e: Event): State {
    match e
    case Called(ids) => s.(q := Q.Next(user, s.q, Q.Called(ids)))
    case Awaited(ok) =>
      if Loop(s).None? || !AtStorage(Loop(s).value) then s
      else
        var t := s.(q := Q.Next(user, s.q, Q.Awaited(s.q.inflight.value, ok)));
        if StartsReinstall(user, Loop(s).value, ok) then
          t.(l := L.Step(s.l, L.ReinstallAllPolicies(Q.Target(user, Loop(s).value.ids))), awaited := Some(|s.l.jobs|))
        else t
    case Reinstalled =>
      if !ReinstallPassed(s) then s
      else
        var ok := s.l.chain.bodies[s.awaited.value].phase.ok;
        s.(q := Q.Next(user, s.q, Q.Awaited(s.q.inflight.value, ok)), awaited := None)
    case Continued => if Loop(s).None? then s else s.(q := Q.Next(user, s.q, Q.Continued(s.q.inflight.value)))
    case Boot => s.(l := L.Step(s.l, L.EnsureDefaultPoliciesInstalled))
    case BodyStarts(i) => s.(l := L.Step(s.l, L.BodyStarts(i)))
    case BodyEnds(i, ok) => s.(l := L.Step(s.l, L.BodyEnds(i, ok)))
    case BodyPasses(i) => s.(l := L.Step(s.l, L.BodyPasses(i)))
  }

  function Initial(enabled: seq<string>, applied: seq<string>): State {
    State(Q.Initial(enabled, [], applied), L.Initial(), None)
  }

  function Reach(user: bool, enabled: seq<string>, applied: seq<string>, run: Log<Event>): State {
    match run
    case Start => Initial(enabled, applied)
    case Then(past, e) => Next(user, Reach(user, enabled, applied, past), e)
  }

  // ---- what the loader's bodies did ----

  /** A body that is over did what its outcome says, and only boots skip. */
  ghost predicate PhasesTell(l: L.State) {
    && |l.jobs| == |l.chain.bodies|
    && (forall j :: 0 <= j < |l.jobs| ==>
          && (l.jobs[j].effect.Skipped? ==> l.jobs[j].work.Boot?)
          && (C.Over(l.chain.bodies[j]) && l.chain.bodies[j].phase.ok ==>
              l.jobs[j].effect.Installed? || l.jobs[j].effect.Skipped?))
  }

  lemma PhasesTellStep(l: L.State, e: L.Event)
    requires L.Invariant(l) && PhasesTell(l)
    ensures PhasesTell(L.Step(l, e))
  {
    hide C.Invariant, L.EngineRight, C.CanStart, C.Queue;
    L.StepKeeps(l, e);
    hide L.Invariant;
  }

  /** The last reinstall among the first `n` jobs. */
  function LastReinstall(jobs: seq<L.Job>, n: nat): Option<nat>
    requires n <= |jobs|
  {
    if n == 0 then None else if jobs[n - 1].work.Reinstall? then Some(n - 1) else LastReinstall(jobs, n - 1)
  }

  lemma {:induction false} LastReinstallIsLast(jobs: seq<L.Job>, n: nat)
    requires n <= |jobs| && LastReinstall(jobs, n).Some?
    ensures
      var i := LastReinstall(jobs, n).value;
      i < n && jobs[i].work.Reinstall? && forall j :: i < j < n ==> jobs[j].work.Boot?
  {
    if !jobs[n - 1].work.Reinstall? { LastReinstallIsLast(jobs, n - 1); }
  }

  /** Only the kinds of work matter. */
  lemma {:induction false} SameLastReinstall(a: seq<L.Job>, b: seq<L.Job>, n: nat)
    requires n <= |a| && n <= |b| && forall j :: 0 <= j < n ==> a[j].work == b[j].work
    ensures LastReinstall(a, n) == LastReinstall(b, n)
  {
    if n > 0 { SameLastReinstall(a, b, n - 1); }
  }

  /** The loader goes on with what it has, and takes in nothing but boots. */
  predicate NoReinstall(e: L.Event) { !e.ReinstallAllPolicies? }

  lemma JobsStay(l: L.State, e: L.Event)
    requires L.Invariant(l) && NoReinstall(e)
    ensures
      var t := L.Step(l, e);
      && |l.jobs| <= |t.jobs| <= |l.jobs| + 1
      && (forall j :: 0 <= j < |l.jobs| ==>
            t.jobs[j].work == l.jobs[j].work && (l.jobs[j].effect.Installed? ==> t.jobs[j].effect.Installed?))
      && (|t.jobs| > |l.jobs| ==> t.jobs[|l.jobs|].work.Boot?)
  {
    hide C.Invariant, L.EngineRight, C.Queue;
  }

  lemma LastReinstallStays(l: L.State, e: L.Event)
    requires L.Invariant(l) && NoReinstall(e)
    ensures LastReinstall(L.Step(l, e).jobs, |L.Step(l, e).jobs|) == LastReinstall(l.jobs, |l.jobs|)
  {
    JobsStay(l, e);
    hide L.Invariant, L.Step;
    SameLastReinstall(L.Step(l, e).jobs, l.jobs, |l.jobs|);
  }

  /** The last reinstall was asked for `ids`. */
  predicate AskedFor(l: L.State, ids: seq<string>) {
    var i := LastReinstall(l.jobs, |l.jobs|);
    i.Some? && i.value < |l.jobs| && l.jobs[i.value].work == L.Reinstall(ids)
  }

  /** And it has succeeded. */
  predicate Held(l: L.State, ids: seq<string>) {
    AskedFor(l, ids) && l.jobs[LastReinstall(l.jobs, |l.jobs|).value].effect.Installed?
  }

  lemma HeldStays(l: L.State, e: L.Event, ids: seq<string>)
    requires L.Invariant(l) && NoReinstall(e)
    ensures AskedFor(l, ids) ==> AskedFor(L.Step(l, e), ids)
    ensures Held(l, ids) ==> Held(L.Step(l, e), ids)
  {
    LastReinstallStays(l, e);
    JobsStay(l, e);
    hide L.Invariant, L.Step, LastReinstall;
  }

  /** Job `i` has installed, and only boots came after it. */
  predicate OnlyBootsAfter(l: L.State, i: nat) {
    i < |l.jobs| && l.jobs[i].effect.Installed? && forall j :: i < j < |l.jobs| ==> l.jobs[j].work.Boot?
  }

  /** No boot after a reinstall that succeeded has failed: it would have had to run. */
  lemma {:induction false} NoneFailsAfter(l: L.State, i: nat, n: nat)
    requires PhasesTell(l) && L.Invariant(l) && L.BootRight(l) && OnlyBootsAfter(l, i) && n <= |l.jobs|
    ensures !L.FailedBetween(l.jobs, i, n)
    decreases n
  {
    hide C.Invariant, L.EngineRight;
    if L.FailedBetween(l.jobs, i, n) {
      var k :| i < k < n && k < |l.jobs| && l.jobs[k].effect.Failed?;
      assert L.BootRuns(l, k) && L.InstalledAt(l.jobs, i);
      assert L.FailedBetween(l.jobs, i, k);
      NoneFailsAfter(l, i, k);
    }
  }

  /** So the engine holds what the last reinstall put there, and boots have nothing to do. */
  lemma EngineHolds(l: L.State, ids: seq<string>)
    requires PhasesTell(l) && L.Invariant(l) && L.BootRight(l) && Held(l, ids)
    ensures
      var i := LastReinstall(l.jobs, |l.jobs|).value;
      l.engine == Some(i) && i < |l.jobs| && l.jobs[i].work == L.Reinstall(ids) && l.installed
  {
    hide C.Invariant;
    LastReinstallIsLast(l.jobs, |l.jobs|);
    var i := LastReinstall(l.jobs, |l.jobs|).value;
    NoneFailsAfter(l, i, |l.jobs|);
    assert L.InstalledAt(l.jobs, i);
    var k := l.engine.value;
    if k > i {
      assert L.BootRuns(l, k) && L.InstalledAt(l.jobs, i);
      NoneFailsAfter(l, i, k);
    }
  }

  // ---- what holds in every reachable state ----

  /** What the loop in flight may rely on. */
  predicate LoopLinked(user: bool, s: State, loop: Q.Loop)
    requires loop.Running?
  {
    && (loop.stage.Reinstalling? ==>
          && s.awaited.Some? && s.awaited == LastReinstall(s.l.jobs, |s.l.jobs|)
          && AskedFor(s.l, Q.Target(user, loop.ids)))
    && (loop.stage.WritingApplied? || loop.stage == Q.Returned(Q.Success) ==> Held(s.l, Q.Target(user, loop.ids)))
  }

  predicate IdleLinked(user: bool, s: State) {
    s.q.inflight.None? && s.q.runs.Then? && s.q.runs.last.outcome == Some(Q.Success) ==>
      Held(s.l, Q.Target(user, s.q.runs.last.ids))
  }

  predicate Linked(user: bool, s: State) {
    (Loop(s).Some? && Loop(s).value.Running? ==> LoopLinked(user, s, Loop(s).value)) && IdleLinked(user, s)
  }

  ghost predicate LoaderRight(l: L.State) { L.Invariant(l) && L.BootRight(l) && PhasesTell(l) }

  ghost predicate Invariant(user: bool, s: State) {
    Q.Invariant(user, s.q) && LoaderRight(s.l) && Linked(user, s)
  }

  lemma LoaderStays(l: L.State, e: L.Event)
    requires LoaderRight(l)
    ensures LoaderRight(L.Step(l, e))
  {
    hide L.Step, PhasesTell, L.BootRight;
    L.StepKeeps(l, e);
    PhasesTellStep(l, e);
    L.BootStep(l, e);
  }

  /** A step of the loader alone. */
  lemma LoaderKeeps(user: bool, s: State, e: L.Event)
    requires Invariant(user, s) && NoReinstall(e)
    ensures Invariant(user, s.(l := L.Step(s.l, e)))
  {
    hide Q.Invariant, L.Step, L.Invariant, L.BootRight, PhasesTell, Held, AskedFor, Q.Target, LastReinstall;
    LoaderStays(s.l, e);
    if Loop(s).Some? { HeldStays(s.l, e, Q.Target(user, Loop(s).value.ids)); }
    if s.q.runs.Then? { HeldStays(s.l, e, Q.Target(user, s.q.runs.last.ids)); }
    LastReinstallStays(s.l, e);
  }

  lemma CalledKeeps(user: bool, s: State, ids: seq<string>)
    requires Invariant(user, s)
    ensures Invariant(user, Next(user, s, Called(ids)))
  {
    Q.NextKeeps(user, s.q, Q.Called(ids));
    hide Q.Invariant, LoaderRight, Held, AskedFor, Q.Target, LastReinstall;
  }

  lemma ReinstallIsLast(l: L.State, ids: seq<string>)
    ensures
      var t := L.Step(l, L.ReinstallAllPolicies(ids));
      LastReinstall(t.jobs, |t.jobs|) == Some(|l.jobs|) && AskedFor(t, ids)
  {
    hide C.Arrive;
  }

  lemma StartKeeps(user: bool, s: State, ok: bool)
    requires Invariant(user, s) && Loop(s).Some? && StartsReinstall(user, Loop(s).value, ok)
    ensures Invariant(user, Next(user, s, Awaited(ok)))
  {
    Q.NextKeeps(user, s.q, Q.Awaited(s.q.inflight.value, ok));
    var ids := Q.Target(user, Loop(s).value.ids);
    LoaderStays(s.l, L.ReinstallAllPolicies(ids));
    ReinstallIsLast(s.l, ids);
    hide Q.Invariant, LoaderRight, Held, AskedFor, Q.Target, LastReinstall, L.Step, SortedIds.Normalize;
  }

  lemma StorageKeeps(user: bool, s: State, ok: bool)
    requires Invariant(user, s) && Loop(s).Some? && AtStorage(Loop(s).value)
    requires !StartsReinstall(user, Loop(s).value, ok)
    ensures Invariant(user, Next(user, s, Awaited(ok)))
  {
    Q.NextKeeps(user, s.q, Q.Awaited(s.q.inflight.value, ok));
    hide Q.Invariant, LoaderRight, Held, AskedFor, Q.Target, LastReinstall, L.Step, SortedIds.Normalize;
  }

  lemma AwaitedKeeps(user: bool, s: State, ok: bool)
    requires Invariant(user, s) && Loop(s).Some? && AtStorage(Loop(s).value)
    ensures Invariant(user, Next(user, s, Awaited(ok)))
  {
    hide Invariant, Next;
    if StartsReinstall(user, Loop(s).value, ok) { StartKeeps(user, s, ok); } else { StorageKeeps(user, s, ok); }
  }

  /** A reinstall that passed well has installed. */
  lemma PassedWellIsHeld(s: State, ids: seq<string>)
    requires LoaderRight(s.l) && ReinstallPassed(s) && s.awaited == LastReinstall(s.l.jobs, |s.l.jobs|)
    requires AskedFor(s.l, ids) && s.l.chain.bodies[s.awaited.value].phase.ok
    ensures Held(s.l, ids)
  {
    hide L.Invariant, L.BootRight, LastReinstall, Loop;
  }

  lemma ReinstalledKeeps(user: bool, s: State)
    requires Invariant(user, s) && ReinstallPassed(s)
    ensures Invariant(user, Next(user, s, Reinstalled))
  {
    var ok := s.l.chain.bodies[s.awaited.value].phase.ok;
    Q.NextKeeps(user, s.q, Q.Awaited(s.q.inflight.value, ok));
    var ids := Q.Target(user, Loop(s).value.ids);
    hide Q.Invariant, LoaderRight, Held, AskedFor, Q.Target, LastReinstall, L.Step, SortedIds.Normalize;
    if ok { PassedWellIsHeld(s, ids); }
  }

  lemma RunOfLoop(user: bool, q: Q.State)
    requires Q.Invariant(user, q) && q.inflight.Some?
    requires q.inflight.value in q.loops && q.loops[q.inflight.value].Running?
    ensures q.runs.Then? && q.runs.last.ids == q.loops[q.inflight.value].ids
  {
    hide Q.OneLoop, Q.QueueRight, Q.RunsRight, Q.SettledRight, Q.StorageRight;
  }

  lemma ContinuedKeeps(user: bool, s: State)
    requires Invariant(user, s) && Loop(s).Some?
    ensures Invariant(user, Next(user, s, Continued))
  {
    Q.NextKeeps(user, s.q, Q.Continued(s.q.inflight.value));
    RunOfLoop(user, s.q);
    hide Q.Invariant, LoaderRight, Held, AskedFor, Q.Target, LastReinstall, Q.SettleAll;
  }

  lemma NextKeeps(user: bool, s: State, e: Event)
    requires Invariant(user, s)
    ensures Invariant(user, Next(user, s, e))
  {
    hide Invariant, L.Step, Q.Next, StartsReinstall, AtStorage;
    match e
    case Called(ids) => CalledKeeps(user, s, ids);
    case Awaited(ok) => if Loop(s).Some? && AtStorage(Loop(s).value) { AwaitedKeeps(user, s, ok); }
    case Reinstalled => if ReinstallPassed(s) { ReinstalledKeeps(user, s); }
    case Continued => if Loop(s).Some? { ContinuedKeeps(user, s); }
    case Boot => LoaderKeeps(user, s, L.EnsureDefaultPoliciesInstalled);
    case BodyStarts(i) => LoaderKeeps(user, s, L.BodyStarts(i));
    case BodyEnds(i, ok) => LoaderKeeps(user, s, L.BodyEnds(i, ok));
    case BodyPasses(i) => LoaderKeeps(user, s, L.BodyPasses(i));
  }

  lemma {:induction false} InvariantHolds(user: bool, enabled: seq<string>, applied: seq<string>, run: Log<Event>)
    ensures Invariant(user, Reach(user, enabled, applied, run))
  {
    match run
    case Start => Starts(user, enabled, applied);
    case Then(past, e) =>
      hide Invariant, Next;
      InvariantHolds(user, enabled, applied, past);
      NextKeeps(user, Reach(user, enabled, applied, past), e);
  }

  lemma Starts(user: bool, enabled: seq<string>, applied: seq<string>)
    ensures Invariant(user, Initial(enabled, applied))
  {
    Q.InvariantHolds(user, Q.Initial(enabled, [], applied), Start);
    L.InvariantHolds(Start);
    L.BootRightHolds(Start);
    hide Q.Invariant, L.Invariant, L.BootRight;
  }

  /**
   When nothing is in flight and the last apply succeeded, the engine holds the ids of the
   most recent call, storage says so too, and the loader counts the engine as installed:
   whatever boot installs arrived, ran or failed in between, and whichever still wait.
   */
  lemma EngineAtIdle(user: bool, enabled: seq<string>, applied: seq<string>, run: Log<Event>)
    requires
      var s := Reach(user, enabled, applied, run);
      s.q.inflight.None? && s.q.runs.Then? && s.q.runs.last.outcome == Some(Q.Success)
    ensures
      var s := Reach(user, enabled, applied, run);
      && s.q.calls != [] && s.l.engine.Some? && s.l.engine.value < |s.l.jobs| && s.l.installed
      && var ids := s.q.calls[|s.q.calls| - 1];
      && s.l.jobs[s.l.engine.value].work == L.Reinstall(Q.Target(user, ids))
      && (user ==> s.q.enabled == s.q.applied == SortedIds.Normalize(ids))
  {
    hide Reach;
    InvariantHolds(user, enabled, applied, run);
    var s := Reach(user, enabled, applied, run);
    LastRunHasLastIds(user, s.q);
    hide Q.Invariant, L.Invariant, L.BootRight, PhasesTell, Held, LastReinstall, Q.Target, SortedIds.Normalize;
    EngineHolds(s.l, Q.Target(user, s.q.runs.last.ids));
  }

  lemma LastRunHasLastIds(user: bool, q: Q.State)
    requires Q.Invariant(user, q) && q.inflight.None? && q.runs.Then? && q.runs.last.outcome == Some(Q.Success)
    ensures q.calls != [] && q.runs.last.ids == q.calls[|q.calls| - 1]
    ensures Q.AllAre(user, q, q.calls[|q.calls| - 1])
  {
    hide Q.SettledRight, Q.CurrentRight, SortedIds.Normalize;
  }

  // ---- a run of both ----

  /** A boot install is under way while a call asks for policies, and its reinstall waits for the boot. */
  function BootThenCall(ids: seq<string>): Log<Event> {
    Then(Then(Then(Then(Start, Boot), Called(ids)), Awaited(true)), Awaited(true))
  }

  /** The boot ends, the reinstall runs, and the run that waited for it goes on to its end. */
  function ToItsEnd(run: Log<Event>): Log<Event> {
    Then(Then(Then(AllInstalled(run), Reinstalled), Awaited(true)), Continued)
  }

  function AllInstalled(run: Log<Event>): Log<Event> {
    Then(Then(Then(Then(run, BodyEnds(0, true)), BodyStarts(1)), BodyEnds(1, true)), BodyPasses(1))
  }

  lemma BootThenCallState(enabled: seq<string>, applied: seq<string>, ids: seq<string>)
    ensures
      var s := Reach(true, enabled, applied, BootThenCall(ids));
      && s.awaited == Some(1) && s.q.inflight == Some(0) && s.q.calls == [ids]
      && s.q.loops == map[0 := Q.Running(ids, [], Q.Reinstalling)]
      && s.q.queuedDesired.None? && s.q.settled == map[]
      && s.q.enabled == SortedIds.Normalize(ids) && s.q.applied == applied
      && s.q.runs == Then(Start, Q.Run(ids, 1, 0, None))
      && !s.l.installed && s.l.engine.None?
      && s.l.jobs == [L.Job(L.Boot, L.Pending), L.Job(L.Reinstall(SortedIds.Normalize(ids)), L.Pending)]
      && s.l.chain == C.Chains([C.Body("", None, C.Active), C.Body("", Some(C.OfBody(0)), C.Waiting)],
                               map["" := C.OfBody(1)])
  {
    hide SortedIds.Normalize, Reach;
    var s0 := Initial(enabled, applied);
    ReachStep(true, enabled, applied, Start, Boot);
    var s1 := Next(true, s0, Boot);
    assert s1.l.chain == C.Chains([C.Body("", None, C.Active)], map["" := C.OfBody(0)]);
    assert s1.l.jobs == [L.Job(L.Boot, L.Pending)];
    ReachStep(true, enabled, applied, Then(Start, Boot), Called(ids));
    var s2 := Next(true, s1, Called(ids));
    ReachStep(true, enabled, applied, Then(Then(Start, Boot), Called(ids)), Awaited(true));
    var s3 := Next(true, s2, Awaited(true));
    assert s3.q.loops == map[0 := Q.Running(ids, [], Q.WritingEnabled)];
    ReachStep(true, enabled, applied, Then(Then(Then(Start, Boot), Called(ids)), Awaited(true)), Awaited(true));
    var s4 := Next(true, s3, Awaited(true));
    assert s4.q.loops == map[0 := Q.Running(ids, [], Q.Reinstalling)];
    assert s4.l == L.Step(s3.l, L.ReinstallAllPolicies(SortedIds.Normalize(ids)));
  }

  lemma ReachStep(user: bool, enabled: seq<string>, applied: seq<string>, run: Log<Event>, e: Event)
    ensures Reach(user, enabled, applied, Then(run, e)) == Next(user, Reach(user, enabled, applied, run), e)
    ensures Reach(user, enabled, applied, Start) == Initial(enabled, applied)
  {
    hide Next;
  }

  lemma AllInstalledState(enabled: seq<string>, applied: seq<string>, ids: seq<string>)
    ensures
      var s, t := Reach(true, enabled, applied, BootThenCall(ids)),
                  Reach(true, enabled, applied, AllInstalled(BootThenCall(ids)));
      && t.q == s.q && t.awaited == s.awaited && t.l.installed && t.l.engine == Some(1)
      && t.l.jobs == [L.Job(L.Boot, L.Installed), L.Job(L.Reinstall(SortedIds.Normalize(ids)), L.Installed)]
      && |t.l.chain.bodies| == 2 && t.l.chain.bodies[1].phase == C.Passed(true)
  {
    BootThenCallState(enabled, applied, ids);
    hide SortedIds.Normalize, Reach, BootThenCall, L.Step;
    var run := BootThenCall(ids);
    var s := Reach(true, enabled, applied, run);
    BootEnds(s.l, SortedIds.Normalize(ids));
    ReinstallEnds(L.Step(s.l, L.BodyEnds(0, true)), SortedIds.Normalize(ids));
    ReachStep(true, enabled, applied, run, BodyEnds(0, true));
    ReachStep(true, enabled, applied, Then(run, BodyEnds(0, true)), BodyStarts(1));
    ReachStep(true, enabled, applied, Then(Then(run, BodyEnds(0, true)), BodyStarts(1)), BodyEnds(1, true));
    ReachStep(true, enabled, applied,
              Then(Then(Then(run, BodyEnds(0, true)), BodyStarts(1)), BodyEnds(1, true)), BodyPasses(1));
  }

  lemma BootEnds(l: L.State, ids: seq<string>)
    requires l.jobs == [L.Job(L.Boot, L.Pending), L.Job(L.Reinstall(ids), L.Pending)]
    requires l.chain.bodies == [C.Body("", None, C.Active), C.Body("", Some(C.OfBody(0)), C.Waiting)]
    ensures
      var t := L.Step(l, L.BodyEnds(0, true));
      && t.installed && t.engine == Some(0) && |t.chain.bodies| == 2 && t.chain.bodies[0].phase == C.Ended(true)
      && t.chain.bodies[1] == C.Body("", Some(C.OfBody(0)), C.Waiting)
      && t.jobs == [L.Job(L.Boot, L.Installed), L.Job(L.Reinstall(ids), L.Pending)]
  {
  }

  lemma ReinstallEnds(l: L.State, ids: seq<string>)
    requires l.jobs == [L.Job(L.Boot, L.Installed), L.Job(L.Reinstall(ids), L.Pending)]
    requires |l.chain.bodies| == 2 && l.chain.bodies[0].phase == C.Ended(true)
    requires l.chain.bodies[1] == C.Body("", Some(C.OfBody(0)), C.Waiting)
    ensures
      var t := L.Step(L.Step(L.Step(l, L.BodyStarts(1)), L.BodyEnds(1, true)), L.BodyPasses(1));
      && t.installed && t.engine == Some(1) && |t.chain.bodies| == 2 && t.chain.bodies[1].phase == C.Passed(true)
      && t.jobs == [L.Job(L.Boot, L.Installed), L.Job(L.Reinstall(ids), L.Installed)]
  {
    var l1 := L.Step(l, L.BodyStarts(1));
    assert l1.chain.bodies[1].phase.Active? && l1.jobs == l.jobs && |l1.chain.bodies| == 2;
    var l2 := L.Step(l1, L.BodyEnds(1, true));
    assert l2.chain.bodies[1].phase == C.Ended(true) && l2.installed && l2.engine == Some(1);
    assert l2.jobs == [L.Job(L.Boot, L.Installed), L.Job(L.Reinstall(ids), L.Installed)];
  }

  /**
   Whatever policies are asked for, this run ends with nothing in flight, the caller told
   of success, and exactly these policies in the engine, although a boot install went
   between the call and its reinstall.
   */
  lemma BootThenCallEnds(enabled: seq<string>, applied: seq<string>, ids: seq<string>)
    ensures
      var s := Reach(true, enabled, applied, ToItsEnd(BootThenCall(ids)));
      && s.q.inflight.None? && s.awaited.None? && Q.AnswerTo(s.q, 0) == Some(Q.Success)
      && s.l.engine == Some(1) && s.l.installed
      && s.l.jobs == [L.Job(L.Boot, L.Installed), L.Job(L.Reinstall(SortedIds.Normalize(ids)), L.Installed)]
      && s.q.enabled == s.q.applied == SortedIds.Normalize(ids)
  {
    BootThenCallState(enabled, applied, ids);
    AllInstalledState(enabled, applied, ids);
    hide SortedIds.Normalize, Reach, BootThenCall, AllInstalled;
    var run := AllInstalled(BootThenCall(ids));
    var s := Reach(true, enabled, applied, run);
    ReachStep(true, enabled, applied, run, Reinstalled);
    var s1 := Next(true, s, Reinstalled);
    assert s1.q.loops == map[0 := Q.Running(ids, [], Q.WritingApplied)];
    ReachStep(true, enabled, applied, Then(run, Reinstalled), Awaited(true));
    var s2 := Next(true, s1, Awaited(true));
    assert s2.q.loops == map[0 := Q.Running(ids, [], Q.Returned(Q.Success))];
    ReachStep(true, enabled, applied, Then(Then(run, Reinstalled), Awaited(true)), Continued);
  }
}
