/**
 `applyEnabledIds`: one run of the engine's reinstall in flight, and one slot for the
 ids wanted next.  Calls are numbered as they arrive.  The code between two awaits is
 one step; a run may fail at any of its awaits.
 */
module ApplyQueues {
  import opened Options
  import opened Logs
  import opened SortedIds

  datatype Outcome = Success | Failure

  /** The await at which `runApply` stands. */
  datatype Stage = AskingUser | WritingEnabled | Reinstalling | WritingApplied | Returned(outcome: Outcome)

  /** The loop started by a call that found nothing in flight. */
  datatype Loop = Running(ids: seq<string>, batch: seq<nat>, stage: Stage) | Over(outcome: Outcome)

  /** A run of `runApply`: its ids, how many calls had arrived when it started, its loop. */
  datatype Run = Run(ids: seq<string>, upto: nat, head: nat, outcome: Option<Outcome>)

  datatype State = State(
    inflight: Option<nat>,
    queuedDesired: Option<seq<string>>,
    queuedResolvers: seq<nat>,
    loops: map<nat, Loop>,
    settled: map<nat, Outcome>,
    enabled: seq<string>,
    installed: seq<string>,
    applied: seq<string>,
    // what has happened so far
    calls: seq<seq<string>>,
    runs: Log<Run>
  )

  datatype Event = Called(ids: seq<string>) | Awaited(head: nat, ok: bool) | Continued(head: nat)

  // ---- the steps ----

  function StartRun(s: State, head: nat, ids: seq<string>, batch: seq<nat>): State {
    s.(loops := s.loops[head := Running(ids, batch, AskingUser)],
       runs := Then(s.runs, Run(ids, |s.calls|, head, None)))
  }

  function CallStep(s: State, ids: seq<string>): State {
    var n, s1 := |s.calls|, s.(calls := s.calls + [ids]);
    if s.inflight.Some? then
      s1.(queuedDesired := Some(ids), queuedResolvers := s.queuedResolvers + [n])
    else
      StartRun(s1.(inflight := Some(n)), n, ids, [])
  }

  function AtStage(s: State, head: nat, stage: Stage): State
    requires head in s.loops && s.loops[head].Running?
  {
    s.(loops := s.loops[head := s.loops[head].(stage := stage)])
  }

  /** What a run asks the engine to install. */
  function Target(user: bool, ids: seq<string>): seq<string> { if user then Normalize(ids) else [] }

  /** The awaited operation of a run ends, well or badly. */
  function AwaitStep(user: bool, s: State, head: nat, ok: bool): State
    requires head in s.loops && s.loops[head].Running?
  {
    var loop := s.loops[head];
    match loop.stage
    case AskingUser => AtStage(s, head, if user then WritingEnabled else Reinstalling)
    case WritingEnabled =>
      if ok then AtStage(s.(enabled := Normalize(loop.ids)), head, Reinstalling)
      else AtStage(s, head, Returned(Failure))
    case Reinstalling =>
      if ok then
        AtStage(s.(installed := Target(user, loop.ids)), head, if user then WritingApplied else Returned(Success))
      else AtStage(s, head, Returned(Failure))
    case WritingApplied =>
      if ok then AtStage(s.(applied := Normalize(loop.ids)), head, Returned(Success))
      else AtStage(s, head, Returned(Failure))
    case Returned(_) => s
  }

  function SettleAll(settled: map<nat, Outcome>, batch: seq<nat>, o: Outcome): map<nat, Outcome> {
    map c | c in settled.Keys + (set b | b in batch) :: if c in batch then o else settled[c]
  }

  /** The loop goes on after a run: settle its batch, then take what is queued, or end. */
  function LoopStep(s: State, head: nat): State
    requires head in s.loops && s.loops[head].Running? && s.loops[head].stage.Returned? && s.runs.Then?
  {
    var o := s.loops[head].stage.outcome;
    var s1 := s.(settled := SettleAll(s.settled, s.loops[head].batch, o),
                 runs := Then(s.runs.past, s.runs.last.(outcome := Some(o))));
    match s.queuedDesired
    case Some(next) => StartRun(s1.(queuedDesired := None, queuedResolvers := []), head, next, s.queuedResolvers)
    case None =>
      s1.(loops := s1.loops[head := Over(o)], inflight := None, settled := s1.settled[head := o])
  }

  function Next(user: bool, s: State, e: Event): State {
    match e
    case Called(ids) => CallStep(s, ids)
    case Awaited(head, ok) => if head in s.loops && s.loops[head].Running? then AwaitStep(user, s, head, ok) else s
    case Continued(head) =>
      if head in s.loops && s.loops[head].Running? && s.loops[head].stage.Returned? && s.runs.Then? then
        LoopStep(s, head)
      else s
  }

  function Initial(enabled: seq<string>, installed: seq<string>, applied: seq<string>): State {
    State(None, None, [], map[], map[], enabled, installed, applied, [], Start)
  }

  function Reach(user: bool, s0: State, run: Log<Event>): State {
    match run
    case Start => s0
    case Then(past, e) => Next(user, Reach(user, s0, past), e)
  }

  /** The module's variables; each method is the code between two suspensions. */
  class PolicySelection {
    const user: bool
    var inflight: Option<nat>
    var queuedDesired: Option<seq<string>>
    var queuedResolvers: seq<nat>
    var loops: map<nat, Loop>
    var settled: map<nat, Outcome>
    var enabled: seq<string>
    var installed: seq<string>
    var applied: seq<string>
    var arrived: nat
    ghost var calls: seq<seq<string>>
    ghost var runs: Log<Run>

    ghost function Snapshot(): State
      reads this
    {
      State(inflight, queuedDesired, queuedResolvers, loops, settled, enabled, installed, applied, calls, runs)
    }

    ghost predicate Valid()
      reads this
    {
      arrived == |calls| && Invariant(user, Snapshot())
    }

    constructor (user: bool, enabled: seq<string>, installed: seq<string>, applied: seq<string>)
      ensures Valid() && this.user == user && Snapshot() == Initial(enabled, installed, applied)
    {
      this.user := user;
      inflight, queuedDesired, queuedResolvers, loops, settled := None, None, [], map[], map[];
      this.enabled, this.installed, this.applied, arrived := enabled, installed, applied, 0;
      calls, runs := [], Start;
    }

    /** `applyEnabledIds(ids)`, up to its first suspension. */
    method ApplyEnabledIds(ids: seq<string>)
      requires Valid()
      modifies this
      ensures Valid() && Snapshot() == CallStep(old(Snapshot()), ids)
    {
      hide Invariant;
      CallKeeps(user, Snapshot(), ids);
      ghost var goal := CallStep(Snapshot(), ids);
      var n := arrived;
      arrived := arrived + 1;
      calls := calls + [ids];
      if inflight.Some? {
        queuedDesired := Some(ids);
        queuedResolvers := queuedResolvers + [n];
      } else {
        inflight := Some(n);
        loops := loops[n := Running(ids, [], AskingUser)];
        runs := Then(runs, Run(ids, |calls|, n, None));
      }
      assert Snapshot() == goal;
    }

    /** The operation that the run of `head` awaits ends. */
    method Awaited(head: nat, ok: bool)
      requires Valid() && head in loops && loops[head].Running?
      modifies this
      ensures Valid() && Snapshot() == AwaitStep(user, old(Snapshot()), head, ok)
    {
      hide Invariant, Normalize;
      AwaitKeeps(user, Snapshot(), head, ok);
      ghost var goal := AwaitStep(user, Snapshot(), head, ok);
      var loop := loops[head];
      var sorted := Normalize(loop.ids);
      var stage := loop.stage;
      match stage {
        case AskingUser => stage := if user then WritingEnabled else Reinstalling;
        case WritingEnabled =>
          if ok { enabled := sorted; }
          stage := if ok then Reinstalling else Returned(Failure);
        case Reinstalling =>
          if ok { installed := if user then sorted else []; }
          stage := if !ok then Returned(Failure) else if user then WritingApplied else Returned(Success);
        case WritingApplied =>
          if ok { applied := sorted; }
          stage := if ok then Returned(Success) else Returned(Failure);
        case Returned(_) =>
      }
      loops := loops[head := loop.(stage := stage)];
      assert Snapshot() == goal;
    }

    /** `for (const r of resolvers) r(lastResult)` */
    method Resolve(batch: seq<nat>, o: Outcome)
      modifies this`settled
      ensures settled == SettleAll(old(settled), batch, o)
    {
      var i := 0;
      while i < |batch|
        invariant 0 <= i <= |batch|
        invariant settled == SettleAll(old(settled), batch[..i], o)
      {
        settled := settled[batch[i] := o];
        i := i + 1;
        assert batch[..i] == batch[..i - 1] + [batch[i - 1]];
      }
      assert batch[..i] == batch;
    }

    /** The loop of `head` goes on when its run has returned. */
    method Continued(head: nat)
      requires Valid() && head in loops && loops[head].Running? && loops[head].stage.Returned? && runs.Then?
      modifies this
      ensures Valid() && Snapshot() == LoopStep(old(Snapshot()), head)
    {
      hide Invariant, SettleAll;
      LoopKeeps(user, Snapshot(), head);
      ghost var goal := LoopStep(Snapshot(), head);
      var lastResult := loops[head].stage.outcome;
      Resolve(loops[head].batch, lastResult);
      runs := Then(runs.past, runs.last.(outcome := Some(lastResult)));
      if queuedDesired.Some? {
        var next, resolvers := queuedDesired.value, queuedResolvers;
        queuedDesired, queuedResolvers := None, [];
        loops := loops[head := Running(next, resolvers, AskingUser)];
        runs := Then(runs, Run(next, |calls|, head, None));
      } else {
        loops := loops[head := Over(lastResult)];
        inflight := None;
        settled := settled[head := lastResult];
      }
      assert Snapshot() == goal;
    }
  }

  // ---- what the runs say ----

  /** How many calls had arrived when the last run started. */
  function Served(runs: Log<Run>): nat { if runs.Start? then 0 else runs.last.upto }

  /** The first run that started after call `c`. */
  function FirstAfter(runs: Log<Run>, c: nat): Option<Run> {
    match runs
    case Start => None
    case Then(past, r) => if c < Served(past) then FirstAfter(past, c) else if c < r.upto then Some(r) else None
  }

  /** The last run of the loop that call `c` started. */
  function LastOf(runs: Log<Run>, c: nat): Option<Run> {
    match runs
    case Start => None
    case Then(past, r) => if r.head == c then Some(r) else LastOf(past, c)
  }

  function OutcomeOf(r: Option<Run>): Option<Outcome> { if r.None? then None else r.value.outcome }

  function AnswerTo(s: State, c: nat): Option<Outcome> { if c in s.settled then Some(s.settled[c]) else None }

  /** Each run has the ids of the last call before it started; all but the last have ended. */
  predicate RunsRight(runs: Log<Run>, calls: seq<seq<string>>) {
    match runs
    case Start => true
    case Then(past, r) =>
      && RunsRight(past, calls)
      && Served(past) < r.upto <= |calls| && r.ids == calls[r.upto - 1]
      && (past.Then? ==> past.last.outcome.Some?)
  }

  lemma {:induction false} MoreCalls(runs: Log<Run>, calls: seq<seq<string>>, ids: seq<string>)
    requires RunsRight(runs, calls)
    ensures RunsRight(runs, calls + [ids])
  {
    if runs.Then? { MoreCalls(runs.past, calls, ids); }
  }

  // ---- what holds in every reachable state ----

  function Range(a: nat, b: nat): seq<nat>
    requires a <= b
  {
    seq(b - a, i requires 0 <= i => a + i)
  }

  /** One loop at most is not over, and it is the one in flight. */
  ghost predicate OneLoop(s: State) {
    && (forall h :: h in s.loops ==> h < Served(s.runs) && (s.loops[h].Running? <==> s.inflight == Some(h)))
    && (s.inflight.Some? ==> s.inflight.value in s.loops && forall h :: h in s.loops ==> h <= s.inflight.value)
  }

  /** What is queued is what arrived since the last run started. */
  ghost predicate QueueRight(s: State) {
    && Served(s.runs) <= |s.calls|
    && s.queuedResolvers == Range(Served(s.runs), |s.calls|)
    && s.queuedDesired == (if Served(s.runs) < |s.calls| then Some(s.calls[|s.calls| - 1]) else None)
    && (s.queuedDesired.Some? ==> s.inflight.Some?)
  }

  /** Engine and storage agree on `ids`. */
  predicate AllAre(user: bool, s: State, ids: seq<string>) {
    && s.installed == Target(user, ids)
    && (user ==> s.enabled == s.applied == Normalize(ids))
  }

  predicate StorageRight(user: bool, s: State, loop: Loop)
    requires loop.Running?
  {
    && (loop.stage.Reinstalling? && user ==> s.enabled == Normalize(loop.ids))
    && (loop.stage.WritingApplied? ==> user && s.enabled == s.installed == Normalize(loop.ids))
    && (loop.stage.Returned? && loop.stage.outcome.Success? ==> AllAre(user, s, loop.ids))
  }

  /** The run in flight is the last one started; it settles those queued before it. */
  predicate InFlightRight(user: bool, s: State, loop: Loop, r: Run, before: nat)
    requires loop.Running?
  {
    && s.inflight == Some(r.head) && loop.ids == r.ids && r.outcome.None? && before < r.upto
    && (if r.upto == r.head + 1 then before == r.head && loop.batch == []
        else r.head < before && loop.batch == Range(before, r.upto))
    && StorageRight(user, s, loop)
  }

  predicate CurrentRight(user: bool, s: State) {
    s.inflight.Some? && s.inflight.value in s.loops && s.loops[s.inflight.value].Running? ==>
      s.runs.Then? && InFlightRight(user, s, s.loops[s.inflight.value], s.runs.last, Served(s.runs.past))
  }

  predicate IdleRight(user: bool, s: State) {
    s.inflight.None? && s.runs.Then? ==>
      && s.runs.last.outcome.Some?
      && (s.runs.last.outcome.value.Success? ==> AllAre(user, s, s.runs.last.ids))
  }

  /** What call `c` has been told, if anything. */
  predicate SettledAt(s: State, c: nat) {
    if c >= |s.calls| then AnswerTo(s, c).None?
    else if c !in s.loops then
      // a queued caller has the outcome of the first run that started after it queued
      AnswerTo(s, c) == OutcomeOf(FirstAfter(s.runs, c))
    else
      // the first caller has, once its loop is over, the outcome of the loop's last run
      && AnswerTo(s, c) == (if s.loops[c].Over? then OutcomeOf(LastOf(s.runs, c)) else None)
      && (s.loops[c].Over? ==> AnswerTo(s, c) == Some(s.loops[c].outcome))
  }

  ghost predicate SettledRight(s: State) { forall c: nat :: SettledAt(s, c) }

  ghost predicate Invariant(user: bool, s: State) {
    && OneLoop(s) && QueueRight(s) && RunsRight(s.runs, s.calls) && CurrentRight(user, s) && IdleRight(user, s)
    && SettledRight(s)
  }

  // ---- each step keeps it ----

  lemma CallQueued(user: bool, s: State, ids: seq<string>)
    requires Invariant(user, s) && s.inflight.Some?
    ensures Invariant(user, CallStep(s, ids))
  {
    hide Normalize, LastOf, Target;
    var t := CallStep(s, ids);
    MoreCalls(s.runs, s.calls, ids);
    assert QueueRight(t);
    NothingAfter(s.runs, s.calls, |s.calls|);
    hide RunsRight, FirstAfter, QueueRight;
    forall c: nat ensures SettledAt(t, c) { assert SettledAt(s, c); }
  }

  lemma CallStarts(user: bool, s: State, ids: seq<string>)
    requires Invariant(user, s) && s.inflight.None?
    ensures Invariant(user, CallStep(s, ids))
  {
    hide Normalize, Target;
    var t, n := CallStep(s, ids), |s.calls|;
    MoreCalls(s.runs, s.calls, ids);
    assert Served(s.runs) == n;
    assert QueueRight(t) by { EmptyQueue(t); }
    hide QueueRight;
    forall c: nat ensures SettledAt(t, c) {
      assert SettledAt(s, c);
      if c >= n { NothingAfter(s.runs, s.calls, c); }
    }
  }

  lemma EmptyQueue(t: State)
    requires Served(t.runs) == |t.calls| && t.queuedResolvers == [] && t.queuedDesired.None?
    ensures QueueRight(t)
  {
    assert Range(|t.calls|, |t.calls|) == [];
  }

  /** No run started after a call that came after the last run. */
  lemma {:induction false} NothingAfter(runs: Log<Run>, calls: seq<seq<string>>, c: nat)
    requires RunsRight(runs, calls) && c >= Served(runs)
    ensures FirstAfter(runs, c).None?
  {
  }

  /** Moving a run to another await settles nobody and queues nothing. */
  lemma StageOnly(user: bool, s: State, t: State, head: nat, stage: Stage)
    requires Invariant(user, s) && head in s.loops && s.loops[head].Running?
    requires t == AtStage(s, head, stage).(enabled := t.enabled, installed := t.installed, applied := t.applied)
    ensures OneLoop(t) && QueueRight(t) && RunsRight(t.runs, t.calls) && SettledRight(t) && IdleRight(user, t)
    ensures s.inflight == Some(head) && CurrentRight(user, s)
  {
    hide FirstAfter, LastOf, RunsRight, QueueRight, CurrentRight;
    assert QueueRight(t) by { QueueSame(s, t); }
    forall c: nat ensures SettledAt(t, c) { assert SettledAt(s, c); }
  }

  lemma QueueSame(s: State, t: State)
    requires QueueRight(s) && t.runs == s.runs && t.calls == s.calls && t.inflight == s.inflight
    requires t.queuedDesired == s.queuedDesired && t.queuedResolvers == s.queuedResolvers
    ensures QueueRight(t)
  {
  }

  /** Storage agrees with the stage a run goes on to. */
  lemma AwaitKeepsStorage(user: bool, s: State, head: nat, ok: bool)
    requires head in s.loops && s.loops[head].Running? && StorageRight(user, s, s.loops[head])
    ensures
      var t := AwaitStep(user, s, head, ok);
      head in t.loops && t.loops[head].Running? && StorageRight(user, t, t.loops[head])
  {
    hide Normalize;
  }

  lemma AwaitKeeps(user: bool, s: State, head: nat, ok: bool)
    requires Invariant(user, s) && head in s.loops && s.loops[head].Running?
    ensures Invariant(user, AwaitStep(user, s, head, ok))
  {
    var t := AwaitStep(user, s, head, ok);
    hide Normalize, OneLoop, QueueRight, SettledRight, RunsRight, IdleRight, FirstAfter, LastOf;
    StageOnly(user, s, t, head, t.loops[head].stage);
    AwaitKeepsStorage(user, s, head, ok);
    hide Target, StorageRight;
    assert CurrentRight(user, t);
  }

  lemma AnswerAfterSettleAll(s: State, t: State, batch: seq<nat>, o: Outcome, c: nat)
    requires t.settled == SettleAll(s.settled, batch, o)
    ensures AnswerTo(t, c) == if c in batch then Some(o) else AnswerTo(s, c)
  {
  }

  lemma InRange(a: nat, b: nat, c: nat)
    requires a <= b
    ensures c in Range(a, b) <==> a <= c < b
  {
    if a <= c < b { assert Range(a, b)[c - a] == c; }
  }

  /** The answers a run's end gives: to its batch, and to nobody else. */
  lemma RunEnds(user: bool, s: State, head: nat, t: State, c: nat)
    requires Invariant(user, s) && s.inflight == Some(head) && head in s.loops && s.loops[head].Running?
    requires s.loops[head].stage.Returned?
    requires t.settled == SettleAll(s.settled, s.loops[head].batch, s.loops[head].stage.outcome)
    requires t.runs == Then(s.runs.past, s.runs.last.(outcome := Some(s.loops[head].stage.outcome)))
    ensures c !in s.loops ==> AnswerTo(t, c) == OutcomeOf(FirstAfter(t.runs, c))
    ensures c in s.loops || c >= |s.calls| ==> AnswerTo(t, c) == AnswerTo(s, c)
  {
    hide Normalize, LastOf, Target;
    var batch, o := s.loops[head].batch, s.loops[head].stage.outcome;
    AnswerAfterSettleAll(s, t, batch, o, c);
    var r, before := s.runs.last, Served(s.runs.past);
    InRange(before, r.upto, c);
    assert SettledAt(s, c);
    if c >= |s.calls| { NothingAfter(s.runs, s.calls, c); }
  }

  lemma LoopGoesOn(user: bool, s: State, head: nat)
    requires Invariant(user, s) && head in s.loops && s.loops[head].Running? && s.loops[head].stage.Returned?
    requires s.runs.Then? && s.queuedDesired.Some?
    ensures Invariant(user, LoopStep(s, head))
  {
    hide Normalize, FirstAfter, LastOf, Target;
    var t, o := LoopStep(s, head), s.loops[head].stage.outcome;
    var ended := Then(s.runs.past, s.runs.last.(outcome := Some(o)));
    var mid := s.(settled := t.settled, runs := ended);
    assert RunsRight(t.runs, t.calls) && RunsRight(ended, t.calls);
    assert CurrentRight(user, t);
    EmptyQueue(t);
    hide RunsRight, QueueRight, CurrentRight;
    forall c: nat ensures SettledAt(t, c)
    {
      assert SettledAt(s, c);
      RunEnds(user, s, head, mid, c);
      NextRunUnanswered(ended, t.runs.last, t.calls, c);
      if c != head { LastOfOthers(s.runs, o, t.runs.last, c); }
    }
  }

  lemma NextRunUnanswered(runs: Log<Run>, r: Run, calls: seq<seq<string>>, c: nat)
    requires RunsRight(runs, calls) && r.outcome.None?
    ensures OutcomeOf(FirstAfter(Then(runs, r), c)) == OutcomeOf(FirstAfter(runs, c))
  {
    if c >= Served(runs) { NothingAfter(runs, calls, c); }
  }

  lemma LastOfOthers(runs: Log<Run>, o: Outcome, next: Run, c: nat)
    requires runs.Then? && c != runs.last.head && next.head == runs.last.head
    ensures LastOf(Then(Then(runs.past, runs.last.(outcome := Some(o))), next), c) == LastOf(runs, c)
    ensures LastOf(Then(runs.past, runs.last.(outcome := Some(o))), c) == LastOf(runs, c)
  {
  }

  lemma LoopEnds(user: bool, s: State, head: nat)
    requires Invariant(user, s) && head in s.loops && s.loops[head].Running? && s.loops[head].stage.Returned?
    requires s.runs.Then? && s.queuedDesired.None?
    ensures Invariant(user, LoopStep(s, head))
  {
    hide Normalize, FirstAfter, LastOf, Target;
    var t, o := LoopStep(s, head), s.loops[head].stage.outcome;
    var mid := s.(settled := SettleAll(s.settled, s.loops[head].batch, o), runs := t.runs);
    assert RunsRight(t.runs, t.calls) && QueueRight(t) && IdleRight(user, t);
    hide RunsRight, QueueRight, CurrentRight, IdleRight;
    forall c: nat ensures SettledAt(t, c)
    {
      assert SettledAt(s, c);
      RunEnds(user, s, head, mid, c);
      if c != head { LastOfOthers(s.runs, o, s.runs.last, c); } else { LastOfOwn(s.runs, o); }
    }
  }

  lemma LastOfOwn(runs: Log<Run>, o: Outcome)
    requires runs.Then?
    ensures OutcomeOf(LastOf(Then(runs.past, runs.last.(outcome := Some(o))), runs.last.head)) == Some(o)
  {
  }

  lemma CallKeeps(user: bool, s: State, ids: seq<string>)
    requires Invariant(user, s)
    ensures Invariant(user, CallStep(s, ids))
  {
    hide Invariant, CallStep;
    if s.inflight.Some? { CallQueued(user, s, ids); } else { CallStarts(user, s, ids); }
  }

  lemma LoopKeeps(user: bool, s: State, head: nat)
    requires Invariant(user, s) && head in s.loops && s.loops[head].Running? && s.loops[head].stage.Returned?
    requires s.runs.Then?
    ensures Invariant(user, LoopStep(s, head))
  {
    hide Invariant, LoopStep;
    if s.queuedDesired.Some? { LoopGoesOn(user, s, head); } else { LoopEnds(user, s, head); }
  }

  lemma NextKeeps(user: bool, s: State, e: Event)
    requires Invariant(user, s)
    ensures Invariant(user, Next(user, s, e))
  {
    hide Invariant, CallStep, AwaitStep, LoopStep;
    match e
    case Called(ids) => CallKeeps(user, s, ids);
    case Awaited(head, ok) => if head in s.loops && s.loops[head].Running? { AwaitKeeps(user, s, head, ok); }
    case Continued(head) =>
      if head in s.loops && s.loops[head].Running? && s.loops[head].stage.Returned? && s.runs.Then? {
        LoopKeeps(user, s, head);
      }
  }

  /** No call yet, whatever is in storage and in the engine. */
  predicate AtBoot(s0: State) { s0 == Initial(s0.enabled, s0.installed, s0.applied) }

  lemma {:induction false} InvariantHolds(user: bool, s0: State, run: Log<Event>)
    requires AtBoot(s0)
    ensures Invariant(user, Reach(user, s0, run))
  {
    match run
    case Start =>
    case Then(past, e) =>
      InvariantHolds(user, s0, past);
      NextKeeps(user, Reach(user, s0, past), e);
  }

  lemma ReachStep(user: bool, s0: State, run: Log<Event>, e: Event)
    ensures Reach(user, s0, Then(run, e)) == Next(user, Reach(user, s0, run), e)
  {
  }

  // ---- what callers may rely on, over every run ----

  /** At most one reinstall is active at any time. */
  lemma OneReinstall(user: bool, s0: State, run: Log<Event>, g: nat, h: nat)
    requires AtBoot(s0)
    requires
      var s := Reach(user, s0, run);
      && g in s.loops && s.loops[g].Running? && s.loops[g].stage.Reinstalling?
      && h in s.loops && s.loops[h].Running? && s.loops[h].stage.Reinstalling?
    ensures g == h
  {
    InvariantHolds(user, s0, run);
  }

  /** No lost wake-up: something is queued only while a run is in flight that will take it. */
  lemma NoLostWakeup(user: bool, s0: State, run: Log<Event>)
    requires AtBoot(s0)
    ensures
      var s := Reach(user, s0, run);
      && (s.queuedDesired.Some? <==> s.queuedResolvers != [])
      && (s.queuedDesired.Some? ==>
          s.inflight.Some? && s.inflight.value in s.loops && s.loops[s.inflight.value].Running?)
  {
    InvariantHolds(user, s0, run);
  }

  /** The ids of a run are those of the last call that arrived before it started. */
  lemma {:induction false} RunHasLastIds(runs: Log<Run>, calls: seq<seq<string>>, c: nat)
    requires RunsRight(runs, calls) && FirstAfter(runs, c).Some?
    ensures
      var r := FirstAfter(runs, c).value;
      c < r.upto <= |calls| && r.ids == calls[r.upto - 1]
  {
    if c < Served(runs.past) { RunHasLastIds(runs.past, calls, c); }
  }

  /**
   A queued caller is settled exactly when the first run that started after it queued
   has ended, with that run's outcome; and that run used the last ids asked for before
   it started.
   */
  lemma QueuedCallerOutcome(user: bool, s0: State, run: Log<Event>, c: nat)
    requires AtBoot(s0) && c < |Reach(user, s0, run).calls| && c !in Reach(user, s0, run).loops
    ensures
      var s := Reach(user, s0, run);
      var served := FirstAfter(s.runs, c);
      && AnswerTo(s, c) == OutcomeOf(served)
      && (served.Some? ==> c < served.value.upto <= |s.calls| && served.value.ids == s.calls[served.value.upto - 1])
  {
    hide FirstAfter, RunsRight, Next;
    InvariantHolds(user, s0, run);
    var s := Reach(user, s0, run);
    assert SettledAt(s, c);
    if FirstAfter(s.runs, c).Some? { RunHasLastIds(s.runs, s.calls, c); }
  }

  // ---- a run in which a queued caller is not told the final result ----

  /** The run in flight of call 0 asks no user, reinstalls, and the loop goes on. */
  function Ran(run: Log<Event>, ok: bool): Log<Event> {
    Then(Then(Then(run, Awaited(0, true)), Awaited(0, ok)), Continued(0))
  }

  lemma RanStep(s0: State, run: Log<Event>, ok: bool)
    requires
      var s := Reach(false, s0, run);
      0 in s.loops && s.loops[0].Running? && s.loops[0].stage.AskingUser? && s.runs.Then?
    ensures
      var s := Reach(false, s0, run);
      var loop := s.loops[0].(stage := Returned(if ok then Success else Failure));
      Reach(false, s0, Ran(run, ok)) ==
        LoopStep(s.(loops := s.loops[0 := loop], installed := if ok then [] else s.installed), 0)
  {
    hide Reach, LoopStep, Normalize;
    var s := Reach(false, s0, run);
    ReachStep(false, s0, run, Awaited(0, true));
    var s1 := Next(false, s, Awaited(0, true));
    ReachStep(false, s0, Then(run, Awaited(0, true)), Awaited(0, ok));
    var loop := s.loops[0].(stage := Returned(if ok then Success else Failure));
    var s2 := s.(loops := s.loops[0 := loop], installed := if ok then [] else s.installed);
    assert s1.loops[0 := loop] == s2.loops;
    assert Next(false, s1, Awaited(0, ok)) == s2;
    ReachStep(false, s0, Then(Then(run, Awaited(0, true)), Awaited(0, ok)), Continued(0));
  }

  /** Two calls; the first run succeeds and the second one starts for call 1; call 2 queues. */
  function Queued(a: seq<string>, b: seq<string>, c: seq<string>): Log<Event> {
    Then(Ran(Then(Then(Start, Called(a)), Called(b)), true), Called(c))
  }

  lemma BothCalled(s0: State, a: seq<string>, b: seq<string>)
    requires AtBoot(s0)
    ensures
      var s := Reach(false, s0, Then(Then(Start, Called(a)), Called(b)));
      && s.loops == map[0 := Running(a, [], AskingUser)] && s.inflight == Some(0) && s.calls == [a, b]
      && s.queuedDesired == Some(b) && s.queuedResolvers == [1] && s.runs.Then?
  {
    ReachStep(false, s0, Start, Called(a));
    ReachStep(false, s0, Then(Start, Called(a)), Called(b));
  }

  lemma QueuedState(s0: State, a: seq<string>, b: seq<string>, c: seq<string>)
    requires AtBoot(s0)
    ensures
      var s := Reach(false, s0, Queued(a, b, c));
      && s.loops == map[0 := Running(b, [1], AskingUser)] && s.inflight == Some(0)
      && s.queuedDesired == Some(c) && s.queuedResolvers == [2] && s.calls == [a, b, c]
      && s.runs.Then? && s.runs.last == Run(b, 2, 0, None)
  {
    hide Normalize, Reach, Ran, SettleAll;
    BothCalled(s0, a, b);
    var both := Then(Then(Start, Called(a)), Called(b));
    RanStep(s0, both, true);
    ReachStep(false, s0, Ran(both, true), Called(c));
  }

  /**
   Call 1 is told Success when its run ends.  The loop goes on for call 2, and its last
   run fails: that is the final result, and only callers 0 and 2 are told so.
   */
  lemma QueuedCallerMissesFinalResult(s0: State, a: seq<string>, b: seq<string>, c: seq<string>)
    requires AtBoot(s0)
    ensures
      var s := Reach(false, s0, Ran(Ran(Queued(a, b, c), true), false));
      && s.inflight.None? && OutcomeOf(LastOf(s.runs, 0)) == Some(Failure)
      && AnswerTo(s, 0) == Some(Failure) && AnswerTo(s, 1) == Some(Success) && AnswerTo(s, 2) == Some(Failure)
  {
    hide Normalize, Reach, Ran, Queued;
    var run := Queued(a, b, c);
    QueuedState(s0, a, b, c);
    RanStep(s0, run, true);
    RanStep(s0, Ran(run, true), false);
  }

  /** The caller that started a loop gets the outcome of the loop's last run, when the loop is over. */
  lemma FirstCallerOutcome(user: bool, s0: State, run: Log<Event>, c: nat)
    requires AtBoot(s0) && c in Reach(user, s0, run).loops
    ensures
      var s := Reach(user, s0, run);
      && (AnswerTo(s, c).Some? <==> s.loops[c].Over?)
      && (s.loops[c].Over? ==> AnswerTo(s, c) == OutcomeOf(LastOf(s.runs, c)))
  {
    InvariantHolds(user, s0, run);
    assert SettledAt(Reach(user, s0, run), c);
  }

  /** A caller is settled once: no later step changes what it was told. */
  lemma SettledOnce(user: bool, s0: State, run: Log<Event>, e: Event, c: nat)
    requires AtBoot(s0) && AnswerTo(Reach(user, s0, run), c).Some?
    ensures AnswerTo(Reach(user, s0, Then(run, e)), c) == AnswerTo(Reach(user, s0, run), c)
  {
    hide FirstAfter, RunsRight, Reach, LastOf;
    ReachStep(user, s0, run, e);
    var s := Reach(user, s0, run);
    InvariantHolds(user, s0, run);
    if e.Continued? && e.head in s.loops && s.loops[e.head].Running? && s.loops[e.head].stage.Returned? {
      var batch := s.loops[e.head].batch;
      InRange(Served(s.runs.past), s.runs.last.upto, c);
      assert SettledAt(s, c);
      if c in batch { NothingBeforeServed(s.runs, s.calls, c); }
    }
  }

  /** A call that the last run is the first to serve. */
  lemma NothingBeforeServed(runs: Log<Run>, calls: seq<seq<string>>, c: nat)
    requires RunsRight(runs, calls) && runs.Then? && Served(runs.past) <= c < runs.last.upto
    ensures FirstAfter(runs, c) == Some(runs.last)
  {
  }

  /** A loop is never forgotten. */
  lemma LoopsStay(user: bool, s: State, e: Event, h: nat)
    requires h in s.loops
    ensures h in Next(user, s, e).loops
  {
    hide Normalize, SettleAll;
  }

  lemma {:induction false} AnswersStay(user: bool, s0: State, run: Log<Event>, longer: Log<Event>, c: nat)
    requires AtBoot(s0) && Extends(longer, run) && AnswerTo(Reach(user, s0, run), c).Some?
    ensures AnswerTo(Reach(user, s0, longer), c) == AnswerTo(Reach(user, s0, run), c)
    ensures c in Reach(user, s0, run).loops ==> c in Reach(user, s0, longer).loops
  {
    hide Reach, Next, AnswerTo;
    if longer != run {
      AnswersStay(user, s0, run, longer.past, c);
      SettledOnce(user, s0, longer.past, longer.last, c);
      ReachStep(user, s0, longer.past, longer.last);
      if c in Reach(user, s0, run).loops { LoopsStay(user, Reach(user, s0, longer.past), longer.last, c); }
    }
  }

  /** The run that serves the last call is the last run. */
  lemma {:induction false} LastCallLastRun(runs: Log<Run>, calls: seq<seq<string>>, c: nat)
    requires RunsRight(runs, calls) && FirstAfter(runs, c).Some? && FirstAfter(runs, c).value.upto == |calls|
    ensures runs.Then? && FirstAfter(runs, c) == Some(runs.last)
  {
    if c < Served(runs.past) { UptoIsServed(runs.past, calls, c); }
  }

  lemma {:induction false} UptoIsServed(runs: Log<Run>, calls: seq<seq<string>>, c: nat)
    requires RunsRight(runs, calls) && FirstAfter(runs, c).Some?
    ensures FirstAfter(runs, c).value.upto <= Served(runs)
  {
    if c < Served(runs.past) { UptoIsServed(runs.past, calls, c); }
  }

  lemma LastRunIsOver(user: bool, s: State, r: Run)
    requires Invariant(user, s) && s.runs.Then? && s.runs.last == r && r.outcome.Some? && s.calls != []
    ensures s.inflight.None?
  {
    hide Normalize, FirstAfter, LastOf, RunsRight, QueueRight, SettledRight;
  }

  /** Every run was started by a loop. */
  predicate HeadsKnown(runs: Log<Run>, loops: map<nat, Loop>) {
    runs.Then? ==> runs.last.head in loops && HeadsKnown(runs.past, loops)
  }

  lemma {:induction false} HeadsStayKnown(runs: Log<Run>, loops: map<nat, Loop>, more: map<nat, Loop>)
    requires HeadsKnown(runs, loops) && loops.Keys <= more.Keys
    ensures HeadsKnown(runs, more)
  {
    if runs.Then? { HeadsStayKnown(runs.past, loops, more); }
  }

  lemma HeadsKnownStep(user: bool, s: State, e: Event)
    requires HeadsKnown(s.runs, s.loops)
    ensures HeadsKnown(Next(user, s, e).runs, Next(user, s, e).loops)
  {
    hide Normalize, SettleAll;
    var t := Next(user, s, e);
    assert s.loops.Keys <= t.loops.Keys;
    HeadsStayKnown(s.runs, s.loops, t.loops);
    if s.runs.Then? { HeadsStayKnown(s.runs.past, s.loops, t.loops); }
  }

  lemma {:induction false} HeadsAreLoops(user: bool, s0: State, run: Log<Event>)
    requires AtBoot(s0)
    ensures HeadsKnown(Reach(user, s0, run).runs, Reach(user, s0, run).loops)
  {
    if run.Then? {
      HeadsAreLoops(user, s0, run.past);
      HeadsKnownStep(user, Reach(user, s0, run.past), run.last);
    }
  }

  /** The loop of the last run is known, and the loop's last run is that one. */
  lemma LastRunsLoop(user: bool, s: State)
    requires Invariant(user, s) && s.runs.Then? && s.runs.last.head in s.loops
    ensures LastOf(s.runs, s.runs.last.head) == Some(s.runs.last)
  {
  }

  /**
   The promise that a queued caller is told the final result is kept when no call arrives
   while the run that serves it is under way: that run is then the loop's last, and what
   the caller is told is what the first caller is told, then and ever after.
   */
  lemma QueuedCallerGetsFinalResult(user: bool, s0: State, run: Log<Event>, longer: Log<Event>, c: nat)
    requires AtBoot(s0) && c < |Reach(user, s0, run).calls| && c !in Reach(user, s0, run).loops
    requires
      var s := Reach(user, s0, run);
      var served := FirstAfter(s.runs, c);
      served.Some? && served.value.upto == |s.calls| && served.value.outcome.Some?
    requires Extends(longer, run)
    ensures
      var head, t := FirstAfter(Reach(user, s0, run).runs, c).value.head, Reach(user, s0, longer);
      && AnswerTo(t, c).Some? && head in t.loops && t.loops[head].Over?
      && AnswerTo(t, c) == AnswerTo(t, head) == OutcomeOf(LastOf(t.runs, head))
  {
    hide Reach, FirstAfter, LastOf, RunsRight, SettledAt, QueueRight, IdleRight;
    var s := Reach(user, s0, run);
    InvariantHolds(user, s0, run);
    QueuedCallerOutcome(user, s0, run, c);
    LastCallLastRun(s.runs, s.calls, c);
    var r := s.runs.last;
    LastRunIsOver(user, s, r);
    HeadsAreLoops(user, s0, run);
    FirstCallerOutcome(user, s0, run, r.head);
    LastRunsLoop(user, s);
    AnswersStay(user, s0, run, longer, c);
    AnswersStay(user, s0, run, longer, r.head);
    FirstCallerOutcome(user, s0, longer, r.head);
  }

  /**
   At idle every caller has been told; and when the last run succeeded, storage and
   engine hold the ids of the most recent call, sorted and without repeats.
   */
  lemma IdleIsSettled(user: bool, s0: State, run: Log<Event>)
    requires AtBoot(s0) && Reach(user, s0, run).inflight.None? && Reach(user, s0, run).calls != []
    ensures
      var s := Reach(user, s0, run);
      && (forall c: nat :: c < |s.calls| ==> AnswerTo(s, c).Some?)
      && s.runs.Then? && s.runs.last.upto == |s.calls|
      && (s.runs.last.outcome == Some(Success) ==> AllAre(user, s, s.calls[|s.calls| - 1]))
  {
    InvariantHolds(user, s0, run);
    var s := Reach(user, s0, run);
    forall c: nat | c < |s.calls| ensures AnswerTo(s, c).Some? {
      assert SettledAt(s, c);
      if c !in s.loops { AllRunsEnded(s.runs, s.calls, c); }
    }
  }

  lemma {:induction false} AllRunsEnded(runs: Log<Run>, calls: seq<seq<string>>, c: nat)
    requires RunsRight(runs, calls) && c < Served(runs) && runs.last.outcome.Some?
    ensures OutcomeOf(FirstAfter(runs, c)).Some?
  {
    if c < Served(runs.past) { AllRunsEnded(runs.past, calls, c); }
  }

  /** The applied set changes only to what the engine has just been made to run. */
  lemma AppliedFollowsEngine(user: bool, s0: State, run: Log<Event>, e: Event)
    requires AtBoot(s0)
    requires Reach(user, s0, Then(run, e)).applied != Reach(user, s0, run).applied
    ensures Reach(user, s0, Then(run, e)).applied == Reach(user, s0, run).installed
  {
    hide FirstAfter, RunsRight, Reach, LastOf, Normalize;
    ReachStep(user, s0, run, e);
    InvariantHolds(user, s0, run);
  }
}
