/**
 The verdict over a transaction's decoded actions: each body is evaluated, a multicall
 also through its children, and the verdicts are aggregated by deny-overrides.  The
 evaluation of one body is a parameter; it may throw.
 */
module VerdictTrees {
  import opened Options
  import opened Jsons

  type Matched = seq<string>

  datatype Verdict = Pass | Warn(matched: Matched) | Fail(matched: Matched)

  /** What an evaluation may throw. */
  datatype Fault = EngineError(kind: string) | OtherError

  type Verdicts = Result<seq<Verdict>, Fault>

  /** Which real action is walked, and which of its bodies is visited, counted in the order of the visits. */
  datatype Visit = Visit(leg: nat, number: nat)

  /**
   Planning, dispatch and evaluation of one body.  They depend on the action the body is
   part of, on its `meta`, and on what the network answers at that moment: two equal
   bodies may well end differently.
   */
  type Eval = (Visit, Json) -> Result<Verdict, Fault>

  function PartialDecodeVerdict(): Verdict { Warn(["__engine::partial_decode"]) }

  // ---- bodies ----

  /** `body.domain`, when the body is an object. */
  function Domain(body: Json): Json { if body.Obj? then Get(body.members, "domain") else Undefined }

  predicate Unknown(body: Json) { Domain(body) == Str("unknown") }

  /** The inner bodies of a multicall. */
  function Children(body: Json): List<Json> {
    if Domain(body) == Str("multicall") && Get(body.members, "actions").Arr? then
      Get(body.members, "actions").items
    else Nil
  }

  lemma ChildrenAreSmaller(body: Json)
    ensures SizeItems(Children(body)) <= Size(body)
  {
    if body.Obj? { GetIsSmaller(body.members, "actions"); }
  }

  /** Every body that is visited, in order: parents first. */
  function Visited(body: Json): seq<Json>
    decreases Size(body), 1
  {
    ChildrenAreSmaller(body);
    [body] + VisitedIn(Children(body))
  }

  function VisitedIn(bodies: List<Json>): seq<Json>
    decreases SizeItems(bodies), 0
  {
    if bodies.Nil? then [] else Visited(bodies.head) + VisitedIn(bodies.tail)
  }

  // ---- the tree ----

  /** What a body alone contributes: nothing without a domain, a warning when unknown. */
  function Own(eval: Eval, at: Visit, body: Json): Verdicts {
    if Domain(body).Undefined? then Ok([])
    else if Unknown(body) then Ok([PartialDecodeVerdict()])
    else
      match eval(at, body)
      case Ok(v) => Ok([v])
      case Err(f) => Err(f)
  }

  /** One after the other; the first throw ends it. */
  function AndThen(a: Verdicts, b: Verdicts): Verdicts {
    if a.Err? then a else if b.Err? then b else Ok(a.value + b.value)
  }

  function Later(at: Visit, n: nat): Visit { at.(number := at.number + n) }

  /** `at` is the visit of `body` itself. */
  function Tree(eval: Eval, at: Visit, body: Json): Verdicts
    decreases Size(body), 1
  {
    ChildrenAreSmaller(body);
    AndThen(Own(eval, at, body), Forest(eval, Later(at, 1), Children(body)))
  }

  function Forest(eval: Eval, at: Visit, bodies: List<Json>): Verdicts
    decreases SizeItems(bodies), 0
  {
    if bodies.Nil? then Ok([])
    else AndThen(Tree(eval, at, bodies.head), Forest(eval, Later(at, |Visited(bodies.head)|), bodies.tail))
  }

  /** `evaluateBodyTree` */
  method EvaluateBodyTree(eval: Eval, at: Visit, body: Json) returns (r: Verdicts)
    ensures r == Tree(eval, at, body)
    decreases Size(body), 1
  {
    var verdicts: seq<Verdict> := [];
    var domain := Domain(body);
    if !domain.Undefined? && domain != Str("unknown") {
      var verdict := eval(at, body);
      if verdict.Err? { return Err(verdict.error); }
      verdicts := verdicts + [verdict.value];
      assert verdicts == [verdict.value];
    } else if domain == Str("unknown") {
      verdicts := verdicts + [PartialDecodeVerdict()];
      assert verdicts == [PartialDecodeVerdict()];
    }
    assert Own(eval, at, body) == Ok(verdicts);
    ChildrenAreSmaller(body);
    var rest, next := Children(body), Later(at, 1);
    while rest.Cons?
      invariant SizeItems(rest) <= Size(body)
      invariant AndThen(Ok(verdicts), Forest(eval, next, rest)) == Tree(eval, at, body)
      decreases rest
    {
      var r0 := EvaluateBodyTree(eval, next, rest.head);
      if r0.Err? { return r0; }
      AndThenAssociates(Ok(verdicts), r0, Forest(eval, Later(next, |Visited(rest.head)|), rest.tail));
      verdicts := verdicts + r0.value;
      next := Later(next, |Visited(rest.head)|);
      rest := rest.tail;
    }
    assert verdicts + [] == verdicts;
    return Ok(verdicts);
  }

  lemma AndThenAssociates(a: Verdicts, b: Verdicts, c: Verdicts)
    ensures AndThen(AndThen(a, b), c) == AndThen(a, AndThen(b, c))
  {
    if a.Ok? && b.Ok? && c.Ok? { assert a.value + b.value + c.value == a.value + (b.value + c.value); }
  }

  // ---- the same, said without the tree ----

  /** `at` is the visit of the first of `bodies`. */
  function OwnOfAll(eval: Eval, at: Visit, bodies: seq<Json>): Verdicts
    decreases |bodies|
  {
    if bodies == [] then Ok([]) else AndThen(Own(eval, at, bodies[0]), OwnOfAll(eval, Later(at, 1), bodies[1..]))
  }

  lemma {:induction false} OwnOfConcat(eval: Eval, at: Visit, a: seq<Json>, b: seq<Json>)
    ensures OwnOfAll(eval, at, a + b) == AndThen(OwnOfAll(eval, at, a), OwnOfAll(eval, Later(at, |a|), b))
    decreases |a|
  {
    if a == [] {
      assert a + b == b;
      var r := OwnOfAll(eval, at, b);
      if r.Ok? { assert [] + r.value == r.value; }
    } else {
      hide Own;
      OwnOfConcat(eval, Later(at, 1), a[1..], b);
      assert (a + b)[1..] == a[1..] + b;
      assert Later(Later(at, 1), |a[1..]|) == Later(at, |a|);
      AndThenAssociates(Own(eval, at, a[0]), OwnOfAll(eval, Later(at, 1), a[1..]), OwnOfAll(eval, Later(at, |a|), b));
    }
  }

  /** The tree evaluates its bodies one after the other, parents first. */
  lemma {:induction false} TreeIsFlat(eval: Eval, at: Visit, body: Json)
    ensures Tree(eval, at, body) == OwnOfAll(eval, at, Visited(body))
    decreases Size(body), 1
  {
    ChildrenAreSmaller(body);
    ForestIsFlat(eval, Later(at, 1), Children(body));
    var rest := VisitedIn(Children(body));
    assert ([body] + rest)[1..] == rest;
  }

  lemma {:induction false} ForestIsFlat(eval: Eval, at: Visit, bodies: List<Json>)
    ensures Forest(eval, at, bodies) == OwnOfAll(eval, at, VisitedIn(bodies))
    decreases SizeItems(bodies), 0
  {
    if bodies.Cons? {
      TreeIsFlat(eval, at, bodies.head);
      ForestIsFlat(eval, Later(at, |Visited(bodies.head)|), bodies.tail);
      OwnOfConcat(eval, at, Visited(bodies.head), VisitedIn(bodies.tail));
    }
  }

  /** When nothing throws, each visited body contributes what it would alone. */
  lemma {:induction false} OwnIsIncluded(eval: Eval, at: Visit, bodies: seq<Json>, i: nat)
    requires OwnOfAll(eval, at, bodies).Ok? && i < |bodies|
    ensures Own(eval, Later(at, i), bodies[i]).Ok?
    ensures forall v :: v in Own(eval, Later(at, i), bodies[i]).value ==> v in OwnOfAll(eval, at, bodies).value
    decreases i
  {
    hide Own;
    assert Later(at, 0) == at;
    if i > 0 {
      OwnIsIncluded(eval, Later(at, 1), bodies[1..], i - 1);
      assert Later(Later(at, 1), i - 1) == Later(at, i);
    }
  }

  /** And nothing else is contributed. */
  lemma {:induction false} OwnIsAll(eval: Eval, at: Visit, bodies: seq<Json>, v: Verdict) returns (i: nat)
    requires OwnOfAll(eval, at, bodies).Ok? && v in OwnOfAll(eval, at, bodies).value
    ensures i < |bodies| && Own(eval, Later(at, i), bodies[i]).Ok? && v in Own(eval, Later(at, i), bodies[i]).value
    decreases |bodies|
  {
    hide Own;
    assert Later(at, 0) == at;
    if v in Own(eval, at, bodies[0]).value {
      i := 0;
    } else {
      i := OwnIsAll(eval, Later(at, 1), bodies[1..], v);
      assert Later(Later(at, 1), i) == Later(at, i + 1);
      i := i + 1;
    }
  }

  // ---- aggregation ----

  predicate AnyFail(vs: seq<Verdict>) { exists i :: 0 <= i < |vs| && vs[i].Fail? }

  predicate AnyWarn(vs: seq<Verdict>) { exists i :: 0 <= i < |vs| && vs[i].Warn? }

  /** Every `matched` list, in order. */
  function AllMatched(vs: seq<Verdict>): Matched {
    if vs == [] then [] else AllMatched(vs[..|vs| - 1]) + if vs[|vs| - 1].Pass? then [] else vs[|vs| - 1].matched
  }

  /** Deny-overrides. */
  function Aggregate(vs: seq<Verdict>): Verdict {
    if AnyFail(vs) then Fail(AllMatched(vs)) else if AnyWarn(vs) then Warn(AllMatched(vs)) else Pass
  }

  method AggregateV2Verdicts(verdicts: seq<Verdict>) returns (r: Verdict)
    ensures r == Aggregate(verdicts)
  {
    var matched: Matched := [];
    var anyFail, anyWarn := false, false;
    var i := 0;
    while i < |verdicts|
      invariant 0 <= i <= |verdicts|
      invariant anyFail == AnyFail(verdicts[..i]) && anyWarn == AnyWarn(verdicts[..i])
      invariant matched == AllMatched(verdicts[..i])
    {
      var v := verdicts[i];
      assert verdicts[..i + 1] == verdicts[..i] + [v];
      AnyOfConcat(verdicts[..i], [v]);
      if v.Fail? {
        anyFail := true;
        matched := matched + v.matched;
      } else if v.Warn? {
        anyWarn := true;
        matched := matched + v.matched;
      }
      i := i + 1;
    }
    assert verdicts[..i] == verdicts;
    if anyFail { return Fail(matched); }
    if anyWarn { return Warn(matched); }
    return Pass;
  }

  lemma AnyOfConcat(a: seq<Verdict>, b: seq<Verdict>)
    ensures AnyFail(a + b) <==> AnyFail(a) || AnyFail(b)
    ensures AnyWarn(a + b) <==> AnyWarn(a) || AnyWarn(b)
  {
    var c := a + b;
    forall i | 0 <= i < |a| ensures c[i] == a[i] {}
    forall i | 0 <= i < |b| ensures c[|a| + i] == b[i] {}
    if AnyFail(b) && !AnyFail(a) { var i :| 0 <= i < |b| && b[i].Fail?; assert c[|a| + i].Fail?; }
    if AnyWarn(b) && !AnyWarn(a) { var i :| 0 <= i < |b| && b[i].Warn?; assert c[|a| + i].Warn?; }
  }

  lemma MatchedOfOneMore(vs: seq<Verdict>, v: Verdict)
    ensures AllMatched(vs + [v]) == AllMatched(vs) + if v.Pass? then [] else v.matched
  {
    assert (vs + [v])[..|vs|] == vs;
  }

  lemma {:induction false} MatchedOfConcat(a: seq<Verdict>, b: seq<Verdict>)
    ensures AllMatched(a + b) == AllMatched(a) + AllMatched(b)
  {
    if b == [] {
      assert a + b == a;
    } else {
      hide AllMatched;
      var init, v := b[..|b| - 1], b[|b| - 1];
      var last := if v.Pass? then [] else v.matched;
      assert b == init + [v];
      assert AllMatched(b) == AllMatched(init) + last by { MatchedOfOneMore(init, v); }
      assert AllMatched(a + b) == AllMatched(a + init) + last by {
        Reassociate(a, init, [v]);
        MatchedOfOneMore(a + init, v);
      }
      MatchedOfConcat(a, init);
      Reassociate(AllMatched(a), AllMatched(init), last);
    }
  }

  lemma Reassociate<T>(a: seq<T>, b: seq<T>, c: seq<T>)
    ensures a + (b + c) == (a + b) + c
  {}

  lemma {:induction false} PassMatchesNothing(vs: seq<Verdict>)
    requires !AnyFail(vs) && !AnyWarn(vs)
    ensures AllMatched(vs) == []
  {
    if vs != [] {
      var n := |vs| - 1;
      assert vs[n].Pass?;
      assert forall i :: 0 <= i < n ==> vs[..n][i] == vs[i];
      PassMatchesNothing(vs[..n]);
    }
  }

  /** A part's aggregate stands for the part: same kind, same matches. */
  lemma AggregateOfOne(vs: seq<Verdict>)
    ensures AnyFail([Aggregate(vs)]) == AnyFail(vs)
    ensures AllMatched([Aggregate(vs)]) == AllMatched(vs)
    ensures !AnyFail(vs) ==> AnyWarn([Aggregate(vs)]) == AnyWarn(vs)
  {
    var v := Aggregate(vs);
    assert [v][0] == v && [v][..0] == [];
    if v.Pass? { PassMatchesNothing(vs); }
  }

  function Flatten(parts: seq<seq<Verdict>>): seq<Verdict> {
    if parts == [] then [] else Flatten(parts[..|parts| - 1]) + parts[|parts| - 1]
  }

  function AggregateEach(parts: seq<seq<Verdict>>): seq<Verdict> {
    if parts == [] then [] else AggregateEach(parts[..|parts| - 1]) + [Aggregate(parts[|parts| - 1])]
  }

  lemma {:induction false} PartsStandForWhole(parts: seq<seq<Verdict>>)
    ensures AnyFail(AggregateEach(parts)) == AnyFail(Flatten(parts))
    ensures AllMatched(AggregateEach(parts)) == AllMatched(Flatten(parts))
    ensures !AnyFail(Flatten(parts)) ==> AnyWarn(AggregateEach(parts)) == AnyWarn(Flatten(parts))
  {
    if parts != [] {
      var init, last := parts[..|parts| - 1], parts[|parts| - 1];
      PartsStandForWhole(init);
      AggregateOfOne(last);
      AnyOfConcat(Flatten(init), last);
      AnyOfConcat(AggregateEach(init), [Aggregate(last)]);
      MatchedOfConcat(Flatten(init), last);
      MatchedOfConcat(AggregateEach(init), [Aggregate(last)]);
    }
  }

  /** Aggregating all verdicts, or each part's aggregate, is the same, matches included. */
  lemma AggregateOfParts(parts: seq<seq<Verdict>>)
    ensures Aggregate(Flatten(parts)) == Aggregate(AggregateEach(parts))
  {
    PartsStandForWhole(parts);
  }

  // ---- the whole path ----

  datatype PathResult = Decided(verdict: Verdict) | Faulted(fault: Fault) | Nothing

  /** Top-level actions that reach evaluation: objects whose domain is not `unknown`. */
  predicate Real(body: Json) { (body.Obj? || body.Arr?) && !Unknown(body) }

  function RealActions(bodies: seq<Json>): seq<Json> {
    if bodies == [] then []
    else RealActions(bodies[..|bodies| - 1]) + if Real(bodies[|bodies| - 1]) then [bodies[|bodies| - 1]] else []
  }

  lemma {:induction false} RealActionsAreReal(bodies: seq<Json>)
    ensures forall b :: b in RealActions(bodies) <==> b in bodies && Real(b)
  {
    if bodies != [] {
      var n := |bodies| - 1;
      RealActionsAreReal(bodies[..n]);
      assert bodies == bodies[..n] + [bodies[n]];
    }
  }

  /** What one leg adds: its verdicts if it completes. */
  function LegVerdicts(eval: Eval, k: nat, leg: Json): seq<Verdict> {
    match Tree(eval, Visit(k, 0), leg)
    case Ok(vs) => vs
    case Err(_) => []
  }

  /** Verdicts of those of the first `n` legs that completed. */
  function Completed(eval: Eval, legs: seq<Json>, n: nat): seq<Verdict>
    requires n <= |legs|
  {
    if n == 0 then [] else Completed(eval, legs, n - 1) + LegVerdicts(eval, n - 1, legs[n - 1])
  }

  predicate Threw(eval: Eval, k: nat, leg: Json) { Tree(eval, Visit(k, 0), leg).Err? }

  predicate AnyThrew(eval: Eval, legs: seq<Json>) { exists i :: 0 <= i < |legs| && Threw(eval, i, legs[i]) }

  function EngineErrorOf(eval: Eval, k: nat, leg: Json): Option<Fault> {
    match Tree(eval, Visit(k, 0), leg)
    case Err(f) => if f.EngineError? then Some(f) else None
    case Ok(_) => None
  }

  /** The first engine error thrown by one of the first `n` legs. */
  function FirstEngineError(eval: Eval, legs: seq<Json>, n: nat): Option<Fault>
    requires n <= |legs|
  {
    if n == 0 then None
    else if FirstEngineError(eval, legs, n - 1).Some? then FirstEngineError(eval, legs, n - 1)
    else EngineErrorOf(eval, n - 1, legs[n - 1])
  }

  /** Deny-overrides with a fault floor. */
  function Path(eval: Eval, bodies: seq<Json>, anyPolicies: bool): PathResult {
    var legs := RealActions(bodies);
    if legs == [] || !anyPolicies then Nothing
    else
      var aggregate := Aggregate(Completed(eval, legs, |legs|));
      if aggregate.Fail? then Decided(aggregate)
      else if AnyThrew(eval, legs) then
        match FirstEngineError(eval, legs, |legs|)
        case Some(f) => Faulted(f)
        case None => Nothing
      else Decided(aggregate)
  }

  /** `tryV2VerdictPath`, for a transaction; `anyPolicies` says whether the wallet resolves to any. */
  method TryV2VerdictPath(eval: Eval, bodies: seq<Json>, anyPolicies: bool) returns (r: PathResult)
    ensures r == Path(eval, bodies, anyPolicies)
  {
    hide Tree, RealActions, Aggregate;
    var realActions := RealActions(bodies);
    if |realActions| == 0 || !anyPolicies { return Nothing; }
    var verdicts: seq<Verdict> := [];
    var anyLegThrew := false;
    var firstEngineError: Option<Fault> := None;
    var i := 0;
    while i < |realActions|
      invariant 0 <= i <= |realActions|
      invariant verdicts == Completed(eval, realActions, i)
      invariant anyLegThrew == exists j :: 0 <= j < i && Threw(eval, j, realActions[j])
      invariant firstEngineError == FirstEngineError(eval, realActions, i)
    {
      var action := realActions[i];
      var leg := EvaluateBodyTree(eval, Visit(i, 0), action);
      match leg {
        case Ok(vs) => verdicts := verdicts + vs;
        case Err(f) =>
          anyLegThrew := true;
          assert Threw(eval, i, realActions[i]);
          if firstEngineError.None? && f.EngineError? { firstEngineError := Some(f); }
      }
      i := i + 1;
    }
    var aggregate := AggregateV2Verdicts(verdicts);
    if aggregate.Fail? { return Decided(aggregate); }
    if anyLegThrew {
      if firstEngineError.Some? { return Faulted(firstEngineError.value); }
      return Nothing;
    }
    return Decided(aggregate);
  }

  /** The tail of the decision: without a verdict, a warning that must be approved. */
  function FinalVerdict(r: PathResult): Verdict {
    match r
    case Decided(v) => v
    case Faulted(EngineError(kind)) => Warn(["__engine::" + kind])
    case _ => Warn(["__engine::no_decoder"])
  }

  // ---- what it guarantees ----

  /** A body that lets its leg pass: evaluated to pass, or without any domain. */
  predicate Passes(eval: Eval, at: Visit, body: Json) {
    Domain(body).Undefined? || (!Unknown(body) && eval(at, body) == Ok(Pass))
  }

  lemma {:induction false} LegInCompleted(eval: Eval, legs: seq<Json>, n: nat, i: nat, v: Verdict)
    requires i < n <= |legs| && v in LegVerdicts(eval, i, legs[i])
    ensures v in Completed(eval, legs, n)
  {
    hide LegVerdicts;
    if i < n - 1 { LegInCompleted(eval, legs, n - 1, i, v); }
  }

  lemma {:induction false} CompletedFromLeg(eval: Eval, legs: seq<Json>, n: nat, v: Verdict) returns (i: nat)
    requires n <= |legs| && v in Completed(eval, legs, n)
    ensures i < n && v in LegVerdicts(eval, i, legs[i])
  {
    hide LegVerdicts;
    if v in Completed(eval, legs, n - 1) { i := CompletedFromLeg(eval, legs, n - 1, v); } else { i := n - 1; }
  }

  /**
   A deny anywhere in a leg that completes denies the transaction, even when another
   leg threw.
   */
  lemma DenyOverrides(eval: Eval, bodies: seq<Json>, k: nat, i: nat)
    requires
      var legs := RealActions(bodies);
      && k < |legs| && !Threw(eval, k, legs[k]) && i < |Visited(legs[k])|
      && var body := Visited(legs[k])[i];
      && !Domain(body).Undefined? && !Unknown(body)
      && eval(Visit(k, i), body).Ok? && eval(Visit(k, i), body).value.Fail?
    ensures FinalVerdict(Path(eval, bodies, true)).Fail?
  {
    hide RealActions, Visited, OwnOfAll, Tree;
    var legs := RealActions(bodies);
    var leg := legs[k];
    TreeIsFlat(eval, Visit(k, 0), leg);
    OwnIsIncluded(eval, Visit(k, 0), Visited(leg), i);
    var v := eval(Visit(k, i), Visited(leg)[i]).value;
    assert v in Own(eval, Visit(k, i), Visited(leg)[i]).value;
    LegInCompleted(eval, legs, |legs|, k, v);
  }

  /** The policies deny this body. */
  predicate DeniedAt(eval: Eval, at: Visit, body: Json) {
    !Domain(body).Undefined? && !Unknown(body) && eval(at, body).Ok? && eval(at, body).value.Fail?
  }

  /** A leg that completes and has a body that is denied. */
  predicate Denied(eval: Eval, k: nat, leg: Json) {
    !Threw(eval, k, leg) &&
    exists i :: 0 <= i < |Visited(leg)| && DeniedAt(eval, Later(Visit(k, 0), i), Visited(leg)[i])
  }

  lemma OwnFails(eval: Eval, at: Visit, body: Json)
    ensures DeniedAt(eval, at, body) <==>
              Own(eval, at, body).Ok? && exists v :: v in Own(eval, at, body).value && v.Fail?
  {
    var own := Own(eval, at, body);
    if own.Ok? && own.value != [] { assert own.value == [own.value[0]] && own.value[0] in own.value; }
  }

  lemma DeniedExactly(eval: Eval, k: nat, leg: Json)
    ensures Denied(eval, k, leg) <==> exists v :: v in LegVerdicts(eval, k, leg) && v.Fail?
  {
    hide Tree, Visited, OwnOfAll, Own, DeniedAt;
    var at := Visit(k, 0);
    TreeIsFlat(eval, at, leg);
    if Denied(eval, k, leg) {
      var i: nat :| i < |Visited(leg)| && DeniedAt(eval, Later(at, i), Visited(leg)[i]);
      OwnFails(eval, Later(at, i), Visited(leg)[i]);
      OwnIsIncluded(eval, at, Visited(leg), i);
    }
    if v :| v in LegVerdicts(eval, k, leg) && v.Fail? {
      var i := OwnIsAll(eval, at, Visited(leg), v);
      OwnFails(eval, Later(at, i), Visited(leg)[i]);
    }
  }

  predicate AnyDenied(eval: Eval, legs: seq<Json>) { exists k :: 0 <= k < |legs| && Denied(eval, k, legs[k]) }

  lemma AnyDeniedExactly(eval: Eval, legs: seq<Json>)
    ensures AnyDenied(eval, legs) <==> AnyFail(Completed(eval, legs, |legs|))
  {
    hide Completed, LegVerdicts, Denied;
    var vs := Completed(eval, legs, |legs|);
    if AnyDenied(eval, legs) {
      var k: nat :| k < |legs| && Denied(eval, k, legs[k]);
      DeniedExactly(eval, k, legs[k]);
      var v :| v in LegVerdicts(eval, k, legs[k]) && v.Fail?;
      LegInCompleted(eval, legs, |legs|, k, v);
      assert v in vs;
    }
    if AnyFail(vs) {
      var i :| 0 <= i < |vs| && vs[i].Fail?;
      var k := CompletedFromLeg(eval, legs, |legs|, vs[i]);
      DeniedExactly(eval, k, legs[k]);
    }
  }

  /**
   The exact condition for a deny: a leg that completes has a body that is denied.  A
   deny in a leg that then throws is lost, and only the fault is left of that leg.
   */
  lemma FailExactly(eval: Eval, bodies: seq<Json>, anyPolicies: bool)
    ensures FinalVerdict(Path(eval, bodies, anyPolicies)).Fail? <==> anyPolicies && AnyDenied(eval, RealActions(bodies))
  {
    hide Completed, AnyDenied, RealActions, AnyThrew, AllMatched;
    AnyDeniedExactly(eval, RealActions(bodies));
    if RealActions(bodies) == [] { NoLegNoDeny(eval); }
  }

  lemma NoLegNoDeny(eval: Eval)
    ensures !AnyDenied(eval, [])
  {
  }

  // ---- which bodies are visited, and when ----

  /** How many bodies are visited before the `k`-th of `items` is reached. */
  function VisitsBefore(items: List<Json>, k: nat): nat
    requires k <= Length(items)
  {
    if k == 0 then 0 else |Visited(items.head)| + VisitsBefore(items.tail, k - 1)
  }

  lemma {:induction false} VisitsInOrder(items: List<Json>, k: nat, j: nat)
    requires k < Length(items) && j < |Visited(Nth(items, k))|
    ensures VisitsBefore(items, k) + j < |VisitedIn(items)|
    ensures VisitedIn(items)[VisitsBefore(items, k) + j] == Visited(Nth(items, k))[j]
  {
    hide Visited;
    if k > 0 { VisitsInOrder(items.tail, k - 1, j); }
  }

  lemma {:induction false} VisitsInAll(items: List<Json>)
    ensures |VisitedIn(items)| == VisitsBefore(items, Length(items))
  {
    hide Visited;
    if items.Cons? { VisitsInAll(items.tail); }
  }

  /**
   A multicall is visited first, then every one of its actions in order, each with all
   that is inside it, and nothing more.
   */
  lemma MulticallVisitsEveryAction(body: Json, items: List<Json>, k: nat, j: nat)
    requires body.Obj? && Get(body.members, "domain") == Str("multicall") && Get(body.members, "actions") == Arr(items)
    ensures Visited(body)[0] == body && |Visited(body)| == 1 + VisitsBefore(items, Length(items))
    ensures k < Length(items) && j < |Visited(Nth(items, k))| ==>
              && 1 + VisitsBefore(items, k) + j < |Visited(body)|
              && Visited(body)[1 + VisitsBefore(items, k) + j] == Visited(Nth(items, k))[j]
  {
    assert Children(body) == items;
    assert Visited(body) == [body] + VisitedIn(items);
    hide Visited, VisitedIn;
    VisitsInAll(items);
    if k < Length(items) && j < |Visited(Nth(items, k))| { VisitsInOrder(items, k, j); }
  }

  /** Any other body visits only itself. */
  lemma OthersVisitThemselves(body: Json)
    requires
      || !body.Obj? || Get(body.members, "domain") != Str("multicall") || !Get(body.members, "actions").Arr?
    ensures Visited(body) == [body]
  {
    assert Children(body) == Nil;
    assert VisitedIn(Nil) == [];
  }

  /** What reaches evaluation at all, and in which order. */
  lemma {:induction false} RealActionsInOrder(a: seq<Json>, b: seq<Json>)
    ensures RealActions(a + b) == RealActions(a) + RealActions(b)
    decreases |b|
  {
    hide Real;
    if b == [] {
      assert a + b == a;
    } else {
      var n := |b| - 1;
      assert (a + b)[..|a| + n] == a + b[..n];
      RealActionsInOrder(a, b[..n]);
    }
  }

  lemma RealExactly(body: Json)
    ensures RealActions([body]) ==
            match body
            case Obj(ms) => if Get(ms, "domain") == Str("unknown") then [] else [body]
            case Arr(_) => [body]
            case _ => []
  {
    assert [body][..0] == [];
    assert RealActions([]) == [];
  }

  /**
   A deny at any action of a multicall denies the transaction, if the leg completes: the
   action is met right after those before it and all that is inside them.
   */
  lemma InnerDenyDenies(eval: Eval, bodies: seq<Json>, leg: nat, items: List<Json>, k: nat)
    requires leg < |RealActions(bodies)| && k < Length(items)
    requires
      var body, inner := RealActions(bodies)[leg], Nth(items, k);
      && body.Obj? && Get(body.members, "domain") == Str("multicall") && Get(body.members, "actions") == Arr(items)
      && !Threw(eval, leg, body)
      && inner.Obj? && Get(inner.members, "domain") != Undefined && Get(inner.members, "domain") != Str("unknown")
      && var r := eval(Visit(leg, 1 + VisitsBefore(items, k)), inner); r.Ok? && r.value.Fail?
    ensures FinalVerdict(Path(eval, bodies, true)).Fail?
  {
    var inner := Nth(items, k);
    assert Visited(inner) != [] && Visited(inner)[0] == inner;
    hide Visited, RealActions, Path, FinalVerdict, Threw, VisitsBefore;
    MulticallVisitsEveryAction(RealActions(bodies)[leg], items, k, 0);
    DenyOverrides(eval, bodies, leg, 1 + VisitsBefore(items, k));
  }

  // ---- what is said when something threw ----

  lemma {:induction false} FirstFaultExactly(eval: Eval, legs: seq<Json>, n: nat, k: nat)
    requires k < n <= |legs|
    requires EngineErrorOf(eval, k, legs[k]).Some? && forall j :: 0 <= j < k ==> EngineErrorOf(eval, j, legs[j]).None?
    ensures FirstEngineError(eval, legs, n) == EngineErrorOf(eval, k, legs[k])
  {
    hide EngineErrorOf;
    if k < n - 1 { FirstFaultExactly(eval, legs, n - 1, k); } else { NoFaultBefore(eval, legs, k); }
  }

  lemma {:induction false} NoFaultBefore(eval: Eval, legs: seq<Json>, n: nat)
    requires n <= |legs| && forall j :: 0 <= j < n ==> EngineErrorOf(eval, j, legs[j]).None?
    ensures FirstEngineError(eval, legs, n) == None
  {
    hide EngineErrorOf;
    if n > 0 { NoFaultBefore(eval, legs, n - 1); }
  }

  /**
   Where nothing is denied but a leg threw, the user is shown the engine error of the
   first leg that threw one, and otherwise that the request could not be decoded.
   */
  lemma FirstFaultIsShown(eval: Eval, bodies: seq<Json>, k: nat)
    requires !AnyDenied(eval, RealActions(bodies)) && AnyThrew(eval, RealActions(bodies))
    requires k <= |RealActions(bodies)|
    requires forall j :: 0 <= j < k ==> !ThrewEngineError(eval, j, RealActions(bodies)[j])
    ensures k < |RealActions(bodies)| && ThrewEngineError(eval, k, RealActions(bodies)[k]) ==>
              FinalVerdict(Path(eval, bodies, true)) ==
                Warn(["__engine::" + Tree(eval, Visit(k, 0), RealActions(bodies)[k]).error.kind])
    ensures k == |RealActions(bodies)| ==> FinalVerdict(Path(eval, bodies, true)) == Warn(["__engine::no_decoder"])
  {
    hide Completed, RealActions, AnyThrew, AllMatched, Tree, AnyDenied, FirstEngineError;
    var legs := RealActions(bodies);
    assert legs != [] by { ThrewMeansSome(eval, legs); }
    assert !Aggregate(Completed(eval, legs, |legs|)).Fail? by { AnyDeniedExactly(eval, legs); }
    forall j | 0 <= j < k ensures EngineErrorOf(eval, j, legs[j]).None? { assert !ThrewEngineError(eval, j, legs[j]); }
    if k < |legs| && ThrewEngineError(eval, k, legs[k]) { FirstFaultExactly(eval, legs, |legs|, k); }
    if k == |legs| { NoFaultBefore(eval, legs, k); }
  }

  /** The leg threw an error that names its kind. */
  predicate ThrewEngineError(eval: Eval, k: nat, leg: Json) {
    Tree(eval, Visit(k, 0), leg).Err? && Tree(eval, Visit(k, 0), leg).error.EngineError?
  }

  lemma ThrewMeansSome(eval: Eval, legs: seq<Json>)
    requires AnyThrew(eval, legs)
    ensures legs != []
  {
  }

  /** An action inside a multicall that could not be decoded leaves its mark on the verdict. */
  lemma UnknownIsMarked(eval: Eval, at: Visit, body: Json)
    requires body.Obj? && Get(body.members, "domain") == Str("unknown")
    ensures Tree(eval, at, body) == Ok([Warn(["__engine::partial_decode"])])
  {
    assert "unknown"[0] != "multicall"[0];
    assert Children(body) == Nil;
    assert Forest(eval, Later(at, 1), Nil) == Ok([]);
    assert [PartialDecodeVerdict()] + [] == [PartialDecodeVerdict()];
  }

  const ONE_CALL: Json := Obj(Cons(Member("domain", Str("token")), Nil))

  const ONE_CALL_MULTICALL: Json :=
    Obj(Cons(Member("domain", Str("multicall")), Cons(Member("actions", Arr(Cons(ONE_CALL, Nil))), Nil)))

  /** Denies the first body visited and throws at the next. */
  function DenyThenThrow(at: Visit, body: Json): Result<Verdict, Fault> {
    if at.number == 0 then Ok(Fail(["p"])) else Err(OtherError)
  }

  /** So a multicall that is denied, but whose inner call throws, ends as a warning. */
  lemma DenyBeforeThrowIsLost()
    ensures DeniedAt(DenyThenThrow, Visit(0, 0), Visited(ONE_CALL_MULTICALL)[0])
    ensures FinalVerdict(Path(DenyThenThrow, [ONE_CALL_MULTICALL], true)) == Warn(["__engine::no_decoder"])
  {
    OneCallThrows();
    hide Tree, ONE_CALL_MULTICALL, Visited, Path, FinalVerdict, Real, DeniedAt;
    OneThrowingLeg(DenyThenThrow, ONE_CALL_MULTICALL);
  }

  lemma OneThrowingLeg(eval: Eval, body: Json)
    requires Real(body) && Tree(eval, Visit(0, 0), body) == Err(OtherError)
    ensures FinalVerdict(Path(eval, [body], true)) == Warn(["__engine::no_decoder"])
  {
    OnlyReal(body);
    hide Tree, RealActions, Real, Aggregate;
    assert Threw(eval, 0, [body][0]);
    assert Completed(eval, [body], 0) == [];
    assert Completed(eval, [body], 1) == [];
    assert !Aggregate([]).Fail? by { NothingFails(); }
    assert FirstEngineError(eval, [body], 0) == None;
    assert FirstEngineError(eval, [body], 1) == None;
  }

  lemma NothingFails()
    ensures Aggregate([]) == Pass
  {}

  lemma OneCallThrows()
    ensures Tree(DenyThenThrow, Visit(0, 0), ONE_CALL_MULTICALL) == Err(OtherError)
    ensures Visited(ONE_CALL_MULTICALL)[0] == ONE_CALL_MULTICALL
    ensures Real(ONE_CALL_MULTICALL) && DeniedAt(DenyThenThrow, Visit(0, 0), ONE_CALL_MULTICALL)
  {
    var body, inner := ONE_CALL_MULTICALL, Cons(ONE_CALL, Nil);
    assert "domain"[0] != "actions"[0] && "multicall"[0] != "unknown"[0] && "token"[0] != "unknown"[0];
    assert "token"[0] != "multicall"[0];
    assert Domain(body) == Str("multicall") && Get(body.members, "actions") == Arr(inner)
           && Domain(ONE_CALL) == Str("token");
    assert Children(body) == inner && Children(ONE_CALL) == Nil;
    hide Children, Domain, Get;
    assert Tree(DenyThenThrow, Visit(0, 1), ONE_CALL) == Err(OtherError);
    assert Forest(DenyThenThrow, Visit(0, 1), inner) == Err(OtherError);
  }

  /** The first body passes, and so do the others. */
  lemma PassesFromSecond(eval: Eval, at: Visit, bodies: seq<Json>)
    requires bodies != []
    ensures (forall i :: 0 <= i < |bodies| ==> Passes(eval, Later(at, i), bodies[i])) <==>
            && Passes(eval, at, bodies[0])
            && (forall i :: 0 <= i < |bodies[1..]| ==> Passes(eval, Later(Later(at, 1), i), bodies[1..][i]))
  {
    hide Passes;
    assert Later(at, 0) == at;
    assert forall i :: 0 <= i < |bodies[1..]| ==>
             bodies[1..][i] == bodies[i + 1] && Later(Later(at, 1), i) == Later(at, i + 1);
    assert forall i :: 1 <= i < |bodies| ==>
             bodies[i] == bodies[1..][i - 1] && Later(at, i) == Later(Later(at, 1), i - 1);
  }

  lemma {:induction false} AllOwnPass(eval: Eval, at: Visit, bodies: seq<Json>)
    ensures (OwnOfAll(eval, at, bodies).Ok? && forall v :: v in OwnOfAll(eval, at, bodies).value ==> v.Pass?)
            <==> forall i :: 0 <= i < |bodies| ==> Passes(eval, Later(at, i), bodies[i])
    decreases |bodies|
  {
    if bodies != [] {
      AllOwnPass(eval, Later(at, 1), bodies[1..]);
      PassesFromSecond(eval, at, bodies);
      var own, rest := Own(eval, at, bodies[0]), OwnOfAll(eval, Later(at, 1), bodies[1..]);
      OwnPasses(eval, at, bodies[0]);
      hide Own, Passes;
      if own.Ok? && rest.Ok? {
        assert forall v :: v in own.value + rest.value <==> v in own.value || v in rest.value;
      }
    }
  }

  lemma OwnPasses(eval: Eval, at: Visit, body: Json)
    ensures Passes(eval, at, body) <==>
            Own(eval, at, body).Ok? && forall v :: v in Own(eval, at, body).value ==> v.Pass?
  {
    var own := Own(eval, at, body);
    if own.Ok? && own.value != [] { assert own.value == [own.value[0]] && own.value[0] in own.value; }
  }

  /** A leg all of whose visited bodies pass. */
  predicate LegPasses(eval: Eval, k: nat, leg: Json) {
    forall i :: 0 <= i < |Visited(leg)| ==> Passes(eval, Later(Visit(k, 0), i), Visited(leg)[i])
  }

  lemma LegPassesExactly(eval: Eval, k: nat, leg: Json)
    ensures LegPasses(eval, k, leg) <==> !Threw(eval, k, leg) && forall v :: v in LegVerdicts(eval, k, leg) ==> v.Pass?
  {
    hide Tree, Visited, Passes, OwnOfAll;
    TreeIsFlat(eval, Visit(k, 0), leg);
    AllOwnPass(eval, Visit(k, 0), Visited(leg));
  }

  predicate AllLegsPass(eval: Eval, legs: seq<Json>) { forall k :: 0 <= k < |legs| ==> LegPasses(eval, k, legs[k]) }

  lemma LegsPassExactly(eval: Eval, legs: seq<Json>)
    ensures AllLegsPass(eval, legs) <==>
            !AnyThrew(eval, legs) && forall v :: v in Completed(eval, legs, |legs|) ==> v.Pass?
  {
    hide LegPasses, LegVerdicts, Completed, Threw;
    forall k | 0 <= k < |legs| { LegPassesExactly(eval, k, legs[k]); }
    if AllLegsPass(eval, legs) {
      forall v | v in Completed(eval, legs, |legs|) ensures v.Pass? {
        var k := CompletedFromLeg(eval, legs, |legs|, v);
      }
    }
    if !AnyThrew(eval, legs) && forall v :: v in Completed(eval, legs, |legs|) ==> v.Pass? {
      forall k | 0 <= k < |legs| ensures LegPasses(eval, k, legs[k]) {
        LegPassesExactly(eval, k, legs[k]);
        forall v | v in LegVerdicts(eval, k, legs[k]) ensures v.Pass? { LegInCompleted(eval, legs, |legs|, k, v); }
      }
    }
  }

  lemma AggregatePassExactly(vs: seq<Verdict>)
    ensures Aggregate(vs).Pass? <==> forall v :: v in vs ==> v.Pass?
  {
    hide AllMatched;
    assert forall i :: 0 <= i < |vs| ==> vs[i] in vs;
  }

  /**
   The exact condition for a pass: there are policies and a real action, and in every
   real action every visited body carries no domain or is evaluated to pass.  So
   neither a throw nor an unknown body inside a multicall ever lets a transaction pass.
   */
  lemma PassExactly(eval: Eval, bodies: seq<Json>, anyPolicies: bool)
    ensures FinalVerdict(Path(eval, bodies, anyPolicies)).Pass? <==>
            && anyPolicies && (exists b :: b in bodies && Real(b))
            && AllLegsPass(eval, RealActions(bodies))
  {
    hide Completed, Tree, AllLegsPass, Aggregate, RealActions, AnyThrew;
    var legs := RealActions(bodies);
    RealActionsAreReal(bodies);
    LegsPassExactly(eval, legs);
    assert legs != [] <==> exists b :: b in bodies && Real(b) by { if legs != [] { assert legs[0] in legs; } }
    AggregatePassExactly(Completed(eval, legs, |legs|));
  }

  /** An unknown body met while walking a real action keeps the transaction from passing. */
  lemma NestedUnknownNeverPasses(eval: Eval, bodies: seq<Json>, anyPolicies: bool, leg: Json, i: nat)
    requires leg in bodies && Real(leg) && i < |Visited(leg)| && Unknown(Visited(leg)[i])
    ensures !FinalVerdict(Path(eval, bodies, anyPolicies)).Pass?
  {
    PassExactly(eval, bodies, anyPolicies);
    RealActionsAreReal(bodies);
    var legs := RealActions(bodies);
    var k: nat :| k < |legs| && legs[k] == leg;
    assert !Passes(eval, Later(Visit(k, 0), i), Visited(leg)[i]);
  }

  /** A body without a domain is not evaluated at all, and passes: the one way past the policies. */
  lemma DomainlessPasses(eval: Eval)
    ensures FinalVerdict(Path(eval, [Obj(Nil)], true)).Pass?
  {
    var body := Obj(Nil);
    OnlyReal(body);
    NothingPasses(eval);
    hide LegPasses, Path, FinalVerdict, RealActions, Real;
    assert body in [body];
    PassExactly(eval, [body], true);
  }

  lemma OnlyReal(body: Json)
    ensures RealActions([body]) == if Real(body) then [body] else []
  {
    hide Real;
    assert [body][..0] == [] && RealActions([]) == [];
  }

  lemma NothingPasses(eval: Eval)
    ensures LegPasses(eval, 0, Obj(Nil)) && Real(Obj(Nil))
  {
    assert Visited(Obj(Nil)) == [Obj(Nil)];
  }
}
