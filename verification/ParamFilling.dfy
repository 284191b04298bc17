/**
 Filling a template with supplied values, and making it concrete for display.
 */
module ParamFilling {
  import opened BlockIr
  import opened ExprTrees
  import opened IrRoundTrips
  import opened Jsons
  import opened NodeReplacement
  import opened Options
  import opened Params

  type Entries = map<string, FillValue>

  /** The values supplied, and their names as `Object.keys` lists them. */
  datatype Values = Values(keys: seq<string>, entries: Entries)

  ghost predicate Listing(values: Values) { forall k :: k in values.keys <==> k in values.entries }

  function Choice(s: ParamSpec, entries: Entries): Result<Expr, Reason> {
    if s.name in entries then Build(s, entries[s.name])
    else if s.optional then Ok(s.default)
    else Err(Missing)
  }

  /** Complaints about the first `n` supplied names. */
  function Unknowns(specs: seq<ParamSpec>, keys: seq<string>, n: nat): seq<Problem>
    requires n <= |keys|
  {
    if n == 0 then []
    else
      Unknowns(specs, keys, n - 1) +
      if HasName(specs, |specs|, keys[n - 1]) then [] else [Problem(keys[n - 1], UnknownName)]
  }

  /** Complaints about the first `n` holes. */
  function Faults(specs: seq<ParamSpec>, entries: Entries, n: nat): seq<Problem>
    requires n <= |specs|
  {
    if n == 0 then []
    else
      var s := specs[n - 1];
      Faults(specs, entries, n - 1) + if Choice(s, entries).Ok? then [] else [Problem(s.name, Choice(s, entries).error)]
  }

  /** What the first `n` holes are filled with. */
  function Chosen(specs: seq<ParamSpec>, entries: Entries, n: nat): Fillings
    requires n <= |specs|
  {
    if n == 0 then map[]
    else
      var s := specs[n - 1];
      var before := Chosen(specs, entries, n - 1);
      if Choice(s, entries).Ok? then before[s.name := Choice(s, entries).value] else before
  }

  datatype Refusal = Repeated(name: string) | Problems(problems: seq<Problem>)

  function Fill(p: Policy, values: Values): Result<Policy, Refusal> {
    match Extracted(p)
    case Err(name) => Err(Repeated(name))
    case Ok(specs) =>
      var problems := Unknowns(specs, values.keys, |values.keys|) + Faults(specs, values.entries, |specs|);
      if problems != [] then Err(Problems(problems))
      else Ok(p.(conditions := FilledIn(p.conditions, Chosen(specs, values.entries, |specs|))))
  }

  method FillParams(p: Policy, values: Values) returns (r: Result<Policy, Refusal>)
    ensures r == Fill(p, values)
  {
    hide HasName, Build;
    var extracted := ExtractParams(p);
    if extracted.Err? { return Err(Repeated(extracted.error)); }
    var specs := extracted.value;
    var known := NamesOf(specs);
    var errors := [];
    var i := 0;
    while i < |values.keys|
      invariant 0 <= i <= |values.keys|
      invariant errors == Unknowns(specs, values.keys, i)
    {
      if values.keys[i] !in known { errors := errors + [Problem(values.keys[i], UnknownName)]; }
      i := i + 1;
    }
    var repl: Fillings := map[];
    var n := 0;
    while n < |specs|
      invariant 0 <= n <= |specs|
      invariant errors == Unknowns(specs, values.keys, |values.keys|) + Faults(specs, values.entries, n)
      invariant repl == Chosen(specs, values.entries, n)
    {
      var s := specs[n];
      if s.name !in values.entries {
        if s.optional { repl := repl[s.name := s.default]; } else { errors := errors + [Problem(s.name, Missing)]; }
      } else {
        var built := Build(s, values.entries[s.name]);
        if built.Ok? {
          repl := repl[s.name := built.value];
        } else {
          errors := errors + [Problem(s.name, built.error)];
        }
      }
      n := n + 1;
    }
    if |errors| > 0 { return Err(Problems(errors)); }
    return Ok(p.(conditions := FilledIn(p.conditions, repl)));
  }

  method NamesOf(specs: seq<ParamSpec>) returns (names: set<string>)
    ensures forall name :: name in names <==> HasName(specs, |specs|, name)
  {
    hide HasName;
    names := {};
    NothingOccurs(specs);
    var i := 0;
    while i < |specs|
      invariant 0 <= i <= |specs|
      invariant forall name :: name in names <==> HasName(specs, i, name)
    {
      OneMoreOccurs(specs, i);
      names := names + {specs[i].name};
      i := i + 1;
    }
  }

  // ---- when filling succeeds ----

  predicate Satisfied(s: ParamSpec, entries: Entries) {
    if s.name in entries then Accepts(s, entries[s.name]) else s.optional
  }

  lemma {:induction false} NoUnknownsExactly(specs: seq<ParamSpec>, keys: seq<string>, n: nat)
    requires n <= |keys|
    ensures Unknowns(specs, keys, n) == [] <==> forall i :: 0 <= i < n ==> HasName(specs, |specs|, keys[i])
  {
    hide HasName;
    if n > 0 { NoUnknownsExactly(specs, keys, n - 1); }
  }

  lemma {:induction false} NoFaultsExactly(specs: seq<ParamSpec>, entries: Entries, n: nat)
    requires n <= |specs|
    ensures Faults(specs, entries, n) == [] <==> forall i :: 0 <= i < n ==> Satisfied(specs[i], entries)
  {
    hide Accepts, Build;
    if n > 0 {
      NoFaultsExactly(specs, entries, n - 1);
      var s := specs[n - 1];
      if s.name in entries { BuildsExactly(s, entries[s.name]); }
    }
  }

  /**
   Filling succeeds exactly when hole names are distinct, no supplied name is unknown,
   every required hole is supplied, and every value passes its check.
   */
  lemma FillSucceedsExactly(p: Policy, values: Values)
    requires Listing(values)
    ensures var specs := HolesInConditions(p.conditions);
            Fill(p, values).Ok? <==>
            && DistinctNames(specs)
            && (forall k :: k in values.entries ==> HasName(specs, |specs|, k))
            && (forall i :: 0 <= i < |specs| ==> Satisfied(specs[i], values.entries))
  {
    hide HasName, HolesInConditions, FirstRepeat, DistinctNames, Unknowns, Faults, Chosen, Satisfied;
    var specs := HolesInConditions(p.conditions);
    NoRepeatExactly(specs, |specs|);
    assert specs[..|specs|] == specs;
    NoUnknownsExactly(specs, values.keys, |values.keys|);
    NoFaultsExactly(specs, values.entries, |specs|);
    assert (forall i :: 0 <= i < |values.keys| ==> HasName(specs, |specs|, values.keys[i])) <==>
           (forall k :: k in values.keys ==> HasName(specs, |specs|, k));
  }

  /** Why there is a complaint about a name. */
  predicate Deserved(specs: seq<ParamSpec>, entries: Entries, name: string, reason: Reason) {
    match reason
    case UnknownName => name in entries && !HasName(specs, |specs|, name)
    case Missing => name !in entries && exists i :: 0 <= i < |specs| && specs[i].name == name && !specs[i].optional
    case _ =>
      name in entries && exists i :: 0 <= i < |specs| && specs[i].name == name &&
                                     !Accepts(specs[i], entries[name]) && RefusedFor(specs[i], entries[name], reason)
  }

  lemma {:induction false} UnknownsExactly(specs: seq<ParamSpec>, keys: seq<string>, n: nat, x: Problem)
    requires n <= |keys|
    ensures x in Unknowns(specs, keys, n) <==>
            x.reason == UnknownName && x.name in keys[..n] && !HasName(specs, |specs|, x.name)
  {
    hide HasName;
    if n > 0 {
      UnknownsExactly(specs, keys, n - 1, x);
      assert keys[..n] == keys[..n - 1] + [keys[n - 1]];
    }
  }

  /** The complaint a hole gives rise to. */
  predicate Faulty(s: ParamSpec, entries: Entries, x: Problem) {
    && x.name == s.name
    && if s.name !in entries then x.reason == Missing && !s.optional
       else !Accepts(s, entries[s.name]) && RefusedFor(s, entries[s.name], x.reason)
  }

  lemma FaultyExactly(s: ParamSpec, entries: Entries, x: Problem)
    ensures Faulty(s, entries, x) <==> Choice(s, entries).Err? && x == Problem(s.name, Choice(s, entries).error)
  {
    hide Accepts, Build;
    if s.name in entries {
      BuildsExactly(s, entries[s.name]);
      if Build(s, entries[s.name]).Err? { BuildRefuses(s, entries[s.name]); }
    }
  }

  lemma {:induction false} FaultsExactly(specs: seq<ParamSpec>, entries: Entries, n: nat, x: Problem)
    requires n <= |specs|
    ensures x in Faults(specs, entries, n) <==> exists i :: 0 <= i < n && Faulty(specs[i], entries, x)
  {
    hide Choice, Faulty;
    if n > 0 {
      FaultsExactly(specs, entries, n - 1, x);
      FaultyExactly(specs[n - 1], entries, x);
    }
  }

  lemma DeservedIsFaulty(specs: seq<ParamSpec>, entries: Entries, x: Problem)
    ensures Deserved(specs, entries, x.name, x.reason) <==>
            || (x.reason == UnknownName && x.name in entries && !HasName(specs, |specs|, x.name))
            || exists i :: 0 <= i < |specs| && Faulty(specs[i], entries, x)
  {
    hide Accepts, HasName;
  }

  /** A template is refused with the complaints it deserves, all of them and no other. */
  lemma RefusedExactly(p: Policy, values: Values, x: Problem)
    requires Listing(values) && Fill(p, values).Err? && Fill(p, values).error.Problems?
    ensures x in Fill(p, values).error.problems <==>
            Deserved(HolesInConditions(p.conditions), values.entries, x.name, x.reason)
  {
    hide HolesInConditions, FirstRepeat, HasName, Faulty, Unknowns, Faults, Deserved;
    var specs := HolesInConditions(p.conditions);
    UnknownsExactly(specs, values.keys, |values.keys|, x);
    assert values.keys[..|values.keys|] == values.keys;
    FaultsExactly(specs, values.entries, |specs|, x);
    DeservedIsFaulty(specs, values.entries, x);
  }

  // ---- what a filled policy is ----

  lemma {:induction false} ChosenHas(specs: seq<ParamSpec>, entries: Entries, n: nat, i: nat)
    requires i < n <= |specs| && DistinctNames(specs) && Choice(specs[i], entries).Ok?
    ensures specs[i].name in Chosen(specs, entries, n)
    ensures Chosen(specs, entries, n)[specs[i].name] == Choice(specs[i], entries).value
  {
    hide Choice;
    if i < n - 1 { ChosenHas(specs, entries, n - 1, i); }
  }

  lemma SatisfiedIsChosen(s: ParamSpec, entries: Entries)
    ensures Satisfied(s, entries) <==> Choice(s, entries).Ok?
    ensures Choice(FormOfHole(s), entries) == Choice(s, entries)
  {
    if s.name in entries {
      BuildsExactly(s, entries[s.name]);
    }
  }

  lemma {:induction false} NthFilledIn(cs: List<Condition>, repl: Fillings, n: nat)
    requires n < Length(cs)
    ensures n < Length(FilledIn(cs, repl))
    ensures Nth(FilledIn(cs, repl), n) == Condition(Nth(cs, n).kind, Filled(Nth(cs, n).body, repl))
  {
    hide Filled;
    if n > 0 { NthFilledIn(cs.tail, repl, n - 1); }
  }

  /** The node says what the value supplied for the hole says; without one, it is the default of an optional hole. */
  predicate FilledAs(spec: ParamSpec, entries: Entries, now: Expr) {
    if spec.name in entries then Becomes(entries[spec.name], now) else spec.optional && now == spec.default
  }

  lemma ChoiceFills(s: ParamSpec, entries: Entries)
    requires Choice(s, entries).Ok?
    ensures FilledAs(s, entries, Choice(s, entries).value)
  {
    hide Build, Becomes;
    if s.name in entries { BuildBecomes(s, entries[s.name]); }
  }

  /**
   A filled policy has, wherever the template has a hole, what the value supplied for it
   says, or the default of an optional hole without a value, and everywhere else the
   template's own node.  All holes are filled at once: what is put in is not looked at
   again.
   */
  lemma FilledEverywhere(p: Policy, values: Values, n: nat, pos: Position)
    requires Listing(values) && Fill(p, values).Ok?
    requires n < Length(p.conditions) && Valid(Nth(p.conditions, n).body, pos)
    ensures n < Length(Fill(p, values).value.conditions)
    ensures Valid(Nth(Fill(p, values).value.conditions, n).body, pos)
    ensures var was := Node(Nth(p.conditions, n).body, pos);
            var now := Node(Nth(Fill(p, values).value.conditions, n).body, pos);
            if was.Hole? then FilledAs(was.spec, values.entries, now) else SameNode(was, now)
  {
    hide Filled, HolesIn, SameNode, Valid, Node, Chosen, FirstRepeat, Accepts, Build, Unknowns, Faults, HasName;
    hide DistinctNames, Choice;
    var specs := HolesInConditions(p.conditions);
    var repl := Chosen(specs, values.entries, |specs|);
    FillSucceedsExactly(p, values);
    NthFilledIn(p.conditions, repl, n);
    var body := Nth(p.conditions, n).body;
    DiffersOnlyAtHoles(body, repl, pos);
    if Node(body, pos).Hole? {
      var spec := Node(body, pos).spec;
      ConditionHoleIsCollected(p.conditions, n, pos);
      var k := HolesBeforeIn(p.conditions, n, pos);
      CollectedAsForm(spec);
      SatisfiedIsChosen(specs[k], values.entries);
      SatisfiedIsChosen(spec, values.entries);
      ChosenHas(specs, values.entries, |specs|, k);
      ChoiceFills(spec, values.entries);
    }
  }

  lemma {:induction false} PrintsConditions(cs: List<Condition>)
    ensures FromConditions(cs).Ok? <==> HoleFreeConditions(cs)
  {
    hide ToEst, HoleFree;
    if cs.Cons? {
      PrintsExactly(cs.head.body);
      PrintsConditions(cs.tail);
    }
  }

  /** A default that is used must not itself hold a hole. */
  predicate CleanDefaults(specs: seq<ParamSpec>, entries: Entries) {
    forall i :: 0 <= i < |specs| && specs[i].name !in entries ==> HoleFree(specs[i].default)
  }

  /**
   The result is hole-free, and can be printed, exactly when every default that was
   used is hole-free.
   */
  lemma FilledIsHoleFreeExactly(p: Policy, values: Values)
    requires Listing(values) && Fill(p, values).Ok?
    ensures var specs, filled := HolesInConditions(p.conditions), Fill(p, values).value;
            && (HoleFreeConditions(filled.conditions) <==> CleanDefaults(specs, values.entries))
            && (PolicyToEst(filled).Ok? <==> CleanDefaults(specs, values.entries))
  {
    hide Filled, FilledIn, HolesIn, Chosen, FirstRepeat, Accepts, Unknowns, Faults, HasName, DistinctNames, HoleFree;
    hide FromConditions;
    hide HolesInConditions, HoleFreeConditions, Build;
    var specs := HolesInConditions(p.conditions);
    var entries := values.entries;
    var repl := Chosen(specs, entries, |specs|);
    FillSucceedsExactly(p, values);
    PolicyHoleFreeExactly(p.conditions, repl);
    PrintsConditions(Fill(p, values).value.conditions);
    forall i | 0 <= i < |specs|
      ensures specs[i].name in repl
      ensures HoleFree(repl[specs[i].name]) <==> specs[i].name in entries || HoleFree(specs[i].default)
    {
      SatisfiedIsChosen(specs[i], entries);
      ChosenHas(specs, entries, |specs|, i);
      if specs[i].name in entries { BuildsExactly(specs[i], entries[specs[i].name]); }
    }
  }

  // ---- making a template concrete ----

  function ConcreteChoice(s: ParamSpec, entries: Entries): Expr {
    if s.name in entries && Build(s, entries[s.name]).Ok? then Build(s, entries[s.name]).value else s.default
  }

  function ConcreteChosen(specs: seq<ParamSpec>, entries: Entries, n: nat): Fillings
    requires n <= |specs|
  {
    if n == 0 then map[]
    else ConcreteChosen(specs, entries, n - 1)[specs[n - 1].name := ConcreteChoice(specs[n - 1], entries)]
  }

  function Concrete(p: Policy, entries: Entries): Policy {
    match Extracted(p)
    case Err(_) => p
    case Ok(specs) =>
      if |specs| == 0 then p
      else p.(conditions := FilledIn(p.conditions, ConcreteChosen(specs, entries, |specs|)))
  }

  method ConcretizeIr(p: Policy, entries: Entries) returns (r: Policy)
    ensures r == Concrete(p, entries)
  {
    hide Build;
    var extracted := ExtractParams(p);
    if extracted.Err? { return p; }
    var specs := extracted.value;
    if |specs| == 0 { return p; }
    var repl: Fillings := map[];
    var i := 0;
    while i < |specs|
      invariant 0 <= i <= |specs|
      invariant repl == ConcreteChosen(specs, entries, i)
    {
      var s := specs[i];
      if s.name in entries {
        var built := Build(s, entries[s.name]);
        repl := repl[s.name := if built.Ok? then built.value else s.default];
      } else {
        repl := repl[s.name := s.default];
      }
      i := i + 1;
    }
    return p.(conditions := FilledIn(p.conditions, repl));
  }

  /** The node says what an acceptable value says, and is the default without one. */
  predicate ConcreteAs(spec: ParamSpec, entries: Entries, now: Expr) {
    if spec.name in entries && Accepts(spec, entries[spec.name]) then Becomes(entries[spec.name], now)
    else now == spec.default
  }

  lemma ConcreteChoiceFills(s: ParamSpec, entries: Entries)
    ensures ConcreteAs(s, entries, ConcreteChoice(s, entries))
    ensures ConcreteChoice(FormOfHole(s), entries) == ConcreteChoice(s, entries)
  {
    hide Becomes, Accepts;
    if s.name in entries {
      BuildsExactly(s, entries[s.name]);
      if Build(s, entries[s.name]).Ok? { BuildBecomes(s, entries[s.name]); }
      BuildOfForm(s, entries[s.name]);
    }
  }

  lemma BuildOfForm(s: ParamSpec, v: FillValue)
    ensures Build(FormOfHole(s), v) == Build(s, v)
  {}

  lemma {:induction false} ConcreteHas(specs: seq<ParamSpec>, entries: Entries, n: nat, i: nat)
    requires i < n <= |specs| && DistinctNames(specs)
    ensures specs[i].name in ConcreteChosen(specs, entries, n)
    ensures ConcreteChosen(specs, entries, n)[specs[i].name] == ConcreteChoice(specs[i], entries)
  {
    hide ConcreteChoice;
    if i < n - 1 { ConcreteHas(specs, entries, n - 1, i); }
  }

  /** Made concrete, a template whose holes have distinct names has no hole but what its defaults hold. */
  lemma ConcreteEverywhere(p: Policy, entries: Entries, n: nat, pos: Position)
    requires n < Length(p.conditions) && Valid(Nth(p.conditions, n).body, pos)
    requires DistinctNames(HolesInConditions(p.conditions))
    ensures n < Length(Concrete(p, entries).conditions)
    ensures Valid(Nth(Concrete(p, entries).conditions, n).body, pos)
    ensures var was := Node(Nth(p.conditions, n).body, pos);
            var now := Node(Nth(Concrete(p, entries).conditions, n).body, pos);
            if was.Hole? then ConcreteAs(was.spec, entries, now) else SameNode(was, now)
    ensures Concrete(p, entries) == p.(conditions := Concrete(p, entries).conditions)
  {
    hide Filled, HolesIn, SameNode, Valid, Node, FirstRepeat, Accepts, Build, ConcreteChosen, HolesInConditions;
    hide DistinctNames, ConcreteChoice, ConcreteAs, Nth, Length, HolesBeforeIn, FormOfHole, CollectedAs;
    var specs := HolesInConditions(p.conditions);
    NoRepeatExactly(specs, |specs|);
    assert specs[..|specs|] == specs;
    var repl := ConcreteChosen(specs, entries, |specs|);
    var body := Nth(p.conditions, n).body;
    if Node(body, pos).Hole? {
      var spec := Node(body, pos).spec;
      ConditionHoleIsCollected(p.conditions, n, pos);
      var k := HolesBeforeIn(p.conditions, n, pos);
      CollectedAsForm(spec);
      assert specs[k].name == spec.name by { NameIsCollected(spec, specs[k]); }
      ConcreteHas(specs, entries, |specs|, k);
      ConcreteChoiceFills(spec, entries);
    }
    NthFilledIn(p.conditions, repl, n);
    DiffersOnlyAtHoles(body, repl, pos);
    if |specs| == 0 { SameNodeAsItself(Node(body, pos)); }
  }

  lemma NameIsCollected(spec: ParamSpec, s: ParamSpec)
    requires CollectedAs(spec, s)
    ensures s.name == spec.name
  {}

  lemma SameNodeAsItself(e: Expr)
    ensures SameNode(e, e)
  {
    SameChildren(e);
  }

  /** A template in which a name occurs twice is left as it is. */
  lemma RepeatedIsNotConcrete(p: Policy, entries: Entries)
    requires !DistinctNames(HolesInConditions(p.conditions))
    ensures Concrete(p, entries) == p
  {
    hide HolesInConditions, FirstRepeat, DistinctNames;
    var specs := HolesInConditions(p.conditions);
    NoRepeatExactly(specs, |specs|);
    assert specs[..|specs|] == specs;
  }

  // ---- exposing a value, then filling it ----

  lemma {:induction false} HoleFreeIsUnchanged(e: Expr, repl: Fillings)
    requires HoleFree(e)
    ensures Filled(e, repl) == e
    decreases Count(e), 0
  {
    CountOfChildren(e);
    HoleFreeOfChildren(e);
    hide HoleFree, Children, WithChildren, Count;
    HoleFreeAllUnchanged(Children(e), repl);
    SameChildren(e);
  }

  lemma {:induction false} HoleFreeAllUnchanged(es: List<Expr>, repl: Fillings)
    requires HoleFreeAll(es)
    ensures FilledAll(es, repl) == es
    decreases CountAll(es), 1
  {
    hide Filled, HoleFree;
    if es.Cons? {
      CountOfChildren(es.head);
      HoleFreeIsUnchanged(es.head, repl);
      HoleFreeAllUnchanged(es.tail, repl);
    }
  }

  lemma {:induction false} HoleFreeNth(es: List<Expr>, i: nat)
    requires HoleFreeAll(es) && i < Length(es)
    ensures HoleFree(Nth(es, i))
  {
    hide HoleFree;
    if i > 0 { HoleFreeNth(es.tail, i - 1); }
  }

  lemma {:induction false} FilledOfSet(es: List<Expr>, i: nat, y: Expr, repl: Fillings)
    requires HoleFreeAll(es) && i < Length(es)
    ensures FilledAll(SetNth(es, i, y), repl) == SetNth(es, i, Filled(y, repl))
  {
    hide Filled, HoleFree;
    if i == 0 {
      HoleFreeAllUnchanged(es.tail, repl);
    } else {
      HoleFreeIsUnchanged(es.head, repl);
      FilledOfSet(es.tail, i - 1, y, repl);
    }
  }

  /** Filling the one hole of a tree puts the value where the hole was. */
  lemma {:induction false} FilledOfPut(e: Expr, p: Position, spec: ParamSpec, repl: Fillings)
    requires HoleFree(e) && Valid(e, p) && spec.name in repl
    ensures Filled(PutAt(e, p, Hole(spec)), repl) == PutAt(e, p, repl[spec.name])
    decreases p
  {
    if p.Cons? {
      HoleFreeOfChildren(e);
      hide HoleFree, Children, WithChildren, Count, Filled, SetNth, Nth;
      var es := Children(e);
      var child := Nth(es, p.head);
      HoleFreeNth(es, p.head);
      FilledOfPut(child, p.tail, spec, repl);
      var y := PutAt(child, p.tail, Hole(spec));
      FilledOfSet(es, p.head, y, repl);
      FilledOfRebuilt(e, SetNth(es, p.head, y), repl);
    }
  }

  lemma FilledOfRebuilt(e: Expr, cs: List<Expr>, repl: Fillings)
    requires !e.Hole? && Length(cs) == Length(Children(e))
    ensures Filled(WithChildren(e, cs), repl) == WithChildren(e, FilledAll(cs, repl))
  {
    hide Children, WithChildren, Count;
    OtherChildren(e, cs);
    ChildrenTwice(e, cs, FilledAll(cs, repl));
  }

  lemma {:induction false} HolesOfSet(es: List<Expr>, i: nat, y: Expr)
    requires HoleFreeAll(es) && i < Length(es)
    ensures HolesInAll(SetNth(es, i, y)) == HolesIn(y)
  {
    hide HolesIn, HoleFree;
    if i == 0 {
      HoleFreeAreHoleless(es.tail);
    } else {
      HoleFreeIsHoleless(es.head);
      HolesOfSet(es.tail, i - 1, y);
    }
  }

  lemma {:induction false} HolesOfPut(e: Expr, p: Position, spec: ParamSpec)
    requires HoleFree(e) && Valid(e, p)
    ensures HolesIn(PutAt(e, p, Hole(spec))) == [FormOfHole(spec)]
    decreases p
  {
    if p.Cons? {
      HoleFreeOfChildren(e);
      hide HoleFree, Children, WithChildren, Count, SetNth, Nth;
      var es := Children(e);
      var child := Nth(es, p.head);
      HoleFreeNth(es, p.head);
      HolesOfPut(child, p.tail, spec);
      var y := PutAt(child, p.tail, Hole(spec));
      HolesOfSet(es, p.head, y);
      OtherChildren(e, SetNth(es, p.head, y));
    }
  }

  lemma {:induction false} HoleFreeInUnchanged(cs: List<Condition>, repl: Fillings)
    requires HoleFreeConditions(cs)
    ensures FilledIn(cs, repl) == cs && HolesInConditions(cs) == []
  {
    hide HoleFree, Filled, HolesIn;
    if cs.Cons? {
      HoleFreeIsUnchanged(cs.head.body, repl);
      HoleFreeIsHoleless(cs.head.body);
      HoleFreeInUnchanged(cs.tail, repl);
    }
  }

  lemma {:induction false} HoleInPolicy(cs: List<Condition>, i: nat, p: Position, spec: ParamSpec, repl: Fillings)
    requires HoleFreeConditions(cs) && i < Length(cs) && Valid(Nth(cs, i).body, p)
    ensures HolesInConditions(PutIn(cs, i, p, Hole(spec))) == [FormOfHole(spec)]
    ensures spec.name in repl ==> FilledIn(PutIn(cs, i, p, Hole(spec)), repl) == PutIn(cs, i, p, repl[spec.name])
  {
    hide HoleFree, Filled, HolesIn, PutAt, Valid;
    if i == 0 {
      HolesOfPut(cs.head.body, p, spec);
      if spec.name in repl { FilledOfPut(cs.head.body, p, spec, repl); }
      HoleFreeInUnchanged(cs.tail, repl);
    } else {
      HoleFreeIsUnchanged(cs.head.body, repl);
      HoleFreeIsHoleless(cs.head.body);
      HoleInPolicy(cs.tail, i - 1, p, spec, repl);
    }
  }

  lemma {:induction false} PutInBack(cs: List<Condition>, i: nat, p: Position)
    requires i < Length(cs) && Valid(Nth(cs, i).body, p)
    ensures PutIn(cs, i, p, Node(Nth(cs, i).body, p)) == cs
  {
    hide Valid, Node, PutAt;
    PutBack(Nth(cs, i).body, p);
    SetSame(cs, i);
  }

  /** A policy with the node found by `locate` exposed as a hole. */
  function Exposed(p: Policy, locate: Locate, spec: ParamSpec): Policy {
    p.(conditions := ReplacedIn(locate, Hole(spec), 0, p.conditions, false).0)
  }

  lemma OneHole(spec: ParamSpec)
    ensures FirstRepeat([spec], 1) == None
  {
    assert !HasName([spec], 0, spec.name);
    assert FirstRepeat([spec], 0) == None;
  }

  lemma ExposedHasOneHole(p: Policy, locate: Locate, i: nat, pos: Position, spec: ParamSpec)
    requires HoleFreeConditions(p.conditions) && IsFirstIn(locate, 0, p.conditions, i, pos)
    ensures Exposed(p, locate, spec).conditions == PutIn(p.conditions, i, pos, Hole(spec))
    ensures Extracted(Exposed(p, locate, spec)) == Ok([FormOfHole(spec)])
  {
    hide IsFirst, ReplacedIn, HolesInConditions, FirstRepeat, PutIn, HoleFreeConditions, NoneInFirst;
    FirstIsValid(locate, p.conditions, i, pos);
    ReplacesFirstMatch(locate, Hole(spec), p.conditions, i, pos);
    HoleInPolicy(p.conditions, i, pos, spec, map[]);
    OneHole(FormOfHole(spec));
  }

  lemma FirstIsValid(locate: Locate, cs: List<Condition>, i: nat, pos: Position)
    requires IsFirstIn(locate, 0, cs, i, pos)
    ensures Valid(Nth(cs, i).body, pos)
  {}

  /**
   Exposing the first matching value of a hole-free policy and making the result concrete
   again gives back the policy.
   */
  lemma ConcreteUndoesExpose(p: Policy, locate: Locate, i: nat, pos: Position, meta: Meta)
    requires HoleFreeConditions(p.conditions) && IsFirstIn(locate, 0, p.conditions, i, pos)
    requires MakeHole(Node(Nth(p.conditions, i).body, pos), meta).Some?
    ensures Concrete(Exposed(p, locate, MakeHole(Node(Nth(p.conditions, i).body, pos), meta).value), map[]) == p
  {
    hide IsFirst, ReplacedIn, FilledIn, PutIn, HoleFreeConditions, Exposed, Extracted, MakeHole, FormOfHole, Valid;
    hide Node, NoneInFirst;
    FirstIsValid(locate, p.conditions, i, pos);
    var value := Node(Nth(p.conditions, i).body, pos);
    MadeHole(value, meta);
    var spec := MakeHole(value, meta).value;
    ExposedHasOneHole(p, locate, i, pos, spec);
    ExposedKeepsRest(p, locate, spec);
    var repl := ConcreteChosen([spec], map[], 1);
    assert repl == map[][spec.name := value] by { assert ConcreteChosen([spec], map[], 0) == map[]; }
    HoleInPolicy(p.conditions, i, pos, spec, repl);
    PutInBack(p.conditions, i, pos);
  }

  /** In particular for the node the user selected, whatever other nodes of the policy equal it. */
  lemma ConcreteUndoesExposeOfSelected(p: Policy, i: nat, pos: Position, meta: Meta)
    requires HoleFreeConditions(p.conditions) && i < Length(p.conditions) && Valid(Nth(p.conditions, i).body, pos)
    requires MakeHole(Node(Nth(p.conditions, i).body, pos), meta).Some?
    ensures
      var spec := MakeHole(Node(Nth(p.conditions, i).body, pos), meta).value;
      && Exposed(p, Selected(i, pos), spec) == p.(conditions := PutIn(p.conditions, i, pos, Hole(spec)))
      && Concrete(Exposed(p, Selected(i, pos), spec), map[]) == p
  {
    hide IsFirst, Exposed, MakeHole, Concrete, Valid, Node, NoneInFirst, Selected, HoleFreeConditions, PutIn;
    SelectedIsFirst(p.conditions, i, pos);
    ConcreteUndoesExpose(p, Selected(i, pos), i, pos, meta);
    var spec := MakeHole(Node(Nth(p.conditions, i).body, pos), meta).value;
    ExposedHasOneHole(p, Selected(i, pos), i, pos, spec);
    ExposedKeepsRest(p, Selected(i, pos), spec);
  }

  lemma ExposedKeepsRest(p: Policy, locate: Locate, spec: ParamSpec)
    ensures Exposed(p, locate, spec) == p.(conditions := Exposed(p, locate, spec).conditions)
  {}

  /** The policy with a node at a place that says what the value says. */
  ghost predicate SaysThere(p: Policy, i: nat, pos: Position, v: FillValue, r: Policy)
    requires i < Length(p.conditions) && Valid(Nth(p.conditions, i).body, pos)
  {
    exists e :: Becomes(v, e) && r == p.(conditions := PutIn(p.conditions, i, pos, e))
  }

  /**
   Filling the exposed value puts what the new one says exactly where the old one was, or
   reports the one complaint when the new value does not pass.
   */
  lemma FillReplacesExposed(p: Policy, locate: Locate, i: nat, pos: Position, meta: Meta, v: FillValue)
    requires HoleFreeConditions(p.conditions) && IsFirstIn(locate, 0, p.conditions, i, pos)
    requires MakeHole(Node(Nth(p.conditions, i).body, pos), meta).Some?
    ensures Valid(Nth(p.conditions, i).body, pos)
    ensures var spec := MakeHole(Node(Nth(p.conditions, i).body, pos), meta).value;
            var filled := Fill(Exposed(p, locate, spec), Values([meta.name], map[meta.name := v]));
            if Accepts(spec, v) then filled.Ok? && SaysThere(p, i, pos, v, filled.value)
            else exists reason :: RefusedFor(spec, v, reason) && filled == Err(Problems([Problem(meta.name, reason)]))
  {
    hide IsFirst, ReplacedIn, FilledIn, PutIn, HoleFreeConditions, Exposed, Extracted, MakeHole, FormOfHole, Valid;
    hide Node, Build, Accepts, Becomes, RefusedFor;
    hide NoneInFirst;
    FirstIsValid(locate, p.conditions, i, pos);
    var value := Node(Nth(p.conditions, i).body, pos);
    MadeHole(value, meta);
    var spec := MakeHole(value, meta).value;
    ExposedHasOneHole(p, locate, i, pos, spec);
    ExposedKeepsRest(p, locate, spec);
    BuildsExactly(spec, v);
    var entries := map[meta.name := v];
    assert HasName([spec], 1, meta.name) by { assert [spec][0].name == meta.name; }
    assert Unknowns([spec], [meta.name], 1) == [] by { assert Unknowns([spec], [meta.name], 0) == []; }
    assert Choice(spec, entries) == Build(spec, v);
    assert Faults([spec], entries, 0) == [] && Chosen([spec], entries, 0) == map[];
    assert Faults([spec], entries, 1) == if Build(spec, v).Ok? then [] else [Problem(meta.name, Build(spec, v).error)];
    assert Chosen([spec], entries, 1) == if Build(spec, v).Ok? then map[][spec.name := Build(spec, v).value] else map[];
    HoleInPolicy(p.conditions, i, pos, spec, Chosen([spec], entries, 1));
    if Accepts(spec, v) { BuildBecomes(spec, v); } else { BuildRefuses(spec, v); }
  }
}
