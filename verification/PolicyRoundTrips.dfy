/**
 The two round trips for whole policies.
 */
module PolicyRoundTrips {
  import opened AttrPaths
  import opened BlockIr
  import opened EstRoundTrips
  import opened IrRoundTrips
  import opened Jsons
  import opened Options
  import opened OwnKeys

  function StripConditions(cs: List<Condition>): List<Condition> {
    if cs.Nil? then Nil else Cons(Condition(cs.head.kind, Strip(cs.head.body)), StripConditions(cs.tail))
  }

  function StripPolicy(p: Policy): Policy { p.(conditions := StripConditions(p.conditions)) }

  /** A value that is not taken for a missing one. */
  predicate Present(j: Json) { j != Undefined && j != Null && j != Bool(false) && j != Num(0.0) && j != Str("") }

  lemma PresentExactly(j: Json)
    ensures Present(j) <==> Truthy(j)
  {}

  predicate RegularScope(s: Scope) { s.Slot? ==> Present(s.slot) }

  predicate RegularConditions(cs: List<Condition>) {
    cs.Cons? ==> Regular(cs.head.body) && Nesting(cs.head.body) <= 400 && RegularConditions(cs.tail)
  }

  predicate RegularPolicy(p: Policy) {
    && OwnOrder(Names(p.annotations))
    && RegularScope(p.principal)
    && RegularScope(p.resource)
    && RegularConditions(p.conditions)
  }

  lemma ScopeSurvivesExactly(s: Scope)
    ensures ScopeToIr(ScopeToEst(s)) == Ok(s) <==> RegularScope(s)
  {
    hide Prop, EntityJson, Entity, Truthy, Size, SizeMembers;
    match s
    case ScopeAll => PropOfOne("op", Str("All"));
    case ScopeEq(e) =>
      assert Prop(ScopeToEst(s), "op") == Str("==") && Prop(ScopeToEst(s), "entity") == EntityJson(e)
          && !Truthy(Prop(ScopeToEst(s), "slot")) by {
        PropsOfTwo("op", Str("=="), "entity", EntityJson(e), "op");
        PropsOfTwo("op", Str("=="), "entity", EntityJson(e), "slot");
        PropsOfTwo("op", Str("=="), "entity", EntityJson(e), "entity");
        UndefinedIsFalsy();
      }
      ReadsEntity(e);
    case ScopeIn(e) =>
      assert Prop(ScopeToEst(s), "op") == Str("in") && Prop(ScopeToEst(s), "entity") == EntityJson(e) by {
        PropsOfTwo("op", Str("in"), "entity", EntityJson(e), "op");
        PropsOfTwo("op", Str("in"), "entity", EntityJson(e), "entity");
      }
      ReadsEntity(e);
    case ScopeIs(t, None) =>
      assert Prop(ScopeToEst(s), "op") == Str("is") && Prop(ScopeToEst(s), "entity_type") == t
          && !Truthy(Prop(ScopeToEst(s), "in")) by {
        PropsOfTwo("op", Str("is"), "entity_type", t, "op");
        PropsOfTwo("op", Str("is"), "entity_type", t, "entity_type");
        PropsOfTwo("op", Str("is"), "entity_type", t, "in");
        UndefinedIsFalsy();
      }
    case ScopeIs(t, Some(e)) =>
      var within := One("entity", EntityJson(e));
      assert Prop(ScopeToEst(s), "op") == Str("is") && Prop(ScopeToEst(s), "entity_type") == t
          && Prop(ScopeToEst(s), "in") == within by {
        PropsOfThree("op", Str("is"), "entity_type", t, "in", within, "op");
        PropsOfThree("op", Str("is"), "entity_type", t, "in", within, "entity_type");
        PropsOfThree("op", Str("is"), "entity_type", t, "in", within, "in");
      }
      ObjectIsTruthy(within);
      PropOfOne("entity", EntityJson(e));
      ReadsEntity(e);
    case Slot(slot) =>
      assert Prop(ScopeToEst(s), "op") == Str("==") && Prop(ScopeToEst(s), "slot") == slot
          && Prop(ScopeToEst(s), "entity") == Undefined by {
        PropsOfTwo("op", Str("=="), "slot", slot, "op"); PropsOfTwo("op", Str("=="), "slot", slot, "slot");
        PropsOfTwo("op", Str("=="), "slot", slot, "entity");
      }
      PresentExactly(slot);
      NoEntity();
  }

  lemma ObjectIsTruthy(j: Json)
    ensures j.Obj? ==> Truthy(j)
  {}

  lemma NoEntity()
    ensures Entity(Undefined) == Err(TypeError)
  {}

  lemma {:induction false} ReadsEntities(es: List<EntityRef>)
    ensures Entities(EntityJsons(es)) == Ok(es)
  {
    hide EntityJson, Entity;
    if es.Cons? {
      ReadsEntity(es.head);
      ReadsEntities(es.tail);
    }
  }

  lemma ActionScopeSurvives(s: ActionScope)
    ensures ActionScopeToIr(ActionScopeToEst(s)) == Ok(s)
  {
    hide Prop, EntityJson, Entity, Size, SizeMembers;
    match s
    case ActionAll => PropOfOne("op", Str("All"));
    case ActionEq(e) =>
      assert Prop(ActionScopeToEst(s), "op") == Str("==") && Prop(ActionScopeToEst(s), "entity") == EntityJson(e) by {
        PropsOfTwo("op", Str("=="), "entity", EntityJson(e), "op");
        PropsOfTwo("op", Str("=="), "entity", EntityJson(e), "entity");
      }
      ReadsEntity(e);
    case ActionIn(es) =>
      var listed := Arr(EntityJsons(es));
      assert Prop(ActionScopeToEst(s), "op") == Str("in") && Prop(ActionScopeToEst(s), "entities") == listed by {
        PropsOfTwo("op", Str("in"), "entities", listed, "op");
        PropsOfTwo("op", Str("in"), "entities", listed, "entities");
      }
      ReadsEntities(es);
  }

  predicate ConditionsSurvive(cs: List<Condition>) {
    FromConditions(cs).Ok? && ToConditions(FromConditions(cs).value) == Ok(StripConditions(cs))
  }

  lemma {:induction false} ConditionsSurviveExactly(cs: List<Condition>)
    requires HoleFreeConditions(cs)
    ensures FromConditions(cs).Ok?
    ensures ConditionsSurvive(cs) <==> RegularConditions(cs)
  {
    hide ToIr, ToEst, Regular, Nesting, Strip, HoleFree, Prop, Size, SizeMembers;
    if cs.Cons? {
      PrintsExactly(cs.head.body);
      ConditionsSurviveExactly(cs.tail);
      SurvivesExactly(cs.head.body, 0);
      var kind, body := cs.head.kind, ToEst(cs.head.body).value;
      PropsOfTwo("kind", kind, "body", body, "kind"); PropsOfTwo("kind", kind, "body", body, "body");
    }
  }

  lemma PropsOfPolicy(e: Json, p: Json, a: Json, r: Json, c: Json, notes: List<Member>)
    requires notes.Nil? || (notes.head.key == "annotations" && notes.tail.Nil?)
    ensures var est := Obj(Cons(Member("effect", e), Cons(Member("principal", p), Cons(Member("action", a),
                       Cons(Member("resource", r), Cons(Member("conditions", c), notes))))));
            && Prop(est, "effect") == e && Prop(est, "principal") == p && Prop(est, "action") == a
            && Prop(est, "resource") == r && Prop(est, "conditions") == c
            && Prop(est, "annotations") == if notes.Nil? then Undefined else notes.head.value
  {
    hide Get, Size, SizeMembers;
    var m1 := Cons(Member("conditions", c), notes);
    var m2 := Cons(Member("resource", r), m1);
    var m3 := Cons(Member("action", a), m2);
    var m4 := Cons(Member("principal", p), m3);
    forall k: string ensures Get(Cons(Member("effect", e), m4), k) ==
      if k == "effect" then e else if k == "principal" then p else if k == "action" then a
      else if k == "resource" then r else if k == "conditions" then c else Get(notes, k)
    {
      GetHead(Member("effect", e), m4, k);
      GetHead(Member("principal", p), m3, k);
      GetHead(Member("action", a), m2, k);
      GetHead(Member("resource", r), m1, k);
      GetHead(Member("conditions", c), notes, k);
    }
    NoMember("annotations");
    if notes.Cons? { GetHead(notes.head, Nil, "annotations"); }
  }

  /**
   A hole-free policy, printed and read back, is the policy without its display
   annotations exactly when it is regular.
   */
  lemma PolicySurvivesExactly(p: Policy)
    requires HoleFreeConditions(p.conditions)
    ensures PolicyToEst(p).Ok?
    ensures PolicyToIr(PolicyToEst(p).value) == Ok(StripPolicy(p)) <==> RegularPolicy(p)
  {
    hide Prop, FromEntries, OwnOrder, ScopeToEst, ScopeToIr, ActionScopeToEst, ActionScopeToIr, RegularScope;
    hide RegularConditions;
    hide HoleFreeConditions, Size, SizeMembers, SizeItems;
    ConditionsSurviveExactly(p.conditions);
    ScopeSurvivesExactly(p.principal);
    ScopeSurvivesExactly(p.resource);
    ActionScopeSurvives(p.action);
    var cs := FromConditions(p.conditions).value;
    hide ToConditions, FromConditions, StripConditions;
    FromEntriesExactly(p.annotations);
    var notes := if p.annotations.Nil? then Nil else Cons(Member("annotations", Obj(FromEntries(p.annotations))), Nil);
    PropsOfPolicy(p.effect, ScopeToEst(p.principal), ActionScopeToEst(p.action), ScopeToEst(p.resource), Arr(cs),
                  notes);
    assert p.annotations.Nil? ==> OwnOrder(Names(p.annotations)) by { NoNames(p.annotations); }
  }

  lemma NoNames(ms: List<Member>)
    ensures ms.Nil? ==> OwnOrder(Names(ms))
  {}

  // ---- reading a policy and printing it back ----

  predicate EntityShaped(j: Json) { Only(j, {"type", "id"}) }

  predicate FaithfulScope(s: Json) {
    match Prop(s, "op")
    case Str(op) =>
      || (op == "All" && Only(s, {"op"}))
      || (op == "==" && Only(s, {"op", "slot"}) && Present(Prop(s, "slot")))
      || (op == "==" && Only(s, {"op", "entity"}) && EntityShaped(Prop(s, "entity")))
      || (op == "in" && Only(s, {"op", "entity"}) && EntityShaped(Prop(s, "entity")))
      || (op == "is" && Only(s, {"op", "entity_type"}))
      || (op == "is" && Only(s, {"op", "entity_type", "in"})
          && Only(Prop(s, "in"), {"entity"}) && EntityShaped(Prop(Prop(s, "in"), "entity")))
    case _ => false
  }

  predicate EntitiesShaped(items: List<Json>) { items.Cons? ==> EntityShaped(items.head) && EntitiesShaped(items.tail) }

  predicate FaithfulAction(s: Json) {
    match Prop(s, "op")
    case Str(op) =>
      || (op == "All" && Only(s, {"op"}))
      || (op == "==" && Only(s, {"op", "entity"}) && EntityShaped(Prop(s, "entity")))
      || (op == "in" && Only(s, {"op", "entities"}) && Prop(s, "entities").Arr?
          && EntitiesShaped(Prop(s, "entities").items))
    case _ => false
  }

  predicate FaithfulConditions(cs: List<Json>) {
    cs.Cons? ==> Only(cs.head, {"kind", "body"}) && Faithful(Prop(cs.head, "body")) && FaithfulConditions(cs.tail)
  }

  const POLICY_KEYS: set<string> := {"effect", "principal", "action", "resource", "conditions"}

  /** Well-formed policies: exactly the fields of the format, annotations absent or non-empty. */
  predicate FaithfulPolicy(est: Json) {
    && (|| Only(est, POLICY_KEYS)
        || (Only(est, POLICY_KEYS + {"annotations"})
            && Prop(est, "annotations").Obj? && Prop(est, "annotations").members.Cons?))
    && FaithfulScope(Prop(est, "principal"))
    && FaithfulAction(Prop(est, "action"))
    && FaithfulScope(Prop(est, "resource"))
    && Prop(est, "conditions").Arr? && FaithfulConditions(Prop(est, "conditions").items)
  }

  lemma EntityReturns(j: Json)
    requires Entity(j).Ok?
    ensures Canon(EntityJson(Entity(j).value)) == Canon(j) <==> EntityShaped(j)
  {
    hide Prop, Only, Canon, Two;
    TwoIs("type", Prop(j, "type"), "id", Prop(j, "id"), j);
  }

  /** Two texts have the same canonical form only when they are the same text. */
  lemma SameText(op: string, j: Json)
    ensures Canon(Str(op)) == Canon(j) <==> j == Str(op)
  {}

  lemma ScopeReturns(s: Json)
    requires ScopeToIr(s).Ok?
    ensures Canon(ScopeToEst(ScopeToIr(s).value)) == Canon(s) <==> FaithfulScope(s)
  {
    hide Prop, Only, Canon, One, Two, Three, Truthy, Entity, EntityJson, EntityShaped, Size, SizeMembers;
    var op := Prop(s, "op");
    PresentExactly(Prop(s, "slot"));
    if op == Str("==") {
      if Truthy(Prop(s, "slot")) {
        TwoIs("op", Str("=="), "slot", Prop(s, "slot"), s);
        assert !Only(s, {"op", "entity"}) by { NotOnly(s, "slot", {"op", "entity"}); }
      } else {
        EntityReturns(Prop(s, "entity"));
        TwoIs("op", Str("=="), "entity", EntityJson(Entity(Prop(s, "entity")).value), s);
      }
    } else if op == Str("in") {
      EntityReturns(Prop(s, "entity"));
      TwoIs("op", Str("in"), "entity", EntityJson(Entity(Prop(s, "entity")).value), s);
    } else if op == Str("is") {
      if Truthy(Prop(s, "in")) {
        ScopeIsInReturns(s);
      } else {
        TwoIs("op", Str("is"), "entity_type", Prop(s, "entity_type"), s);
        assert !Only(Prop(s, "in"), {"entity"}) by {
          if Prop(s, "in").Obj? { ObjectIsTruthy(Prop(s, "in")); }
          OnlyIsObject(Prop(s, "in"), {"entity"});
        }
      }
    } else {
      OneIs("op", Str("All"), s);
      SameText("All", op);
    }
  }

  lemma OnlyIsObject(j: Json, keys: set<string>)
    ensures Only(j, keys) ==> j.Obj?
  {}

  lemma NotOnly(s: Json, k: string, keys: set<string>)
    requires Truthy(Prop(s, k)) && k !in keys
    ensures !Only(s, keys)
  {
    hide Truthy, KeySet;
    if s.Obj? { KeptPartIsThere(s, k); }
  }

  lemma ScopeIsInReturns(s: Json)
    requires ScopeToIr(s).Ok? && Prop(s, "op") == Str("is") && Truthy(Prop(s, "in"))
    ensures Canon(ScopeToEst(ScopeToIr(s).value)) == Canon(s) <==> FaithfulScope(s)
  {
    hide Prop, Only, Canon, One, Two, Three, Truthy, Entity, EntityJson, EntityShaped, Size, SizeMembers;
    var e := Prop(Prop(s, "in"), "entity");
    EntityReturns(e);
    var ej := EntityJson(Entity(e).value);
    OneIs("entity", ej, Prop(s, "in"));
    ThreeIs("op", Str("is"), "entity_type", Prop(s, "entity_type"), "in", One("entity", ej), s);
    assert !Only(s, {"op", "entity_type"}) by { NotOnly(s, "in", {"op", "entity_type"}); }
  }

  lemma {:induction false} EntitiesReturn(items: List<Json>)
    requires Entities(items).Ok?
    ensures CanonItems(EntityJsons(Entities(items).value)) == CanonItems(items) <==> EntitiesShaped(items)
  {
    hide Canon, Entity, EntityJson, EntityShaped;
    if items.Cons? {
      EntityReturns(items.head);
      EntitiesReturn(items.tail);
    }
  }

  lemma ActionReturns(s: Json)
    requires ActionScopeToIr(s).Ok?
    ensures Canon(ActionScopeToEst(ActionScopeToIr(s).value)) == Canon(s) <==> FaithfulAction(s)
  {
    hide Prop, Only, One, Two, Three, Truthy, Entity, EntityJson, EntityShaped, Size, SizeMembers, CanonItems;
    hide CanonMembers;
    var op := Prop(s, "op");
    if op == Str("==") {
      EntityReturns(Prop(s, "entity"));
      TwoIs("op", Str("=="), "entity", EntityJson(Entity(Prop(s, "entity")).value), s);
    } else if op == Str("in") {
      var listed := Prop(s, "entities");
      if listed.Arr? {
        EntitiesReturn(listed.items);
        TwoIs("op", Str("in"), "entities", Arr(EntityJsons(Entities(listed.items).value)), s);
      } else {
        TwoIs("op", Str("in"), "entities", Arr(Nil), s);
      }
    } else {
      OneIs("op", Str("All"), s);
      SameText("All", op);
    }
  }

  lemma {:induction false} ConditionsReturn(cs: List<Json>)
    requires ToConditions(cs).Ok? && ProperItems(cs)
    ensures FromConditions(ToConditions(cs).value).Ok?
    ensures CanonItems(FromConditions(ToConditions(cs).value).value) == CanonItems(cs) <==> FaithfulConditions(cs)
  {
    hide Prop, Only, Canon, ToIr, ToEst, Two, Faithful, Proper, Size, SizeMembers;
    if cs.Cons? {
      ConditionsReturn(cs.tail);
      PropIsProper(cs.head, "body");
      ReturnsExactly(Prop(cs.head, "body"), 0);
      TwoIs("kind", Prop(cs.head, "kind"), "body", ToEst(ToIr(Prop(cs.head, "body"), 0).value).value, cs.head);
    }
  }

  lemma SameMembers(ms: List<Member>, j: Json)
    ensures Canon(Obj(ms)) == Canon(j) <==>
            Only(j, KeySet(ms)) && forall k :: k in KeySet(ms) ==> Canon(Prop(Obj(ms), k)) == Canon(Prop(j, k))
  {
    hide CanonMembers, KeySet, Get, Size, SizeMembers;
    KeysOfCanon(ms);
    RecordIs(CanonMembers(ms), j);
  }

  lemma KeysOfPolicy(e: Json, p: Json, a: Json, r: Json, c: Json, notes: List<Member>)
    requires notes.Nil? || (notes.head.key == "annotations" && notes.tail.Nil?)
    ensures KeySet(Cons(Member("effect", e), Cons(Member("principal", p), Cons(Member("action", a),
                   Cons(Member("resource", r), Cons(Member("conditions", c), notes)))))) ==
            if notes.Nil? then POLICY_KEYS else POLICY_KEYS + {"annotations"}
  {
    var m1 := Cons(Member("conditions", c), notes);
    var m2 := Cons(Member("resource", r), m1);
    var m3 := Cons(Member("action", a), m2);
    var m4 := Cons(Member("principal", p), m3);
    assert KeySet(notes) == if notes.Nil? then {} else {"annotations"};
    assert KeySet(m1) == {"conditions"} + KeySet(notes);
    assert KeySet(m2) == {"resource"} + KeySet(m1);
    assert KeySet(m3) == {"action"} + KeySet(m2);
    assert KeySet(m4) == {"principal"} + KeySet(m3);
  }

  /** What the annotations of a policy read and print as. */
  lemma AnnotationsReturn(est: Json)
    requires Proper(est) && PolicyToIr(est).Ok?
    ensures var p := PolicyToIr(est).value.annotations;
            var notes := Prop(est, "annotations");
            && (Only(est, POLICY_KEYS) ==> p.Nil?)
            && (p.Nil? && notes.Obj? ==> notes.members.Nil?)
            && (p.Cons? ==> (Canon(Obj(FromEntries(p))) == Canon(notes) <==> notes.Obj? && notes.members.Cons?))
  {
    hide ScopeToIr, ActionScopeToIr, ToConditions, FromEntries, Prop, Only, CanonMembers, CanonItems;
    var notes := Prop(est, "annotations");
    PropIsProper(est, "annotations");
    if notes.Obj? {
      PartsAreProper(notes);
      ProperHasNoRepeats(notes.members);
      CanonOfFromEntries(notes.members);
    }
    if Only(est, POLICY_KEYS) { NoSuchField(est); }
  }

  lemma NoSuchField(est: Json)
    requires Only(est, POLICY_KEYS)
    ensures Prop(est, "annotations") == Undefined
  {
    CanonKeys(est.members, "annotations");
    MissingIsUndefined(est.members, "annotations");
  }

  /**
   A policy that was read can be printed, whatever the schema it was annotated with, and
   is printed back as the same document exactly when it was well-formed.
   */
  lemma PolicyReturnsExactly(text: Describe, schema: Option<Schema>, est: Json)
    requires Proper(est) && EstToBlocks(text, schema, est).Ok?
    ensures PolicyToEst(EstToBlocks(text, schema, est).value).Ok?
    ensures Canon(PolicyToEst(EstToBlocks(text, schema, est).value).value) == Canon(est) <==> FaithfulPolicy(est)
  {
    hide PolicyToIr, PolicyToEst, FaithfulPolicy, Canon, AnnotatePolicy;
    var p := PolicyToIr(est).value;
    if schema.Some? { PolicyAnnotationInvisible(text, p, schema.value); }
    PlainPolicyReturns(est);
  }

  lemma SameFields(out: Json, est: Json, noted: bool)
    requires out.Obj? && KeySet(out.members) == if noted then POLICY_KEYS + {"annotations"} else POLICY_KEYS
    ensures (forall k :: k in KeySet(out.members) ==> Canon(Prop(out, k)) == Canon(Prop(est, k))) <==>
            && Canon(Prop(out, "effect")) == Canon(Prop(est, "effect"))
            && Canon(Prop(out, "principal")) == Canon(Prop(est, "principal"))
            && Canon(Prop(out, "action")) == Canon(Prop(est, "action"))
            && Canon(Prop(out, "resource")) == Canon(Prop(est, "resource"))
            && Canon(Prop(out, "conditions")) == Canon(Prop(est, "conditions"))
            && (noted ==> Canon(Prop(out, "annotations")) == Canon(Prop(est, "annotations")))
  {
    hide Canon, Prop, KeySet;
  }

  lemma ConditionsOfPolicyReturn(est: Json)
    requires Proper(est) && PolicyToIr(est).Ok?
    ensures
      var cs := Prop(est, "conditions");
      && cs.Arr? && ToConditions(cs.items).Ok? && FromConditions(ToConditions(cs.items).value).Ok?
      && (Canon(Arr(FromConditions(ToConditions(cs.items).value).value)) == Canon(cs) <==>
            FaithfulConditions(cs.items))
  {
    hide ScopeToIr, ActionScopeToIr, ToConditions, FromConditions, Entries, Prop, FaithfulConditions, CanonItems;
    hide Proper;
    PropIsProper(est, "conditions");
    PartsAreProper(Prop(est, "conditions"));
    ConditionsReturn(Prop(est, "conditions").items);
  }

  lemma PlainPolicyReturns(est: Json)
    requires Proper(est) && PolicyToIr(est).Ok?
    ensures PolicyToEst(PolicyToIr(est).value).Ok?
    ensures Canon(PolicyToEst(PolicyToIr(est).value).value) == Canon(est) <==> FaithfulPolicy(est)
  {
    hide ScopeToIr, ActionScopeToIr, ScopeToEst, ActionScopeToEst, ToConditions, FromConditions, FromEntries, Prop;
    hide Only;
    hide FaithfulScope, FaithfulAction, FaithfulConditions, CanonMembers, CanonItems, POLICY_KEYS, KeySet, Proper, Size;
    hide Entries;
    var p := PolicyToIr(est).value;
    ScopeReturns(Prop(est, "principal"));
    ActionReturns(Prop(est, "action"));
    ScopeReturns(Prop(est, "resource"));
    ConditionsOfPolicyReturn(est);
    AnnotationsReturn(est);
    var notes := if p.annotations.Nil? then Nil else Cons(Member("annotations", Obj(FromEntries(p.annotations))), Nil);
    var pr, ac, re, cs :=
      ScopeToEst(p.principal), ActionScopeToEst(p.action), ScopeToEst(p.resource),
      Arr(FromConditions(p.conditions).value);
    var out := PolicyToEst(p).value;
    PropsOfPolicy(p.effect, pr, ac, re, cs, notes);
    KeysOfPolicy(p.effect, pr, ac, re, cs, notes);
    SameMembers(out.members, est);
    SameFields(out, est, notes.Cons?);
  }

  predicate Shallow(cs: List<Json>) {
    cs.Cons? ==> Height(Prop(cs.head, "body")) <= 400 && Shallow(cs.tail)
  }

  lemma FaithfulScopeIsRead(s: Json)
    requires FaithfulScope(s)
    ensures ScopeToIr(s).Ok?
  {
    hide Prop, Truthy, KeySet, Size, SizeMembers;
    PresentExactly(Prop(s, "slot"));
    if Truthy(Prop(s, "in")) && Prop(s, "op") == Str("is") { NotOnlyTwo(s); NotOnly(s, "in", {"op", "entity_type"}); }
    if Truthy(Prop(s, "slot")) && Prop(s, "op") == Str("==") { NotOnly(s, "slot", {"op", "entity"}); }
  }

  lemma FaithfulActionIsRead(s: Json)
    requires FaithfulAction(s)
    ensures ActionScopeToIr(s).Ok?
  {
    hide Prop, KeySet, Size, SizeMembers, EntitiesShaped, Entities;
    var listed := Prop(s, "entities");
    if listed.Arr? && EntitiesShaped(listed.items) { ShapedEntitiesAreRead(listed.items); }
  }

  lemma {:induction false} ShapedEntitiesAreRead(items: List<Json>)
    requires EntitiesShaped(items)
    ensures Entities(items).Ok?
  {
    if items.Cons? { ShapedEntitiesAreRead(items.tail); }
  }

  lemma {:induction false} ConditionsFitExactly(cs: List<Json>)
    requires FaithfulConditions(cs)
    ensures ToConditions(cs).Ok? <==> Shallow(cs)
    ensures ToConditions(cs).Err? ==> ToConditions(cs) == Err(TooDeep)
  {
    hide Prop, ToIr, Faithful, KeySet, Height, Size, SizeMembers;
    if cs.Cons? {
      FitsExactly(Prop(cs.head, "body"), 0);
      ConditionsFitExactly(cs.tail);
    }
  }

  /** A well-formed policy is read exactly when no condition nests too deep; nothing else throws. */
  lemma PolicyFitsExactly(text: Describe, schema: Option<Schema>, est: Json)
    requires FaithfulPolicy(est)
    ensures EstToBlocks(text, schema, est).Ok? <==> Shallow(Prop(est, "conditions").items)
    ensures EstToBlocks(text, schema, est).Err? ==> EstToBlocks(text, schema, est) == Err(TooDeep)
  {
    hide FaithfulScope, FaithfulAction, FaithfulConditions, Prop, ToConditions, ScopeToIr, ActionScopeToIr, KeySet;
    hide Shallow;
    hide AnnotatePolicy, POLICY_KEYS, Size, SizeMembers;
    FaithfulScopeIsRead(Prop(est, "principal"));
    FaithfulScopeIsRead(Prop(est, "resource"));
    FaithfulActionIsRead(Prop(est, "action"));
    ConditionsFitExactly(Prop(est, "conditions").items);
    if Only(est, POLICY_KEYS) { NoSuchField(est); }
  }
}
