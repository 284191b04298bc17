/**
 Printing a tree and reading it back: exactly which trees survive.
 */
module IrRoundTrips {
  import opened BlockIr
  import opened Jsons
  import opened Options
  import opened OwnKeys

  const STRUCTURAL: set<string> := {"Var", "Value", "Set", "Record", ".", "has", "like", "is", "if-then-else"}

  /** The operators of the format, by the number of their operands. */
  predicate BinaryOperator(op: string) {
    op in {"==", "!=", "<", "<=", ">", ">=", "&&", "||", "+", "-", "*",
           "in", "contains", "containsAll", "containsAny", "getTag", "hasTag"}
  }

  predicate UnaryOperator(op: string) { op in {"!", "neg", "isEmpty"} }

  /** Names left for extension calls. */
  predicate Free(fn: string) { fn != "" && fn !in STRUCTURAL && !BinaryOperator(fn) && !UnaryOperator(fn) }

  lemma OperatorsExactly(op: string)
    ensures op in BINARY_OPS <==> BinaryOperator(op)
    ensures op in UNARY_OPS <==> UnaryOperator(op)
  {}

  /** Literals that say what they are. */
  predicate Typed(t: LitType, v: Json) {
    match t
    case Long => v.Num?
    case Text => v.Str?
    case Truth => v.Bool?
  }

  /** EST that the reader leaves alone. */
  predicate Escapes(est: Json) {
    match Shape(est)
    case None => false
    case Some(RawForm) => true
    case Some(ValueForm(v)) => !IsEntityValue(v) && !v.Num? && !v.Str? && !v.Bool?
    case Some(_) => false
  }

  function PairNames(ps: List<Pair>): List<string> {
    if ps.Nil? then Nil else Cons(ps.head.key, PairNames(ps.tail))
  }

  /** The trees that survive, nesting aside. */
  predicate Regular(e: Expr) {
    match e
    case Lit(t, v) => Typed(t, v)
    case SetOf(elements) => RegularAll(elements)
    case RecordOf(pairs) => OwnOrder(PairNames(pairs)) && RegularPairs(pairs)
    case Attr(of, _, _) => Regular(of)
    case HasAttr(of, _) => Regular(of)
    case Binary(op, left, right) => BinaryOperator(op) && Regular(left) && Regular(right)
    case Unary(op, operand) => UnaryOperator(op) && Regular(operand)
    case Like(of, _) => Regular(of)
    case Is(of, _, None) => Regular(of)
    case Is(of, _, Some(w)) => Regular(of) && Regular(w)
    case If(cond, yes, no) => Regular(cond) && Regular(yes) && Regular(no)
    case Ext(fn, args) => Free(fn) && RegularAll(args)
    case Raw(est) => Escapes(est)
    case _ => true
  }

  predicate RegularAll(es: List<Expr>) { es.Cons? ==> Regular(es.head) && RegularAll(es.tail) }

  predicate RegularPairs(ps: List<Pair>) { ps.Cons? ==> Regular(ps.head.value) && RegularPairs(ps.tail) }

  // ---- printing succeeds exactly without holes ----

  lemma {:induction false} PrintsExactly(e: Expr)
    ensures ToEst(e).Ok? <==> HoleFree(e)
  {
    match e
    case SetOf(elements) => PrintsAll(elements);
    case RecordOf(pairs) => PrintsPairs(pairs);
    case Attr(of, _, _) => PrintsExactly(of);
    case HasAttr(of, _) => PrintsExactly(of);
    case Binary(_, left, right) => PrintsExactly(left); PrintsExactly(right);
    case Unary(_, operand) => PrintsExactly(operand);
    case Like(of, _) => PrintsExactly(of);
    case Is(of, _, within) => PrintsExactly(of); if within.Some? { PrintsExactly(within.value); }
    case If(cond, yes, no) => PrintsExactly(cond); PrintsExactly(yes); PrintsExactly(no);
    case Ext(_, args) => PrintsAll(args);
    case _ =>
  }

  lemma {:induction false} PrintsAll(es: List<Expr>)
    ensures ToEsts(es).Ok? <==> HoleFreeAll(es)
  {
    if es.Cons? { PrintsExactly(es.head); PrintsAll(es.tail); }
  }

  lemma {:induction false} PrintsPairs(ps: List<Pair>)
    ensures ToMembers(ps).Ok? <==> HoleFreePairs(ps)
    ensures ToMembers(ps).Ok? ==> Names(ToMembers(ps).value) == PairNames(ps)
  {
    if ps.Cons? { PrintsExactly(ps.head.value); PrintsPairs(ps.tail); }
  }

  // ---- small objects ----

  lemma GetHead(m: Member, ms: List<Member>, k: string)
    ensures Get(Cons(m, ms), k) == if m.key == k then m.value else Get(ms, k)
  {}

  lemma PropsOfTwo(k: string, v: Json, l: string, w: Json, x: string)
    requires k != l
    ensures Prop(Two(k, v, l, w), x) == if x == k then v else if x == l then w else Undefined
  {
    hide Get;
    GetHead(Member(l, w), Nil, x);
    GetHead(Member(k, v), Cons(Member(l, w), Nil), x);
    NoMember(x);
  }

  lemma PropsOfThree(k: string, v: Json, l: string, w: Json, m: string, u: Json, x: string)
    requires k != l && l != m && k != m
    ensures Prop(Three(k, v, l, w, m, u), x) ==
            if x == k then v else if x == l then w else if x == m then u else Undefined
  {
    hide Get;
    GetHead(Member(m, u), Nil, x);
    GetHead(Member(l, w), Cons(Member(m, u), Nil), x);
    GetHead(Member(k, v), Cons(Member(l, w), Cons(Member(m, u), Nil)), x);
    NoMember(x);
  }

  lemma NoMember(x: string)
    ensures Get(Nil, x) == Undefined
  {}

  lemma HasOfOne(k: string, v: Json, x: string)
    ensures Has(Cons(Member(k, v), Nil), x) <==> x == k
    ensures x == k ==> Get(Cons(Member(k, v), Nil), x) == v
  {}

  lemma StructuralShape(v: Json)
    ensures Shape(One("Var", v)) == Some(VarForm(v))
    ensures Shape(One("Value", v)) == Some(ValueForm(v))
    ensures Shape(One("Set", v)) == Some(SetForm(v))
    ensures Shape(One("Record", v)) == Some(RecordForm(v))
    ensures Shape(One(".", v)) == Some(AttrForm(v))
    ensures Shape(One("has", v)) == Some(HasForm(v))
    ensures Shape(One("like", v)) == Some(LikeForm(v))
    ensures Shape(One("is", v)) == Some(IsForm(v))
    ensures Shape(One("if-then-else", v)) == Some(IfForm(v))
  {
    hide KeyForm;
    KeyShape("Var", v); KeyShape("Value", v); KeyShape("Set", v); KeyShape("Record", v); KeyShape(".", v);
    KeyShape("has", v); KeyShape("like", v); KeyShape("is", v); KeyShape("if-then-else", v);
  }

  /** The key tests on an object with one key. */
  lemma KeyShape(k: string, v: Json)
    ensures Shape(One(k, v)) == Some(
              if k == "Var" then VarForm(v) else if k == "Value" then ValueForm(v) else if k == "Set" then SetForm(v)
              else if k == "Record" then RecordForm(v) else if k == "." then AttrForm(v)
              else if k == "has" then HasForm(v)
              else if k == "like" then LikeForm(v) else if k == "is" then IsForm(v)
              else if k == "if-then-else" then IfForm(v) else KeyForm(k, v))
  {
    hide Has, Get, KeyForm;
    HasOfOne(k, v, "Var");
    HasOfOne(k, v, "Value");
    HasOfOne(k, v, "Set");
    HasOfOne(k, v, "Record");
    HasOfOne(k, v, ".");
    HasOfOne(k, v, "has"); HasOfOne(k, v, "like"); HasOfOne(k, v, "is"); HasOfOne(k, v, "if-then-else");
  }

  // ---- reading back what each printer case wrote ----

  /** Binary and unary operators are told apart from all other keys. */
  lemma OperatorForms(op: string, v: Json)
    ensures BinaryOperator(op) ==> op !in STRUCTURAL && KeyForm(op, v) == BinaryForm(op, v)
    ensures UnaryOperator(op) ==> op !in STRUCTURAL && !BinaryOperator(op) && KeyForm(op, v) == UnaryForm(op, v)
  {
    OperatorsExactly(op);
    OperatorsAreNames(op);
    hide BINARY_OPS, UNARY_OPS, BinaryOperator, UnaryOperator, STRUCTURAL;
  }

  lemma OperatorsAreNames(op: string)
    ensures BinaryOperator(op) || UnaryOperator(op) ==> op != "" && op !in STRUCTURAL
    ensures UnaryOperator(op) ==> !BinaryOperator(op)
  {}

  lemma ReadsForm(node: Json, form: Form, depth: nat)
    requires depth <= MAX_DEPTH && Shape(node) == Some(form)
    ensures ToIr(node, depth) == FormToIr(node, form, depth + 1)
  {
    hide Shape, FormToIr;
  }

  lemma PartReads(v: Json, k: string, x: Json, d: nat)
    requires v.Obj? && Prop(v, k) == x
    ensures PartToIr(v, k, d) == ToIr(x, d)
  {
    hide ToIr, Prop, Size, SizeMembers;
  }

  lemma ReadsSet(items: List<Json>, depth: nat)
    requires depth <= MAX_DEPTH
    ensures var r := ToIrs(items, depth + 1);
            ToIr(One("Set", Arr(items)), depth) == if r.Ok? then Ok(SetOf(r.value)) else Err(r.error)
  {
    hide ToIr, PartToIr, Shape, Prop, Size, SizeMembers, Get, Has, ToPairs, Truthy, Entries, ValueToIr;
    var v := Arr(items);
    assert Shape(One("Set", v)) == Some(SetForm(v)) by { StructuralShape(v); }
    ReadsForm(One("Set", v), SetForm(v), depth);
  }

  lemma ReadsRecord(ms: List<Member>, depth: nat)
    requires depth <= MAX_DEPTH
    ensures var r := ToPairs(ms, depth + 1);
            ToIr(One("Record", Obj(ms)), depth) == if r.Ok? then Ok(RecordOf(r.value)) else Err(r.error)
  {
    hide ToIr, PartToIr, Shape, Prop, Size, SizeMembers, Get, Has, ToIrs, ToPairs, Truthy, ValueToIr;
    var v := Obj(ms);
    assert Shape(One("Record", v)) == Some(RecordForm(v)) by { StructuralShape(v); }
    ReadsForm(One("Record", v), RecordForm(v), depth);
  }

  lemma ReadsAttr(l: Json, x: Json, depth: nat)
    requires depth <= MAX_DEPTH
    ensures var r := ToIr(l, depth + 1);
            && ToIr(One(".", Two("left", l, "attr", x)), depth) ==
                 (if r.Ok? then Ok(Attr(r.value, x, NO_NOTE)) else Err(r.error))
            && ToIr(One("has", Two("left", l, "attr", x)), depth) ==
                 (if r.Ok? then Ok(HasAttr(r.value, x)) else Err(r.error))
  {
    hide ToIr, PartToIr, Shape, Prop, Size, SizeMembers, Get, Has, ToIrs, ToPairs, Truthy, Entries, ValueToIr;
    var v := Two("left", l, "attr", x);
    assert Prop(v, "left") == l && Prop(v, "attr") == x by {
      PropsOfTwo("left", l, "attr", x, "left"); PropsOfTwo("left", l, "attr", x, "attr");
    }
    PartReads(v, "left", l, depth + 1);
    assert Shape(One(".", v)) == Some(AttrForm(v)) && Shape(One("has", v)) == Some(HasForm(v)) by {
      StructuralShape(v);
    }
    ReadsForm(One(".", v), AttrForm(v), depth);
    ReadsForm(One("has", v), HasForm(v), depth);
  }

  lemma ReadsLike(l: Json, x: Json, depth: nat)
    requires depth <= MAX_DEPTH
    ensures var r := ToIr(l, depth + 1);
            ToIr(One("like", Two("left", l, "pattern", x)), depth) ==
              if r.Ok? then Ok(Like(r.value, x)) else Err(r.error)
  {
    hide ToIr, PartToIr, Shape, Prop, Size, SizeMembers, Get, Has, ToIrs, ToPairs, Truthy, Entries, ValueToIr;
    var v := Two("left", l, "pattern", x);
    assert Prop(v, "left") == l && Prop(v, "pattern") == x by {
      PropsOfTwo("left", l, "pattern", x, "left"); PropsOfTwo("left", l, "pattern", x, "pattern");
    }
    PartReads(v, "left", l, depth + 1);
    assert Shape(One("like", v)) == Some(LikeForm(v)) by { StructuralShape(v); }
    ReadsForm(One("like", v), LikeForm(v), depth);
  }

  lemma UndefinedIsFalsy()
    ensures !Truthy(Undefined)
  {}

  lemma ReadsIs(l: Json, x: Json, depth: nat)
    requires depth <= MAX_DEPTH
    ensures var r := ToIr(l, depth + 1);
            ToIr(One("is", Two("left", l, "entity_type", x)), depth) ==
              if r.Ok? then Ok(Is(r.value, x, None)) else Err(r.error)
  {
    hide ToIr, PartToIr, Shape, Prop, Size, SizeMembers, Get, Has, ToIrs, ToPairs, Truthy, Entries, ValueToIr;
    var v := Two("left", l, "entity_type", x);
    assert Prop(v, "left") == l && Prop(v, "entity_type") == x && Prop(v, "in") == Undefined by {
      PropsOfTwo("left", l, "entity_type", x, "left"); PropsOfTwo("left", l, "entity_type", x, "entity_type");
      PropsOfTwo("left", l, "entity_type", x, "in");
    }
    PartReads(v, "left", l, depth + 1);
    UndefinedIsFalsy();
    assert Shape(One("is", v)) == Some(IsForm(v)) by { StructuralShape(v); }
    ReadsForm(One("is", v), IsForm(v), depth);
  }

  lemma ReadsIsIn(l: Json, x: Json, w: Json, depth: nat)
    requires depth <= MAX_DEPTH
    ensures var r, s := ToIr(l, depth + 1), ToIr(w, depth + 1);
            ToIr(One("is", Three("left", l, "entity_type", x, "in", w)), depth) ==
            if r.Err? then Err(r.error)
            else if !Truthy(w) then Ok(Is(r.value, x, None))
            else if s.Err? then Err(s.error) else Ok(Is(r.value, x, Some(s.value)))
  {
    hide ToIr, PartToIr, Shape, Prop, Size, SizeMembers, Get, Has, ToIrs, ToPairs, Truthy, Entries, ValueToIr;
    var v := Three("left", l, "entity_type", x, "in", w);
    assert Prop(v, "left") == l && Prop(v, "entity_type") == x && Prop(v, "in") == w by {
      PropsOfThree("left", l, "entity_type", x, "in", w, "left");
      PropsOfThree("left", l, "entity_type", x, "in", w, "entity_type");
      PropsOfThree("left", l, "entity_type", x, "in", w, "in");
    }
    PartReads(v, "left", l, depth + 1);
    PartReads(v, "in", w, depth + 1);
    assert Shape(One("is", v)) == Some(IsForm(v)) by { StructuralShape(v); }
    ReadsForm(One("is", v), IsForm(v), depth);
  }

  lemma ReadsIf(c: Json, y: Json, n: Json, depth: nat)
    requires depth <= MAX_DEPTH
    ensures var r, s, t := ToIr(c, depth + 1), ToIr(y, depth + 1), ToIr(n, depth + 1);
            ToIr(One("if-then-else", Three("if", c, "then", y, "else", n)), depth) ==
            if r.Err? then Err(r.error) else if s.Err? then Err(s.error) else if t.Err? then Err(t.error)
            else Ok(If(r.value, s.value, t.value))
  {
    hide ToIr, PartToIr, Shape, Prop, Size, SizeMembers, Get, Has, ToIrs, ToPairs, Truthy, Entries, ValueToIr;
    var v := Three("if", c, "then", y, "else", n);
    assert Prop(v, "if") == c && Prop(v, "then") == y && Prop(v, "else") == n by {
      PropsOfThree("if", c, "then", y, "else", n, "if");
      PropsOfThree("if", c, "then", y, "else", n, "then");
      PropsOfThree("if", c, "then", y, "else", n, "else");
    }
    PartReads(v, "if", c, depth + 1);
    PartReads(v, "then", y, depth + 1);
    PartReads(v, "else", n, depth + 1);
    assert Shape(One("if-then-else", v)) == Some(IfForm(v)) by { StructuralShape(v); }
    ReadsForm(One("if-then-else", v), IfForm(v), depth);
  }

  lemma ReadsBinary(op: string, l: Json, r: Json, depth: nat)
    requires depth <= MAX_DEPTH && BinaryOperator(op)
    ensures var a, b := ToIr(l, depth + 1), ToIr(r, depth + 1);
            ToIr(One(op, Two("left", l, "right", r)), depth) ==
            if a.Err? then Err(a.error) else if b.Err? then Err(b.error) else Ok(Binary(op, a.value, b.value))
  {
    hide ToIr, PartToIr, Shape, Prop, KeyForm;
    var v := Two("left", l, "right", r);
    KeyShape(op, v);
    OperatorForms(op, v);
    PropsOfTwo("left", l, "right", r, "left"); PropsOfTwo("left", l, "right", r, "right");
    PartReads(v, "left", l, depth + 1);
    PartReads(v, "right", r, depth + 1);
    ReadsForm(One(op, v), BinaryForm(op, v), depth);
  }

  lemma ReadsUnary(op: string, x: Json, depth: nat)
    requires depth <= MAX_DEPTH && UnaryOperator(op)
    ensures var a := ToIr(x, depth + 1);
            ToIr(One(op, One("arg", x)), depth) == if a.Err? then Err(a.error) else Ok(Unary(op, a.value))
  {
    hide ToIr, PartToIr, Shape, Prop, KeyForm;
    var v := One("arg", x);
    KeyShape(op, v);
    OperatorForms(op, v);
    PropOfOne("arg", x);
    PartReads(v, "arg", x, depth + 1);
    ReadsForm(One(op, v), UnaryForm(op, v), depth);
  }

  lemma PropOfOne(k: string, v: Json)
    ensures Prop(One(k, v), k) == v
  {}

  lemma ReadsExt(fn: string, items: List<Json>, depth: nat)
    requires depth <= MAX_DEPTH && Free(fn)
    ensures var r := ToIrs(items, depth + 1);
            ToIr(One(fn, Arr(items)), depth) == if r.Ok? then Ok(Ext(fn, r.value)) else Err(r.error)
  {
    hide ToIr, Shape;
    OperatorsExactly(fn);
    hide BINARY_OPS, UNARY_OPS, BinaryOperator, UnaryOperator;
    KeyShape(fn, Arr(items));
    ReadsForm(One(fn, Arr(items)), ExtForm(fn, items), depth);
  }

  /** Only an operator's own key reads as that operator, and only a free name as an extension call. */
  lemma KeysAreDecisive(k: string, v: Json, depth: nat)
    requires ToIr(One(k, v), depth).Ok?
    ensures ToIr(One(k, v), depth).value.Binary? ==> BinaryOperator(k)
    ensures ToIr(One(k, v), depth).value.Unary? ==> UnaryOperator(k)
    ensures ToIr(One(k, v), depth).value.Ext? ==> Free(k)
  {
    KeyShape(k, v);
    OperatorsExactly(k);
    hide Shape, Prop, BINARY_OPS, UNARY_OPS, BinaryOperator, UnaryOperator;
  }

  lemma TooDeepFails(node: Json, depth: nat)
    ensures depth > MAX_DEPTH ==> ToIr(node, depth) == Err(TooDeep)
  {}

  lemma ReadsVar(name: Json, depth: nat)
    requires depth <= MAX_DEPTH
    ensures ToIr(One("Var", name), depth) == Ok(Var(name))
  {
    hide ToIr, Shape;
    assert Shape(One("Var", name)) == Some(VarForm(name)) by { StructuralShape(name); }
    ReadsForm(One("Var", name), VarForm(name), depth);
  }

  lemma ReadsValue(v: Json, depth: nat)
    requires depth <= MAX_DEPTH
    ensures ToIr(One("Value", v), depth) == ValueToIr(One("Value", v), v)
  {
    hide ToIr, Shape, ValueToIr;
    assert Shape(One("Value", v)) == Some(ValueForm(v)) by { StructuralShape(v); }
    ReadsForm(One("Value", v), ValueForm(v), depth);
  }

  lemma ReadsEntity(e: EntityRef)
    ensures Entity(EntityJson(e)) == Ok(e)
  {
    hide Prop;
    PropsOfTwo("type", e.entityType, "id", e.id, "type"); PropsOfTwo("type", e.entityType, "id", e.id, "id");
  }

  lemma ReadsEntityValue(e: EntityRef, node: Json)
    ensures ValueToIr(node, One("__entity", EntityJson(e))) == Ok(LitEntity(e))
  {
    hide Prop, EntityJson, Entity;
    PropOfOne("__entity", EntityJson(e));
    HasOfOne("__entity", EntityJson(e), "__entity");
    ReadsEntity(e);
  }

  lemma ReadsRaw(est: Json, depth: nat)
    requires depth <= MAX_DEPTH
    ensures ToIr(est, depth) == Ok(Raw(est)) <==> Escapes(est)
  {
    hide Shape, Prop, ToIrs, ToPairs, PartToIr, Entries;
  }

  /** A kept `in` part is never mistaken for a missing one. */
  lemma RegularIsTruthy(e: Expr)
    requires Regular(e) && ToEst(e).Ok?
    ensures Truthy(ToEst(e).value)
  {
    hide Regular, Two, Three, FromEntries;
    if e.Raw? { EscapesIsObject(e.est); }
  }

  lemma EscapesIsObject(est: Json)
    ensures Regular(Raw(est)) ==> est.Obj? || est.Arr?
  {}

  lemma {:induction false} NamesRead(ms: List<Member>, d: nat)
    ensures ToPairs(ms, d).Ok? ==> PairNames(ToPairs(ms, d).value) == Names(ms)
  {
    hide ToIr;
    if ms.Cons? { NamesRead(ms.tail, d); }
  }

  lemma {:induction false} NamesOfStrip(ps: List<Pair>)
    ensures PairNames(StripPairs(ps)) == PairNames(ps)
  {
    if ps.Cons? { NamesOfStrip(ps.tail); }
  }

  // ---- the round trip ----

  predicate Survives(e: Expr, depth: nat) {
    ToEst(e).Ok? && ToIr(ToEst(e).value, depth) == Ok(Strip(e))
  }

  predicate AllSurvive(es: List<Expr>, d: nat) {
    ToEsts(es).Ok? && ToIrs(ToEsts(es).value, d) == Ok(StripAll(es))
  }

  predicate PairsSurvive(ps: List<Pair>, d: nat) {
    ToMembers(ps).Ok? && ToPairs(ToMembers(ps).value, d) == Ok(StripPairs(ps))
  }

  ghost predicate Exact(e: Expr, depth: nat) {
    Survives(e, depth) <==> Regular(e) && depth + Nesting(e) <= MAX_DEPTH
  }

  lemma AccessExact(of: Expr, x: Json, note: Note, depth: nat)
    requires HoleFree(of) && depth <= MAX_DEPTH && Exact(of, depth + 1)
    ensures Exact(Attr(of, x, note), depth) && Exact(HasAttr(of, x), depth)
  {
    hide ToIr;
    PrintsExactly(of);
    ReadsAttr(ToEst(of).value, x, depth);
  }

  lemma TestExact(of: Expr, x: Json, depth: nat)
    requires HoleFree(of) && depth <= MAX_DEPTH && Exact(of, depth + 1)
    ensures Exact(Like(of, x), depth) && Exact(Is(of, x, None), depth)
  {
    hide ToIr;
    PrintsExactly(of);
    ReadsLike(ToEst(of).value, x, depth);
    ReadsIs(ToEst(of).value, x, depth);
  }

  lemma IsInSurvives(of: Expr, t: Json, w: Expr, depth: nat)
    requires HoleFree(of) && HoleFree(w) && depth <= MAX_DEPTH
    ensures Survives(Is(of, t, Some(w)), depth) <==>
            Survives(of, depth + 1) && Survives(w, depth + 1) && ToEst(w).Ok? && Truthy(ToEst(w).value)
  {
    hide ToIr, Truthy, HoleFree;
    PrintsExactly(of); PrintsExactly(w);
    ReadsIsIn(ToEst(of).value, t, ToEst(w).value, depth);
  }

  lemma IsInExact(of: Expr, t: Json, w: Expr, depth: nat)
    requires HoleFree(of) && HoleFree(w) && depth <= MAX_DEPTH && Exact(of, depth + 1) && Exact(w, depth + 1)
    ensures Exact(Is(of, t, Some(w)), depth)
  {
    hide Survives, ToEst, Truthy, HoleFree;
    IsInSurvives(of, t, w, depth);
    PrintsExactly(w);
    if Regular(w) { RegularIsTruthy(w); }
  }

  lemma IfSurvives(cond: Expr, yes: Expr, no: Expr, depth: nat)
    requires HoleFree(cond) && HoleFree(yes) && HoleFree(no) && depth <= MAX_DEPTH
    ensures Survives(If(cond, yes, no), depth) <==>
            Survives(cond, depth + 1) && Survives(yes, depth + 1) && Survives(no, depth + 1)
  {
    hide ToIr, HoleFree;
    PrintsExactly(cond); PrintsExactly(yes); PrintsExactly(no);
    ReadsIf(ToEst(cond).value, ToEst(yes).value, ToEst(no).value, depth);
  }

  lemma IfExact(cond: Expr, yes: Expr, no: Expr, depth: nat)
    requires HoleFree(cond) && HoleFree(yes) && HoleFree(no) && depth <= MAX_DEPTH
    requires Exact(cond, depth + 1) && Exact(yes, depth + 1) && Exact(no, depth + 1)
    ensures Exact(If(cond, yes, no), depth)
  {
    hide Survives, HoleFree;
    IfSurvives(cond, yes, no, depth);
  }

  lemma BinaryExact(op: string, left: Expr, right: Expr, depth: nat)
    requires HoleFree(left) && HoleFree(right) && depth <= MAX_DEPTH
    requires Exact(left, depth + 1) && Exact(right, depth + 1)
    ensures Exact(Binary(op, left, right), depth)
  {
    hide ToIr, BinaryOperator;
    PrintsExactly(left); PrintsExactly(right);
    if BinaryOperator(op) {
      ReadsBinary(op, ToEst(left).value, ToEst(right).value, depth);
    } else if Survives(Binary(op, left, right), depth) {
      KeysAreDecisive(op, Two("left", ToEst(left).value, "right", ToEst(right).value), depth);
    }
  }

  lemma UnaryExact(op: string, operand: Expr, depth: nat)
    requires HoleFree(operand) && depth <= MAX_DEPTH && Exact(operand, depth + 1)
    ensures Exact(Unary(op, operand), depth)
  {
    hide ToIr, UnaryOperator;
    PrintsExactly(operand);
    if UnaryOperator(op) {
      ReadsUnary(op, ToEst(operand).value, depth);
    } else if Survives(Unary(op, operand), depth) {
      KeysAreDecisive(op, One("arg", ToEst(operand).value), depth);
    }
  }

  lemma LeafExact(e: Expr, depth: nat)
    requires e.Var? || e.Lit? || e.LitEntity? || e.Raw?
    requires depth <= MAX_DEPTH
    ensures Exact(e, depth)
  {
    hide ToIr, EntityJson, Escapes, ValueToIr;
    match e
    case Var(name) => ReadsVar(name, depth);
    case Lit(t, v) => LitSurvives(t, v, depth);
    case LitEntity(entity) =>
      ReadsValue(One("__entity", EntityJson(entity)), depth);
      ReadsEntityValue(entity, ToEst(e).value);
    case Raw(est) => ReadsRaw(est, depth);
  }

  /**
   A hole-free tree, printed and read back at some depth, is the tree without its
   display annotations exactly when it is regular and fits under the depth limit.
   */
  lemma {:induction false} SurvivesExactly(e: Expr, depth: nat)
    requires HoleFree(e)
    ensures Survives(e, depth) <==> Regular(e) && depth + Nesting(e) <= 400
    decreases e, 0
  {
    hide ToIr, ToEst, Regular, Nesting, Strip, Survives;
    assert Exact(e, depth) by {
      if depth > MAX_DEPTH {
        PastTheLimit(e, depth);
      } else {
        hide Exact;
        match e
        case SetOf(elements) => SetSurvives(elements, depth);
        case RecordOf(pairs) => RecordSurvives(pairs, depth);
        case Attr(of, x, note) => ExactAt(of, depth + 1); AccessExact(of, x, note, depth);
        case HasAttr(of, x) => ExactAt(of, depth + 1); AccessExact(of, x, NO_NOTE, depth);
        case Like(of, x) => ExactAt(of, depth + 1); TestExact(of, x, depth);
        case Is(of, t, None) => ExactAt(of, depth + 1); TestExact(of, t, depth);
        case Is(of, t, Some(w)) => ExactAt(of, depth + 1); ExactAt(w, depth + 1); IsInExact(of, t, w, depth);
        case If(cond, yes, no) =>
          ExactAt(cond, depth + 1); ExactAt(yes, depth + 1); ExactAt(no, depth + 1);
          IfExact(cond, yes, no, depth);
        case Binary(op, left, right) =>
          ExactAt(left, depth + 1); ExactAt(right, depth + 1);
          BinaryExact(op, left, right, depth);
        case Unary(op, operand) => ExactAt(operand, depth + 1); UnaryExact(op, operand, depth);
        case Ext(fn, args) => ExtSurvives(fn, args, depth);
        case _ => LeafExact(e, depth);
      }
    }
  }

  lemma {:induction false} ExactAt(e: Expr, depth: nat)
    requires HoleFree(e)
    ensures Exact(e, depth)
    decreases e, 1
  {
    SurvivesExactly(e, depth);
  }

  lemma PastTheLimit(e: Expr, depth: nat)
    requires depth > MAX_DEPTH
    ensures !Survives(e, depth)
  {
    hide ToEst, FormToIr;
    if ToEst(e).Ok? { TooDeepFails(ToEst(e).value, depth); }
  }

  lemma {:induction false} SetSurvives(elements: List<Expr>, depth: nat)
    requires HoleFreeAll(elements) && depth <= MAX_DEPTH
    ensures Exact(SetOf(elements), depth)
    decreases elements, 1
  {
    hide ToIr, ToIrs;
    PrintsAll(elements);
    AllSurviveExactly(elements, depth + 1);
    ReadsSet(ToEsts(elements).value, depth);
  }

  lemma LitSurvives(t: LitType, v: Json, depth: nat)
    requires depth <= MAX_DEPTH
    ensures Survives(Lit(t, v), depth) <==> Typed(t, v)
  {
    hide ToIr, Has;
    ReadsValue(v, depth);
  }

  lemma ExtSurvivesWhen(fn: string, args: List<Expr>, depth: nat)
    requires HoleFreeAll(args) && depth <= MAX_DEPTH
    ensures Survives(Ext(fn, args), depth) <==> Free(fn) && AllSurvive(args, depth + 1)
  {
    hide ToIr, ToIrs, BinaryOperator, UnaryOperator, STRUCTURAL;
    PrintsAll(args);
    if Free(fn) {
      ReadsExt(fn, ToEsts(args).value, depth);
    } else if Survives(Ext(fn, args), depth) {
      KeysAreDecisive(fn, Arr(ToEsts(args).value), depth);
    }
  }

  lemma {:induction false} ExtSurvives(fn: string, args: List<Expr>, depth: nat)
    requires HoleFreeAll(args) && depth <= MAX_DEPTH
    ensures Exact(Ext(fn, args), depth)
    decreases args, 1
  {
    hide Survives, AllSurvive, BinaryOperator, UnaryOperator, STRUCTURAL;
    ExtSurvivesWhen(fn, args, depth);
    AllSurviveExactly(args, depth + 1);
    assert Nesting(Ext(fn, args)) == Deepest(args) && (args.Nil? ==> Deepest(args) == 0);
    assert Regular(Ext(fn, args)) <==> Free(fn) && RegularAll(args);
  }

  lemma {:induction false} RecordSurvives(pairs: List<Pair>, depth: nat)
    requires HoleFreePairs(pairs) && depth <= MAX_DEPTH
    ensures Exact(RecordOf(pairs), depth)
    decreases pairs, 1
  {
    hide ToIr, ToPairs, FromEntries, OwnOrder;
    PrintsPairs(pairs);
    var ms := ToMembers(pairs).value;
    PairsSurviveExactly(pairs, depth + 1);
    FromEntriesExactly(ms);
    ReadsRecord(FromEntries(ms), depth);
    NamesRead(FromEntries(ms), depth + 1);
    NamesOfStrip(pairs);
  }

  lemma {:induction false} AllSurviveExactly(es: List<Expr>, d: nat)
    requires HoleFreeAll(es)
    ensures AllSurvive(es, d) <==> RegularAll(es) && (es.Nil? || d - 1 + Deepest(es) <= MAX_DEPTH)
    decreases es, 0
  {
    hide ToIr, ToEst, Regular;
    PrintsAll(es);
    if es.Cons? {
      SurvivesExactly(es.head, d);
      AllSurviveExactly(es.tail, d);
    }
  }

  lemma {:induction false} PairsSurviveExactly(ps: List<Pair>, d: nat)
    requires HoleFreePairs(ps)
    ensures PairsSurvive(ps, d) <==> RegularPairs(ps) && (ps.Nil? || d - 1 + DeepestPair(ps) <= MAX_DEPTH)
    decreases ps, 0
  {
    hide ToIr, ToEst, Regular;
    PrintsPairs(ps);
    if ps.Cons? {
      SurvivesExactly(ps.head.value, d);
      PairsSurviveExactly(ps.tail, d);
    }
  }
}
