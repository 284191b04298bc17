/**
 Reading EST and printing it back: exactly which documents survive, and how deep they
 may nest.  Documents are compared in canonical form, so member order is ignored.
 */
module EstRoundTrips {
  import opened BlockIr
  import opened IrRoundTrips
  import opened Jsons
  import opened Options
  import opened OwnKeys

  /** An object with just these keys. */
  predicate Only(j: Json, keys: set<string>) { j.Obj? && KeySet(j.members) == keys }

  predicate IsLiteral(v: Json) { v.Num? || v.Str? || v.Bool? }

  /**
   Well-formed EST: a recognised operator key is the object's only key, its inner
   record has exactly the expected fields, and so on below; what is not recognised is
   carried whole.
   */
  predicate Faithful(node: Json)
    decreases Size(node)
  {
    match Shape(node)
    case None => false
    case Some(VarForm(_)) => Only(node, {"Var"})
    case Some(ValueForm(v)) =>
      if IsEntityValue(v) then
        Only(node, {"Value"}) && Only(v, {"__entity"}) && Only(Prop(v, "__entity"), {"type", "id"})
      else IsLiteral(v) ==> Only(node, {"Value"})
    case Some(SetForm(v)) => Only(node, {"Set"}) && v.Arr? && FaithfulItems(v.items)
    case Some(RecordForm(v)) => Only(node, {"Record"}) && v.Obj? && FaithfulMembers(v.members)
    case Some(AttrForm(v)) => Only(node, {"."}) && Only(v, {"left", "attr"}) && Faithful(Prop(v, "left"))
    case Some(HasForm(v)) => Only(node, {"has"}) && Only(v, {"left", "attr"}) && Faithful(Prop(v, "left"))
    case Some(LikeForm(v)) => Only(node, {"like"}) && Only(v, {"left", "pattern"}) && Faithful(Prop(v, "left"))
    case Some(IsForm(v)) =>
      && Only(node, {"is"})
      && (Only(v, {"left", "entity_type"}) || (Only(v, {"left", "entity_type", "in"}) && Faithful(Prop(v, "in"))))
      && Faithful(Prop(v, "left"))
    case Some(IfForm(v)) =>
      && Only(node, {"if-then-else"}) && Only(v, {"if", "then", "else"})
      && Faithful(Prop(v, "if")) && Faithful(Prop(v, "then")) && Faithful(Prop(v, "else"))
    case Some(BinaryForm(op, v)) =>
      Only(v, {"left", "right"}) && Faithful(Prop(v, "left")) && Faithful(Prop(v, "right"))
    case Some(UnaryForm(op, v)) => Only(v, {"arg"}) && Faithful(Prop(v, "arg"))
    case Some(ExtForm(_, args)) => node.Obj? && FaithfulItems(args)
    case Some(RawForm) => true
  }

  predicate FaithfulItems(nodes: List<Json>)
    decreases SizeItems(nodes)
  {
    nodes.Cons? ==> Faithful(nodes.head) && FaithfulItems(nodes.tail)
  }

  predicate FaithfulMembers(ms: List<Member>)
    decreases SizeMembers(ms)
  {
    ms.Cons? ==> Faithful(ms.head.value) && FaithfulMembers(ms.tail)
  }

  // ---- the reader never makes a hole ----

  lemma {:induction false} ReadsNoHole(node: Json, depth: nat)
    requires ToIr(node, depth).Ok?
    ensures HoleFree(ToIr(node, depth).value)
    decreases MAX_DEPTH + 1 - depth, 0
  {
    hide Shape, Prop, Truthy, Entries, ToIrs, ToPairs, PartToIr;
    var d := depth + 1;
    match Shape(node).value
    case SetForm(v) => ReadsNoHoles(v.items, d);
    case RecordForm(v) => ReadsNoHoleIn(Entries(v).value, d);
    case AttrForm(v) => PartHasNoHole(v, "left", d);
    case HasForm(v) => PartHasNoHole(v, "left", d);
    case LikeForm(v) => PartHasNoHole(v, "left", d);
    case IsForm(v) => PartHasNoHole(v, "left", d); PartHasNoHole(v, "in", d);
    case IfForm(v) => PartHasNoHole(v, "if", d); PartHasNoHole(v, "then", d); PartHasNoHole(v, "else", d);
    case BinaryForm(_, v) => PartHasNoHole(v, "left", d); PartHasNoHole(v, "right", d);
    case UnaryForm(_, v) => PartHasNoHole(v, "arg", d);
    case ExtForm(_, args) => ReadsNoHoles(args, d);
    case _ =>
  }

  lemma {:induction false} PartHasNoHole(v: Json, k: string, d: nat)
    ensures PartToIr(v, k, d).Ok? ==> HoleFree(PartToIr(v, k, d).value)
    decreases MAX_DEPTH + 1 - d, 1
  {
    hide ToIr, Prop;
    if PartToIr(v, k, d).Ok? { ReadsNoHole(Prop(v, k), d); }
  }

  lemma {:induction false} ReadsNoHoles(nodes: List<Json>, d: nat)
    ensures ToIrs(nodes, d).Ok? ==> HoleFreeAll(ToIrs(nodes, d).value)
    decreases MAX_DEPTH + 1 - d, 1, nodes
  {
    hide ToIr;
    if nodes.Cons? && ToIrs(nodes, d).Ok? { ReadsNoHole(nodes.head, d); ReadsNoHoles(nodes.tail, d); }
  }

  lemma {:induction false} ReadsNoHoleIn(ms: List<Member>, d: nat)
    ensures ToPairs(ms, d).Ok? ==> HoleFreePairs(ToPairs(ms, d).value)
    decreases MAX_DEPTH + 1 - d, 1, ms
  {
    hide ToIr;
    if ms.Cons? && ToPairs(ms, d).Ok? { ReadsNoHole(ms.head.value, d); ReadsNoHoleIn(ms.tail, d); }
  }

  // ---- canonical forms of small objects ----

  lemma KeysOfCanon(ms: List<Member>)
    ensures CanonMembers(ms).Keys == KeySet(ms)
    ensures forall k :: k in CanonMembers(ms) ==> CanonMembers(ms)[k] == Canon(Get(ms, k))
  {
    hide Canon, CanonMembers, KeySet, Get, Has;
    forall k: string
      ensures k in CanonMembers(ms) <==> k in KeySet(ms)
      ensures k in CanonMembers(ms) ==> CanonMembers(ms)[k] == Canon(Get(ms, k))
    {
      CanonKeys(ms, k);
    }
  }

  lemma RecordIs(m: map<string, Canonical>, j: Json)
    ensures Record(m) == Canon(j) <==> Only(j, m.Keys) && forall k :: k in m ==> m[k] == Canon(Prop(j, k))
  {
    hide KeySet, Get, CanonMembers, Size, SizeMembers;
    if j.Obj? {
      KeysOfCanon(j.members);
      if Only(j, m.Keys) && forall k :: k in m ==> m[k] == Canon(Prop(j, k)) {
        assert CanonMembers(j.members) == m;
      }
    }
  }

  lemma OneIs(k: string, v: Json, j: Json)
    ensures Canon(One(k, v)) == Canon(j) <==> Only(j, {k}) && Canon(v) == Canon(Prop(j, k))
  {
    var m := map[k := Canon(v)];
    assert Canon(One(k, v)) == Record(m) by { assert CanonMembers(Nil) == map[]; }
    hide Canon, Only, Prop, One;
    assert m.Keys == {k};
    RecordIs(m, j);
  }

  lemma CanonOfTwo(k: string, v: Json, l: string, w: Json)
    requires k != l
    ensures Canon(Two(k, v, l, w)) == Record(map[k := Canon(v), l := Canon(w)])
  {
    assert CanonMembers(Cons(Member(l, w), Nil)) == map[l := Canon(w)];
    assert map[l := Canon(w)][k := Canon(v)] == map[k := Canon(v), l := Canon(w)];
  }

  lemma TwoIs(k: string, v: Json, l: string, w: Json, j: Json)
    requires k != l
    ensures Canon(Two(k, v, l, w)) == Canon(j) <==>
            Only(j, {k, l}) && Canon(v) == Canon(Prop(j, k)) && Canon(w) == Canon(Prop(j, l))
  {
    hide Canon, Only, Prop, Two;
    CanonOfTwo(k, v, l, w);
    var m := map[k := Canon(v), l := Canon(w)];
    assert m.Keys == {k, l};
    RecordIs(m, j);
  }

  lemma CanonOfThree(k: string, v: Json, l: string, w: Json, n: string, x: Json)
    requires k != l && l != n && k != n
    ensures Canon(Three(k, v, l, w, n, x)) == Record(map[k := Canon(v), l := Canon(w), n := Canon(x)])
  {
    CanonOfTwo(l, w, n, x);
    assert map[l := Canon(w), n := Canon(x)][k := Canon(v)] == map[k := Canon(v), l := Canon(w), n := Canon(x)];
  }

  lemma ThreeIs(k: string, v: Json, l: string, w: Json, n: string, x: Json, j: Json)
    requires k != l && l != n && k != n
    ensures Canon(Three(k, v, l, w, n, x)) == Canon(j) <==>
            && Only(j, {k, l, n}) && Canon(v) == Canon(Prop(j, k)) && Canon(w) == Canon(Prop(j, l))
            && Canon(x) == Canon(Prop(j, n))
  {
    hide Canon, Only, Prop, Three;
    CanonOfThree(k, v, l, w, n, x);
    var m := map[k := Canon(v), l := Canon(w), n := Canon(x)];
    assert m.Keys == {k, l, n};
    RecordIs(m, j);
  }

  // ---- printing what was read ----

  /** `e` can be printed, and as the document `node` exactly when that is well-formed. */
  ghost predicate Prints(e: Expr, node: Json) {
    ToEst(e).Ok? && (Canon(ToEst(e).value) == Canon(node) <==> Faithful(node))
  }

  /** The one structural key that decided. */
  lemma KeyDecides(node: Json)
    requires node.Obj? && Shape(node).Some?
    ensures match Shape(node).value
            case VarForm(v) => Prop(node, "Var") == v
            case ValueForm(v) => Prop(node, "Value") == v
            case SetForm(v) => Prop(node, "Set") == v
            case RecordForm(v) => Prop(node, "Record") == v
            case AttrForm(v) => Prop(node, ".") == v
            case HasForm(v) => Prop(node, "has") == v
            case LikeForm(v) => Prop(node, "like") == v
            case IsForm(v) => Prop(node, "is") == v
            case IfForm(v) => Prop(node, "if-then-else") == v
            case BinaryForm(op, v) => Prop(node, op) == v && Only(node, {op})
            case UnaryForm(op, v) => Prop(node, op) == v && Only(node, {op})
            case ExtForm(fn, args) => Prop(node, fn) == Arr(args) && Only(node, {fn})
            case RawForm => true
  {
    hide Has;
    var ms := node.members;
    if ms.Cons? && ms.tail.Nil? {
      assert KeySet(ms) == {ms.head.key};
    }
  }

  lemma IsObject(node: Json)
    ensures Shape(node).Some? && !Shape(node).value.ExtForm? && !Shape(node).value.RawForm? ==> node.Obj?
  {}

  lemma AttrPrints(node: Json, v: Json, of: Expr)
    requires Shape(node) == Some(AttrForm(v)) && Prints(of, Prop(v, "left"))
    ensures Prints(Attr(of, Prop(v, "attr"), NO_NOTE), node)
  {
    hide Shape, Prop, Size, SizeMembers, Canon, Only, One, Two, Three, Truthy;
    var l := ToEst(of).value;
    IsObject(node);
    KeyDecides(node);
    OneIs(".", Two("left", l, "attr", Prop(v, "attr")), node);
    TwoIs("left", l, "attr", Prop(v, "attr"), v);
  }

  lemma HasPrints(node: Json, v: Json, of: Expr)
    requires Shape(node) == Some(HasForm(v)) && Prints(of, Prop(v, "left"))
    ensures Prints(HasAttr(of, Prop(v, "attr")), node)
  {
    hide Shape, Prop, Size, SizeMembers, Canon, Only, One, Two, Three, Truthy;
    var l := ToEst(of).value;
    IsObject(node);
    KeyDecides(node);
    OneIs("has", Two("left", l, "attr", Prop(v, "attr")), node);
    TwoIs("left", l, "attr", Prop(v, "attr"), v);
  }

  lemma LikePrints(node: Json, v: Json, of: Expr)
    requires Shape(node) == Some(LikeForm(v)) && Prints(of, Prop(v, "left"))
    ensures Prints(Like(of, Prop(v, "pattern")), node)
  {
    hide Shape, Prop, Size, SizeMembers, Canon, Only, One, Two, Three, Truthy;
    var l := ToEst(of).value;
    IsObject(node);
    KeyDecides(node);
    OneIs("like", Two("left", l, "pattern", Prop(v, "pattern")), node);
    TwoIs("left", l, "pattern", Prop(v, "pattern"), v);
  }

  lemma KeptPartIsThere(v: Json, k: string)
    ensures v.Obj? && Truthy(Prop(v, k)) ==> k in KeySet(v.members)
  {
    if v.Obj? {
      CanonKeys(v.members, k);
      if !Has(v.members, k) { MissingIsUndefined(v.members, k); }
    }
  }

  lemma FaithfulIsTruthy(node: Json)
    ensures Faithful(node) ==> Truthy(node)
  {}

  /** Without a kept `in` part. */
  lemma IsPrints(node: Json, v: Json, of: Expr)
    requires Shape(node) == Some(IsForm(v)) && Prints(of, Prop(v, "left")) && !Truthy(Prop(v, "in"))
    ensures Prints(Is(of, Prop(v, "entity_type"), None), node)
  {
    hide Shape, Prop, Size, SizeMembers, Canon, Only, One, Two, Three, Truthy;
    var l := ToEst(of).value;
    IsObject(node);
    KeyDecides(node);
    OneIs("is", Two("left", l, "entity_type", Prop(v, "entity_type")), node);
    TwoIs("left", l, "entity_type", Prop(v, "entity_type"), v);
    FaithfulIsTruthy(Prop(v, "in"));
  }

  lemma IsInPrints(node: Json, v: Json, of: Expr, w: Expr)
    requires Shape(node) == Some(IsForm(v)) && Truthy(Prop(v, "in"))
    requires Prints(of, Prop(v, "left")) && Prints(w, Prop(v, "in"))
    ensures Prints(Is(of, Prop(v, "entity_type"), Some(w)), node)
  {
    hide Shape, Prop, Size, SizeMembers, Canon, Only, One, Two, Three, Truthy;
    var l := ToEst(of).value;
    IsObject(node);
    KeyDecides(node);
    OneIs("is", Three("left", l, "entity_type", Prop(v, "entity_type"), "in", ToEst(w).value), node);
    ThreeIs("left", l, "entity_type", Prop(v, "entity_type"), "in", ToEst(w).value, v);
    NotOnlyTwo(v);
  }

  lemma NotOnlyTwo(v: Json)
    ensures Truthy(Prop(v, "in")) ==> !Only(v, {"left", "entity_type"})
  {
    hide Truthy, KeySet;
    KeptPartIsThere(v, "in");
  }

  lemma IfPrints(node: Json, v: Json, cond: Expr, yes: Expr, no: Expr)
    requires Shape(node) == Some(IfForm(v))
    requires Prints(cond, Prop(v, "if")) && Prints(yes, Prop(v, "then")) && Prints(no, Prop(v, "else"))
    ensures Prints(If(cond, yes, no), node)
  {
    hide Shape, Prop, Size, SizeMembers, Canon, Only, One, Two, Three, Truthy;
    var c, y, n := ToEst(cond).value, ToEst(yes).value, ToEst(no).value;
    IsObject(node);
    KeyDecides(node);
    OneIs("if-then-else", Three("if", c, "then", y, "else", n), node);
    ThreeIs("if", c, "then", y, "else", n, v);
  }

  lemma BinaryPrints(node: Json, op: string, v: Json, left: Expr, right: Expr)
    requires Shape(node) == Some(BinaryForm(op, v))
    requires Prints(left, Prop(v, "left")) && Prints(right, Prop(v, "right"))
    ensures Prints(Binary(op, left, right), node)
  {
    hide Shape, Prop, Size, SizeMembers, Canon, Only, One, Two, Three, Truthy;
    var l, r := ToEst(left).value, ToEst(right).value;
    IsObject(node);
    KeyDecides(node);
    OneIs(op, Two("left", l, "right", r), node);
    TwoIs("left", l, "right", r, v);
  }

  lemma UnaryPrints(node: Json, op: string, v: Json, operand: Expr)
    requires Shape(node) == Some(UnaryForm(op, v)) && Prints(operand, Prop(v, "arg"))
    ensures Prints(Unary(op, operand), node)
  {
    hide Shape, Prop, Size, SizeMembers, Canon, Only, One, Two, Three, Truthy;
    var x := ToEst(operand).value;
    IsObject(node);
    KeyDecides(node);
    OneIs(op, One("arg", x), node);
    OneIs("arg", x, v);
  }

  ghost predicate ItemsPrint(es: List<Expr>, nodes: List<Json>) {
    ToEsts(es).Ok? && (CanonItems(ToEsts(es).value) == CanonItems(nodes) <==> FaithfulItems(nodes))
  }

  ghost predicate MembersPrint(ps: List<Pair>, ms: List<Member>) {
    && ToMembers(ps).Ok? && PairNames(ps) == Names(ms)
    && (CanonMembers(ToMembers(ps).value) == CanonMembers(ms) <==> FaithfulMembers(ms))
  }

  lemma SetPrints(node: Json, v: Json, es: List<Expr>)
    requires Shape(node) == Some(SetForm(v)) && v.Arr? && ItemsPrint(es, v.items)
    ensures Prints(SetOf(es), node)
  {
    hide Shape, Prop, Size, SizeMembers, Only, One, CanonItems, CanonMembers;
    IsObject(node);
    KeyDecides(node);
    OneIs("Set", Arr(ToEsts(es).value), node);
  }

  lemma ExtPrints(node: Json, fn: string, args: List<Json>, es: List<Expr>)
    requires Shape(node) == Some(ExtForm(fn, args)) && ItemsPrint(es, args)
    ensures Prints(Ext(fn, es), node)
  {
    hide Shape, Prop, Size, SizeMembers, Only, One, CanonItems, CanonMembers;
    OneIs(fn, Arr(ToEsts(es).value), node);
    if node.Obj? { KeyDecides(node); } else { NotAnArray(node, fn, Arr(ToEsts(es).value)); }
  }

  lemma NotAnArray(node: Json, k: string, v: Json)
    ensures !node.Obj? ==> Canon(One(k, v)) != Canon(node)
  {}

  lemma RecordPrints(node: Json, v: Json, ps: List<Pair>)
    requires Shape(node) == Some(RecordForm(v)) && HoleFreePairs(ps)
    requires v.Obj? ==> MembersPrint(ps, v.members) && ProperMembers(v.members)
    ensures Prints(RecordOf(ps), node)
  {
    hide Shape, Prop, Size, SizeMembers, Only, One, CanonItems, CanonMembers, FromEntries;
    PrintsPairs(ps);
    var ms := ToMembers(ps).value;
    IsObject(node);
    KeyDecides(node);
    OneIs("Record", Obj(FromEntries(ms)), node);
    if v.Obj? {
      ProperHasNoRepeats(v.members);
      CanonOfFromEntries(ms);
    }
  }

  lemma {:induction false} ProperHasNoRepeats(ms: List<Member>)
    requires ProperMembers(ms)
    ensures NoRepeats(Names(ms))
  {
    if ms.Cons? {
      ProperHasNoRepeats(ms.tail);
      ListedIsHas(ms.tail, ms.head.key);
    }
  }

  lemma VarPrints(node: Json, v: Json)
    requires Shape(node) == Some(VarForm(v))
    ensures Prints(Var(v), node)
  {
    hide Shape, Prop, Canon, Only, One;
    IsObject(node);
    KeyDecides(node);
    OneIs("Var", v, node);
  }

  lemma ValuePrints(node: Json, v: Json)
    requires Shape(node) == Some(ValueForm(v)) && ValueToIr(node, v).Ok?
    ensures Prints(ValueToIr(node, v).value, node)
  {
    hide Shape, Prop, Canon, Only, One, Two, IsEntityValue;
    IsObject(node);
    KeyDecides(node);
    if IsEntityValue(v) {
      var e := Prop(v, "__entity");
      var ref := EntityJson(EntityRef(Prop(e, "type"), Prop(e, "id")));
      OneIs("Value", One("__entity", ref), node);
      OneIs("__entity", ref, v);
      TwoIs("type", Prop(e, "type"), "id", Prop(e, "id"), e);
    } else {
      OneIs("Value", v, node);
    }
  }

  /** What the key tests hand on is itself a JavaScript value. */
  lemma FormIsProper(node: Json, form: Form)
    requires Proper(node) && Shape(node) == Some(form)
    ensures form.ExtForm? ==> ProperItems(form.args)
    ensures !form.ExtForm? && !form.RawForm? ==> Proper(form.v)
  {
    hide Has, Get;
    if node.Obj? {
      KeyDecides(node);
      var ms := node.members;
      GetIsProper(ms, "Var"); GetIsProper(ms, "Value"); GetIsProper(ms, "Set"); GetIsProper(ms, "Record");
      GetIsProper(ms, "."); GetIsProper(ms, "has"); GetIsProper(ms, "like"); GetIsProper(ms, "is");
      GetIsProper(ms, "if-then-else");
      if form.ExtForm? { GetIsProper(ms, form.fn); assert Proper(Arr(form.args)); }
      if form.BinaryForm? || form.UnaryForm? { GetIsProper(ms, form.op); }
    } else {
      if form.ExtForm? { assert Proper(node.items.head); }
    }
  }

  lemma PropIsProper(v: Json, k: string)
    requires Proper(v)
    ensures Proper(Prop(v, k))
  {
    if v.Obj? { GetIsProper(v.members, k); }
  }

  lemma PartsAreProper(v: Json)
    requires Proper(v)
    ensures v.Arr? ==> ProperItems(v.items)
    ensures v.Obj? ==> ProperMembers(v.members)
  {}

  /**
   Whatever can be read can be printed, and is printed back as the same document
   exactly when it was well-formed.
   */
  lemma {:induction false} ReturnsExactly(node: Json, depth: nat)
    requires Proper(node) && ToIr(node, depth).Ok?
    ensures ToEst(ToIr(node, depth).value).Ok?
    ensures Canon(ToEst(ToIr(node, depth).value).value) == Canon(node) <==> Faithful(node)
    decreases MAX_DEPTH + 1 - depth, 0
  {
    hide ToIr, FormToIr, ToEst, Shape, Proper, Prop, ProperItems, ProperMembers, Truthy, Faithful, Canon, ValueToIr;
    hide Entries, PartToIr, ToIrs, ToPairs;
    hide MembersPrint, ItemsPrint, HoleFreePairs;
    ReadMeansShape(node, depth);
    var form := Shape(node).value;
    ReadsForm(node, form, depth);
    FormReturns(node, form, depth + 1);
  }

  lemma ReadMeansShape(node: Json, depth: nat)
    ensures ToIr(node, depth).Ok? ==> depth <= MAX_DEPTH && Shape(node).Some?
  {
    hide FormToIr, Shape;
  }

  lemma {:induction false} FormReturns(node: Json, form: Form, d: nat)
    requires Proper(node) && Shape(node) == Some(form) && FormToIr(node, form, d).Ok?
    ensures Prints(FormToIr(node, form, d).value, node)
    decreases MAX_DEPTH + 1 - d, 3
  {
    hide ToIr, ToEst, Shape, Proper, Prop, ProperItems, ProperMembers, Truthy, Faithful, Canon, ValueToIr, Entries;
    hide PartToIr, ToIrs, ToPairs;
    hide MembersPrint, ItemsPrint, HoleFreePairs, Prints;
    FormIsProper(node, form);
    match form
    case VarForm(v) => VarPrints(node, v);
    case ValueForm(v) => ValuePrints(node, v);
    case SetForm(v) => PartsAreProper(v); ItemsReturn(v.items, d); SetPrints(node, v, ToIrs(v.items, d).value);
    case RecordForm(v) => RecordReturns(node, v, d);
    case AttrForm(v) => PartReturns(v, "left", d); AttrPrints(node, v, PartToIr(v, "left", d).value);
    case HasForm(v) => PartReturns(v, "left", d); HasPrints(node, v, PartToIr(v, "left", d).value);
    case LikeForm(v) => PartReturns(v, "left", d); LikePrints(node, v, PartToIr(v, "left", d).value);
    case IsForm(v) =>
      PartReturns(v, "left", d);
      var of := PartToIr(v, "left", d).value;
      if Truthy(Prop(v, "in")) {
        PartReturns(v, "in", d);
        IsInPrints(node, v, of, PartToIr(v, "in", d).value);
      } else {
        IsPrints(node, v, of);
      }
    case IfForm(v) =>
      PartReturns(v, "if", d); PartReturns(v, "then", d); PartReturns(v, "else", d);
      IfPrints(node, v, PartToIr(v, "if", d).value, PartToIr(v, "then", d).value, PartToIr(v, "else", d).value);
    case BinaryForm(op, v) =>
      PartReturns(v, "left", d); PartReturns(v, "right", d);
      BinaryPrints(node, op, v, PartToIr(v, "left", d).value, PartToIr(v, "right", d).value);
    case UnaryForm(op, v) => PartReturns(v, "arg", d); UnaryPrints(node, op, v, PartToIr(v, "arg", d).value);
    case ExtForm(fn, args) => ItemsReturn(args, d); ExtPrints(node, fn, args, ToIrs(args, d).value);
    case RawForm => RawPrints(node);
  }

  lemma RawPrints(node: Json)
    requires Shape(node) == Some(RawForm)
    ensures Prints(Raw(node), node)
  {
    hide Shape, Canon;
  }

  lemma {:induction false} PartReturns(v: Json, k: string, d: nat)
    requires Proper(v) && PartToIr(v, k, d).Ok?
    ensures Prints(PartToIr(v, k, d).value, Prop(v, k))
    decreases MAX_DEPTH + 1 - d, 1
  {
    hide ToIr, ToEst, Prop, Proper, Canon, Faithful;
    PropIsProper(v, k);
    ReturnsExactly(Prop(v, k), d);
  }

  lemma {:induction false} RecordReturns(node: Json, v: Json, d: nat)
    requires Shape(node) == Some(RecordForm(v)) && Proper(v) && Entries(v).Ok? && ToPairs(Entries(v).value, d).Ok?
    ensures Prints(RecordOf(ToPairs(Entries(v).value, d).value), node)
    decreases MAX_DEPTH + 1 - d, 2
  {
    hide Shape, Prints, ToPairs, MembersPrint, Proper, ProperMembers, HoleFreePairs;
    PartsAreProper(v);
    ReadsNoHoleIn(Entries(v).value, d);
    if v.Obj? { MembersReturn(v.members, d); }
    RecordPrints(node, v, ToPairs(Entries(v).value, d).value);
  }

  lemma {:induction false} ItemsReturn(nodes: List<Json>, d: nat)
    requires ProperItems(nodes) && ToIrs(nodes, d).Ok?
    ensures ItemsPrint(ToIrs(nodes, d).value, nodes)
    decreases MAX_DEPTH + 1 - d, 1, nodes
  {
    hide ToIr, ToEst, Proper, Canon, Faithful;
    if nodes.Cons? {
      ReturnsExactly(nodes.head, d);
      ItemsReturn(nodes.tail, d);
    }
  }

  lemma SameUpdate(m: map<string, Canonical>, n: map<string, Canonical>, k: string, a: Canonical, b: Canonical)
    requires k !in m && k !in n
    ensures m[k := a] == n[k := b] <==> m == n && a == b
  {
    if m[k := a] == n[k := b] {
      assert a == m[k := a][k] == n[k := b][k] == b;
      assert m == m[k := a] - {k};
      assert n == n[k := b] - {k};
    }
  }

  lemma {:induction false} MembersReturn(ms: List<Member>, d: nat)
    requires ProperMembers(ms) && ToPairs(ms, d).Ok?
    ensures MembersPrint(ToPairs(ms, d).value, ms)
    decreases MAX_DEPTH + 1 - d, 1, ms
  {
    hide ToIr, ToEst, Proper, Canon, Faithful, Has;
    if ms.Cons? {
      var k := ms.head.key;
      ReturnsExactly(ms.head.value, d);
      MembersReturn(ms.tail, d);
      var rest := ToPairs(ms.tail, d).value;
      assert k !in CanonMembers(ms.tail) && k !in CanonMembers(ToMembers(rest).value) by { SameKeys(rest, ms.tail, k); }
      SameUpdate(CanonMembers(ToMembers(rest).value), CanonMembers(ms.tail), k,
                 Canon(ToEst(ToIr(ms.head.value, d).value).value), Canon(ms.head.value));
    }
  }

  lemma SameKeys(ps: List<Pair>, ms: List<Member>, k: string)
    requires ToMembers(ps).Ok? && PairNames(ps) == Names(ms) && !Has(ms, k)
    ensures k !in CanonMembers(ms) && k !in CanonMembers(ToMembers(ps).value)
  {
    hide ToMembers, CanonMembers, Names, PairNames, Has, KeySet, Get;
    var out := ToMembers(ps).value;
    PrintsPairs(ps);
    ListedIsHas(ms, k); ListedIsHas(out, k);
    CanonKeys(ms, k); CanonKeys(out, k);
  }

  // ---- the depth limit ----

  /** How many expressions deep a document nests below its root. */
  function Height(node: Json): nat
    decreases Size(node)
  {
    match Shape(node)
    case Some(SetForm(v)) => if v.Arr? then HeightOfItems(v.items) else 0
    case Some(RecordForm(v)) => if v.Obj? then HeightOfMembers(v.members) else 0
    case Some(AttrForm(v)) => 1 + Height(Prop(v, "left"))
    case Some(HasForm(v)) => 1 + Height(Prop(v, "left"))
    case Some(LikeForm(v)) => 1 + Height(Prop(v, "left"))
    case Some(IsForm(v)) =>
      1 + if Truthy(Prop(v, "in")) then Max(Height(Prop(v, "left")), Height(Prop(v, "in"))) else Height(Prop(v, "left"))
    case Some(IfForm(v)) => 1 + Max(Height(Prop(v, "if")), Max(Height(Prop(v, "then")), Height(Prop(v, "else"))))
    case Some(BinaryForm(_, v)) => 1 + Max(Height(Prop(v, "left")), Height(Prop(v, "right")))
    case Some(UnaryForm(_, v)) => 1 + Height(Prop(v, "arg"))
    case Some(ExtForm(_, args)) => HeightOfItems(args)
    case _ => 0
  }

  function HeightOfItems(nodes: List<Json>): nat
    decreases SizeItems(nodes)
  {
    if nodes.Nil? then 0 else Max(1 + Height(nodes.head), HeightOfItems(nodes.tail))
  }

  function HeightOfMembers(ms: List<Member>): nat
    decreases SizeMembers(ms)
  {
    if ms.Nil? then 0 else Max(1 + Height(ms.head.value), HeightOfMembers(ms.tail))
  }

  /** Nesting below depth `d` decides between success and the depth guard. */
  ghost predicate Decides(r: Result<Expr, Fault>, deepest: int) {
    if deepest <= MAX_DEPTH then r.Ok? else r == Err(TooDeep)
  }

  ghost predicate PartOk(v: Json, k: string, d: nat) { Decides(PartToIr(v, k, d), d + Height(Prop(v, k))) }

  ghost predicate ItemsFit(nodes: List<Json>, d: nat) {
    if d + HeightOfItems(nodes) <= MAX_DEPTH + 1 then ToIrs(nodes, d).Ok? else ToIrs(nodes, d) == Err(TooDeep)
  }

  ghost predicate MembersFit(ms: List<Member>, d: nat) {
    if d + HeightOfMembers(ms) <= MAX_DEPTH + 1 then ToPairs(ms, d).Ok? else ToPairs(ms, d) == Err(TooDeep)
  }

  /**
   Well-formed EST is read exactly when it nests at most 400 deep, and the depth
   guard is then the only thing that can throw.
   */
  lemma {:induction false} FitsExactly(node: Json, depth: nat)
    requires Faithful(node)
    ensures ToIr(node, depth).Ok? <==> depth + Height(node) <= 400
    ensures ToIr(node, depth).Err? ==> ToIr(node, depth) == Err(TooDeep)
    decreases MAX_DEPTH + 1 - depth, 0
  {
    hide ToIr, FormToIr, Shape, Faithful, Height;
    if depth > MAX_DEPTH {
      TooDeepFails(node, depth);
    } else {
      FaithfulHasShape(node);
      ReadsForm(node, Shape(node).value, depth);
      FormFits(node, Shape(node).value, depth + 1);
    }
  }

  lemma FaithfulHasShape(node: Json)
    ensures Faithful(node) ==> Shape(node).Some?
  {
    hide Shape;
  }

  lemma IfHeight(node: Json, v: Json)
    requires Shape(node) == Some(IfForm(v))
    ensures Height(node) == 1 + Max(Height(Prop(v, "if")), Max(Height(Prop(v, "then")), Height(Prop(v, "else"))))
  {
    hide Shape, Prop, Size;
  }

  lemma IsHeight(node: Json, v: Json)
    requires Shape(node) == Some(IsForm(v))
    ensures
      var left, within := Height(Prop(v, "left")), Height(Prop(v, "in"));
      Height(node) == 1 + if Truthy(Prop(v, "in")) then Max(left, within) else left
  {
    hide Shape, Prop, Truthy, Size;
  }

  lemma BinaryHeight(node: Json, op: string, v: Json)
    requires Shape(node) == Some(BinaryForm(op, v))
    ensures Height(node) == 1 + Max(Height(Prop(v, "left")), Height(Prop(v, "right")))
  {
    hide Shape, Prop, Size;
  }

  /** `r` is what reading the parts `a` and `b` one after the other comes to. */
  predicate ReadsBoth(r: Result<Expr, Fault>, a: Result<Expr, Fault>, b: Result<Expr, Fault>) {
    if a.Err? then r == Err(a.error) else if b.Err? then r == Err(b.error) else r.Ok?
  }

  lemma BothDecide(r: Result<Expr, Fault>, a: Result<Expr, Fault>, b: Result<Expr, Fault>, m: int, n: int)
    requires ReadsBoth(r, a, b) && Decides(a, m) && Decides(b, n)
    ensures Decides(r, Max(m, n))
  {
  }

  lemma IfReads(node: Json, v: Json, d: nat)
    ensures
      var cond, yes, no := PartToIr(v, "if", d), PartToIr(v, "then", d), PartToIr(v, "else", d);
      ReadsBoth(FormToIr(node, IfForm(v), d), cond, if yes.Err? then yes else no)
  {
    hide PartToIr;
  }

  lemma IsReads(node: Json, v: Json, d: nat)
    ensures
      var left, within, r := PartToIr(v, "left", d), PartToIr(v, "in", d), FormToIr(node, IsForm(v), d);
      ReadsBoth(r, left, if Truthy(Prop(v, "in")) then within else left)
  {
    hide PartToIr, Prop, Truthy;
  }

  lemma BinaryReads(node: Json, op: string, v: Json, d: nat)
    ensures ReadsBoth(FormToIr(node, BinaryForm(op, v), d), PartToIr(v, "left", d), PartToIr(v, "right", d))
  {
    hide PartToIr;
  }

  lemma IfFits(node: Json, v: Json, d: nat)
    requires Shape(node) == Some(IfForm(v)) && PartOk(v, "if", d) && PartOk(v, "then", d) && PartOk(v, "else", d)
    ensures Decides(FormToIr(node, IfForm(v), d), d - 1 + Height(node))
  {
    hide FormToIr, PartToIr, Shape, Prop, Height;
    IfHeight(node, v);
    IfReads(node, v, d);
    var cond, yes, no := PartToIr(v, "if", d), PartToIr(v, "then", d), PartToIr(v, "else", d);
    var m, n := d + Height(Prop(v, "then")), d + Height(Prop(v, "else"));
    var rest := if yes.Err? then yes else no;
    BothDecide(rest, yes, no, m, n);
    BothDecide(FormToIr(node, IfForm(v), d), cond, rest, d + Height(Prop(v, "if")), Max(m, n));
  }

  lemma IsFits(node: Json, v: Json, d: nat)
    requires Shape(node) == Some(IsForm(v)) && PartOk(v, "left", d) && (Truthy(Prop(v, "in")) ==> PartOk(v, "in", d))
    ensures Decides(FormToIr(node, IsForm(v), d), d - 1 + Height(node))
  {
    hide FormToIr, PartToIr, Shape, Prop, Height, Truthy;
    IsHeight(node, v);
    IsReads(node, v, d);
    var r, left, m := FormToIr(node, IsForm(v), d), PartToIr(v, "left", d), d + Height(Prop(v, "left"));
    if Truthy(Prop(v, "in")) {
      BothDecide(r, left, PartToIr(v, "in", d), m, d + Height(Prop(v, "in")));
    } else {
      BothDecide(r, left, left, m, m);
    }
  }

  lemma BinaryFits(node: Json, op: string, v: Json, d: nat)
    requires Shape(node) == Some(BinaryForm(op, v)) && PartOk(v, "left", d) && PartOk(v, "right", d)
    ensures Decides(FormToIr(node, BinaryForm(op, v), d), d - 1 + Height(node))
  {
    hide FormToIr, PartToIr, Shape, Prop, Height;
    BinaryHeight(node, op, v);
    BinaryReads(node, op, v, d);
    BothDecide(FormToIr(node, BinaryForm(op, v), d), PartToIr(v, "left", d), PartToIr(v, "right", d),
               d + Height(Prop(v, "left")), d + Height(Prop(v, "right")));
  }

  predicate OnePart(form: Form) { form.AttrForm? || form.HasForm? || form.LikeForm? || form.UnaryForm? }

  function PartName(form: Form): string { if form.UnaryForm? then "arg" else "left" }

  lemma PartHeight(node: Json, form: Form)
    requires Shape(node) == Some(form) && OnePart(form)
    ensures Height(node) == 1 + Height(Prop(form.v, PartName(form)))
  {
    hide Shape, Prop, Size;
  }

  /** Forms with one part. */
  lemma PartDecides(node: Json, form: Form, d: nat)
    requires Shape(node) == Some(form) && OnePart(form) && PartOk(form.v, PartName(form), d)
    ensures Decides(FormToIr(node, form, d), d - 1 + Height(node))
  {
    PartHeight(node, form);
    hide PartToIr, Shape, Prop, Height;
  }

  lemma {:induction false} FormFits(node: Json, form: Form, d: nat)
    requires Faithful(node) && Shape(node) == Some(form) && d <= MAX_DEPTH + 1
    ensures Decides(FormToIr(node, form, d), d - 1 + Height(node))
    decreases MAX_DEPTH + 1 - d, 3
  {
    hide ToIr, PartToIr, ToIrs, ToPairs, Shape, Prop, Truthy, KeySet, Size, SizeItems, SizeMembers, IsEntityValue;
    hide HeightOfItems, HeightOfMembers, PartOk;
    match form
    case AttrForm(v) => PartFits(v, "left", d); PartDecides(node, form, d);
    case HasForm(v) => PartFits(v, "left", d); PartDecides(node, form, d);
    case LikeForm(v) => PartFits(v, "left", d); PartDecides(node, form, d);
    case IsForm(v) =>
      PartFits(v, "left", d);
      if Truthy(Prop(v, "in")) { InIsFaithful(node, v); PartFits(v, "in", d); }
      IsFits(node, v, d);
    case IfForm(v) => PartFits(v, "if", d); PartFits(v, "then", d); PartFits(v, "else", d); IfFits(node, v, d);
    case BinaryForm(op, v) => PartFits(v, "left", d); PartFits(v, "right", d); BinaryFits(node, op, v, d);
    case UnaryForm(_, v) => PartFits(v, "arg", d); PartDecides(node, form, d);
    case SetForm(v) => ItemsFitAt(v.items, d);
    case RecordForm(v) => MembersFitAt(v.members, d);
    case ExtForm(_, args) => ItemsFitAt(args, d);
    case _ =>
  }

  lemma InIsFaithful(node: Json, v: Json)
    requires Shape(node) == Some(IsForm(v)) && Faithful(node) && Truthy(Prop(v, "in"))
    ensures Faithful(Prop(v, "in"))
  {
    hide Shape, Prop, Truthy, Only, Size;
    NotOnlyTwo(v);
  }

  lemma {:induction false} PartFits(v: Json, k: string, d: nat)
    requires v.Obj? && Faithful(Prop(v, k))
    ensures PartOk(v, k, d)
    decreases MAX_DEPTH + 1 - d, 1
  {
    hide ToIr, Prop, Faithful, Height;
    FitsExactly(Prop(v, k), d);
  }

  lemma {:induction false} ItemsFitAt(nodes: List<Json>, d: nat)
    requires FaithfulItems(nodes) && d <= MAX_DEPTH + 1
    ensures ItemsFit(nodes, d)
    decreases MAX_DEPTH + 1 - d, 1, nodes
  {
    hide ToIr, Height, Faithful;
    if nodes.Cons? {
      FitsExactly(nodes.head, d);
      ItemsFitAt(nodes.tail, d);
    }
  }

  lemma {:induction false} MembersFitAt(ms: List<Member>, d: nat)
    requires FaithfulMembers(ms) && d <= MAX_DEPTH + 1
    ensures MembersFit(ms, d)
    decreases MAX_DEPTH + 1 - d, 1, ms
  {
    hide ToIr, Height, Faithful;
    if ms.Cons? {
      FitsExactly(ms.head.value, d);
      MembersFitAt(ms.tail, d);
    }
  }
}
