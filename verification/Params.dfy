/**
 Parameterised policies: exposing a value as a hole, collecting holes, checking
 supplied values and substituting them.
 */
module Params {
  import opened AttrPaths
  import opened BlockIr
  import opened ExprTrees
  import opened Jsons
  import opened NodeReplacement
  import opened Options

  // ---- author side ----

  datatype Meta = Meta(
    name: string, optional: bool, caption: Option<string>, typeName: Option<string>, constraints: Option<Constraints>)

  /** The shape of value a node may be exposed as; `None`: the node cannot be exposed. */
  function ExpectedOf(value: Expr): Option<Expected> {
    match value
    case Lit(t, _) => Some(LitOf(t))
    case LitEntity(_) => Some(AnEntity)
    case SetOf(_) => Some(ASet)
    case Attr(_, _, _) => Some(AField)
    case Var(_) => Some(AField)
    case _ => None
  }

  function Kept(text: Option<string>): Option<string> { if text == Some("") then None else text }

  function MakeHole(value: Expr, meta: Meta): Option<ParamSpec> {
    match ExpectedOf(value)
    case None => None
    case Some(expected) =>
      Some(ParamSpec(meta.name, expected, value, meta.optional, Kept(meta.caption), Kept(meta.typeName),
                     meta.constraints))
  }

  /**
   Literals, sets, chains and variables can be exposed, and nothing else.  The hole takes
   the value as its default and expects values of its kind; the rest is what the author
   said, an empty caption or type name being none.
   */
  lemma MadeHole(value: Expr, meta: Meta)
    ensures MakeHole(value, meta).Some? <==>
            value.Lit? || value.LitEntity? || value.SetOf? || value.Attr? || value.Var?
    ensures MakeHole(value, meta).Some? ==>
              var s := MakeHole(value, meta).value;
              && s.default == value && s.name == meta.name && s.optional == meta.optional
              && s.constraints == meta.constraints
              && s.expected == (match value
                                case Lit(t, _) => LitOf(t)
                                case LitEntity(_) => AnEntity
                                case SetOf(_) => ASet
                                case _ => AField)
              && (meta.caption == Some("") || meta.caption == None ==> s.caption == None)
              && (s.caption != meta.caption ==> meta.caption == Some(""))
              && (meta.typeName == Some("") || meta.typeName == None ==> s.typeName == None)
              && (s.typeName != meta.typeName ==> meta.typeName == Some(""))
              && FormOfHole(s) == s
  {}

  // ---- collecting ----

  function FormOfHole(s: ParamSpec): ParamSpec { s.(caption := Kept(s.caption), typeName := Kept(s.typeName)) }

  /** The holes of a tree, in document order. */
  function HolesIn(e: Expr): seq<ParamSpec>
    decreases Count(e), 0
  {
    CountOfChildren(e);
    if e.Hole? then [FormOfHole(e.spec)] else HolesInAll(Children(e))
  }

  function HolesInAll(es: List<Expr>): seq<ParamSpec>
    decreases CountAll(es), 1
  {
    if es.Nil? then []
    else
      CountOfChildren(es.head);
      HolesIn(es.head) + HolesInAll(es.tail)
  }

  function HolesInConditions(cs: List<Condition>): seq<ParamSpec> {
    if cs.Nil? then [] else HolesIn(cs.head.body) + HolesInConditions(cs.tail)
  }

  // ---- in document order ----

  /** How many holes of the tree document order meets before the position. */
  function HolesBefore(e: Expr, p: Position): nat
    requires Valid(e, p)
    decreases p
  {
    if p.Nil? then 0
    else HolesBeforeChild(Children(e), p.head) + HolesBefore(Nth(Children(e), p.head), p.tail)
  }

  /** How many there are in the first `n` trees. */
  function HolesBeforeChild(es: List<Expr>, n: nat): nat
    requires n <= Length(es)
  {
    if n == 0 then 0 else |HolesIn(es.head)| + HolesBeforeChild(es.tail, n - 1)
  }

  /** What is collected from a hole; an empty caption or type name counts as none. */
  predicate CollectedAs(spec: ParamSpec, s: ParamSpec) {
    && s.name == spec.name && s.expected == spec.expected && s.default == spec.default && s.optional == spec.optional
    && s.constraints == spec.constraints
    && s.caption == (if spec.caption == Some("") then None else spec.caption)
    && s.typeName == (if spec.typeName == Some("") then None else spec.typeName)
  }

  lemma {:induction false} HolesOfChild(es: List<Expr>, n: nat, k: nat)
    requires n < Length(es) && k < |HolesIn(Nth(es, n))|
    ensures HolesBeforeChild(es, n) + k < |HolesInAll(es)|
    ensures HolesInAll(es)[HolesBeforeChild(es, n) + k] == HolesIn(Nth(es, n))[k]
  {
    hide HolesIn;
    if n > 0 { HolesOfChild(es.tail, n - 1, k); }
  }

  /** Each hole of a tree is in the list, at its place in document order. */
  lemma {:induction false} HoleIsCollected(e: Expr, p: Position)
    requires Valid(e, p) && Node(e, p).Hole?
    ensures HolesBefore(e, p) < |HolesIn(e)| && CollectedAs(Node(e, p).spec, HolesIn(e)[HolesBefore(e, p)])
    decreases p
  {
    hide Children, Count, CollectedAs, HolesBeforeChild, Nth;
    if p.Cons? {
      HoleHasNoChildren(e);
      var child := Nth(Children(e), p.head);
      HoleIsCollected(child, p.tail);
      HolesOfChild(Children(e), p.head, HolesBefore(child, p.tail));
    } else {
      CollectedAsForm(e.spec);
    }
  }

  lemma CollectedAsForm(spec: ParamSpec)
    ensures CollectedAs(spec, FormOfHole(spec))
    ensures forall s :: CollectedAs(spec, s) ==> s == FormOfHole(spec)
  {}

  /** And the list holds nothing else. */
  lemma {:induction false} CollectedIsHole(e: Expr, k: nat) returns (p: Position)
    requires k < |HolesIn(e)|
    ensures Valid(e, p) && Node(e, p).Hole? && HolesBefore(e, p) == k
    decreases Count(e), 0
  {
    CountOfChildren(e);
    hide Children, Count, Nth, HolesBeforeChild;
    if e.Hole? {
      p := Nil;
    } else {
      var n, q := CollectedIsHoleOf(Children(e), k);
      p := Cons(n, q);
    }
  }

  lemma {:induction false} CollectedIsHoleOf(es: List<Expr>, k: nat) returns (n: nat, p: Position)
    requires k < |HolesInAll(es)|
    ensures n < Length(es) && Valid(Nth(es, n), p) && Node(Nth(es, n), p).Hole?
    ensures HolesBeforeChild(es, n) + HolesBefore(Nth(es, n), p) == k
    decreases CountAll(es), 1
  {
    hide HolesIn, Node, Valid, Count, HolesBefore, Children;
    CountOfChildren(es.head);
    if k < |HolesIn(es.head)| {
      p := CollectedIsHole(es.head, k);
      n := 0;
    } else {
      n, p := CollectedIsHoleOf(es.tail, k - |HolesIn(es.head)|);
      n := n + 1;
    }
  }

  /** The holes of a policy: those of its conditions, one after the other. */
  function HolesBeforeIn(cs: List<Condition>, n: nat, p: Position): nat
    requires n < Length(cs) && Valid(Nth(cs, n).body, p)
  {
    if n == 0 then HolesBefore(cs.head.body, p) else |HolesIn(cs.head.body)| + HolesBeforeIn(cs.tail, n - 1, p)
  }

  lemma {:induction false} ConditionHoleIsCollected(cs: List<Condition>, n: nat, p: Position)
    requires n < Length(cs) && Valid(Nth(cs, n).body, p) && Node(Nth(cs, n).body, p).Hole?
    ensures HolesBeforeIn(cs, n, p) < |HolesInConditions(cs)|
    ensures CollectedAs(Node(Nth(cs, n).body, p).spec, HolesInConditions(cs)[HolesBeforeIn(cs, n, p)])
  {
    hide HolesIn, HolesBefore, Node, Valid, CollectedAs;
    if n == 0 {
      HoleIsCollected(cs.head.body, p);
    } else {
      ConditionHoleIsCollected(cs.tail, n - 1, p);
    }
  }

  lemma {:induction false} ConditionCollectedIsHole(cs: List<Condition>, k: nat) returns (n: nat, p: Position)
    requires k < |HolesInConditions(cs)|
    ensures n < Length(cs) && Valid(Nth(cs, n).body, p) && Node(Nth(cs, n).body, p).Hole?
    ensures HolesBeforeIn(cs, n, p) == k
  {
    hide HolesIn, HolesBefore, Node, Valid;
    if k < |HolesIn(cs.head.body)| {
      p := CollectedIsHole(cs.head.body, k);
      n := 0;
    } else {
      n, p := ConditionCollectedIsHole(cs.tail, k - |HolesIn(cs.head.body)|);
      n := n + 1;
    }
  }

  predicate HoleAt(cs: List<Condition>, n: nat, p: Position) {
    n < Length(cs) && Valid(Nth(cs, n).body, p) && Node(Nth(cs, n).body, p).Hole?
  }

  ghost predicate CollectedAt(cs: List<Condition>, k: nat, s: ParamSpec) {
    exists n, p :: HoleAt(cs, n, p) && HolesBeforeIn(cs, n, p) == k && CollectedAs(Node(Nth(cs, n).body, p).spec, s)
  }

  /** The list holds the policy's holes in document order, each once, and nothing else. */
  lemma HolesInOrder(cs: List<Condition>)
    ensures
      var specs := HolesInConditions(cs);
      && (forall n, p :: HoleAt(cs, n, p) ==>
            && HolesBeforeIn(cs, n, p) < |specs|
            && CollectedAs(Node(Nth(cs, n).body, p).spec, specs[HolesBeforeIn(cs, n, p)]))
      && (forall k :: 0 <= k < |specs| ==> CollectedAt(cs, k, specs[k]))
  {
    hide HolesIn, HolesBefore, Node, Valid, CollectedAs, HolesBeforeIn, HolesInConditions, Nth, Length;
    var specs := HolesInConditions(cs);
    forall n, p | HoleAt(cs, n, p)
      ensures HolesBeforeIn(cs, n, p) < |specs|
      ensures CollectedAs(Node(Nth(cs, n).body, p).spec, specs[HolesBeforeIn(cs, n, p)])
    {
      ConditionHoleIsCollected(cs, n, p);
    }
    forall k | 0 <= k < |specs|
      ensures CollectedAt(cs, k, specs[k])
    {
      var n, p := ConditionCollectedIsHole(cs, k);
      ConditionHoleIsCollected(cs, n, p);
      assert HoleAt(cs, n, p);
    }
  }

  predicate DistinctNames(specs: seq<ParamSpec>) {
    forall i, j :: 0 <= i < j < |specs| ==> specs[i].name != specs[j].name
  }

  predicate HasName(specs: seq<ParamSpec>, n: nat, name: string)
    requires n <= |specs|
  {
    exists i :: 0 <= i < n && specs[i].name == name
  }

  /** The first name that occurred before. */
  function FirstRepeat(specs: seq<ParamSpec>, n: nat): Option<string>
    requires n <= |specs|
  {
    if n == 0 then None
    else if FirstRepeat(specs, n - 1).Some? then FirstRepeat(specs, n - 1)
    else if HasName(specs, n - 1, specs[n - 1].name) then Some(specs[n - 1].name)
    else None
  }

  function Extracted(p: Policy): Result<seq<ParamSpec>, string> {
    var specs := HolesInConditions(p.conditions);
    match FirstRepeat(specs, |specs|)
    case Some(name) => Err(name)
    case None => Ok(specs)
  }

  method FindRepeat(specs: seq<ParamSpec>) returns (r: Option<string>)
    ensures r == FirstRepeat(specs, |specs|)
  {
    hide HasName;
    var seen: set<string> := {};
    assert forall name :: !HasName(specs, 0, name) by { NothingOccurs(specs); }
    var i := 0;
    while i < |specs|
      invariant 0 <= i <= |specs|
      invariant FirstRepeat(specs, i).None?
      invariant forall name :: name in seen <==> HasName(specs, i, name)
    {
      if specs[i].name in seen {
        assert FirstRepeat(specs, i + 1) == Some(specs[i].name);
        RepeatStays(specs, i + 1, |specs|);
        return Some(specs[i].name);
      }
      OneMoreOccurs(specs, i);
      seen := seen + {specs[i].name};
      i := i + 1;
    }
    return None;
  }

  lemma NothingOccurs(specs: seq<ParamSpec>)
    ensures forall name :: !HasName(specs, 0, name)
  {}

  lemma OneMoreOccurs(specs: seq<ParamSpec>, i: nat)
    requires i < |specs|
    ensures forall name :: HasName(specs, i + 1, name) <==> HasName(specs, i, name) || name == specs[i].name
  {
    forall name
      ensures HasName(specs, i + 1, name) <==> HasName(specs, i, name) || name == specs[i].name
    {
      if HasName(specs, i, name) {
        var j :| 0 <= j < i && specs[j].name == name;
        assert 0 <= j < i + 1;
      }
      if name == specs[i].name { assert 0 <= i < i + 1; }
    }
  }

  method ExtractParams(p: Policy) returns (r: Result<seq<ParamSpec>, string>)
    ensures r == Extracted(p)
  {
    hide HolesIn, FirstRepeat;
    var specs := [];
    var rest := p.conditions;
    while rest.Cons?
      invariant HolesInConditions(p.conditions) == specs + HolesInConditions(rest)
      decreases rest
    {
      specs := specs + HolesIn(rest.head.body);
      rest := rest.tail;
    }
    assert specs + [] == specs;
    var repeated := FindRepeat(specs);
    return match repeated case Some(name) => Err(name) case None => Ok(specs);
  }

  lemma {:induction false} RepeatStays(specs: seq<ParamSpec>, i: nat, n: nat)
    requires i <= n <= |specs| && FirstRepeat(specs, i).Some?
    ensures FirstRepeat(specs, n) == FirstRepeat(specs, i)
  {
    if i < n { RepeatStays(specs, i, n - 1); }
  }

  lemma {:induction false} NoRepeatExactly(specs: seq<ParamSpec>, n: nat)
    requires n <= |specs|
    ensures FirstRepeat(specs, n).None? <==> DistinctNames(specs[..n])
  {
    if n > 0 {
      NoRepeatExactly(specs, n - 1);
      assert forall i :: 0 <= i < n - 1 ==> specs[..n - 1][i] == specs[..n][i];
      if DistinctNames(specs[..n]) {
        assert forall i :: 0 <= i < n - 1 ==> specs[..n][i].name != specs[..n][n - 1].name;
      }
    }
  }

  // ---- checking values ----

  /** What an adopter may supply; an object whose `field` is a path refers to another field. */
  datatype FillValue =
    | Number(n: real)
    | Words(s: string)
    | Flag(b: bool)
    | Items(items: seq<Json>)
    | Reference(entityType: Json, id: Json)
    | FieldRef(path: string)
    | Nothing

  datatype Reason = Missing | Mistyped | OutOfRange | NotListed | UnknownName

  datatype Problem = Problem(name: string, reason: Reason)

  predicate IsInteger(n: real) { n == n.Floor as real }

  predicate InRange(s: ParamSpec, n: real) {
    s.constraints.Some? ==>
      && (s.constraints.value.min.Some? ==> s.constraints.value.min.value <= n)
      && (s.constraints.value.max.Some? ==> n <= s.constraints.value.max.value)
  }

  predicate IsListed(s: ParamSpec, v: Json) {
    s.constraints.Some? && s.constraints.value.options.Some? ==> v in s.constraints.value.options.value
  }

  /** The literal type of a set's elements, from its default. */
  function ElementType(default: Expr): LitType {
    if default.SetOf? && default.elements.Cons? && default.elements.head.Lit? then
      default.elements.head.litType
    else Text
  }

  predicate IsLiteralOf(t: LitType, v: Json) {
    match t
    case Long => v.Num? && IsInteger(v.n)
    case Text => v.Str?
    case Truth => v.Bool?
  }

  function Snoc<T>(xs: List<T>, x: T): List<T> { if xs.Nil? then Cons(x, Nil) else Cons(xs.head, Snoc(xs.tail, x)) }

  function Literals(t: LitType, items: seq<Json>, n: nat): List<Expr>
    requires n <= |items|
  {
    if n == 0 then Nil else Snoc(Literals(t, items, n - 1), Lit(t, items[n - 1]))
  }

  function Build(s: ParamSpec, v: FillValue): Result<Expr, Reason> {
    if v.FieldRef? then
      match ExprOf(v.path)
      case None => Err(Mistyped)
      case Some(e) => Ok(e)
    else
      match s.expected
      case LitOf(Long) =>
        if !v.Number? || !IsInteger(v.n) then Err(Mistyped)
        else if !InRange(s, v.n) then Err(OutOfRange)
        else if !IsListed(s, Num(v.n)) then Err(NotListed)
        else Ok(Lit(Long, Num(v.n)))
      case LitOf(Text) =>
        if !v.Words? then Err(Mistyped)
        else if !IsListed(s, Str(v.s)) then Err(NotListed)
        else Ok(Lit(Text, Str(v.s)))
      case LitOf(Truth) => if !v.Flag? then Err(Mistyped) else Ok(Lit(Truth, Bool(v.b)))
      case AnEntity =>
        if !v.Reference? || !v.entityType.Str? || !v.id.Str? then Err(Mistyped)
        else Ok(LitEntity(EntityRef(v.entityType, v.id)))
      case ASet =>
        if !v.Items?
           || exists i :: 0 <= i < |v.items| && !IsLiteralOf(ElementType(s.default), v.items[i])
        then Err(Mistyped)
        else Ok(SetOf(Literals(ElementType(s.default), v.items, |v.items|)))
      case AField =>
        match v
        case Words(w) => Ok(Lit(Text, Str(w)))
        case Number(n) => if IsInteger(n) then Ok(Lit(Long, Num(n))) else Err(Mistyped)
        case Flag(b) => Ok(Lit(Truth, Bool(b)))
        case _ => Err(Mistyped)
  }

  method BuildSet(s: ParamSpec, items: seq<Json>) returns (r: Result<Expr, Reason>)
    requires s.expected.ASet?
    ensures r == Build(s, Items(items))
  {
    var t := ElementType(s.default);
    var elements := Nil;
    var i := 0;
    while i < |items|
      invariant 0 <= i <= |items|
      invariant elements == Literals(t, items, i)
      invariant forall j :: 0 <= j < i ==> IsLiteralOf(t, items[j])
    {
      if !IsLiteralOf(t, items[i]) { return Err(Mistyped); }
      elements := Snoc(elements, Lit(t, items[i]));
      i := i + 1;
    }
    return Ok(SetOf(elements));
  }

  /** A value passes its type, range and enum check, or is a path to a field of the request. */
  predicate Accepts(s: ParamSpec, v: FillValue) {
    || (v.FieldRef? && FieldPath(v.path))
    || (match s.expected
        case LitOf(Long) =>
          && v.Number? && v.n.Floor as real == v.n
          && (match s.constraints
              case None => true
              case Some(c) =>
                && (c.min.Some? ==> c.min.value <= v.n) && (c.max.Some? ==> v.n <= c.max.value)
                && (c.options.Some? ==> Num(v.n) in c.options.value))
        case LitOf(Text) =>
          && v.Words?
          && (match s.constraints
              case None => true
              case Some(c) => c.options.Some? ==> Str(v.s) in c.options.value)
        case LitOf(Truth) => v.Flag?
        case AnEntity => v.Reference? && v.entityType.Str? && v.id.Str?
        case ASet =>
          v.Items? && forall i :: 0 <= i < |v.items| ==>
            (match s.default
             case SetOf(Cons(Lit(Long, _), _)) => v.items[i].Num? && v.items[i].n.Floor as real == v.items[i].n
             case SetOf(Cons(Lit(Truth, _), _)) => v.items[i].Bool?
             case _ => v.items[i].Str?)
        case AField => v.Words? || v.Flag? || (v.Number? && v.n.Floor as real == v.n))
  }

  predicate FieldPath(path: string) {
    Segments(path) != [] && Segments(path)[0] in ["principal", "context", "resource", "action"]
  }

  lemma {:induction false} BuiltIsHoleFree(segs: seq<string>, n: nat)
    requires 1 <= n <= |segs|
    ensures HoleFree(Built(segs, n))
  {
    if n > 1 { BuiltIsHoleFree(segs, n - 1); }
  }

  lemma {:induction false} SnocIsHoleFree(es: List<Expr>, x: Expr)
    ensures HoleFreeAll(Snoc(es, x)) <==> HoleFreeAll(es) && HoleFree(x)
  {
    if es.Cons? { SnocIsHoleFree(es.tail, x); }
  }

  lemma {:induction false} LiteralsAreHoleFree(t: LitType, items: seq<Json>, n: nat)
    requires n <= |items|
    ensures HoleFreeAll(Literals(t, items, n))
  {
    if n > 0 {
      LiteralsAreHoleFree(t, items, n - 1);
      SnocIsHoleFree(Literals(t, items, n - 1), Lit(t, items[n - 1]));
    }
  }

  /** A value is built exactly when it is accepted, and never holds a hole. */
  lemma BuildsExactly(s: ParamSpec, v: FillValue)
    ensures Build(s, v).Ok? <==> Accepts(s, v)
    ensures Build(s, v).Ok? ==> HoleFree(Build(s, v).value)
  {
    if v.FieldRef? {
      var segs := Segments(v.path);
      if segs != [] { BuiltIsHoleFree(segs, |segs|); }
    } else if v.Items? {
      LiteralsAreHoleFree(ElementType(s.default), v.items, |v.items|);
    }
  }

  // ---- what a value becomes ----

  /** The literal of a JSON value. */
  function LiteralFor(item: Json): Expr {
    match item
    case Num(_) => Lit(Long, item)
    case Bool(_) => Lit(Truth, item)
    case _ => Lit(Text, item)
  }

  /** The node says what the value says. */
  predicate Becomes(v: FillValue, e: Expr) {
    match v
    case Number(n) => e == Lit(Long, Num(n))
    case Words(w) => e == Lit(Text, Str(w))
    case Flag(b) => e == Lit(Truth, Bool(b))
    case Reference(entityType, id) => e == LitEntity(EntityRef(entityType, id))
    case Items(items) =>
      && e.SetOf? && Length(e.elements) == |items|
      && forall i :: 0 <= i < |items| ==> Nth(e.elements, i) == LiteralFor(items[i])
    case FieldRef(path) => IsAccess(e, Segments(path))
    case Nothing => false
  }

  /** The access to what the names lead to, the first being a variable of the request. */
  predicate IsAccess(e: Expr, names: seq<string>) {
    && |names| >= 1
    && match e
       case Var(name) => |names| == 1 && name == Str(names[0])
       case Attr(of, attr, note) =>
         attr == Str(names[|names| - 1]) && note == NO_NOTE && IsAccess(of, names[..|names| - 1])
       case _ => false
  }

  lemma {:induction false} BuiltIsAccess(segs: seq<string>, n: nat)
    requires 1 <= n <= |segs|
    ensures IsAccess(Built(segs, n), segs[..n])
  {
    if n > 1 {
      BuiltIsAccess(segs, n - 1);
      assert segs[..n][..n - 1] == segs[..n - 1];
    }
  }

  lemma {:induction false} NthOfSnoc<T>(xs: List<T>, x: T, i: nat)
    requires i <= Length(xs)
    ensures Length(Snoc(xs, x)) == Length(xs) + 1
    ensures Nth(Snoc(xs, x), i) == if i == Length(xs) then x else Nth(xs, i)
  {
    if i > 0 { NthOfSnoc(xs.tail, x, i - 1); } else { LengthOfSnoc(xs, x); }
  }

  lemma {:induction false} LengthOfSnoc<T>(xs: List<T>, x: T)
    ensures Length(Snoc(xs, x)) == Length(xs) + 1
  {
    if xs.Cons? { LengthOfSnoc(xs.tail, x); }
  }

  lemma {:induction false} NthLiteral(t: LitType, items: seq<Json>, n: nat, i: nat)
    requires i < n <= |items|
    ensures Length(Literals(t, items, n)) == n && Nth(Literals(t, items, n), i) == Lit(t, items[i])
  {
    if n > 1 {
      NthLiteral(t, items, n - 1, if i < n - 1 then i else 0);
      NthOfSnoc(Literals(t, items, n - 1), Lit(t, items[n - 1]), i);
    } else {
      assert Literals(t, items, 0) == Nil;
    }
  }

  /** The elements of the set built are the literals of the items, in their order. */
  lemma LiteralsAreItems(t: LitType, items: seq<Json>)
    requires forall i :: 0 <= i < |items| ==> IsLiteralOf(t, items[i])
    ensures Becomes(Items(items), SetOf(Literals(t, items, |items|)))
  {
    hide Literals, Nth;
    if |items| > 0 { NthLiteral(t, items, |items|, 0); } else { NoLiterals(t); }
    forall i | 0 <= i < |items|
      ensures Nth(Literals(t, items, |items|), i) == LiteralFor(items[i])
    {
      NthLiteral(t, items, |items|, i);
    }
  }

  lemma NoLiterals(t: LitType)
    ensures Literals(t, [], 0) == Nil
  {}

  /** What is built from a value says what the value says. */
  lemma BuildBecomes(s: ParamSpec, v: FillValue)
    requires Build(s, v).Ok?
    ensures Becomes(v, Build(s, v).value)
  {
    hide Literals, Segments, Built, IsAccess;
    if v.FieldRef? {
      var segs := Segments(v.path);
      BuiltIsAccess(segs, |segs|);
      assert segs[..|segs|] == segs;
    } else if v.Items? {
      LiteralsAreItems(ElementType(s.default), v.items);
    }
  }

  /** Why a value is refused: outside the range, or else not among the options, or else of the wrong type. */
  predicate RefusedFor(s: ParamSpec, v: FillValue, reason: Reason) {
    var outside :=
      && s.expected == LitOf(Long) && v.Number? && v.n.Floor as real == v.n && s.constraints.Some?
      && var c := s.constraints.value;
      (c.min.Some? && v.n < c.min.value) || (c.max.Some? && c.max.value < v.n);
    var unlisted :=
      && s.constraints.Some? && s.constraints.value.options.Some?
      && var options := s.constraints.value.options.value;
      || (s.expected == LitOf(Long) && v.Number? && v.n.Floor as real == v.n && Num(v.n) !in options)
      || (s.expected == LitOf(Text) && v.Words? && Str(v.s) !in options);
    reason == if outside then OutOfRange else if unlisted then NotListed else Mistyped
  }

  lemma BuildRefuses(s: ParamSpec, v: FillValue)
    requires Build(s, v).Err?
    ensures RefusedFor(s, v, Build(s, v).error)
  {
    hide Segments;
  }

  // ---- substitution ----

  type Fillings = map<string, Expr>

  function Filled(e: Expr, repl: Fillings): Expr
    decreases Count(e), 0
  {
    CountOfChildren(e);
    if e.Hole? then (if e.spec.name in repl then repl[e.spec.name] else e)
    else WithChildren(e, FilledAll(Children(e), repl))
  }

  function FilledAll(es: List<Expr>, repl: Fillings): (r: List<Expr>)
    ensures Length(r) == Length(es)
    decreases CountAll(es), 1
  {
    if es.Nil? then Nil
    else
      CountOfChildren(es.head);
      Cons(Filled(es.head, repl), FilledAll(es.tail, repl))
  }

  function FilledIn(cs: List<Condition>, repl: Fillings): List<Condition> {
    if cs.Nil? then Nil else Cons(Condition(cs.head.kind, Filled(cs.head.body, repl)), FilledIn(cs.tail, repl))
  }

  lemma {:induction false} NthFilled(es: List<Expr>, repl: Fillings, i: nat)
    requires i < Length(es)
    ensures Nth(FilledAll(es, repl), i) == Filled(Nth(es, i), repl)
  {
    hide Filled;
    if i > 0 { NthFilled(es.tail, repl, i - 1); }
  }

  /** The same node around other children. */
  predicate SameNode(a: Expr, b: Expr) {
    Length(Children(b)) == Length(Children(a)) && b == WithChildren(a, Children(b))
  }

  /**
   The filled policy has, at every position of the template, the value chosen for the
   hole there, or else the very same node.
   */
  lemma {:induction false} DiffersOnlyAtHoles(e: Expr, repl: Fillings, p: Position)
    requires Valid(e, p)
    ensures Valid(Filled(e, repl), p)
    ensures var was, now := Node(e, p), Node(Filled(e, repl), p);
            if was.Hole? then now == (if was.spec.name in repl then repl[was.spec.name] else was)
            else SameNode(was, now)
    decreases p
  {
    hide Children, WithChildren, Nth, Count;
    if !e.Hole? { OtherChildren(e, FilledAll(Children(e), repl)); }
    if p.Cons? {
      HoleHasNoChildren(e);
      NthFilled(Children(e), repl, p.head);
      DiffersOnlyAtHoles(Nth(Children(e), p.head), repl, p.tail);
    }
  }

  lemma HoleHasNoChildren(e: Expr)
    ensures e.Hole? ==> Length(Children(e)) == 0
  {}

  lemma {:induction false} HoleFreeIsHoleless(e: Expr)
    ensures HoleFree(e) <==> HolesIn(e) == []
    decreases Count(e), 0
  {
    CountOfChildren(e);
    HoleFreeOfChildren(e);
    hide Children, HoleFree, Count;
    HoleFreeAreHoleless(Children(e));
  }

  lemma {:induction false} HoleFreeAreHoleless(es: List<Expr>)
    ensures HoleFreeAll(es) <==> HolesInAll(es) == []
    decreases CountAll(es), 1
  {
    hide HolesIn, HoleFree;
    if es.Cons? {
      CountOfChildren(es.head);
      HoleFreeIsHoleless(es.head);
      HoleFreeAreHoleless(es.tail);
    }
  }

  /** Every hole gets a filling without holes. */
  predicate FilledCleanly(specs: seq<ParamSpec>, repl: Fillings) {
    forall i :: 0 <= i < |specs| ==> specs[i].name in repl && HoleFree(repl[specs[i].name])
  }

  lemma {:induction false} HoleFreeExactly(e: Expr, repl: Fillings)
    ensures HoleFree(Filled(e, repl)) <==> FilledCleanly(HolesIn(e), repl)
    decreases Count(e), 0
  {
    CountOfChildren(e);
    if !e.Hole? {
      hide HoleFree, WithChildren, Children, Count;
      var es := FilledAll(Children(e), repl);
      HoleFreeOfChildren(Filled(e, repl));
      OtherChildren(e, es);
      HoleFreeAllExactly(Children(e), repl);
    } else {
      assert HolesIn(e)[0] == FormOfHole(e.spec);
    }
  }

  lemma {:induction false} HoleFreeAllExactly(es: List<Expr>, repl: Fillings)
    ensures HoleFreeAll(FilledAll(es, repl)) <==> FilledCleanly(HolesInAll(es), repl)
    decreases CountAll(es), 1
  {
    hide HolesIn, HoleFree, Filled, FilledCleanly;
    if es.Cons? {
      CountOfChildren(es.head);
      HoleFreeExactly(es.head, repl);
      HoleFreeAllExactly(es.tail, repl);
      CleanConcat(HolesIn(es.head), HolesInAll(es.tail), repl);
    } else {
      NoneIsClean(repl);
    }
  }

  lemma NoneIsClean(repl: Fillings)
    ensures FilledCleanly([], repl)
  {}

  lemma CleanConcat(a: seq<ParamSpec>, b: seq<ParamSpec>, repl: Fillings)
    ensures FilledCleanly(a + b, repl) <==> FilledCleanly(a, repl) && FilledCleanly(b, repl)
  {
    hide HoleFree;
    if FilledCleanly(a + b, repl) {
      assert forall i :: 0 <= i < |a| ==> (a + b)[i] == a[i];
      assert forall i :: 0 <= i < |b| ==> (a + b)[|a| + i] == b[i];
    }
  }

  lemma {:induction false} PolicyHoleFreeExactly(cs: List<Condition>, repl: Fillings)
    ensures HoleFreeConditions(FilledIn(cs, repl)) <==> FilledCleanly(HolesInConditions(cs), repl)
  {
    hide HolesIn, HoleFree, Filled, FilledCleanly;
    if cs.Cons? {
      HoleFreeExactly(cs.head.body, repl);
      PolicyHoleFreeExactly(cs.tail, repl);
      CleanConcat(HolesIn(cs.head.body), HolesInConditions(cs.tail), repl);
    } else {
      NoneIsClean(repl);
    }
  }
}
