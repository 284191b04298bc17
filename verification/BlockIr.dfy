/**
 The two directions between Cedar's JSON policy format (EST) and the block editor's
 tree.  EST is untyped JSON and is navigated by key presence, in a fixed order, so
 whatever the reader only copies stays a `Json` in the tree.
 */
module BlockIr {
  import opened Jsons
  import opened Options
  import opened OwnKeys

  const MAX_DEPTH: nat := 400

  // ---- the tree ----

  datatype EntityRef = EntityRef(entityType: Json, id: Json)

  datatype LitType = Long | Text | Truth

  datatype Source = Base | Custom | UnknownSource

  /** Display-only annotations of an attribute access. */
  datatype Note = Note(typeName: Option<string>, source: Option<Source>, caption: Option<string>)

  const NO_NOTE := Note(None, None, None)

  datatype Expr =
    | Var(name: Json)
    | Lit(litType: LitType, value: Json)
    | LitEntity(entity: EntityRef)
    | SetOf(elements: List<Expr>)
    | RecordOf(pairs: List<Pair>)
    | Attr(of: Expr, attr: Json, note: Note)
    | HasAttr(of: Expr, attr: Json)
    | Binary(op: string, left: Expr, right: Expr)
    | Unary(op: string, operand: Expr)
    | Like(of: Expr, pattern: Json)
    | Is(of: Expr, entityType: Json, within: Option<Expr>)
    | If(cond: Expr, yes: Expr, no: Expr)
    | Ext(fn: string, args: List<Expr>)
    | Raw(est: Json)
    | Hole(spec: ParamSpec)

  datatype Pair = Pair(key: string, value: Expr)

  datatype Expected = LitOf(litType: LitType) | AnEntity | ASet | AField

  datatype Constraints = Constraints(min: Option<real>, max: Option<real>, options: Option<seq<Json>>)

  datatype ParamSpec = ParamSpec(
    name: string, expected: Expected, default: Expr, optional: bool,
    caption: Option<string>, typeName: Option<string>, constraints: Option<Constraints>)

  datatype Scope =
    | ScopeAll
    | ScopeEq(entity: EntityRef)
    | ScopeIn(entity: EntityRef)
    | ScopeIs(entityType: Json, within: Option<EntityRef>)
    | Slot(slot: Json)

  datatype ActionScope = ActionAll | ActionEq(entity: EntityRef) | ActionIn(entities: List<EntityRef>)

  datatype Condition = Condition(kind: Json, body: Expr)

  datatype Policy = Policy(
    effect: Json, annotations: List<Member>,
    principal: Scope, action: ActionScope, resource: Scope,
    conditions: List<Condition>)

  // ---- reading properties ----

  datatype Fault = TooDeep | TypeError

  predicate Truthy(j: Json) {
    match j
    case Undefined => false
    case Null => false
    case Bool(b) => b
    case Num(n) => n != 0.0
    case Str(s) => s != ""
    case _ => true
  }

  /** `j[k]`, for names no array, string or number has. */
  function Prop(j: Json, k: string): (r: Json)
    ensures Size(r) <= Size(j) && (j.Obj? ==> Size(r) < Size(j))
  {
    if j.Obj? then GetIsSmaller(j.members, k); Get(j.members, k) else Undefined
  }

  /** Likewise, when `j` may be null or undefined: reading a property of those throws. */
  function Field(j: Json, k: string): (r: Result<Json, Fault>)
    ensures r.Ok? ==> r.value == Prop(j, k)
  {
    if j.Undefined? || j.Null? then Err(TypeError) else Ok(Prop(j, k))
  }

  function Chars(s: string): List<Json> {
    if s == "" then Nil else Cons(Str(s[..1]), Chars(s[1..]))
  }

  function DigitsOf(n: nat): string {
    if n < 10 then [n as char + '0'] else DigitsOf(n / 10) + [(n % 10) as char + '0']
  }

  function Indexed(items: List<Json>, i: nat): List<Member> {
    if items.Nil? then Nil else Cons(Member(DigitsOf(i), items.head), Indexed(items.tail, i + 1))
  }

  /** `Object.entries(j)` */
  function Entries(j: Json): Result<List<Member>, Fault> {
    match j
    case Obj(ms) => Ok(ms)
    case Arr(items) => Ok(Indexed(items, 0))
    case Str(s) => Ok(Indexed(Chars(s), 0))
    case Bool(_) => Ok(Nil)
    case Num(_) => Ok(Nil)
    case _ => Err(TypeError)
  }

  // ---- EST to tree ----

  const BINARY_OPS: set<string> := {
    "==", "!=", "<", "<=", ">", ">=", "&&", "||", "+", "-", "*",
    "in", "contains", "containsAll", "containsAny", "getTag", "hasTag"}

  const UNARY_OPS: set<string> := {"!", "neg", "isEmpty"}

  /** What the key tests, in their order, make of a node. */
  datatype Form =
    | VarForm(v: Json)
    | ValueForm(v: Json)
    | SetForm(v: Json)
    | RecordForm(v: Json)
    | AttrForm(v: Json)
    | HasForm(v: Json)
    | LikeForm(v: Json)
    | IsForm(v: Json)
    | IfForm(v: Json)
    | BinaryForm(op: string, v: Json)
    | UnaryForm(op: string, v: Json)
    | ExtForm(fn: string, args: List<Json>)
    | RawForm

  function Weight(form: Form): nat {
    match form
    case RawForm => 0
    case ExtForm(_, args) => SizeItems(args)
    case _ => Size(form.v)
  }

  function FormOf(ms: List<Member>): (r: Form)
    ensures Weight(r) <= SizeMembers(ms)
  {
    GetIsSmaller(ms, "Var"); GetIsSmaller(ms, "Value"); GetIsSmaller(ms, "Set"); GetIsSmaller(ms, "Record");
    GetIsSmaller(ms, "."); GetIsSmaller(ms, "has"); GetIsSmaller(ms, "like"); GetIsSmaller(ms, "is");
    GetIsSmaller(ms, "if-then-else");
    if Has(ms, "Var") then VarForm(Get(ms, "Var"))
    else if Has(ms, "Value") then ValueForm(Get(ms, "Value"))
    else if Has(ms, "Set") then SetForm(Get(ms, "Set"))
    else if Has(ms, "Record") then RecordForm(Get(ms, "Record"))
    else if Has(ms, ".") then AttrForm(Get(ms, "."))
    else if Has(ms, "has") then HasForm(Get(ms, "has"))
    else if Has(ms, "like") then LikeForm(Get(ms, "like"))
    else if Has(ms, "is") then IsForm(Get(ms, "is"))
    else if Has(ms, "if-then-else") then IfForm(Get(ms, "if-then-else"))
    else if ms.Nil? || ms.tail.Cons? then RawForm
    else KeyForm(ms.head.key, ms.head.value)
  }

  /** A node with one key that is none of the structural ones. */
  function KeyForm(k: string, v: Json): (r: Form)
    ensures Weight(r) <= Size(v)
  {
    if k == "" then RawForm
    else if k in BINARY_OPS then BinaryForm(k, v)
    else if k in UNARY_OPS then UnaryForm(k, v)
    else if v.Arr? then ExtForm(k, v.items)
    else RawForm
  }

  /** `None`: the key tests throw, since the node is no object. */
  function Shape(node: Json): (r: Option<Form>)
    ensures r.Some? && !r.value.RawForm? ==> Weight(r.value) < Size(node)
  {
    match node
    case Obj(ms) => Some(FormOf(ms))
    case Arr(items) =>
      if items.Cons? && items.tail.Nil? && items.head.Arr? then
        assert Size(items.head) == 1 + SizeItems(items.head.items);
        Some(ExtForm("0", items.head.items))
      else Some(RawForm)
    case _ => None
  }

  function Entity(j: Json): Result<EntityRef, Fault> {
    var t :- Field(j, "type");
    Ok(EntityRef(t, Prop(j, "id")))
  }

  predicate IsEntityValue(v: Json) { v.Obj? && Has(v.members, "__entity") }

  function ValueToIr(node: Json, v: Json): Result<Expr, Fault> {
    if IsEntityValue(v) then
      var e :- Entity(Prop(v, "__entity"));
      Ok(LitEntity(e))
    else
      Ok(match v
         case Num(_) => Lit(Long, v)
         case Str(_) => Lit(Text, v)
         case Bool(_) => Lit(Truth, v)
         case _ => Raw(node))
  }

  function ToIr(node: Json, depth: nat): Result<Expr, Fault>
    decreases MAX_DEPTH + 1 - depth, 0
  {
    if depth > MAX_DEPTH then Err(TooDeep)
    else if Shape(node).None? then Err(TypeError)
    else FormToIr(node, Shape(node).value, depth + 1)
  }

  function FormToIr(node: Json, form: Form, d: nat): Result<Expr, Fault>
    decreases MAX_DEPTH + 1 - d, 2
  {
    match form
    case VarForm(v) => Ok(Var(v))
    case ValueForm(v) => ValueToIr(node, v)
    case SetForm(v) =>
      if !v.Arr? then Err(TypeError)
      else
        var xs :- ToIrs(v.items, d);
        Ok(SetOf(xs))
    case RecordForm(v) =>
      var entries :- Entries(v);
      var ps :- ToPairs(entries, d);
      Ok(RecordOf(ps))
    case AttrForm(v) =>
      var of :- PartToIr(v, "left", d);
      Ok(Attr(of, Prop(v, "attr"), NO_NOTE))
    case HasForm(v) =>
      var of :- PartToIr(v, "left", d);
      Ok(HasAttr(of, Prop(v, "attr")))
    case LikeForm(v) =>
      var of :- PartToIr(v, "left", d);
      Ok(Like(of, Prop(v, "pattern")))
    case IsForm(v) =>
      var of :- PartToIr(v, "left", d);
      if !Truthy(Prop(v, "in")) then Ok(Is(of, Prop(v, "entity_type"), None))
      else
        var within :- PartToIr(v, "in", d);
        Ok(Is(of, Prop(v, "entity_type"), Some(within)))
    case IfForm(v) =>
      var cond :- PartToIr(v, "if", d);
      var yes :- PartToIr(v, "then", d);
      var no :- PartToIr(v, "else", d);
      Ok(If(cond, yes, no))
    case BinaryForm(op, v) =>
      var left :- PartToIr(v, "left", d);
      var right :- PartToIr(v, "right", d);
      Ok(Binary(op, left, right))
    case UnaryForm(op, v) =>
      var operand :- PartToIr(v, "arg", d);
      Ok(Unary(op, operand))
    case ExtForm(fn, args) =>
      var xs :- ToIrs(args, d);
      Ok(Ext(fn, xs))
    case RawForm => Ok(Raw(node))
  }

  function PartToIr(j: Json, k: string, depth: nat): Result<Expr, Fault>
    decreases MAX_DEPTH + 1 - depth, 1
  {
    var part :- Field(j, k);
    ToIr(part, depth)
  }

  function ToIrs(nodes: List<Json>, depth: nat): Result<List<Expr>, Fault>
    decreases MAX_DEPTH + 1 - depth, 1, nodes
  {
    if nodes.Nil? then Ok(Nil)
    else
      var x :- ToIr(nodes.head, depth);
      var xs :- ToIrs(nodes.tail, depth);
      Ok(Cons(x, xs))
  }

  function ToPairs(entries: List<Member>, depth: nat): Result<List<Pair>, Fault>
    decreases MAX_DEPTH + 1 - depth, 1, entries
  {
    if entries.Nil? then Ok(Nil)
    else
      var x :- ToIr(entries.head.value, depth);
      var ps :- ToPairs(entries.tail, depth);
      Ok(Cons(Pair(entries.head.key, x), ps))
  }

  // ---- tree to EST ----

  function One(k: string, v: Json): Json { Obj(Cons(Member(k, v), Nil)) }

  function Two(k: string, v: Json, l: string, w: Json): Json { Obj(Cons(Member(k, v), Cons(Member(l, w), Nil))) }

  function Three(k: string, v: Json, l: string, w: Json, m: string, x: Json): Json {
    Obj(Cons(Member(k, v), Cons(Member(l, w), Cons(Member(m, x), Nil))))
  }

  function EntityJson(e: EntityRef): Json { Two("type", e.entityType, "id", e.id) }

  /** Throws, with the hole's name, on an unfilled hole. */
  function ToEst(e: Expr): Result<Json, string> {
    match e
    case Raw(est) => Ok(est)
    case Var(name) => Ok(One("Var", name))
    case Lit(_, value) => Ok(One("Value", value))
    case LitEntity(entity) => Ok(One("Value", One("__entity", EntityJson(entity))))
    case SetOf(elements) =>
      var items :- ToEsts(elements);
      Ok(One("Set", Arr(items)))
    case RecordOf(pairs) =>
      var ms :- ToMembers(pairs);
      Ok(One("Record", Obj(FromEntries(ms))))
    case Attr(of, attr, _) =>
      var left :- ToEst(of);
      Ok(One(".", Two("left", left, "attr", attr)))
    case HasAttr(of, attr) =>
      var left :- ToEst(of);
      Ok(One("has", Two("left", left, "attr", attr)))
    case Like(of, pattern) =>
      var left :- ToEst(of);
      Ok(One("like", Two("left", left, "pattern", pattern)))
    case Is(of, entityType, within) =>
      var left :- ToEst(of);
      (match within
       case None => Ok(One("is", Two("left", left, "entity_type", entityType)))
       case Some(w) =>
         var inner :- ToEst(w);
         Ok(One("is", Three("left", left, "entity_type", entityType, "in", inner))))
    case If(cond, yes, no) =>
      var c :- ToEst(cond);
      var y :- ToEst(yes);
      var n :- ToEst(no);
      Ok(One("if-then-else", Three("if", c, "then", y, "else", n)))
    case Binary(op, left, right) =>
      var l :- ToEst(left);
      var r :- ToEst(right);
      Ok(One(op, Two("left", l, "right", r)))
    case Unary(op, operand) =>
      var arg :- ToEst(operand);
      Ok(One(op, One("arg", arg)))
    case Ext(fn, args) =>
      var items :- ToEsts(args);
      Ok(One(fn, Arr(items)))
    case Hole(spec) => Err(spec.name)
  }

  function ToEsts(es: List<Expr>): Result<List<Json>, string> {
    if es.Nil? then Ok(Nil)
    else
      var x :- ToEst(es.head);
      var xs :- ToEsts(es.tail);
      Ok(Cons(x, xs))
  }

  function ToMembers(ps: List<Pair>): Result<List<Member>, string> {
    if ps.Nil? then Ok(Nil)
    else
      var x :- ToEst(ps.head.value);
      var xs :- ToMembers(ps.tail);
      Ok(Cons(Member(ps.head.key, x), xs))
  }

  // ---- whole policies ----

  function ScopeToIr(s: Json): Result<Scope, Fault> {
    var op :- Field(s, "op");
    if op == Str("==") then
      if Truthy(Prop(s, "slot")) then Ok(Slot(Prop(s, "slot")))
      else
        var e :- Entity(Prop(s, "entity"));
        Ok(ScopeEq(e))
    else if op == Str("in") then
      var e :- Entity(Prop(s, "entity"));
      Ok(ScopeIn(e))
    else if op == Str("is") then
      if !Truthy(Prop(s, "in")) then Ok(ScopeIs(Prop(s, "entity_type"), None))
      else
        var e :- Entity(Prop(Prop(s, "in"), "entity"));
        Ok(ScopeIs(Prop(s, "entity_type"), Some(e)))
    else Ok(ScopeAll)
  }

  function Entities(items: List<Json>): Result<List<EntityRef>, Fault> {
    if items.Nil? then Ok(Nil)
    else
      var e :- Entity(items.head);
      var es :- Entities(items.tail);
      Ok(Cons(e, es))
  }

  function ActionScopeToIr(s: Json): Result<ActionScope, Fault> {
    var op :- Field(s, "op");
    if op == Str("==") then
      var e :- Entity(Prop(s, "entity"));
      Ok(ActionEq(e))
    else if op == Str("in") then
      var listed := Prop(s, "entities");
      if listed.Undefined? || listed.Null? then Ok(ActionIn(Nil))
      else if !listed.Arr? then Err(TypeError)
      else
        var es :- Entities(listed.items);
        Ok(ActionIn(es))
    else Ok(ActionAll)
  }

  function ToConditions(cs: List<Json>): Result<List<Condition>, Fault> {
    if cs.Nil? then Ok(Nil)
    else
      var kind :- Field(cs.head, "kind");
      var body :- ToIr(Prop(cs.head, "body"), 0);
      var rest :- ToConditions(cs.tail);
      Ok(Cons(Condition(kind, body), rest))
  }

  /** `estToBlocks` before its annotation pass. */
  function PolicyToIr(est: Json): Result<Policy, Fault> {
    var effect :- Field(est, "effect");
    var notes := Prop(est, "annotations");
    var annotations :- if notes.Undefined? || notes.Null? then Ok(Nil) else Entries(notes);
    var principal :- ScopeToIr(Prop(est, "principal"));
    var action :- ActionScopeToIr(Prop(est, "action"));
    var resource :- ScopeToIr(Prop(est, "resource"));
    if !Prop(est, "conditions").Arr? then Err(TypeError)
    else
      var conditions :- ToConditions(Prop(est, "conditions").items);
      Ok(Policy(effect, annotations, principal, action, resource, conditions))
  }

  function ScopeToEst(s: Scope): Json {
    match s
    case ScopeAll => One("op", Str("All"))
    case ScopeEq(entity) => Two("op", Str("=="), "entity", EntityJson(entity))
    case ScopeIn(entity) => Two("op", Str("in"), "entity", EntityJson(entity))
    case ScopeIs(entityType, None) => Two("op", Str("is"), "entity_type", entityType)
    case ScopeIs(entityType, Some(e)) =>
      Three("op", Str("is"), "entity_type", entityType, "in", One("entity", EntityJson(e)))
    case Slot(slot) => Two("op", Str("=="), "slot", slot)
  }

  function EntityJsons(es: List<EntityRef>): List<Json> {
    if es.Nil? then Nil else Cons(EntityJson(es.head), EntityJsons(es.tail))
  }

  function ActionScopeToEst(s: ActionScope): Json {
    match s
    case ActionAll => One("op", Str("All"))
    case ActionEq(entity) => Two("op", Str("=="), "entity", EntityJson(entity))
    case ActionIn(entities) => Two("op", Str("in"), "entities", Arr(EntityJsons(entities)))
  }

  function FromConditions(cs: List<Condition>): Result<List<Json>, string> {
    if cs.Nil? then Ok(Nil)
    else
      var body :- ToEst(cs.head.body);
      var rest :- FromConditions(cs.tail);
      Ok(Cons(Two("kind", cs.head.kind, "body", body), rest))
  }

  /** `blocksToEst` */
  function PolicyToEst(p: Policy): Result<Json, string> {
    var conditions :- FromConditions(p.conditions);
    var last := if p.annotations.Nil? then Nil else Cons(Member("annotations", Obj(FromEntries(p.annotations))), Nil);
    Ok(Obj(Cons(Member("effect", p.effect),
           Cons(Member("principal", ScopeToEst(p.principal)),
           Cons(Member("action", ActionScopeToEst(p.action)),
           Cons(Member("resource", ScopeToEst(p.resource)),
           Cons(Member("conditions", Arr(conditions)), last)))))))
  }

  // ---- measures and simple passes over the tree ----

  /** Without its display annotations. */
  function Strip(e: Expr): Expr {
    match e
    case SetOf(elements) => SetOf(StripAll(elements))
    case RecordOf(pairs) => RecordOf(StripPairs(pairs))
    case Attr(of, attr, _) => Attr(Strip(of), attr, NO_NOTE)
    case HasAttr(of, attr) => HasAttr(Strip(of), attr)
    case Binary(op, left, right) => Binary(op, Strip(left), Strip(right))
    case Unary(op, operand) => Unary(op, Strip(operand))
    case Like(of, pattern) => Like(Strip(of), pattern)
    case Is(of, entityType, None) => Is(Strip(of), entityType, None)
    case Is(of, entityType, Some(w)) => Is(Strip(of), entityType, Some(Strip(w)))
    case If(cond, yes, no) => If(Strip(cond), Strip(yes), Strip(no))
    case Ext(fn, args) => Ext(fn, StripAll(args))
    case _ => e
  }

  function StripAll(es: List<Expr>): List<Expr> {
    if es.Nil? then Nil else Cons(Strip(es.head), StripAll(es.tail))
  }

  function StripPairs(ps: List<Pair>): List<Pair> {
    if ps.Nil? then Nil else Cons(Pair(ps.head.key, Strip(ps.head.value)), StripPairs(ps.tail))
  }

  predicate HoleFree(e: Expr) {
    match e
    case SetOf(elements) => HoleFreeAll(elements)
    case RecordOf(pairs) => HoleFreePairs(pairs)
    case Attr(of, _, _) => HoleFree(of)
    case HasAttr(of, _) => HoleFree(of)
    case Binary(_, left, right) => HoleFree(left) && HoleFree(right)
    case Unary(_, operand) => HoleFree(operand)
    case Like(of, _) => HoleFree(of)
    case Is(of, _, None) => HoleFree(of)
    case Is(of, _, Some(w)) => HoleFree(of) && HoleFree(w)
    case If(cond, yes, no) => HoleFree(cond) && HoleFree(yes) && HoleFree(no)
    case Ext(_, args) => HoleFreeAll(args)
    case Hole(_) => false
    case _ => true
  }

  predicate HoleFreeAll(es: List<Expr>) { es.Cons? ==> HoleFree(es.head) && HoleFreeAll(es.tail) }

  predicate HoleFreePairs(ps: List<Pair>) { ps.Cons? ==> HoleFree(ps.head.value) && HoleFreePairs(ps.tail) }

  predicate HoleFreeConditions(cs: List<Condition>) {
    cs.Cons? ==> HoleFree(cs.head.body) && HoleFreeConditions(cs.tail)
  }

  /** How many expressions deep the tree is below its root. */
  function Nesting(e: Expr): nat {
    match e
    case SetOf(elements) => Deepest(elements)
    case RecordOf(pairs) => DeepestPair(pairs)
    case Attr(of, _, _) => 1 + Nesting(of)
    case HasAttr(of, _) => 1 + Nesting(of)
    case Binary(_, left, right) => 1 + Max(Nesting(left), Nesting(right))
    case Unary(_, operand) => 1 + Nesting(operand)
    case Like(of, _) => 1 + Nesting(of)
    case Is(of, _, None) => 1 + Nesting(of)
    case Is(of, _, Some(w)) => 1 + Max(Nesting(of), Nesting(w))
    case If(cond, yes, no) => 1 + Max(Nesting(cond), Max(Nesting(yes), Nesting(no)))
    case Ext(_, args) => Deepest(args)
    case _ => 0
  }

  function Deepest(es: List<Expr>): nat {
    if es.Nil? then 0 else Max(1 + Nesting(es.head), Deepest(es.tail))
  }

  function DeepestPair(ps: List<Pair>): nat {
    if ps.Nil? then 0 else Max(1 + Nesting(ps.head.value), DeepestPair(ps.tail))
  }
}
