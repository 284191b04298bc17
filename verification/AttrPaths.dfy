/**
 Dotted paths and chains of attribute accesses, and the display annotations that the
 editor derives from them.
 */
module AttrPaths {
  import opened BlockIr
  import opened ExprTrees
  import opened Jsons
  import opened Options
  import opened OwnKeys

  /** How a value is written by `join`; a string is written as it is. */
  type Describe = Json -> string

  ghost predicate GoodText(text: Describe) { forall s: string :: text(Str(s)) == s }

  const ROOTS: set<string> := {"principal", "context", "resource", "action"}

  /** The names along a chain of accesses, root first; `None` when it does not start at a variable. */
  function Chain(e: Expr): (r: Option<seq<Json>>)
    ensures r.Some? ==> |r.value| >= 1
  {
    match e
    case Var(name) => Some([name])
    case Attr(of, attr, _) => (match Chain(of) case None => None case Some(names) => Some(names + [attr]))
    case _ => None
  }

  function Texts(text: Describe, names: seq<Json>): (r: seq<string>)
    ensures |r| == |names| && forall i :: 0 <= i < |r| ==> r[i] == text(names[i])
  {
    seq(|names|, i requires 0 <= i < |names| => text(names[i]))
  }

  function PathOf(text: Describe, e: Expr): Option<string> {
    match Chain(e)
    case None => None
    case Some(names) => Some(Join(Texts(text, names), '.'))
  }

  function Followed(names: Option<seq<Json>>, rest: seq<Json>): Option<seq<Json>> {
    match names
    case None => None
    case Some(first) => Some(first + rest)
  }

  /** Moving one access from the chain to the collected names. */
  lemma FollowedOn(of: Expr, attr: Json, note: Note, rest: seq<Json>)
    ensures Followed(Chain(Attr(of, attr, note)), rest) == Followed(Chain(of), [attr] + rest)
  {
    if Chain(of).Some? {
      assert (Chain(of).value + [attr]) + rest == Chain(of).value + ([attr] + rest);
    }
  }

  method AttrExprToPath(text: Describe, e: Expr) returns (r: Option<string>)
    ensures r == PathOf(text, e)
  {
    var segs: seq<Json> := [];
    var cur := e;
    assert Chain(e).Some? ==> Chain(e).value + [] == Chain(e).value;
    while cur.Attr?
      invariant Chain(e) == Followed(Chain(cur), segs)
      decreases cur
    {
      FollowedOn(cur.of, cur.attr, cur.note, segs);
      segs := [cur.attr] + segs;
      cur := cur.of;
    }
    if !cur.Var? { return None; }
    segs := [cur.name] + segs;
    return Some(Join(Texts(text, segs), '.'));
  }

  /** The schema's path of an access is its path in the parameter layer, whatever its annotations. */
  method AttrPath(text: Describe, of: Expr, attr: Json) returns (r: Option<string>)
    ensures forall note: Note :: r == PathOf(text, Attr(of, attr, note))
  {
    var parts: seq<Json> := [attr];
    var cur := of;
    while cur.Attr?
      invariant Chain(Attr(of, attr, NO_NOTE)) == Followed(Chain(cur), parts)
      decreases cur
    {
      FollowedOn(cur.of, cur.attr, cur.note, parts);
      parts := [cur.attr] + parts;
      cur := cur.of;
    }
    assert forall note: Note :: Chain(Attr(of, attr, note)) == Chain(Attr(of, attr, NO_NOTE));
    if cur.Var? {
      parts := [cur.name] + parts;
      return Some(Join(Texts(text, parts), '.'));
    }
    return None;
  }

  function NonEmpty(parts: seq<string>): (r: seq<string>)
    ensures forall i :: 0 <= i < |r| ==> r[i] != [] && r[i] in parts
  {
    if parts == [] then [] else (if parts[0] == [] then [] else [parts[0]]) + NonEmpty(parts[1..])
  }

  function Segments(path: string): (r: seq<string>)
    ensures forall i :: 0 <= i < |r| ==> r[i] != [] && '.' !in r[i]
  {
    NonEmpty(Split(path, '.'))
  }

  /** The chain through the first `n` names. */
  function Built(segs: seq<string>, n: nat): Expr
    requires 1 <= n <= |segs|
  {
    if n == 1 then Var(Str(segs[0])) else Attr(Built(segs, n - 1), Str(segs[n - 1]), NO_NOTE)
  }

  function ExprOf(path: string): Option<Expr> {
    var segs := Segments(path);
    if segs == [] || segs[0] !in ROOTS then None else Some(Built(segs, |segs|))
  }

  method PathToAttrExpr(path: string) returns (r: Option<Expr>)
    ensures r == ExprOf(path)
  {
    var segs := Segments(path);
    if segs == [] || segs[0] !in ROOTS { return None; }
    var e := Var(Str(segs[0]));
    var i := 1;
    while i < |segs|
      invariant 1 <= i <= |segs|
      invariant e == Built(segs, i)
    {
      e := Attr(e, Str(segs[i]), NO_NOTE);
      i := i + 1;
    }
    return Some(e);
  }

  // ---- the two directions ----

  /** The first `n` names as the chain holds them. */
  function Named(segs: seq<string>, n: nat): (r: seq<Json>)
    requires n <= |segs|
    ensures |r| == n && forall i :: 0 <= i < n ==> r[i] == Str(segs[i])
  {
    if n == 0 then [] else Named(segs, n - 1) + [Str(segs[n - 1])]
  }

  lemma {:induction false} ChainOfBuilt(segs: seq<string>, n: nat)
    requires 1 <= n <= |segs|
    ensures Chain(Built(segs, n)) == Some(Named(segs, n))
  {
    if n == 1 { assert Named(segs, 1) == [Str(segs[0])]; } else { ChainOfBuilt(segs, n - 1); }
  }

  lemma {:induction false} NonEmptyKeepsAll(parts: seq<string>)
    ensures |NonEmpty(parts)| <= |parts|
    ensures [] !in parts <==> NonEmpty(parts) == parts
  {
    if parts != [] {
      NonEmptyKeepsAll(parts[1..]);
      assert parts == [parts[0]] + parts[1..];
    }
  }

  /** How many of the first `n` parts are not empty. */
  function FullCount(parts: seq<string>, n: nat): nat
    requires n <= |parts|
  {
    if n == 0 then 0 else FullCount(parts, n - 1) + if parts[n - 1] == "" then 0 else 1
  }

  lemma {:induction false} FullCountOfRest(parts: seq<string>, n: nat)
    requires n < |parts|
    ensures FullCount(parts, n + 1) == FullCount(parts[1..], n) + if parts[0] == "" then 0 else 1
  {
    if n > 0 { FullCountOfRest(parts, n - 1); } else { assert FullCount(parts, 0) == FullCount(parts[1..], 0) == 0; }
  }

  lemma {:induction false} NonEmptyCount(parts: seq<string>)
    ensures |NonEmpty(parts)| == FullCount(parts, |parts|)
  {
    if parts != [] {
      NonEmptyCount(parts[1..]);
      FullCountOfRest(parts, |parts| - 1);
    }
  }

  lemma {:induction false} NonEmptyAt(parts: seq<string>, i: nat)
    requires i < |parts| && parts[i] != ""
    ensures FullCount(parts, i) < |NonEmpty(parts)| && NonEmpty(parts)[FullCount(parts, i)] == parts[i]
  {
    if i > 0 {
      hide FullCount;
      NonEmptyAt(parts[1..], i - 1);
      FullCountOfRest(parts, i - 1);
    }
  }

  /** The parts that are not empty are kept in their order, and there are no others. */
  lemma NonEmptyInOrder(parts: seq<string>)
    ensures |NonEmpty(parts)| == FullCount(parts, |parts|)
    ensures forall i :: 0 <= i < |parts| && parts[i] != "" ==>
              FullCount(parts, i) < |NonEmpty(parts)| && NonEmpty(parts)[FullCount(parts, i)] == parts[i]
  {
    hide NonEmpty, FullCount;
    NonEmptyCount(parts);
    forall i | 0 <= i < |parts| && parts[i] != ""
      ensures FullCount(parts, i) < |NonEmpty(parts)| && NonEmpty(parts)[FullCount(parts, i)] == parts[i]
    {
      NonEmptyAt(parts, i);
    }
  }

  /** The segments of a path are its non-empty parts between dots, in order. */
  lemma SegmentsInOrder(parts: seq<string>)
    requires |parts| >= 1 && forall i :: 0 <= i < |parts| ==> '.' !in parts[i]
    ensures
      var segs := Segments(Join(parts, '.'));
      && |segs| == FullCount(parts, |parts|)
      && forall i :: 0 <= i < |parts| && parts[i] != "" ==>
           FullCount(parts, i) < |segs| && segs[FullCount(parts, i)] == parts[i]
  {
    hide NonEmpty, Split, Join, FullCount;
    SplitOfJoin(parts, '.');
    NonEmptyInOrder(parts);
  }

  /** Path to chain to path drops the empty segments and nothing else. */
  lemma PathThroughChain(text: Describe, path: string)
    requires GoodText(text) && ExprOf(path).Some?
    ensures PathOf(text, ExprOf(path).value) == Some(Join(Segments(path), '.'))
    ensures PathOf(text, ExprOf(path).value) == Some(path) <==> [] !in Split(path, '.')
  {
    hide Split, Join, NonEmpty;
    var segs := Segments(path);
    ChainOfBuilt(segs, |segs|);
    assert Texts(text, Chain(ExprOf(path).value).value) == segs;
    NonEmptyKeepsAll(Split(path, '.'));
    JoinOfSplit(path, '.');
    if Join(segs, '.') == path { SplitOfJoin(segs, '.'); }
  }

  predicate PlainName(name: Json) { name.Str? && name.s != [] && '.' !in name.s }

  predicate PlainChain(names: seq<Json>) {
    && (forall i :: 0 <= i < |names| ==> PlainName(names[i]))
    && |names| >= 1 && names[0].s in ROOTS
  }

  lemma {:induction false} BuiltOfChain(text: Describe, e: Expr, names: seq<Json>)
    requires GoodText(text) && names != [] && Chain(e) == Some(names)
    requires forall i :: 0 <= i < |names| ==> PlainName(names[i])
    ensures Built(Texts(text, names), |names|) == Strip(e)
  {
    if e.Attr? {
      var before := names[..|names| - 1];
      BuiltOfChain(text, e.of, before);
      BuiltOfPrefix(Texts(text, before), Texts(text, names), |before|);
    }
  }

  lemma {:induction false} BuiltOfPrefix(a: seq<string>, b: seq<string>, n: nat)
    requires 1 <= n <= |a| <= |b| && forall i :: 0 <= i < n ==> a[i] == b[i]
    ensures Built(a, n) == Built(b, n)
  {
    if n > 1 { BuiltOfPrefix(a, b, n - 1); }
  }

  lemma {:induction false} ChainOfStrip(e: Expr)
    ensures Chain(Strip(e)) == Chain(e)
  {
    if e.Attr? { ChainOfStrip(e.of); }
  }

  /**
   Chain to path to chain is the identity, annotations aside, exactly when every name is
   a non-empty string without dots and the root is a request variable.
   */
  lemma ChainThroughPath(text: Describe, e: Expr)
    requires GoodText(text) && PathOf(text, e).Some?
    ensures ExprOf(PathOf(text, e).value) == Some(Strip(e)) <==> PlainChain(Chain(e).value)
  {
    hide Split, Join, NonEmpty, Chain, Strip;
    var names := Chain(e).value;
    var path := PathOf(text, e).value;
    if PlainChain(names) {
      var segs := Texts(text, names);
      SplitOfJoin(segs, '.');
      NonEmptyKeepsAll(segs);
      BuiltOfChain(text, e, names);
    } else if ExprOf(path) == Some(Strip(e)) {
      ReadChainIsPlain(e, path);
    }
  }

  lemma ReadChainIsPlain(e: Expr, path: string)
    requires ExprOf(path) == Some(Strip(e))
    ensures Chain(e).Some? && PlainChain(Chain(e).value)
  {
    hide Chain, Strip, NonEmpty, Split, Built;
    var segs := Segments(path);
    ChainOfBuilt(segs, |segs|);
    ChainOfStrip(e);
    var names := Chain(e).value;
    assert forall i :: 0 <= i < |names| ==> names[i] == Str(segs[i]);
  }

  // ---- display annotations ----

  datatype SchemaField = SchemaField(path: string, typeName: string, source: Source)

  type Schema = map<string, seq<SchemaField>>

  function Find(fields: seq<SchemaField>, path: string): Option<SchemaField> {
    if fields == [] then None else if fields[0].path == path then Some(fields[0]) else Find(fields[1..], path)
  }

  /** The note of an access at a path, given the fields of the policy's one action, if any. */
  function Classify(path: Option<string>, fields: Option<seq<SchemaField>>, old_: Note): Note {
    var found := if path.Some? && path.value != "" && fields.Some? then Find(fields.value, path.value) else None;
    var typeName := if found.Some? && found.value.typeName != "" then Some(found.value.typeName) else old_.typeName;
    var source :=
      if path.Some? && "context.custom." <= path.value then Custom
      else if found.Some? then found.value.source
      else UnknownSource;
    Note(typeName, Some(source), old_.caption)
  }

  function Annotate(text: Describe, e: Expr, fields: Option<seq<SchemaField>>): Expr {
    match e
    case SetOf(elements) => SetOf(AnnotateAll(text, elements, fields))
    case RecordOf(pairs) => RecordOf(AnnotatePairs(text, pairs, fields))
    case Attr(of, attr, note) => Attr(Annotate(text, of, fields), attr, Classify(PathOf(text, e), fields, note))
    case HasAttr(of, attr) => HasAttr(Annotate(text, of, fields), attr)
    case Binary(op, left, right) => Binary(op, Annotate(text, left, fields), Annotate(text, right, fields))
    case Unary(op, operand) => Unary(op, Annotate(text, operand, fields))
    case Like(of, pattern) => Like(Annotate(text, of, fields), pattern)
    case Is(of, t, None) => Is(Annotate(text, of, fields), t, None)
    case Is(of, t, Some(w)) => Is(Annotate(text, of, fields), t, Some(Annotate(text, w, fields)))
    case If(cond, yes, no) => If(Annotate(text, cond, fields), Annotate(text, yes, fields), Annotate(text, no, fields))
    case Ext(fn, args) => Ext(fn, AnnotateAll(text, args, fields))
    case _ => e
  }

  function AnnotateAll(text: Describe, es: List<Expr>, fields: Option<seq<SchemaField>>): List<Expr> {
    if es.Nil? then Nil else Cons(Annotate(text, es.head, fields), AnnotateAll(text, es.tail, fields))
  }

  function AnnotatePairs(text: Describe, ps: List<Pair>, fields: Option<seq<SchemaField>>): List<Pair> {
    if ps.Nil? then Nil
    else Cons(Pair(ps.head.key, Annotate(text, ps.head.value, fields)), AnnotatePairs(text, ps.tail, fields))
  }

  function AnnotateConditions(text: Describe, cs: List<Condition>, fields: Option<seq<SchemaField>>): List<Condition> {
    if cs.Nil? then Nil
    else Cons(Condition(cs.head.kind, Annotate(text, cs.head.body, fields)), AnnotateConditions(text, cs.tail, fields))
  }

  /** Only a policy scoped to one action has fields. */
  function FieldsOf(text: Describe, action: ActionScope, schema: Schema): Option<seq<SchemaField>> {
    if action.ActionEq? && Truthy(action.entity.id) && text(action.entity.id) in schema then
      Some(schema[text(action.entity.id)])
    else None
  }

  function AnnotatePolicy(text: Describe, p: Policy, schema: Schema): Policy {
    p.(conditions := AnnotateConditions(text, p.conditions, FieldsOf(text, p.action, schema)))
  }

  /** `estToBlocks` */
  function EstToBlocks(text: Describe, schema: Option<Schema>, est: Json): Result<Policy, Fault> {
    var p :- PolicyToIr(est);
    Ok(if schema.Some? then AnnotatePolicy(text, p, schema.value) else p)
  }

  // ---- what is annotated ----

  /** The first field with a path. */
  predicate FirstWith(fields: seq<SchemaField>, path: string, i: nat) {
    i < |fields| && fields[i].path == path && forall j :: 0 <= j < i ==> fields[j].path != path
  }

  lemma {:induction false} FindsFirst(fields: seq<SchemaField>, path: string)
    ensures forall i: nat :: FirstWith(fields, path, i) ==> Find(fields, path) == Some(fields[i])
    ensures Find(fields, path).None? <==> forall i :: 0 <= i < |fields| ==> fields[i].path != path
  {
    if fields != [] {
      var rest := fields[1..];
      FindsFirst(rest, path);
      forall i: nat | FirstWith(fields, path, i)
        ensures Find(fields, path) == Some(fields[i])
      {
        if i > 0 {
          assert forall j :: 0 <= j < i - 1 ==> rest[j] == fields[j + 1];
          assert FirstWith(rest, path, i - 1);
        }
      }
      if Find(fields, path).None? {
        assert forall i :: 0 < i < |fields| ==> fields[i] == rest[i - 1];
      }
    }
  }

  /**
   An access under `context.custom.` comes from the manifest, any other from where the
   first field of its path says, or from nowhere known.  That field's type is shown when
   it has one, and a caption stays.
   */
  ghost predicate ShownAs(path: Option<string>, fields: Option<seq<SchemaField>>, was: Note, note: Note) {
    var custom := path.Some? && "context.custom." <= path.value;
    var known := path.Some? && path.value != "" && fields.Some?;
    && note.caption == was.caption
    && (custom ==> note.source == Some(Custom))
    && (known ==> forall i: nat :: FirstWith(fields.value, path.value, i) ==>
          && note.typeName == (if fields.value[i].typeName == "" then was.typeName else Some(fields.value[i].typeName))
          && (!custom ==> note.source == Some(fields.value[i].source)))
    && ((known ==> forall i :: 0 <= i < |fields.value| ==> fields.value[i].path != path.value) ==>
          note.typeName == was.typeName && (!custom ==> note.source == Some(UnknownSource)))
  }

  lemma ClassifyShows(path: Option<string>, fields: Option<seq<SchemaField>>, was: Note)
    ensures ShownAs(path, fields, was, Classify(path, fields, was))
  {
    hide Find, FirstWith;
    if path.Some? && fields.Some? { FindsFirst(fields.value, path.value); }
  }

  lemma {:induction false} NthAnnotated(text: Describe, es: List<Expr>, fields: Option<seq<SchemaField>>, i: nat)
    requires i < Length(es)
    ensures i < Length(AnnotateAll(text, es, fields))
    ensures Nth(AnnotateAll(text, es, fields), i) == Annotate(text, Nth(es, i), fields)
  {
    hide Annotate;
    if i > 0 { NthAnnotated(text, es.tail, fields, i - 1); }
  }

  lemma {:induction false} AnnotatedValues(text: Describe, ps: List<Pair>, fields: Option<seq<SchemaField>>)
    ensures PairValues(AnnotatePairs(text, ps, fields)) == AnnotateAll(text, PairValues(ps), fields)
  {
    hide Annotate;
    if ps.Cons? { AnnotatedValues(text, ps.tail, fields); }
  }

  lemma OneAnnotated(text: Describe, fields: Option<seq<SchemaField>>, a: Expr)
    ensures AnnotateAll(text, Cons(a, Nil), fields) == Cons(Annotate(text, a, fields), Nil)
  {
    hide Annotate;
    assert AnnotateAll(text, Nil, fields) == Nil;
  }

  lemma OneMoreAnnotated(text: Describe, fields: Option<seq<SchemaField>>, a: Expr, es: List<Expr>)
    ensures AnnotateAll(text, Cons(a, es), fields) == Cons(Annotate(text, a, fields), AnnotateAll(text, es, fields))
  {
    hide Annotate;
  }

  lemma AnnotatedBranches(text: Describe, e: Expr, fields: Option<seq<SchemaField>>)
    requires e.Binary? || e.If? || e.Is?
    ensures Children(Annotate(text, e, fields)) == AnnotateAll(text, Children(e), fields)
  {
    hide Classify, PathOf, AnnotateAll, AnnotatePairs, PairValues;
    match e
    case Binary(_, left, right) =>
      OneAnnotated(text, fields, right);
      OneMoreAnnotated(text, fields, left, Cons(right, Nil));
    case Is(of, _, None) => OneAnnotated(text, fields, of);
    case Is(of, _, Some(w)) =>
      OneAnnotated(text, fields, w);
      OneMoreAnnotated(text, fields, of, Cons(w, Nil));
    case If(cond, yes, no) =>
      OneAnnotated(text, fields, no);
      OneMoreAnnotated(text, fields, yes, Cons(no, Nil));
      OneMoreAnnotated(text, fields, cond, Cons(yes, Cons(no, Nil)));
  }

  lemma AnnotatedChildren(text: Describe, e: Expr, fields: Option<seq<SchemaField>>)
    ensures Children(Annotate(text, e, fields)) == AnnotateAll(text, Children(e), fields)
  {
    hide Classify, PathOf, AnnotateAll, AnnotatePairs, PairValues;
    if e.Binary? || e.If? || e.Is? {
      AnnotatedBranches(text, e, fields);
    } else {
      match e
      case RecordOf(pairs) => AnnotatedValues(text, pairs, fields);
      case Attr(of, _, _) => OneAnnotated(text, fields, of);
      case HasAttr(of, _) => OneAnnotated(text, fields, of);
      case Unary(_, operand) => OneAnnotated(text, fields, operand);
      case Like(of, _) => OneAnnotated(text, fields, of);
      case SetOf(_) =>
      case Ext(_, _) =>
      case _ => NoneAnnotated(text, fields);
    }
  }

  lemma NoneAnnotated(text: Describe, fields: Option<seq<SchemaField>>)
    ensures AnnotateAll(text, Nil, fields) == Nil
  {}

  lemma {:induction false} AnnotatedAt(text: Describe, e: Expr, fields: Option<seq<SchemaField>>, p: Position)
    requires Valid(e, p)
    ensures Valid(Annotate(text, e, fields), p)
    ensures Node(Annotate(text, e, fields), p) == Annotate(text, Node(e, p), fields)
    decreases p
  {
    hide Annotate, AnnotateAll, Children, Nth, Length;
    if p.Cons? {
      AnnotatedChildren(text, e, fields);
      NthAnnotated(text, Children(e), fields, p.head);
      AnnotatedAt(text, Nth(Children(e), p.head), fields, p.tail);
    }
  }

  /** Wherever the policy reads an attribute, the editor shows what the fields of the policy's action say of it. */
  lemma AccessIsShown(text: Describe, p: Policy, schema: Schema, n: nat, pos: Position)
    requires GoodText(text) && (p.action.ActionEq? ==> p.action.entity.id.Str?)
    requires n < Length(p.conditions) && Valid(Nth(p.conditions, n).body, pos)
    requires Node(Nth(p.conditions, n).body, pos).Attr?
    ensures
      var cs := AnnotatePolicy(text, p, schema).conditions;
      var fields :=
        match p.action
        case ActionEq(EntityRef(_, Str(id))) => if id != "" && id in schema then Some(schema[id]) else None
        case _ => None;
      && n < Length(cs) && Valid(Nth(cs, n).body, pos)
      && var was, now := Node(Nth(p.conditions, n).body, pos), Node(Nth(cs, n).body, pos);
      && now.Attr? && now.attr == was.attr && ShownAs(PathOf(text, was), fields, was.note, now.note)
  {
    hide Classify, PathOf, ShownAs, Valid, Node, Nth, Length, AnnotateConditions;
    var fields := FieldsOf(text, p.action, schema);
    NthCondition(text, p.conditions, fields, n);
    AnnotatedAt(text, Nth(p.conditions, n).body, fields, pos);
    var was := Node(Nth(p.conditions, n).body, pos);
    ClassifyShows(PathOf(text, was), fields, was.note);
  }

  lemma {:induction false} NthCondition(text: Describe, cs: List<Condition>, fields: Option<seq<SchemaField>>, n: nat)
    requires n < Length(cs)
    ensures n < Length(AnnotateConditions(text, cs, fields))
    ensures Nth(AnnotateConditions(text, cs, fields), n) ==
            Condition(Nth(cs, n).kind, Annotate(text, Nth(cs, n).body, fields))
  {
    hide Annotate;
    if n > 0 { NthCondition(text, cs.tail, fields, n - 1); }
  }

  /** The printer does not look at display annotations. */
  lemma {:induction false} PrintIgnoresNotes(e: Expr)
    ensures ToEst(Strip(e)) == ToEst(e)
    decreases e, 1
  {
    hide Classify, PathOf, FromEntries;
    match e
    case SetOf(elements) => PrintAllIgnoresNotes(elements);
    case RecordOf(pairs) => PrintPairsIgnoresNotes(pairs);
    case Attr(of, _, _) => PrintIgnoresNotes(of);
    case HasAttr(of, _) => PrintIgnoresNotes(of);
    case Binary(_, _, _) => BranchesIgnoreNotes(e);
    case Unary(_, operand) => PrintIgnoresNotes(operand);
    case Like(of, _) => PrintIgnoresNotes(of);
    case Is(_, _, _) => BranchesIgnoreNotes(e);
    case If(_, _, _) => BranchesIgnoreNotes(e);
    case Ext(_, args) => PrintAllIgnoresNotes(args);
    case _ =>
  }

  lemma {:induction false} BranchesIgnoreNotes(e: Expr)
    requires e.Binary? || e.Is? || e.If?
    ensures ToEst(Strip(e)) == ToEst(e)
    decreases e, 0
  {
    match e
    case Binary(_, left, right) => PrintIgnoresNotes(left); PrintIgnoresNotes(right);
    case Is(of, _, None) => PrintIgnoresNotes(of);
    case Is(of, _, Some(w)) => PrintIgnoresNotes(of); PrintIgnoresNotes(w);
    case If(cond, yes, no) => PrintIgnoresNotes(cond); PrintIgnoresNotes(yes); PrintIgnoresNotes(no);
  }

  lemma {:induction false} PrintAllIgnoresNotes(es: List<Expr>)
    ensures ToEsts(StripAll(es)) == ToEsts(es)
    decreases es, 2
  {
    if es.Cons? { PrintIgnoresNotes(es.head); PrintAllIgnoresNotes(es.tail); }
  }

  lemma {:induction false} PrintPairsIgnoresNotes(ps: List<Pair>)
    ensures ToMembers(StripPairs(ps)) == ToMembers(ps)
    decreases ps, 2
  {
    if ps.Cons? { PrintIgnoresNotes(ps.head.value); PrintPairsIgnoresNotes(ps.tail); }
  }

  /** The annotation pass changes nothing else. */
  lemma {:induction false} OnlyNotesChange(text: Describe, e: Expr, fields: Option<seq<SchemaField>>)
    ensures Strip(Annotate(text, e, fields)) == Strip(e)
    decreases e, 1
  {
    hide Classify, PathOf, FromEntries;
    match e
    case SetOf(elements) => OnlyNotesChangeInAll(text, elements, fields);
    case RecordOf(pairs) => OnlyNotesChangeInPairs(text, pairs, fields);
    case Attr(of, _, _) => OnlyNotesChange(text, of, fields);
    case HasAttr(of, _) => OnlyNotesChange(text, of, fields);
    case Binary(_, _, _) => OnlyNotesChangeBelow(text, e, fields);
    case Unary(_, operand) => OnlyNotesChange(text, operand, fields);
    case Like(of, _) => OnlyNotesChange(text, of, fields);
    case Is(_, _, _) => OnlyNotesChangeBelow(text, e, fields);
    case If(_, _, _) => OnlyNotesChangeBelow(text, e, fields);
    case Ext(_, args) => OnlyNotesChangeInAll(text, args, fields);
    case _ =>
  }

  lemma {:induction false} OnlyNotesChangeBelow(text: Describe, e: Expr, fields: Option<seq<SchemaField>>)
    requires e.Binary? || e.Is? || e.If?
    ensures Strip(Annotate(text, e, fields)) == Strip(e)
    decreases e, 0
  {
    hide Classify, PathOf, FromEntries;
    match e
    case Binary(_, left, right) => OnlyNotesChange(text, left, fields); OnlyNotesChange(text, right, fields);
    case Is(of, _, None) => OnlyNotesChange(text, of, fields);
    case Is(of, _, Some(w)) => OnlyNotesChange(text, of, fields); OnlyNotesChange(text, w, fields);
    case If(cond, yes, no) =>
      OnlyNotesChange(text, cond, fields);
      OnlyNotesChange(text, yes, fields);
      OnlyNotesChange(text, no, fields);
  }

  lemma {:induction false} OnlyNotesChangeInAll(text: Describe, es: List<Expr>, fields: Option<seq<SchemaField>>)
    ensures StripAll(AnnotateAll(text, es, fields)) == StripAll(es)
    decreases es, 2
  {
    if es.Cons? { OnlyNotesChange(text, es.head, fields); OnlyNotesChangeInAll(text, es.tail, fields); }
  }

  lemma {:induction false} OnlyNotesChangeInPairs(text: Describe, ps: List<Pair>, fields: Option<seq<SchemaField>>)
    ensures StripPairs(AnnotatePairs(text, ps, fields)) == StripPairs(ps)
    decreases ps, 2
  {
    if ps.Cons? { OnlyNotesChange(text, ps.head.value, fields); OnlyNotesChangeInPairs(text, ps.tail, fields); }
  }

  lemma AnnotateIsInvisible(text: Describe, e: Expr, fields: Option<seq<SchemaField>>)
    ensures ToEst(Annotate(text, e, fields)) == ToEst(e)
  {
    hide ToEst, Annotate, Strip;
    OnlyNotesChange(text, e, fields);
    PrintIgnoresNotes(Annotate(text, e, fields));
    PrintIgnoresNotes(e);
  }

  lemma {:induction false} ConditionsInvisible(text: Describe, cs: List<Condition>, fields: Option<seq<SchemaField>>)
    ensures FromConditions(AnnotateConditions(text, cs, fields)) == FromConditions(cs)
  {
    hide ToEst, Annotate, Strip;
    if cs.Cons? {
      AnnotateIsInvisible(text, cs.head.body, fields);
      ConditionsInvisible(text, cs.tail, fields);
    }
  }

  lemma PolicyAnnotationInvisible(text: Describe, p: Policy, schema: Schema)
    ensures PolicyToEst(AnnotatePolicy(text, p, schema)) == PolicyToEst(p)
  {
    hide FromConditions, AnnotateConditions, FieldsOf, FromEntries;
    ConditionsInvisible(text, p.conditions, FieldsOf(text, p.action, schema));
  }
}
