/**
 What the EST reader looks at first: which key of a node decides, what counts as
 missing, and in which order an object's members are listed.
 */
module EstReading {
  import opened BlockIr
  import opened IrRoundTrips
  import opened Jsons
  import opened Options
  import opened OwnKeys

  // ---- names that are array indices ----

  lemma {:induction false} DigitsOfIsDecimal(n: nat)
    ensures Digits(DigitsOf(n)) && Decimal(DigitsOf(n)) == n
    ensures DigitsOf(n) != [] && (n > 0 ==> DigitsOf(n)[0] != '0') && (n == 0 ==> DigitsOf(n) == "0")
  {
    if n >= 10 {
      DigitsOfIsDecimal(n / 10);
      var s := DigitsOf(n / 10);
      assert DigitsOf(n)[..|s|] == s;
    } else {
      assert Decimal([]) == 0;
      assert DigitsOf(n)[..0] == [];
    }
  }

  lemma {:induction false} DecimalIsDigitsOf(s: string)
    requires s != [] && Digits(s) && (s[0] != '0' || |s| == 1)
    ensures DigitsOf(Decimal(s)) == s
    ensures s[0] != '0' ==> Decimal(s) > 0
  {
    var front, last := s[..|s| - 1], s[|s| - 1] as int - '0' as int;
    assert s == front + [s[|s| - 1]];
    if front != [] {
      DecimalIsDigitsOf(front);
      assert Decimal(s) / 10 == Decimal(front) && Decimal(s) % 10 == last;
    } else {
      assert Decimal(front) == 0;
    }
  }

  /** The names that are array indices are the numbers below 2^32 - 1 as JavaScript prints them. */
  lemma IndexExactly(k: string, n: nat)
    ensures IndexOf(k) == Some(n) <==> n < 4294967295 && k == DigitsOf(n)
  {
    if IndexOf(k).Some? { DecimalIsDigitsOf(k); }
    if k == DigitsOf(n) { DigitsOfIsDecimal(n); }
  }

  function NameAt(ms: List<Member>, i: nat): string
    requires i < Length(ms)
  {
    Nth(ms, i).key
  }

  lemma {:induction false} AllAfterNth(k: string, ms: List<Member>, j: nat)
    requires AllAfter(k, Names(ms)) && j < Length(ms)
    ensures Before(k, NameAt(ms, j))
  {
    hide Before;
    if j > 0 { AllAfterNth(k, ms.tail, j - 1); }
  }

  lemma {:induction false} HasNth(ms: List<Member>, j: nat)
    requires j < Length(ms)
    ensures Listed(Names(ms), NameAt(ms, j))
  {
    if j > 0 { HasNth(ms.tail, j - 1); }
  }

  lemma {:induction false} OrderedNth(ms: List<Member>, i: nat, j: nat)
    requires OwnOrder(Names(ms)) && i < j < Length(ms)
    ensures Before(NameAt(ms, i), NameAt(ms, j)) && NameAt(ms, i) != NameAt(ms, j)
  {
    hide Before, AllAfter;
    if i > 0 {
      OrderedNth(ms.tail, i - 1, j - 1);
    } else {
      AllAfterNth(ms.head.key, ms.tail, j - 1);
      HasNth(ms.tail, j - 1);
    }
  }

  /** In front of an index, an object lists smaller indices only. */
  lemma {:induction false} IndicesComeFirst(entries: List<Member>, i: nat, j: nat, n: nat) returns (m: nat)
    requires i < j < Length(FromEntries(entries))
    requires n < 4294967295 && NameAt(FromEntries(entries), j) == DigitsOf(n)
    ensures m < n && NameAt(FromEntries(entries), i) == DigitsOf(m)
  {
    hide EnterAll, Decimal, DigitsOf;
    EnterAllIsInOrder(Nil, entries);
    OrderedNth(FromEntries(entries), i, j);
    IndexExactly(NameAt(FromEntries(entries), j), n);
    m := IndexOf(NameAt(FromEntries(entries), i)).value;
    IndexExactly(NameAt(FromEntries(entries), i), m);
  }

  predicate NoIndex(ms: List<Member>) { ms.Cons? ==> IndexOf(ms.head.key).None? && NoIndex(ms.tail) }

  lemma {:induction false} AllAfterPlain(k: string, ms: List<Member>)
    requires NoIndex(ms)
    ensures AllAfter(k, Names(ms))
  {
    hide IndexOf;
    if ms.Cons? { AllAfterPlain(k, ms.tail); }
  }

  lemma {:induction false} PlainIsOrdered(ms: List<Member>)
    requires NoIndex(ms) && NoRepeats(Names(ms))
    ensures OwnOrder(Names(ms))
  {
    hide IndexOf;
    if ms.Cons? {
      AllAfterPlain(ms.head.key, ms.tail);
      PlainIsOrdered(ms.tail);
    }
  }

  /** Names that are no indices are listed in the order they were added. */
  lemma PlainNamesStay(entries: List<Member>)
    requires NoIndex(entries) && NoRepeats(Names(entries))
    ensures FromEntries(entries) == entries
  {
    PlainIsOrdered(entries);
    FromEntriesExactly(entries);
  }

  // ---- entries of a value ----

  lemma {:induction false} NthIndexed(items: List<Json>, start: nat, i: nat)
    requires i < Length(items)
    ensures Length(Indexed(items, start)) == Length(items)
    ensures Nth(Indexed(items, start), i) == Member(DigitsOf(start + i), Nth(items, i))
  {
    hide DigitsOf;
    if i > 0 {
      NthIndexed(items.tail, start + 1, i - 1);
    } else if items.tail.Cons? {
      NthIndexed(items.tail, start + 1, 0);
    }
  }

  lemma {:induction false} NthChar(s: string, i: nat)
    requires i < |s|
    ensures Length(Chars(s)) == |s| && Nth(Chars(s), i) == Str([s[i]])
  {
    if i > 0 {
      NthChar(s[1..], i - 1);
    } else if |s| > 1 {
      NthChar(s[1..], 0);
    }
  }

  /** Arrays and strings are listed by position, objects as they are, and nothing is listed of the rest. */
  lemma EntriesExactly(j: Json, i: nat)
    ensures Entries(j).Err? <==> j.Undefined? || j.Null?
    ensures j.Obj? ==> Entries(j) == Ok(j.members)
    ensures j.Bool? || j.Num? ==> Entries(j) == Ok(Nil)
    ensures j.Arr? && i < Length(j.items) ==>
              && Length(Entries(j).value) == Length(j.items)
              && Nth(Entries(j).value, i) == Member(DigitsOf(i), Nth(j.items, i))
    ensures j.Str? && i < |j.s| ==>
              && Length(Entries(j).value) == |j.s|
              && Nth(Entries(j).value, i) == Member(DigitsOf(i), Str([j.s[i]]))
  {
    hide DigitsOf, Chars, Indexed;
    match j
    case Arr(items) => if i < Length(items) { NthIndexed(items, 0, i); }
    case Str(s) =>
      if i < |s| {
        NthChar(s, i);
        NthIndexed(Chars(s), 0, i);
      }
    case _ =>
  }

  // ---- the key that decides ----

  /** The keys that are looked for first, in this order. */
  const KEYS: seq<string> := ["Var", "Value", "Set", "Record", ".", "has", "like", "is", "if-then-else"]

  /** The key a form is read from. */
  function KeyOf(form: Form): string {
    match form
    case VarForm(_) => "Var"
    case ValueForm(_) => "Value"
    case SetForm(_) => "Set"
    case RecordForm(_) => "Record"
    case AttrForm(_) => "."
    case HasForm(_) => "has"
    case LikeForm(_) => "like"
    case IsForm(_) => "is"
    case IfForm(_) => "if-then-else"
    case BinaryForm(op, _) => op
    case UnaryForm(op, _) => op
    case ExtForm(fn, _) => fn
    case RawForm => ""
  }

  predicate Structural(form: Form) {
    !form.BinaryForm? && !form.UnaryForm? && !form.ExtForm? && !form.RawForm?
  }

  /** Of the structural keys the first in the list decides, whatever other keys the node has. */
  lemma FirstKeyDecides(ms: List<Member>, i: nat)
    requires i < |KEYS| && Has(ms, KEYS[i]) && forall j :: 0 <= j < i ==> !Has(ms, KEYS[j])
    ensures Structural(FormOf(ms)) && KeyOf(FormOf(ms)) == KEYS[i] && FormOf(ms).v == Get(ms, KEYS[i])
  {
    hide Has, Get, KeyForm, SizeMembers, Size;
    assert i > 0 ==> !Has(ms, KEYS[0]);
    assert i > 1 ==> !Has(ms, KEYS[1]);
    assert i > 2 ==> !Has(ms, KEYS[2]);
    assert i > 3 ==> !Has(ms, KEYS[3]);
    assert i > 4 ==> !Has(ms, KEYS[4]);
    assert i > 5 ==> !Has(ms, KEYS[5]);
    assert i > 6 ==> !Has(ms, KEYS[6]);
    assert i > 7 ==> !Has(ms, KEYS[7]);
  }

  /**
   Without a structural key a node with one key is an operator or a call, if its key and
   value are those of one, and any other node is carried whole.
   */
  lemma OnlyKeyDecides(ms: List<Member>)
    requires forall j :: 0 <= j < |KEYS| ==> !Has(ms, KEYS[j])
    ensures
      match ms
      case Cons(Member(k, v), Nil) =>
        if BinaryOperator(k) then FormOf(ms) == BinaryForm(k, v)
        else if UnaryOperator(k) then FormOf(ms) == UnaryForm(k, v)
        else if v.Arr? && k != "" then FormOf(ms) == ExtForm(k, v.items)
        else FormOf(ms) == RawForm
      case _ => FormOf(ms) == RawForm
  {
    hide Has, Get, SizeMembers, Size;
    assert !Has(ms, KEYS[0]) && !Has(ms, KEYS[1]) && !Has(ms, KEYS[2]) && !Has(ms, KEYS[3]) && !Has(ms, KEYS[4]);
    assert !Has(ms, KEYS[5]) && !Has(ms, KEYS[6]) && !Has(ms, KEYS[7]) && !Has(ms, KEYS[8]);
    if ms.Cons? { OperatorsExactly(ms.head.key); }
    hide BINARY_OPS, UNARY_OPS, BinaryOperator, UnaryOperator;
  }

  /** An array of one array is taken for a call of a function named "0". */
  lemma NestedArrayIsCall(args: List<Json>, depth: nat)
    requires depth <= 400
    ensures ToIr(Arr(Cons(Arr(args), Nil)), depth) ==
            match ToIrs(args, depth + 1) case Ok(xs) => Ok(Ext("0", xs)) case Err(f) => Err(f)
  {
    hide ToIr, ToIrs;
    ReadsForm(Arr(Cons(Arr(args), Nil)), ExtForm("0", args), depth);
  }

  /** Any other array is carried whole. */
  lemma OtherArraysAreRaw(items: List<Json>, depth: nat)
    requires depth <= 400 && !(items.Cons? && items.tail.Nil? && items.head.Arr?)
    ensures ToIr(Arr(items), depth) == Ok(Raw(Arr(items)))
  {
    hide ToIr;
    ReadsForm(Arr(items), RawForm, depth);
  }

  // ---- what is missing ----

  /** Reading a property of nothing throws; any other value has its own members, or none. */
  lemma NothingHasNoParts(j: Json, k: string, depth: nat)
    ensures j.Undefined? || j.Null? ==> PartToIr(j, k, depth) == Err(TypeError) && Entity(j) == Err(TypeError)
    ensures j.Obj? ==>
              && PartToIr(j, k, depth) == ToIr(Get(j.members, k), depth)
              && Entity(j) == Ok(EntityRef(Get(j.members, "type"), Get(j.members, "id")))
    ensures j.Bool? || j.Num? || j.Str? || j.Arr? ==>
              && PartToIr(j, k, depth) == ToIr(Undefined, depth)
              && Entity(j) == Ok(EntityRef(Undefined, Undefined))
  {
    hide ToIr;
  }

  /** A node that is no object, and a set whose value is no array, throw. */
  lemma NoNodeThrows(node: Json, depth: nat)
    requires depth <= 400
    ensures !node.Obj? && !node.Arr? ==> ToIr(node, depth) == Err(TypeError)
    ensures node.Obj? && Shape(node).Some? && Shape(node).value.SetForm? && !Shape(node).value.v.Arr? ==>
              ToIr(node, depth) == Err(TypeError)
  {
    hide FormOf;
    if Shape(node).Some? && Shape(node).value.SetForm? { ReadsForm(node, Shape(node).value, depth); }
  }

  /** An operator that is not known is read as no restriction, and a falsy part as a missing one. */
  lemma ScopesExactly(s: List<Member>)
    ensures
      var op, slot, entity, within := Get(s, "op"), Get(s, "slot"), Get(s, "entity"), Get(s, "in");
      && (op !in [Str("=="), Str("in"), Str("is")] ==> ScopeToIr(Obj(s)) == Ok(ScopeAll))
      && (op == Str("==") && entity.Obj? && slot in [Undefined, Null, Bool(false), Num(0.0), Str("")] ==>
            ScopeToIr(Obj(s)) == Ok(ScopeEq(Named(entity.members))))
      && (op == Str("in") && entity.Obj? ==> ScopeToIr(Obj(s)) == Ok(ScopeIn(Named(entity.members))))
      && (op == Str("is") && within in [Undefined, Null, Bool(false), Num(0.0), Str("")] ==>
            ScopeToIr(Obj(s)) == Ok(ScopeIs(Get(s, "entity_type"), None)))
      && (op == Str("==") && entity in [Undefined, Null] && slot == Undefined ==>
            ScopeToIr(Obj(s)) == Err(TypeError))
  {
    hide Get;
    assert "==" != "in" && "==" != "is" && "in" != "is" by { assert "=="[0] != "in"[0] && "in"[1] != "is"[1]; }
  }

  lemma ActionScopesExactly(s: List<Member>)
    ensures Get(s, "op") !in [Str("=="), Str("in")] ==> ActionScopeToIr(Obj(s)) == Ok(ActionAll)
    ensures Get(s, "op") == Str("in") && Get(s, "entities") in [Undefined, Null] ==>
              ActionScopeToIr(Obj(s)) == Ok(ActionIn(Nil))
  {
    hide Get;
    assert "==" != "in" by { assert "=="[0] != "in"[0]; }
  }

  function Named(entity: List<Member>): EntityRef { EntityRef(Get(entity, "type"), Get(entity, "id")) }

  /** Annotations that are null are none, as if the member were missing. */
  lemma NullAnnotationsAreNone(est: List<Member>)
    requires Get(est, "annotations") == Null
    ensures PolicyToIr(Obj(est)) == PolicyToIr(Obj(Omit(est, "annotations")))
  {
    hide Get, Omit, ScopeToIr, ActionScopeToIr, ToConditions, Size, SizeMembers;
    var rest := Omit(est, "annotations");
    assert |"annotations"| == 11 && |"effect"| == 6 && |"principal"| == 9 && |"resource"| == 8 && |"conditions"| == 10;
    GetOfOmit(est, "annotations", "effect");
    GetOfOmit(est, "annotations", "principal");
    GetOfOmit(est, "annotations", "action");
    GetOfOmit(est, "annotations", "resource");
    GetOfOmit(est, "annotations", "conditions");
    GetOfOmit(est, "annotations", "annotations");
  }
}
