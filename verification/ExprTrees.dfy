/**
 Walking and rebuilding editor trees: the children of a node in document order, the
 node with other children, and positions.
 */
module ExprTrees {
  import opened BlockIr
  import opened Jsons
  import opened Options

  function SetNth<T>(xs: List<T>, i: nat, x: T): (r: List<T>)
    requires i < Length(xs)
    ensures Length(r) == Length(xs)
  {
    if i == 0 then Cons(x, xs.tail) else Cons(xs.head, SetNth(xs.tail, i - 1, x))
  }

  function PairValues(ps: List<Pair>): (r: List<Expr>)
    ensures Length(r) == Length(ps)
  {
    if ps.Nil? then Nil else Cons(ps.head.value, PairValues(ps.tail))
  }

  function Rekey(ps: List<Pair>, values: List<Expr>): List<Pair>
    requires Length(values) == Length(ps)
  {
    if ps.Nil? then Nil else Cons(Pair(ps.head.key, values.head), Rekey(ps.tail, values.tail))
  }

  /** The direct children, in document order.  A hole is a leaf: its default is not part of the tree. */
  function Children(e: Expr): List<Expr> {
    match e
    case SetOf(elements) => elements
    case RecordOf(pairs) => PairValues(pairs)
    case Attr(of, _, _) => Cons(of, Nil)
    case HasAttr(of, _) => Cons(of, Nil)
    case Like(of, _) => Cons(of, Nil)
    case Binary(_, left, right) => Cons(left, Cons(right, Nil))
    case Unary(_, operand) => Cons(operand, Nil)
    case Is(of, _, None) => Cons(of, Nil)
    case Is(of, _, Some(w)) => Cons(of, Cons(w, Nil))
    case If(cond, yes, no) => Cons(cond, Cons(yes, Cons(no, Nil)))
    case Ext(_, args) => args
    case _ => Nil
  }

  lemma ShortLists<T>(xs: List<T>)
    ensures Length(xs) == 0 <==> xs.Nil?
    ensures Length(xs) == 1 <==> xs.Cons? && xs.tail.Nil?
    ensures Length(xs) == 2 <==> xs.Cons? && xs.tail.Cons? && xs.tail.tail.Nil?
    ensures Length(xs) == 3 <==> xs.Cons? && xs.tail.Cons? && xs.tail.tail.Cons? && xs.tail.tail.tail.Nil?
  {
    if xs.Cons? && xs.tail.Cons? && xs.tail.tail.Cons? {
      assert Length(xs) == 3 + Length(xs.tail.tail.tail);
    }
  }

  /** The node rebuilt around other children. */
  function WithChildren(e: Expr, cs: List<Expr>): Expr
    requires Length(cs) == Length(Children(e))
  {
    ShortLists(cs);
    ShortLists(Children(e));
    match e
    case SetOf(_) => SetOf(cs)
    case RecordOf(pairs) => RecordOf(Rekey(pairs, cs))
    case Attr(_, attr, note) => Attr(cs.head, attr, note)
    case HasAttr(_, attr) => HasAttr(cs.head, attr)
    case Like(_, pattern) => Like(cs.head, pattern)
    case Binary(op, _, _) => Binary(op, cs.head, cs.tail.head)
    case Unary(op, _) => Unary(op, cs.head)
    case Is(_, t, None) => Is(cs.head, t, None)
    case Is(_, t, Some(_)) => Is(cs.head, t, Some(cs.tail.head))
    case If(_, _, _) => If(cs.head, cs.tail.head, cs.tail.tail.head)
    case Ext(fn, _) => Ext(fn, cs)
    case _ => e
  }

  lemma {:induction false} RekeySame(ps: List<Pair>)
    ensures Rekey(ps, PairValues(ps)) == ps
  {
    if ps.Cons? { RekeySame(ps.tail); }
  }

  lemma {:induction false} RekeyOther(ps: List<Pair>, values: List<Expr>)
    requires Length(values) == Length(ps)
    ensures PairValues(Rekey(ps, values)) == values && Length(Rekey(ps, values)) == Length(ps)
  {
    if ps.Cons? { RekeyOther(ps.tail, values.tail); }
  }

  lemma {:induction false} RekeyTwice(ps: List<Pair>, a: List<Expr>, b: List<Expr>)
    requires Length(a) == Length(b) == Length(ps)
    ensures Length(Rekey(ps, a)) == Length(ps) && Rekey(Rekey(ps, a), b) == Rekey(ps, b)
  {
    if ps.Cons? { RekeyTwice(ps.tail, a.tail, b.tail); }
  }

  lemma SameChildren(e: Expr)
    ensures WithChildren(e, Children(e)) == e
  {
    if e.RecordOf? { RekeySame(e.pairs); }
  }

  lemma OtherChildren(e: Expr, cs: List<Expr>)
    requires Length(cs) == Length(Children(e))
    ensures Children(WithChildren(e, cs)) == cs
    ensures WithChildren(e, cs).Hole? <==> e.Hole?
  {
    hide Length, Rekey, PairValues;
    if e.RecordOf? { RekeyOther(e.pairs, cs); }
    ShortLists(cs);
    ShortLists(Children(e));
  }

  lemma ChildrenTwice(e: Expr, a: List<Expr>, b: List<Expr>)
    requires Length(a) == Length(b) == Length(Children(e))
    ensures Length(Children(WithChildren(e, a))) == Length(b)
    ensures WithChildren(WithChildren(e, a), b) == WithChildren(e, b)
  {
    OtherChildren(e, a);
    if e.RecordOf? { RekeyTwice(e.pairs, a, b); }
  }

  // ---- size ----

  function Count(e: Expr): nat {
    match e
    case SetOf(elements) => 1 + CountAll(elements)
    case RecordOf(pairs) => 1 + CountPairs(pairs)
    case Attr(of, _, _) => 1 + Count(of)
    case HasAttr(of, _) => 1 + Count(of)
    case Like(of, _) => 1 + Count(of)
    case Binary(_, left, right) => 1 + Count(left) + Count(right)
    case Unary(_, operand) => 1 + Count(operand)
    case Is(of, _, None) => 1 + Count(of)
    case Is(of, _, Some(w)) => 1 + Count(of) + Count(w)
    case If(cond, yes, no) => 1 + Count(cond) + Count(yes) + Count(no)
    case Ext(_, args) => 1 + CountAll(args)
    case _ => 1
  }

  function CountAll(es: List<Expr>): nat { if es.Nil? then 0 else Count(es.head) + CountAll(es.tail) }

  function CountPairs(ps: List<Pair>): nat { if ps.Nil? then 0 else Count(ps.head.value) + CountPairs(ps.tail) }

  lemma {:induction false} CountOfPairs(ps: List<Pair>)
    ensures CountAll(PairValues(ps)) == CountPairs(ps)
  {
    if ps.Cons? { CountOfPairs(ps.tail); }
  }

  lemma CountOfChildren(e: Expr)
    ensures Count(e) == 1 + CountAll(Children(e))
  {
    match e
    case RecordOf(pairs) => CountOfPairs(pairs);
    case Binary(_, left, right) => CountOfTwo(left, right);
    case Is(of, _, Some(w)) => CountOfTwo(of, w);
    case If(cond, yes, no) =>
      CountOfTwo(yes, no);
      assert CountAll(Children(e)) == Count(cond) + CountAll(Cons(yes, Cons(no, Nil)));
    case _ =>
  }

  lemma CountOfTwo(a: Expr, b: Expr)
    ensures CountAll(Cons(a, Cons(b, Nil))) == Count(a) + Count(b)
  {
    assert CountAll(Cons(b, Nil)) == Count(b) + CountAll(Nil);
  }

  // ---- holes, by children ----

  lemma {:induction false} HoleFreeValues(ps: List<Pair>)
    ensures HoleFreeAll(PairValues(ps)) <==> HoleFreePairs(ps)
  {
    if ps.Cons? { HoleFreeValues(ps.tail); }
  }

  lemma HoleFreeOfChildren(e: Expr)
    ensures HoleFree(e) <==> !e.Hole? && HoleFreeAll(Children(e))
  {
    match e
    case RecordOf(pairs) => HoleFreeValues(pairs);
    case Binary(_, left, right) => HoleFreeTwo(left, right);
    case Is(of, _, Some(w)) => HoleFreeTwo(of, w);
    case If(cond, yes, no) =>
      HoleFreeTwo(yes, no);
      assert HoleFreeAll(Children(e)) <==> HoleFree(cond) && HoleFreeAll(Cons(yes, Cons(no, Nil)));
    case _ =>
  }

  lemma HoleFreeTwo(a: Expr, b: Expr)
    ensures HoleFreeAll(Cons(a, Cons(b, Nil))) <==> HoleFree(a) && HoleFree(b)
  {
    assert HoleFreeAll(Cons(b, Nil)) <==> HoleFree(b);
  }

  // ---- positions ----

  /** A position: which child, at each step from the root. */
  type Position = List<nat>

  predicate Valid(e: Expr, p: Position)
    decreases p
  {
    p.Cons? ==> p.head < Length(Children(e)) && Valid(Nth(Children(e), p.head), p.tail)
  }

  function Node(e: Expr, p: Position): Expr
    requires Valid(e, p)
    decreases p
  {
    if p.Nil? then e else Node(Nth(Children(e), p.head), p.tail)
  }

  function PutAt(e: Expr, p: Position, x: Expr): Expr
    requires Valid(e, p)
    decreases p
  {
    if p.Nil? then x
    else
      var es := Children(e);
      WithChildren(e, SetNth(es, p.head, PutAt(Nth(es, p.head), p.tail, x)))
  }

  lemma {:induction false} NthOfSet<T>(xs: List<T>, i: nat, x: T, j: nat)
    requires i < Length(xs) && j < Length(xs)
    ensures Nth(SetNth(xs, i, x), j) == if j == i then x else Nth(xs, j)
  {
    if i > 0 && j > 0 { NthOfSet(xs.tail, i - 1, x, j - 1); }
  }

  lemma {:induction false} SetSame<T>(xs: List<T>, i: nat)
    requires i < Length(xs)
    ensures SetNth(xs, i, Nth(xs, i)) == xs
  {
    if i > 0 { SetSame(xs.tail, i - 1); }
  }

  /** Putting a node where it already is changes nothing. */
  lemma {:induction false} PutBack(e: Expr, p: Position)
    requires Valid(e, p)
    ensures PutAt(e, p, Node(e, p)) == e
    decreases p
  {
    if p.Cons? {
      var es := Children(e);
      PutBack(Nth(es, p.head), p.tail);
      SetSame(es, p.head);
      SameChildren(e);
    }
  }

  /** Neither position is on the way to the other. */
  predicate Apart(p: Position, q: Position) {
    p.Cons? && q.Cons? && (p.head != q.head || Apart(p.tail, q.tail))
  }

  /** What a replacement leaves alone: every position apart from its own. */
  lemma {:induction false} PutElsewhere(e: Expr, p: Position, x: Expr, q: Position)
    requires Valid(e, p) && Valid(e, q) && Apart(p, q)
    ensures Valid(PutAt(e, p, x), q) && Node(PutAt(e, p, x), q) == Node(e, q)
    decreases p
  {
    hide WithChildren, Children, SetNth, Nth;
    var es := Children(e);
    OtherChildren(e, SetNth(es, p.head, PutAt(Nth(es, p.head), p.tail, x)));
    NthOfSet(es, p.head, PutAt(Nth(es, p.head), p.tail, x), q.head);
    if p.head == q.head { PutElsewhere(Nth(es, p.head), p.tail, x, q.tail); }
  }

  /** And the replacement is there. */
  lemma {:induction false} PutThere(e: Expr, p: Position, x: Expr)
    requires Valid(e, p)
    ensures Valid(PutAt(e, p, x), p) && Node(PutAt(e, p, x), p) == x
    decreases p
  {
    hide WithChildren, Children, SetNth, Nth;
    if p.Cons? {
      var es := Children(e);
      OtherChildren(e, SetNth(es, p.head, PutAt(Nth(es, p.head), p.tail, x)));
      NthOfSet(es, p.head, PutAt(Nth(es, p.head), p.tail, x), p.head);
      PutThere(Nth(es, p.head), p.tail, x);
    }
  }
}
