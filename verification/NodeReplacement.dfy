/**
 Replacing the first matching node of a policy, in document order.
 */
module NodeReplacement {
  import opened BlockIr
  import opened ExprTrees
  import opened Jsons
  import opened Options

  /** Where a node stands in its policy: this is what tells apart two nodes of one value. */
  datatype Place = Place(condition: nat, path: seq<nat>)

  /** Picks nodes by what they are or by which they are. */
  type Locate = (Place, Expr) -> bool

  function ChildPlace(at: Place, k: nat): Place { at.(path := at.path + [k]) }

  /** The result and the flag after visiting one node, given the flag before. */
  function Replaced(locate: Locate, x: Expr, at: Place, e: Expr, done: bool): (Expr, bool)
    decreases Count(e), 0
  {
    CountOfChildren(e);
    if done then (e, true)
    else if locate(at, e) then (x, true)
    else
      var (cs, d) := ReplacedAll(locate, x, at, 0, Children(e), false);
      (WithChildren(e, cs), d)
  }

  /** `es` are the children from number `k` on of the node at `at`. */
  function ReplacedAll(locate: Locate, x: Expr, at: Place, k: nat, es: List<Expr>, done: bool): (r: (List<Expr>, bool))
    ensures Length(r.0) == Length(es)
    decreases CountAll(es), 1
  {
    if es.Nil? then (Nil, done)
    else
      var (y, d) := Replaced(locate, x, ChildPlace(at, k), es.head, done);
      CountOfChildren(es.head);
      var (ys, d') := ReplacedAll(locate, x, at, k + 1, es.tail, d);
      (Cons(y, ys), d')
  }

  /** `cs` are the conditions from number `k` on. */
  function ReplacedIn(locate: Locate, x: Expr, k: nat, cs: List<Condition>, done: bool): (List<Condition>, bool)
    decreases cs
  {
    if cs.Nil? then (Nil, done)
    else
      var (y, d) := Replaced(locate, x, Place(k, []), cs.head.body, done);
      var (ys, d') := ReplacedIn(locate, x, k + 1, cs.tail, d);
      (Cons(Condition(cs.head.kind, y), ys), d')
  }

  class Replacer {
    const locate: Locate
    const replacement: Expr
    var done: bool

    constructor (locate: Locate, replacement: Expr)
      ensures this.locate == locate && this.replacement == replacement && !done
    {
      this.locate, this.replacement, done := locate, replacement, false;
    }

    method Map(at: Place, e: Expr) returns (r: Expr)
      modifies this
      ensures (r, done) == Replaced(locate, replacement, at, e, old(done))
      decreases Count(e), 0
    {
      CountOfChildren(e);
      if done { return e; }
      if locate(at, e) {
        done := true;
        return replacement;
      }
      var cs := MapAll(at, 0, Children(e));
      r := WithChildren(e, cs);
    }

    method MapAll(at: Place, k: nat, es: List<Expr>) returns (rs: List<Expr>)
      modifies this
      ensures (rs, done) == ReplacedAll(locate, replacement, at, k, es, old(done))
      decreases CountAll(es), 1
    {
      if es.Nil? { return Nil; }
      CountOfChildren(es.head);
      var y := Map(ChildPlace(at, k), es.head);
      var ys := MapAll(at, k + 1, es.tail);
      rs := Cons(y, ys);
    }

    method MapConditions(k: nat, cs: List<Condition>) returns (rs: List<Condition>)
      modifies this
      ensures (rs, done) == ReplacedIn(locate, replacement, k, cs, old(done))
      decreases cs
    {
      if cs.Nil? { return Nil; }
      var y := Map(Place(k, []), cs.head.body);
      var ys := MapConditions(k + 1, cs.tail);
      rs := Cons(Condition(cs.head.kind, y), ys);
    }
  }

  method ReplaceNode(p: Policy, locate: Locate, x: Expr) returns (r: Policy)
    ensures r == p.(conditions := ReplacedIn(locate, x, 0, p.conditions, false).0)
  {
    var replacer := new Replacer(locate, x);
    var cs := replacer.MapConditions(0, p.conditions);
    r := p.(conditions := cs);
  }

  // ---- what "first" means ----

  predicate NoneMatches(locate: Locate, at: Place, e: Expr)
    decreases Count(e), 0
  {
    CountOfChildren(e);
    !locate(at, e) && NoneMatchesAll(locate, at, 0, Children(e))
  }

  predicate NoneMatchesAll(locate: Locate, at: Place, k: nat, es: List<Expr>)
    decreases CountAll(es), 1
  {
    es.Cons? ==>
      && NoneMatches(locate, ChildPlace(at, k), es.head)
      && (CountOfChildren(es.head); NoneMatchesAll(locate, at, k + 1, es.tail))
  }

  /** No match in the first `n` of the children from number `k` on. */
  predicate NoneBefore(locate: Locate, at: Place, k: nat, es: List<Expr>, n: nat)
    requires n <= Length(es)
    decreases n
  {
    n > 0 ==> NoneMatches(locate, ChildPlace(at, k), es.head) && NoneBefore(locate, at, k + 1, es.tail, n - 1)
  }

  /** No match among the nodes that document order visits before the position. */
  predicate NoneEarlier(locate: Locate, at: Place, e: Expr, p: Position)
    requires Valid(e, p)
    decreases p
  {
    p.Cons? ==>
      && !locate(at, e)
      && NoneBefore(locate, at, 0, Children(e), p.head)
      && NoneEarlier(locate, ChildPlace(at, p.head), Nth(Children(e), p.head), p.tail)
  }

  function Down(at: Place, p: Position): Place
    decreases p
  {
    if p.Nil? then at else Down(ChildPlace(at, p.head), p.tail)
  }

  predicate IsFirst(locate: Locate, at: Place, e: Expr, p: Position) {
    Valid(e, p) && locate(Down(at, p), Node(e, p)) && NoneEarlier(locate, at, e, p)
  }

  /** Once done, nothing more is replaced. */
  lemma {:induction false} DoneChangesNothing(locate: Locate, x: Expr, at: Place, k: nat, es: List<Expr>)
    ensures ReplacedAll(locate, x, at, k, es, true) == (es, true)
    decreases es
  {
    if es.Cons? { DoneChangesNothing(locate, x, at, k + 1, es.tail); }
  }

  lemma {:induction false} NoMatchChangesNothing(locate: Locate, x: Expr, at: Place, e: Expr)
    requires NoneMatches(locate, at, e)
    ensures Replaced(locate, x, at, e, false) == (e, false)
    decreases Count(e), 0
  {
    CountOfChildren(e);
    hide Children, WithChildren, Count;
    NoMatchesChangeNothing(locate, x, at, 0, Children(e));
    SameChildren(e);
  }

  lemma {:induction false} NoMatchesChangeNothing(locate: Locate, x: Expr, at: Place, k: nat, es: List<Expr>)
    requires NoneMatchesAll(locate, at, k, es)
    ensures ReplacedAll(locate, x, at, k, es, false) == (es, false)
    decreases CountAll(es), 1
  {
    hide Replaced;
    if es.Cons? {
      CountOfChildren(es.head);
      NoMatchChangesNothing(locate, x, ChildPlace(at, k), es.head);
      NoMatchesChangeNothing(locate, x, at, k + 1, es.tail);
    }
  }

  /** The first match, and no other node, is replaced. */
  lemma {:induction false} FirstMatchIsReplaced(locate: Locate, x: Expr, at: Place, e: Expr, p: Position)
    requires IsFirst(locate, at, e, p)
    ensures Replaced(locate, x, at, e, false) == (PutAt(e, p, x), true)
    decreases p
  {
    hide Children, WithChildren, NoneBefore, NoneMatches, Count, CountAll, ChildPlace;
    if p.Cons? {
      var child := Nth(Children(e), p.head);
      FirstMatchIsReplaced(locate, x, ChildPlace(at, p.head), child, p.tail);
      FirstTreeIsReplaced(locate, x, at, 0, Children(e), p.head);
      PutAtStep(e, p, x);
      assert ReplacedAll(locate, x, at, 0, Children(e), false) ==
             (SetNth(Children(e), p.head, PutAt(child, p.tail, x)), true);
    }
  }

  lemma PutAtStep(e: Expr, p: Position, x: Expr)
    requires Valid(e, p) && p.Cons?
    ensures PutAt(e, p, x) == WithChildren(e, SetNth(Children(e), p.head, PutAt(Nth(Children(e), p.head), p.tail, x)))
  {}

  lemma {:induction false} FirstTreeIsReplaced(locate: Locate, x: Expr, at: Place, k: nat, es: List<Expr>, i: nat)
    requires i < Length(es) && NoneBefore(locate, at, k, es, i)
    requires Replaced(locate, x, ChildPlace(at, k + i), Nth(es, i), false).1
    ensures ReplacedAll(locate, x, at, k, es, false) ==
            (SetNth(es, i, Replaced(locate, x, ChildPlace(at, k + i), Nth(es, i), false).0), true)
    decreases i
  {
    hide Replaced, NoneMatches, ChildPlace;
    if i == 0 {
      DoneChangesNothing(locate, x, at, k + 1, es.tail);
    } else {
      NoMatchChangesNothing(locate, x, ChildPlace(at, k), es.head);
      FirstTreeIsReplaced(locate, x, at, k + 1, es.tail, i - 1);
    }
  }

  /** There is a first match, or there is none. */
  lemma {:induction false} SomeIsFirst(locate: Locate, at: Place, e: Expr) returns (p: Position)
    ensures NoneMatches(locate, at, e) || IsFirst(locate, at, e, p)
    decreases Count(e), 0
  {
    hide Children, ChildPlace;
    CountOfChildren(e);
    if locate(at, e) {
      p := Nil;
    } else {
      var i, q := SomeTreeIsFirst(locate, at, 0, Children(e));
      p := Cons(i, q);
    }
  }

  lemma {:induction false} SomeTreeIsFirst(locate: Locate, at: Place, k: nat, es: List<Expr>)
    returns (i: nat, p: Position)
    ensures
      || NoneMatchesAll(locate, at, k, es)
      || (i < Length(es) && NoneBefore(locate, at, k, es, i) && IsFirst(locate, ChildPlace(at, k + i), Nth(es, i), p))
    decreases CountAll(es), 1
  {
    hide ChildPlace;
    i, p := 0, Nil;
    if es.Cons? {
      CountOfChildren(es.head);
      p := SomeIsFirst(locate, ChildPlace(at, k), es.head);
      if NoneMatches(locate, ChildPlace(at, k), es.head) {
        i, p := SomeTreeIsFirst(locate, at, k + 1, es.tail);
        i := i + 1;
      }
    }
  }

  // ---- whole policies ----

  predicate NoneInFirst(locate: Locate, k: nat, cs: List<Condition>, n: nat)
    requires n <= Length(cs)
    decreases n
  {
    n > 0 ==> NoneMatches(locate, Place(k, []), cs.head.body) && NoneInFirst(locate, k + 1, cs.tail, n - 1)
  }

  /** The first match in the conditions from number `k` on: the `i`-th of them, position `p`. */
  predicate IsFirstIn(locate: Locate, k: nat, cs: List<Condition>, i: nat, p: Position) {
    i < Length(cs) && NoneInFirst(locate, k, cs, i) && IsFirst(locate, Place(k + i, []), Nth(cs, i).body, p)
  }

  function PutIn(cs: List<Condition>, i: nat, p: Position, x: Expr): List<Condition>
    requires i < Length(cs) && Valid(Nth(cs, i).body, p)
  {
    var c := Nth(cs, i);
    SetNth(cs, i, Condition(c.kind, PutAt(c.body, p, x)))
  }

  lemma {:induction false} DoneIn(locate: Locate, x: Expr, k: nat, cs: List<Condition>)
    ensures ReplacedIn(locate, x, k, cs, true) == (cs, true)
    decreases cs
  {
    if cs.Cons? { DoneIn(locate, x, k + 1, cs.tail); }
  }

  /** A policy without a match is returned as it is; otherwise exactly its first match is replaced. */
  lemma {:induction false} ReplacesFirstMatch(locate: Locate, x: Expr, cs: List<Condition>, i: nat, p: Position)
    requires NoneInFirst(locate, 0, cs, Length(cs)) || IsFirstIn(locate, 0, cs, i, p)
    ensures NoneInFirst(locate, 0, cs, Length(cs)) ==> ReplacedIn(locate, x, 0, cs, false) == (cs, false)
    ensures IsFirstIn(locate, 0, cs, i, p) ==> ReplacedIn(locate, x, 0, cs, false) == (PutIn(cs, i, p, x), true)
  {
    hide Replaced, NoneMatches, IsFirst, PutAt;
    if NoneInFirst(locate, 0, cs, Length(cs)) { NothingReplaced(locate, x, 0, cs); }
    if IsFirstIn(locate, 0, cs, i, p) { OneReplaced(locate, x, 0, cs, i, p); }
  }

  lemma {:induction false} NothingReplaced(locate: Locate, x: Expr, k: nat, cs: List<Condition>)
    requires NoneInFirst(locate, k, cs, Length(cs))
    ensures ReplacedIn(locate, x, k, cs, false) == (cs, false)
    decreases cs
  {
    hide Replaced, NoneMatches;
    if cs.Cons? {
      NoMatchChangesNothing(locate, x, Place(k, []), cs.head.body);
      NothingReplaced(locate, x, k + 1, cs.tail);
    }
  }

  lemma {:induction false} OneReplaced(locate: Locate, x: Expr, k: nat, cs: List<Condition>, i: nat, p: Position)
    requires IsFirstIn(locate, k, cs, i, p)
    ensures ReplacedIn(locate, x, k, cs, false) == (PutIn(cs, i, p, x), true)
    decreases i
  {
    hide Replaced, NoneMatches, PutAt, Node, NoneEarlier;
    if i == 0 {
      FirstMatchIsReplaced(locate, x, Place(k, []), cs.head.body, p);
      DoneIn(locate, x, k + 1, cs.tail);
    } else {
      NoMatchChangesNothing(locate, x, Place(k, []), cs.head.body);
      OneReplaced(locate, x, k + 1, cs.tail, i - 1, p);
    }
  }

  lemma {:induction false} SomeIsFirstIn(locate: Locate, k: nat, cs: List<Condition>) returns (i: nat, p: Position)
    ensures NoneInFirst(locate, k, cs, Length(cs)) || IsFirstIn(locate, k, cs, i, p)
    decreases cs
  {
    hide NoneMatches, IsFirst;
    i, p := 0, Nil;
    if cs.Cons? {
      p := SomeIsFirst(locate, Place(k, []), cs.head.body);
      if NoneMatches(locate, Place(k, []), cs.head.body) {
        i, p := SomeIsFirstIn(locate, k + 1, cs.tail);
        i := i + 1;
      }
    }
  }

  // ---- picking one node by what it is, not by its value ----

  /** `(e) => e === selected`, where `selected` is the node of condition `i` at `p`. */
  function Selected(i: nat, p: Position): Locate { (at, e) => at == Down(Place(i, []), p) }

  lemma {:induction false} DownExtends(at: Place, p: Position)
    ensures at.condition == Down(at, p).condition && at.path <= Down(at, p).path
    ensures p.Cons? ==> |at.path| < |Down(at, p).path| && Down(at, p).path[|at.path|] == p.head
    decreases p
  {
    if p.Cons? { DownExtends(ChildPlace(at, p.head), p.tail); }
  }

  /** Nothing off the way to a place is at that place. */
  lemma {:induction false} NoneOffTheWay(locate: Locate, goal: Place, at: Place, e: Expr)
    requires forall a, e' :: locate(a, e') ==> a == goal
    requires !(at.condition == goal.condition && at.path <= goal.path)
    ensures NoneMatches(locate, at, e)
    decreases Count(e), 0
  {
    CountOfChildren(e);
    hide Children, Count;
    NoneOfThemOffTheWay(locate, goal, at, 0, Children(e));
  }

  lemma {:induction false} NoneOfThemOffTheWay(locate: Locate, goal: Place, at: Place, k: nat, es: List<Expr>)
    requires forall a, e' :: locate(a, e') ==> a == goal
    requires !(at.condition == goal.condition && at.path <= goal.path)
    ensures NoneMatchesAll(locate, at, k, es)
    decreases CountAll(es), 1
  {
    hide NoneMatches;
    if es.Cons? {
      CountOfChildren(es.head);
      var child := ChildPlace(at, k);
      assert child.path[..|at.path|] == at.path;
      assert !(child.condition == goal.condition && child.path <= goal.path) by {
        if child.path <= goal.path { assert goal.path[..|child.path|][..|at.path|] == at.path; }
      }
      NoneOffTheWay(locate, goal, child, es.head);
      NoneOfThemOffTheWay(locate, goal, at, k + 1, es.tail);
    }
  }

  lemma {:induction false} NoneInEarlierChildren(locate: Locate, goal: Place, at: Place, k: nat, es: List<Expr>, n: nat)
    requires forall a, e' :: locate(a, e') ==> a == goal
    requires n <= Length(es) && |at.path| < |goal.path| && k + n <= goal.path[|at.path|]
    ensures NoneBefore(locate, at, k, es, n)
    decreases n
  {
    hide NoneMatches;
    if n > 0 {
      assert ChildPlace(at, k).path[|at.path|] == k;
      NoneOffTheWay(locate, goal, ChildPlace(at, k), es.head);
      NoneInEarlierChildren(locate, goal, at, k + 1, es.tail, n - 1);
    }
  }

  lemma {:induction false} NoneEarlierThanSelected(locate: Locate, at: Place, e: Expr, p: Position)
    requires Valid(e, p) && forall a, e' :: locate(a, e') ==> a == Down(at, p)
    ensures NoneEarlier(locate, at, e, p)
    decreases p
  {
    hide Children, NoneBefore;
    if p.Cons? {
      DownExtends(at, p);
      NoneInEarlierChildren(locate, Down(at, p), at, 0, Children(e), p.head);
      NoneEarlierThanSelected(locate, ChildPlace(at, p.head), Nth(Children(e), p.head), p.tail);
    }
  }

  lemma {:induction false} NoneInOtherConditions(locate: Locate, goal: Place, k: nat, cs: List<Condition>, n: nat)
    requires forall a, e' :: locate(a, e') ==> a == goal
    requires n <= Length(cs) && k + n <= goal.condition
    ensures NoneInFirst(locate, k, cs, n)
    decreases n
  {
    hide NoneMatches;
    if n > 0 {
      NoneOffTheWay(locate, goal, Place(k, []), cs.head.body);
      NoneInOtherConditions(locate, goal, k + 1, cs.tail, n - 1);
    }
  }

  /** A selected node is the first match of its own locator, however many equal ones come before it. */
  lemma {:induction false} SelectedIsFirst(cs: List<Condition>, i: nat, p: Position)
    requires i < Length(cs) && Valid(Nth(cs, i).body, p)
    ensures IsFirstIn(Selected(i, p), 0, cs, i, p)
  {
    hide NoneMatches, Valid;
    var goal := Down(Place(i, []), p);
    DownExtends(Place(i, []), p);
    NoneInOtherConditions(Selected(i, p), goal, 0, cs, i);
    NoneEarlierThanSelected(Selected(i, p), Place(i, []), Nth(cs, i).body, p);
  }
}
