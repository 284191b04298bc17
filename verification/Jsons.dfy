/**
 JavaScript values as the builder, the proxy and the block editor pass them around.
 An object keeps its members in order, as `Object.entries` lists them.  `Canon`
 forgets that order, as the canonical form of section 3.2 of RFC 8785 does; hashes
 are taken of canonical forms.
 */
module Jsons {
  import opened Options

  datatype List<+T> = Nil | Cons(head: T, tail: List<T>)

  function Length<T>(xs: List<T>): nat { if xs.Nil? then 0 else 1 + Length(xs.tail) }

  function Nth<T>(xs: List<T>, i: nat): T
    requires i < Length(xs)
  {
    if i == 0 then xs.head else Nth(xs.tail, i - 1)
  }

  /** The list of the elements from number `i` on. */
  function ListFrom<T>(s: seq<T>, i: nat): List<T>
    requires i <= |s|
    decreases |s| - i
  {
    if i == |s| then Nil else Cons(s[i], ListFrom(s, i + 1))
  }

  lemma {:induction false} ListFromSecond<T>(s: seq<T>, x: T, i: nat)
    requires i <= |s|
    ensures ListFrom([x] + s, i + 1) == ListFrom(s, i)
    decreases |s| - i
  {
    if i < |s| { ListFromSecond(s, x, i + 1); }
  }

  datatype Json =
    | Undefined
    | Null
    | Bool(b: bool)
    | Num(n: real)
    | Str(s: string)
    | Arr(items: List<Json>)
    | Obj(members: List<Member>)

  datatype Member = Member(key: string, value: Json)

  predicate Has(ms: List<Member>, k: string) {
    ms.Cons? && (ms.head.key == k || Has(ms.tail, k))
  }

  /** Property access; a missing property reads as `undefined`. */
  function Get(ms: List<Member>, k: string): Json {
    if ms.Nil? then Undefined
    else if ms.head.key == k then ms.head.value
    else Get(ms.tail, k)
  }

  function KeySet(ms: List<Member>): set<string> {
    if ms.Nil? then {} else {ms.head.key} + KeySet(ms.tail)
  }

  function KeyCount(ms: List<Member>): nat {
    if ms.Nil? then 0 else 1 + KeyCount(ms.tail)
  }

  /** `o[k] = v`: an existing member keeps its place, a new one goes last. */
  function Put(ms: List<Member>, k: string, v: Json): List<Member> {
    if ms.Nil? then Cons(Member(k, v), Nil)
    else if ms.head.key == k then Cons(Member(k, v), ms.tail)
    else Cons(ms.head, Put(ms.tail, k, v))
  }

  function Omit(ms: List<Member>, k: string): List<Member> {
    if ms.Nil? then Nil
    else if ms.head.key == k then Omit(ms.tail, k)
    else Cons(ms.head, Omit(ms.tail, k))
  }

  /** No object has two members of one name.  True of every JavaScript value. */
  predicate Proper(j: Json) {
    match j
    case Arr(items) => ProperItems(items)
    case Obj(ms) => ProperMembers(ms)
    case _ => true
  }

  predicate ProperItems(items: List<Json>) {
    items.Cons? ==> Proper(items.head) && ProperItems(items.tail)
  }

  predicate ProperMembers(ms: List<Member>) {
    ms.Cons? ==> Proper(ms.head.value) && !Has(ms.tail, ms.head.key) && ProperMembers(ms.tail)
  }

  // ---- size, for recursion ----

  function Size(j: Json): nat {
    match j
    case Arr(items) => 1 + SizeItems(items)
    case Obj(ms) => 1 + SizeMembers(ms)
    case _ => 0
  }

  function SizeItems(items: List<Json>): nat {
    if items.Nil? then 0 else 1 + Size(items.head) + SizeItems(items.tail)
  }

  function SizeMembers(ms: List<Member>): nat {
    if ms.Nil? then 0 else 1 + Size(ms.head.value) + SizeMembers(ms.tail)
  }

  lemma {:induction false} GetIsSmaller(ms: List<Member>, k: string)
    ensures Size(Get(ms, k)) <= SizeMembers(ms)
  {
    if ms.Cons? { GetIsSmaller(ms.tail, k); }
  }

  // ---- canonical form ----

  datatype Canonical =
    | Leaf(atom: Json)
    | Sequence(parts: List<Canonical>)
    | Record(fields: map<string, Canonical>)

  function Canon(j: Json): Canonical {
    match j
    case Arr(items) => Sequence(CanonItems(items))
    case Obj(ms) => Record(CanonMembers(ms))
    case _ => Leaf(j)
  }

  function CanonItems(items: List<Json>): List<Canonical> {
    if items.Nil? then Nil else Cons(Canon(items.head), CanonItems(items.tail))
  }

  function CanonMembers(ms: List<Member>): map<string, Canonical> {
    if ms.Nil? then map[] else CanonMembers(ms.tail)[ms.head.key := Canon(ms.head.value)]
  }

  lemma {:induction false} CanonKeys(ms: List<Member>, k: string)
    ensures k in CanonMembers(ms) <==> Has(ms, k)
    ensures Has(ms, k) ==> CanonMembers(ms)[k] == Canon(Get(ms, k))
    ensures k in KeySet(ms) <==> Has(ms, k)
  {
    if ms.Cons? { CanonKeys(ms.tail, k); }
  }

  lemma {:induction false} CanonOfPut(ms: List<Member>, k: string, v: Json)
    ensures CanonMembers(Put(ms, k, v)) == CanonMembers(ms)[k := Canon(v)]
  {
    if ms.Cons? && ms.head.key != k { CanonOfPut(ms.tail, k, v); }
  }

  lemma {:induction false} CanonOfOmit(ms: List<Member>, k: string)
    ensures CanonMembers(Omit(ms, k)) == CanonMembers(ms) - {k}
  {
    if ms.Cons? { CanonOfOmit(ms.tail, k); }
  }

  lemma {:induction false} MissingIsUndefined(ms: List<Member>, k: string)
    requires !Has(ms, k)
    ensures Get(ms, k) == Undefined
  {
    if ms.Cons? { MissingIsUndefined(ms.tail, k); }
  }

  lemma {:induction false} GetOfPut(ms: List<Member>, k: string, v: Json, x: string)
    ensures Get(Put(ms, k, v), x) == if x == k then v else Get(ms, x)
    ensures Has(Put(ms, k, v), x) <==> x == k || Has(ms, x)
  {
    if ms.Cons? && ms.head.key != k { GetOfPut(ms.tail, k, v, x); }
  }

  lemma {:induction false} GetOfOmit(ms: List<Member>, k: string, x: string)
    ensures Get(Omit(ms, k), x) == if x == k then Undefined else Get(ms, x)
    ensures Has(Omit(ms, k), x) <==> x != k && Has(ms, x)
  {
    if ms.Cons? { GetOfOmit(ms.tail, k, x); }
  }

  lemma {:induction false} PutIsProper(ms: List<Member>, k: string, v: Json)
    requires ProperMembers(ms) && Proper(v)
    ensures ProperMembers(Put(ms, k, v))
  {
    if ms.Cons? && ms.head.key != k {
      PutIsProper(ms.tail, k, v);
      GetOfPut(ms.tail, k, v, ms.head.key);
    }
  }

  lemma {:induction false} GetIsProper(ms: List<Member>, k: string)
    requires ProperMembers(ms)
    ensures Proper(Get(ms, k))
  {
    if ms.Cons? && ms.head.key != k { GetIsProper(ms.tail, k); }
  }

  // ---- text ----

  function Lower(s: string): (r: string)
    ensures |r| == |s|
    ensures forall i :: 0 <= i < |s| ==> r[i] == if 'A' <= s[i] <= 'Z' then s[i] + ' ' else s[i]
  {
    if s == [] then [] else [if 'A' <= s[0] <= 'Z' then s[0] + ' ' else s[0]] + Lower(s[1..])
  }

  lemma LowerTwice(s: string)
    ensures Lower(Lower(s)) == Lower(s)
  {
    assert forall i :: 0 <= i < |s| ==> Lower(Lower(s))[i] == Lower(s)[i];
  }

  lemma LaterIsInRest(s: string, i: nat, k: nat)
    requires i < k < |s|
    ensures s[k] in s[i + 1..]
  {
    assert s[i + 1..][k - i - 1] == s[k];
  }

  /** A character occurs last in one place only. */
  lemma OneIsLast(s: string, c: char, a: nat, b: nat)
    requires a < |s| && b < |s| && s[a] == s[b] == c
    requires c !in s[a + 1..] && c !in s[b + 1..]
    ensures a == b
  {
    if a < b { LaterIsInRest(s, a, b); }
    if b < a { LaterIsInRest(s, b, a); }
  }

  /** `s.split(sep)` */
  function Split(s: string, sep: char): (parts: seq<string>)
    ensures |parts| >= 1
    ensures forall i :: 0 <= i < |parts| ==> sep !in parts[i]
  {
    if s == [] then [[]]
    else
      var rest := Split(s[1..], sep);
      if s[0] == sep then [[]] + rest else [[s[0]] + rest[0]] + rest[1..]
  }

  /** `parts.join(sep)` */
  function Join(parts: seq<string>, sep: char): string {
    if parts == [] then []
    else if |parts| == 1 then parts[0]
    else parts[0] + [sep] + Join(parts[1..], sep)
  }

  lemma {:induction false} JoinOfSplit(s: string, sep: char)
    ensures Join(Split(s, sep), sep) == s
  {
    if s != [] {
      JoinOfSplit(s[1..], sep);
      var rest := Split(s[1..], sep);
      if s[0] == sep {
        assert ([[]] + rest)[1..] == rest;
      } else {
        var first := [s[0]] + rest[0];
        assert ([first] + rest[1..])[1..] == rest[1..];
        assert s == [s[0]] + s[1..];
      }
    }
  }

  lemma {:induction false} SplitOfPlain(s: string, sep: char)
    requires sep !in s
    ensures Split(s, sep) == [s]
  {
    if s != [] {
      SplitOfPlain(s[1..], sep);
      assert [s[0]] + s[1..] == s;
    }
  }

  lemma {:induction false} SplitOfConcat(s: string, sep: char, rest: string)
    requires sep !in s
    ensures Split(s + [sep] + rest, sep) == [s] + Split(rest, sep)
  {
    var whole := s + [sep] + rest;
    if s == [] {
      assert whole[1..] == rest;
    } else {
      SplitOfConcat(s[1..], sep, rest);
      assert whole[1..] == s[1..] + [sep] + rest;
      var tail := [s[1..]] + Split(rest, sep);
      assert Split(whole[1..], sep) == tail && tail[1..] == Split(rest, sep);
      assert [s[0]] + tail[0] == s;
    }
  }

  lemma {:induction false} SplitOfJoin(parts: seq<string>, sep: char)
    requires |parts| >= 1 && forall i :: 0 <= i < |parts| ==> sep !in parts[i]
    ensures Split(Join(parts, sep), sep) == parts
  {
    if |parts| == 1 {
      SplitOfPlain(parts[0], sep);
    } else {
      SplitOfJoin(parts[1..], sep);
      SplitOfConcat(parts[0], sep, Join(parts[1..], sep));
    }
  }
}
