/**
 The order in which a JavaScript object lists its members: names that are array
 indices come first, ascending; the others follow in the order they were added.
 `Object.fromEntries` adds its entries one by one.
 */
module OwnKeys {
  import opened Jsons
  import opened Options

  const INDEX_LIMIT: nat := 0xFFFF_FFFF

  predicate Digits(s: string) { forall i :: 0 <= i < |s| ==> '0' <= s[i] <= '9' }

  function Decimal(s: string): nat
    requires Digits(s)
  {
    if s == [] then 0 else 10 * Decimal(s[..|s| - 1]) + (s[|s| - 1] as int - '0' as int)
  }

  /** The array index a name stands for, if it is one. */
  function IndexOf(k: string): Option<nat> {
    if k != [] && Digits(k) && (k[0] != '0' || |k| == 1) && Decimal(k) < INDEX_LIMIT then Some(Decimal(k)) else None
  }

  /** May `a` be listed before `b` when `b` was added later? */
  predicate Before(a: string, b: string) {
    IndexOf(b).Some? ==> IndexOf(a).Some? && IndexOf(a).value <= IndexOf(b).value
  }

  function Names(ms: List<Member>): List<string> {
    if ms.Nil? then Nil else Cons(ms.head.key, Names(ms.tail))
  }

  predicate Listed(names: List<string>, k: string) {
    names.Cons? && (names.head == k || Listed(names.tail, k))
  }

  predicate AllAfter(k: string, names: List<string>) {
    names.Cons? ==> Before(k, names.head) && AllAfter(k, names.tail)
  }

  /** A list of names that some object lists: distinct, and in the order above. */
  predicate OwnOrder(names: List<string>) {
    names.Cons? ==> !Listed(names.tail, names.head) && AllAfter(names.head, names.tail) && OwnOrder(names.tail)
  }

  function Insert(ms: List<Member>, k: string, v: Json): List<Member> {
    if ms.Nil? || !Before(ms.head.key, k) then Cons(Member(k, v), ms) else Cons(ms.head, Insert(ms.tail, k, v))
  }

  /** `o[k] = v` */
  function Enter(ms: List<Member>, k: string, v: Json): List<Member> {
    if Has(ms, k) then Put(ms, k, v) else Insert(ms, k, v)
  }

  function EnterAll(ms: List<Member>, entries: List<Member>): List<Member>
    decreases entries
  {
    if entries.Nil? then ms else EnterAll(Enter(ms, entries.head.key, entries.head.value), entries.tail)
  }

  /** `Object.fromEntries(entries)` */
  function FromEntries(entries: List<Member>): List<Member> { EnterAll(Nil, entries) }

  // ---- what an object lists is in its own order ----

  lemma {:induction false} ListedIsHas(ms: List<Member>, k: string)
    ensures Listed(Names(ms), k) <==> Has(ms, k)
  {
    if ms.Cons? { ListedIsHas(ms.tail, k); }
  }

  lemma {:induction false} NamesOfPut(ms: List<Member>, k: string, v: Json)
    requires Has(ms, k)
    ensures Names(Put(ms, k, v)) == Names(ms)
  {
    if ms.head.key != k { NamesOfPut(ms.tail, k, v); }
  }

  lemma {:induction false} AfterAll(a: string, b: string, names: List<string>)
    requires !Before(b, a) && AllAfter(b, names)
    ensures AllAfter(a, names)
  {
    if names.Cons? { AfterAll(a, b, names.tail); }
  }

  lemma {:induction false} ListedAfterInsert(ms: List<Member>, k: string, v: Json, x: string)
    ensures Listed(Names(Insert(ms, k, v)), x) <==> x == k || Listed(Names(ms), x)
    ensures AllAfter(x, Names(Insert(ms, k, v))) <==> Before(x, k) && AllAfter(x, Names(ms))
  {
    hide Before;
    if ms.Cons? { ListedAfterInsert(ms.tail, k, v, x); }
  }

  lemma {:induction false} InsertKeepsOrder(ms: List<Member>, k: string, v: Json)
    requires OwnOrder(Names(ms)) && !Has(ms, k)
    ensures OwnOrder(Names(Insert(ms, k, v)))
  {
    ListedIsHas(ms, k);
    if ms.Cons? {
      if Before(ms.head.key, k) {
        InsertKeepsOrder(ms.tail, k, v);
        ListedAfterInsert(ms.tail, k, v, ms.head.key);
      } else {
        AfterAll(k, ms.head.key, Names(ms.tail));
      }
    }
  }

  lemma {:induction false} EnterAllIsInOrder(ms: List<Member>, entries: List<Member>)
    requires OwnOrder(Names(ms))
    ensures OwnOrder(Names(EnterAll(ms, entries)))
    decreases entries
  {
    if entries.Cons? {
      var e := entries.head;
      if Has(ms, e.key) { NamesOfPut(ms, e.key, e.value); } else { InsertKeepsOrder(ms, e.key, e.value); }
      EnterAllIsInOrder(Enter(ms, e.key, e.value), entries.tail);
    }
  }

  // ---- entries in own order are listed back unchanged ----

  function Append(a: List<Member>, b: List<Member>): List<Member> {
    if a.Nil? then b else Cons(a.head, Append(a.tail, b))
  }

  lemma {:induction false} AppendOne(a: List<Member>, m: Member, b: List<Member>)
    ensures Append(Append(a, Cons(m, Nil)), b) == Append(a, Cons(m, b))
  {
    if a.Cons? { AppendOne(a.tail, m, b); }
  }

  lemma {:induction false} AppendNone(a: List<Member>)
    ensures Append(a, Nil) == a
  {
    if a.Cons? { AppendNone(a.tail); }
  }

  lemma {:induction false} AfterInAppend(a: List<Member>, b: List<Member>, x: string)
    ensures Listed(Names(Append(a, b)), x) <==> Listed(Names(a), x) || Listed(Names(b), x)
    ensures AllAfter(x, Names(Append(a, b))) <==> AllAfter(x, Names(a)) && AllAfter(x, Names(b))
  {
    hide Before;
    if a.Cons? { AfterInAppend(a.tail, b, x); }
  }

  lemma {:induction false} EnterAtEnd(a: List<Member>, m: Member, rest: List<Member>)
    requires OwnOrder(Names(Append(a, Cons(m, rest))))
    ensures Enter(a, m.key, m.value) == Append(a, Cons(m, Nil))
  {
    hide Before;
    if a.Cons? {
      EnterAtEnd(a.tail, m, rest);
      AfterInAppend(a.tail, Cons(m, rest), a.head.key);
    }
  }

  lemma {:induction false} EnterAllAppends(a: List<Member>, b: List<Member>)
    requires OwnOrder(Names(Append(a, b)))
    ensures EnterAll(a, b) == Append(a, b)
    decreases b
  {
    if b.Nil? {
      AppendNone(a);
    } else {
      EnterAtEnd(a, b.head, b.tail);
      AppendOne(a, b.head, b.tail);
      EnterAllAppends(Append(a, Cons(b.head, Nil)), b.tail);
    }
  }

  /** Entries are listed back as given exactly when their names are distinct and in an object's own order. */
  lemma FromEntriesExactly(entries: List<Member>)
    ensures OwnOrder(Names(FromEntries(entries)))
    ensures FromEntries(entries) == entries <==> OwnOrder(Names(entries))
    ensures Names(FromEntries(entries)) == Names(entries) <==> OwnOrder(Names(entries))
  {
    EnterAllIsInOrder(Nil, entries);
    if OwnOrder(Names(entries)) { EnterAllAppends(Nil, entries); }
  }

  // ---- the canonical form ----

  predicate NoRepeats(names: List<string>) {
    names.Cons? ==> !Listed(names.tail, names.head) && NoRepeats(names.tail)
  }

  lemma {:induction false} CanonOfInsert(ms: List<Member>, k: string, v: Json)
    requires !Has(ms, k)
    ensures CanonMembers(Insert(ms, k, v)) == CanonMembers(ms)[k := Canon(v)]
  {
    hide Before;
    if ms.Cons? { CanonOfInsert(ms.tail, k, v); }
  }

  lemma {:induction false} CanonOfEnterAll(ms: List<Member>, entries: List<Member>)
    requires NoRepeats(Names(entries))
    ensures CanonMembers(EnterAll(ms, entries)) == CanonMembers(ms) + CanonMembers(entries)
    decreases entries
  {
    hide Put, Insert, Has, Get, Canon, KeySet;
    if entries.Cons? {
      var e := entries.head;
      if Has(ms, e.key) { CanonOfPut(ms, e.key, e.value); } else { CanonOfInsert(ms, e.key, e.value); }
      CanonOfEnterAll(Enter(ms, e.key, e.value), entries.tail);
      ListedIsHas(entries.tail, e.key);
      CanonKeys(entries.tail, e.key);
    }
  }

  /** Hashing does not see the reordering. */
  lemma CanonOfFromEntries(entries: List<Member>)
    requires NoRepeats(Names(entries))
    ensures CanonMembers(FromEntries(entries)) == CanonMembers(entries)
  {
    CanonOfEnterAll(Nil, entries);
  }
}
