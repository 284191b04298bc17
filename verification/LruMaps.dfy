/**
 The insertion-ordered `Map` of JavaScript and the eviction discipline that the
 object cache and the rate limiter both build on it: delete and re-insert a key
 to move it to the back, then delete from the front while the map is too big.

 The theory is stated over a log of `Put` and `Drop` events.  Who is resident
 after a log is characterised without running the map: by which keys are live and
 which other keys were put since.
 */
module LruMaps {
  import opened Options
  import opened Logs

  ghost predicate Distinct(s: seq<string>) {
    forall i, j :: 0 <= i < j < |s| ==> s[i] != s[j]
  }

  datatype JsMap<V> = JsMap(keys: seq<string>, at: map<string, V>) {
    ghost predicate Valid() {
      && Distinct(keys)
      && (forall k :: k in keys <==> k in at)
    }
  }

  function Empty<V>(): JsMap<V> { JsMap([], map[]) }

  /** `s` without the occurrences of `k`, the others kept in order. */
  function Without(s: seq<string>, k: string): (r: seq<string>)
    ensures forall x :: x in r <==> x in s && x != k
    ensures |r| <= |s|
  {
    if s == [] then []
    else if s[0] == k then Without(s[1..], k)
    else [s[0]] + Without(s[1..], k)
  }

  function ToSet(s: seq<string>): set<string> { set x | x in s }

  /** `map.delete(k)` */
  function Delete<V>(m: JsMap<V>, k: string): JsMap<V> {
    JsMap(Without(m.keys, k), m.at - {k})
  }

  /** `map.set(k, v)`: an existing key keeps its place, a new key goes last. */
  function Set<V>(m: JsMap<V>, k: string, v: V): JsMap<V> {
    JsMap(if k in m.at then m.keys else m.keys + [k], m.at[k := v])
  }

  /** Keep the `cap` keys at the back. */
  function Newest<V>(m: JsMap<V>, cap: nat): JsMap<V> {
    if |m.keys| <= cap then m
    else
      var cut := |m.keys| - cap;
      JsMap(m.keys[cut..], m.at - ToSet(m.keys[..cut]))
  }

  datatype Event<V> = Put(key: string, value: V) | Drop(key: string)

  function Apply<V>(m: JsMap<V>, cap: nat, e: Event<V>): JsMap<V> {
    match e
    case Put(k, v) => Newest(Set(Delete(m, k), k, v), cap)
    case Drop(k) => Delete(m, k)
  }

  function Replay<V>(cap: nat, h: Log<Event<V>>): JsMap<V> {
    match h
    case Start => Empty()
    case Then(past, e) => Apply(Replay(cap, past), cap, e)
  }

  // ---- who is resident, said without the map ----

  /** `k` was put and not dropped since. */
  predicate Live<V>(h: Log<Event<V>>, k: string) {
    match h
    case Start => false
    case Then(past, e) => if e.key == k then e.Put? else Live(past, k)
  }

  /** The value last put under `k`. */
  function LastValue<V>(h: Log<Event<V>>, k: string): Option<V> {
    match h
    case Start => None
    case Then(past, e) => if e.Put? && e.key == k then Some(e.value) else LastValue(past, k)
  }

  /** The other keys put since `k` was last put. */
  function Since<V>(h: Log<Event<V>>, k: string): set<string> {
    match h
    case Start => {}
    case Then(past, Drop(_)) => Since(past, k)
    case Then(past, Put(x, _)) => if x == k then {} else Since(past, k) + {x}
  }

  /** `keys` goes from the key put longest ago to the key put last. */
  ghost predicate OldestFirst<V>(h: Log<Event<V>>, keys: seq<string>) {
    forall i, j :: 0 <= i < j < |keys| ==> keys[j] in Since(h, keys[i])
  }

  // ---- lemmas about the map operations ----

  lemma {:induction false} WithoutDistinct(s: seq<string>, k: string)
    requires Distinct(s)
    ensures Distinct(Without(s, k))
    ensures k !in s ==> Without(s, k) == s
    ensures k in s ==> |Without(s, k)| == |s| - 1
  {
    if s != [] {
      var rest := s[1..];
      WithoutDistinct(rest, k);
      assert s[0] !in rest;
      if s[0] != k { assert s[0] !in Without(rest, k); }
    }
  }

  /** Removing a key keeps the relative order of the others. */
  lemma {:induction false} WithoutOldestFirst<V>(h: Log<Event<V>>, s: seq<string>, k: string)
    requires OldestFirst(h, s)
    ensures OldestFirst(h, Without(s, k))
  {
    if s != [] {
      var rest := s[1..];
      WithoutOldestFirst(h, rest, k);
      var r := Without(rest, k);
      forall j | 0 <= j < |r|
        ensures r[j] in Since(h, s[0])
      {
        assert r[j] in r;
        var l :| 0 <= l < |rest| && rest[l] == r[j];
        assert s[l + 1] == r[j];
      }
    }
  }

  lemma DeleteIsValid<V>(m: JsMap<V>, k: string)
    requires m.Valid()
    ensures Delete(m, k).Valid()
  {
    WithoutDistinct(m.keys, k);
  }

  lemma TouchIsValid<V>(m: JsMap<V>, k: string, v: V)
    requires m.Valid()
    ensures Set(Delete(m, k), k, v).Valid()
    ensures Set(Delete(m, k), k, v).keys == Without(m.keys, k) + [k]
    ensures |Without(m.keys, k)| == if k in m.at then |m.keys| - 1 else |m.keys|
  {
    WithoutDistinct(m.keys, k);
    assert Distinct(Without(m.keys, k) + [k]);
  }

  lemma NewestIsValid<V>(m: JsMap<V>, cap: nat)
    requires m.Valid()
    ensures Newest(m, cap).Valid()
    ensures |Newest(m, cap).keys| <= cap
  {
    if |m.keys| > cap {
      var cut := |m.keys| - cap;
      assert forall x :: x in m.keys <==> x in m.keys[..cut] || x in m.keys[cut..];
    }
  }

  lemma CutAfterHead(s: seq<string>, cut: nat)
    requires 1 <= cut <= |s|
    ensures s[..cut] == [s[0]] + s[1..][..cut - 1]
    ensures s[cut..] == s[1..][cut - 1..]
  {
  }

  lemma SetOfCons(k: string, t: seq<string>)
    ensures ToSet([k] + t) == {k} + ToSet(t)
  {
    forall x ensures x in ToSet([k] + t) <==> x in {k} + ToSet(t) {
      assert x in [k] + t <==> x == k || x in t;
    }
  }

  lemma RemoveHeadFirst<V>(m: map<string, V>, k: string, s: set<string>)
    ensures m - ({k} + s) == (m - {k}) - s
  {
  }

  /** Taking one key off the front first does not change which keys are kept. */
  lemma NewestStep<V>(m: JsMap<V>, d: JsMap<V>, cap: nat)
    requires |m.keys| > cap && d.keys == m.keys[1..] && d.at == m.at - {m.keys[0]}
    ensures Newest(d, cap) == Newest(m, cap)
  {
    var k, cut := m.keys[0], |m.keys| - cap;
    CutAfterHead(m.keys, cut);
    if cut == 1 {
      OneIsCut(m, d, cap);
    } else {
      hide ToSet;
      var rest := d.keys[..cut - 1];
      SetOfCons(k, rest);
      RemoveHeadFirst(m.at, k, ToSet(rest));
      calc {
        Newest(m, cap);
        JsMap(m.keys[cut..], m.at - ToSet(m.keys[..cut]));
        JsMap(d.keys[cut - 1..], d.at - ToSet(rest));
        Newest(d, cap);
      }
    }
  }

  lemma OneIsCut<V>(m: JsMap<V>, d: JsMap<V>, cap: nat)
    requires |m.keys| == cap + 1 && d.keys == m.keys[1..] && d.at == m.at - {m.keys[0]}
    ensures Newest(d, cap) == Newest(m, cap)
  {
    assert ToSet(m.keys[..1]) == {m.keys[0]} by { assert m.keys[..1] == [m.keys[0]]; }
  }

  /** One round of the eviction loop brings the map closer to `Newest`. */
  lemma EvictOne<V>(m: JsMap<V>, cap: nat)
    requires m.Valid() && |m.keys| > cap
    ensures Delete(m, m.keys[0]).Valid()
    ensures Delete(m, m.keys[0]).keys == m.keys[1..]
    ensures Newest(Delete(m, m.keys[0]), cap) == Newest(m, cap)
  {
    DeleteIsValid(m, m.keys[0]);
    WithoutDistinct(m.keys[1..], m.keys[0]);
    NewestStep(m, Delete(m, m.keys[0]), cap);
  }

  /** The eviction loop that both `set` and `allow` end with. */
  method Evict<V>(full: JsMap<V>, cap: nat) returns (m: JsMap<V>)
    requires full.Valid()
    ensures m == Newest(full, cap)
  {
    m := full;
    while |m.keys| > cap
      invariant m.Valid() && Newest(m, cap) == Newest(full, cap)
      decreases |m.keys|
    {
      EvictOne(m, cap);
      m := Delete(m, m.keys[0]);
    }
  }

  /** Evicting one key loses nothing but the head. */
  lemma NewestAfterOne<V>(t: JsMap<V>, cap: nat)
    requires |t.keys| == cap + 1
    ensures Newest(t, cap).keys == t.keys[1..] && Newest(t, cap).at == t.at - {t.keys[0]}
  {
    assert t.keys[..1] == [t.keys[0]];
  }

  lemma {:induction false} DistinctSize(s: seq<string>)
    requires Distinct(s)
    ensures |ToSet(s)| == |s|
  {
    if s != [] {
      DistinctSize(s[1..]);
      assert ToSet(s) == ToSet(s[1..]) + {s[0]};
    }
  }

  lemma SubsetSize(a: set<string>, b: set<string>)
    requires a <= b
    ensures |a| <= |b|
  {
    assert b == a + (b - a);
  }

  // ---- the residency theorem ----

  /** The values held are the values last put, of live keys only. */
  ghost predicate HoldsLastPut<V>(h: Log<Event<V>>, m: JsMap<V>) {
    forall k :: k in m.at ==> Live(h, k) && LastValue(h, k) == Some(m.at[k])
  }

  /** A live key is missing only when at least `cap` other keys were put since. */
  ghost predicate MissesOnlyStale<V>(cap: nat, h: Log<Event<V>>, m: JsMap<V>) {
    forall k :: Live(h, k) && k !in m.at ==> |Since(h, k)| >= cap
  }

  ghost predicate Resident<V>(cap: nat, h: Log<Event<V>>, m: JsMap<V>) {
    && m.Valid()
    && |m.keys| <= cap
    && OldestFirst(h, m.keys)
    && HoldsLastPut(h, m)
    && MissesOnlyStale(cap, h, m)
  }

  /** The head of an over-full map has at least `cap` distinct keys put after it. */
  lemma HeadIsStale<V>(h: Log<Event<V>>, keys: seq<string>)
    requires |keys| > 0 && Distinct(keys) && OldestFirst(h, keys)
    ensures |Since(h, keys[0])| >= |keys| - 1
  {
    DistinctSize(keys[1..]);
    SubsetSize(ToSet(keys[1..]), Since(h, keys[0]));
  }

  lemma TouchKeepsOrder<V>(h: Log<Event<V>>, m: JsMap<V>, k: string, v: V)
    requires OldestFirst(h, m.keys)
    ensures OldestFirst(Then(h, Put(k, v)), Without(m.keys, k) + [k])
  {
    WithoutOldestFirst(h, m.keys, k);
    var w := Without(m.keys, k);
    forall i | 0 <= i < |w| ensures w[i] != k { assert w[i] in w; }
  }

  lemma TouchKeepsStale<V>(cap: nat, h: Log<Event<V>>, m: JsMap<V>, k: string, v: V)
    requires MissesOnlyStale(cap, h, m)
    ensures MissesOnlyStale(cap, Then(h, Put(k, v)), Set(Delete(m, k), k, v))
  {
    var h' := Then(h, Put(k, v));
    forall x | Live(h', x) && x !in Set(Delete(m, k), k, v).at
      ensures |Since(h', x)| >= cap
    {
      SubsetSize(Since(h, x), Since(h', x));
    }
  }

  lemma TouchKeepsValues<V>(h: Log<Event<V>>, m: JsMap<V>, k: string, v: V)
    requires HoldsLastPut(h, m)
    ensures HoldsLastPut(Then(h, Put(k, v)), Set(Delete(m, k), k, v))
  {
  }

  /** Evicting one key from a map in order keeps everything. */
  lemma TrimKeepsResident<V>(cap: nat, h: Log<Event<V>>, t: JsMap<V>)
    requires cap >= 1 && |t.keys| <= cap + 1 && t.Valid()
    requires OldestFirst(h, t.keys) && HoldsLastPut(h, t) && MissesOnlyStale(cap, h, t)
    ensures Resident(cap, h, Newest(t, cap))
  {
    NewestIsValid(t, cap);
    if |t.keys| > cap {
      NewestAfterOne(t, cap);
      HeadIsStale(h, t.keys);
    }
  }

  lemma PutKeepsResident<V>(cap: nat, h: Log<Event<V>>, m: JsMap<V>, k: string, v: V)
    requires cap >= 1 && Resident(cap, h, m)
    ensures Resident(cap, Then(h, Put(k, v)), Apply(m, cap, Put(k, v)))
  {
    TouchIsValid(m, k, v);
    TouchKeepsOrder(h, m, k, v);
    TouchKeepsStale(cap, h, m, k, v);
    TouchKeepsValues(h, m, k, v);
    TrimKeepsResident(cap, Then(h, Put(k, v)), Set(Delete(m, k), k, v));
  }

  lemma DropKeepsResident<V>(cap: nat, h: Log<Event<V>>, m: JsMap<V>, k: string)
    requires Resident(cap, h, m)
    ensures Resident(cap, Then(h, Event.Drop(k)), Delete(m, k))
  {
    DeleteIsValid(m, k);
    WithoutOldestFirst(h, m.keys, k);
    assert forall x :: Since(Then(h, Event<V>.Drop(k)), x) == Since(h, x);
  }

  /**
   Residency: the map never exceeds its capacity, runs from the key put longest ago
   to the key put last, holds the last value put under each of its keys, and a key
   that was put and not dropped since can only be missing when at least `cap`
   distinct other keys were put since its own last `Put`.
   */
  lemma {:induction false} Residency<V>(cap: nat, h: Log<Event<V>>)
    requires cap >= 1
    ensures Resident(cap, h, Replay(cap, h))
  {
    match h
    case Start =>
    case Then(past, Put(k, v)) => Residency(cap, past); PutKeepsResident(cap, past, Replay(cap, past), k, v);
    case Then(past, Drop(k)) => Residency(cap, past); DropKeepsResident(cap, past, Replay(cap, past), k);
  }

  lemma ReplayIsValid<V>(cap: nat, h: Log<Event<V>>)
    requires cap >= 1
    ensures Replay(cap, h).Valid() && |Replay(cap, h).keys| <= cap
  {
    Residency(cap, h);
  }

  predicate NoDrop<V>(h: Log<Event<V>>) { h.Start? || (h.last.Put? && NoDrop(h.past)) }

  /** Every key put since a resident key was put is resident too. */
  ghost predicate UpwardClosed<V>(h: Log<Event<V>>, m: JsMap<V>) {
    forall k :: k in m.at ==> Since(h, k) <= m.at.Keys
  }

  lemma TouchKeepsUpwardClosed<V>(h: Log<Event<V>>, m: JsMap<V>, k: string, v: V)
    requires UpwardClosed(h, m)
    ensures UpwardClosed(Then(h, Put(k, v)), Set(Delete(m, k), k, v))
  {
  }

  lemma PutKeepsUpwardClosed<V>(cap: nat, h: Log<Event<V>>, m: JsMap<V>, k: string, v: V)
    requires cap >= 1 && Resident(cap, h, m) && UpwardClosed(h, m)
    ensures UpwardClosed(Then(h, Put(k, v)), Apply(m, cap, Put(k, v)))
  {
    var h' := Then(h, Put(k, v));
    var t := Set(Delete(m, k), k, v);
    TouchIsValid(m, k, v);
    TouchKeepsUpwardClosed(h, m, k, v);
    hide Set, Delete, Resident;
    if |t.keys| > cap {
      NewestAfterOne(t, cap);
      TouchKeepsOrder(h, m, k, v);
      NotSinceYounger(h', t.keys);
    }
  }

  /** The oldest key was not put since a younger one. */
  lemma {:induction false} NotSinceYounger<V>(h: Log<Event<V>>, keys: seq<string>)
    requires OldestFirst(h, keys) && Distinct(keys)
    ensures forall j :: 0 < j < |keys| ==> keys[0] !in Since(h, keys[j])
  {
    forall j | 0 < j < |keys| ensures keys[0] !in Since(h, keys[j]) { SinceIsAsymmetric(h, keys[0], keys[j]); }
  }

  lemma {:induction false} SinceIsAsymmetric<V>(h: Log<Event<V>>, x: string, y: string)
    requires x != y && y in Since(h, x)
    ensures x !in Since(h, y)
  {
    if h.last.Drop? || (h.last.key != x && h.last.key != y) { SinceIsAsymmetric(h.past, x, y); }
  }

  lemma {:induction false} ResidentsAreNewest<V>(cap: nat, h: Log<Event<V>>)
    requires cap >= 1 && NoDrop(h)
    ensures UpwardClosed(h, Replay(cap, h))
  {
    if h.Then? {
      Residency(cap, h.past);
      ResidentsAreNewest(cap, h.past);
      PutKeepsUpwardClosed(cap, h.past, Replay(cap, h.past), h.last.key, h.last.value);
    }
  }

  /**
   When nothing was ever dropped, residency is exactly recency: a key is in the
   map if and only if it was put and fewer than `cap` distinct other keys were put
   since.
   */
  lemma ResidencyExact<V>(cap: nat, h: Log<Event<V>>, k: string)
    requires cap >= 1 && NoDrop(h)
    ensures k in Replay(cap, h).at <==> Live(h, k) && |Since(h, k)| < cap
  {
    var m := Replay(cap, h);
    ResidentsAreNewest(cap, h);
    Residency(cap, h);
    hide Distinct, OldestFirst, Replay;
    if k in m.at {
      SelfNotSince(h, k);
      SinceAmongResidents(h, m, k);
    }
  }

  lemma SinceAmongResidents<V>(h: Log<Event<V>>, m: JsMap<V>, k: string)
    requires m.Valid() && k in m.at && Since(h, k) <= m.at.Keys && k !in Since(h, k)
    ensures |Since(h, k)| < |m.keys|
  {
    hide Since;
    DistinctSize(m.keys);
    SubsetSize(Since(h, k), ToSet(m.keys) - {k});
  }

  lemma {:induction false} SelfNotSince<V>(h: Log<Event<V>>, k: string)
    ensures k !in Since(h, k)
  {
    if h.Then? { SelfNotSince(h.past, k); }
  }
}
