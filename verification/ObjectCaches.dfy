/**
 The in-memory object cache of the registry proxy: an LRU map with a lifetime per
 entry, checked lazily when the entry is read.
 */
module ObjectCaches {
  import opened Options
  import opened Logs
  import opened LruMaps

  datatype CacheValue = Object(body: string, contentType: string) | Missing

  datatype Entry = Entry(value: CacheValue, expiresAt: int)

  datatype Config = Config(maxEntries: int, ttlMs: int, negativeTtlMs: int) {
    function Capacity(): nat { Max(1, maxEntries) }

    function Lifetime(v: CacheValue): int { if v.Missing? then negativeTtlMs else ttlMs }
  }

  /** One call of the cache, with the time its clock showed. */
  datatype Call = Get(key: string, now: int) | Set(key: string, value: CacheValue, now: int)

  /** What a `get` answers. */
  function Lookup(m: JsMap<Entry>, key: string, now: int): Option<CacheValue> {
    if key in m.at && now < m.at[key].expiresAt then Some(m.at[key].value) else None
  }

  /** What a call does to the map: nothing on a miss, else a touch or an expiry. */
  function Effect(c: Config, m: JsMap<Entry>, call: Call): Option<Event<Entry>> {
    match call
    case Set(k, v, now) => Some(Event.Put(k, Entry(v, now + c.Lifetime(v))))
    case Get(k, now) =>
      if k !in m.at then None
      else if now >= m.at[k].expiresAt then Some(Event.Drop(k))
      else Some(Event.Put(k, m.at[k]))
  }

  /** The map after one call. */
  function After(c: Config, m: JsMap<Entry>, call: Call): JsMap<Entry> {
    match Effect(c, m, call)
    case None => m
    case Some(e) => Apply(m, c.Capacity(), e)
  }

  /** The touches and expiries of a whole run of calls. */
  function History(c: Config, calls: Log<Call>): Log<Event<Entry>> {
    match calls
    case Start => Start
    case Then(past, call) =>
      match Effect(c, Contents(c, past), call)
      case None => History(c, past)
      case Some(e) => Then(History(c, past), e)
  }

  /** The map after a run of calls. */
  function Contents(c: Config, calls: Log<Call>): JsMap<Entry> {
    match calls
    case Start => Empty()
    case Then(past, call) => After(c, Contents(c, past), call)
  }

  lemma {:induction false} ContentsIsReplay(c: Config, calls: Log<Call>)
    ensures Contents(c, calls) == Replay(c.Capacity(), History(c, calls))
  {
    if calls.Then? { ContentsIsReplay(c, calls.past); }
  }

  /** At all times: bounded, ordered by last touch, holding what was last put. */
  lemma CacheIsLru(c: Config, calls: Log<Call>)
    ensures Resident(if c.maxEntries < 1 then 1 else c.maxEntries, History(c, calls), Contents(c, calls))
  {
    ContentsIsReplay(c, calls);
    Residency(c.Capacity(), History(c, calls));
  }

  lemma ContentsIsValid(c: Config, calls: Log<Call>)
    ensures Contents(c, calls).Valid() && |Contents(c, calls).keys| <= c.Capacity()
  {
    CacheIsLru(c, calls);
  }

  function Gets(calls: Log<Call>): nat {
    match calls
    case Start => 0
    case Then(past, call) => Gets(past) + if call.Get? then 1 else 0
  }

  /** The map as `set` leaves it before its eviction loop. */
  lemma SetIsTouchThenTrim(c: Config, calls: Log<Call>, call: Call)
    requires call.Set?
    ensures
      var t := LruMaps.Set(Delete(Contents(c, calls), call.key), call.key, EntryOf(c, call));
      && t.Valid() && Newest(t, c.Capacity()) == Contents(c, Then(calls, call))
      && Contents(c, Then(calls, call)) == After(c, Contents(c, calls), call)
      && Gets(Then(calls, call)) == Gets(calls)
  {
    hide LruMaps.Set, Delete, Newest;
    ContentsIsValid(c, calls);
    TouchIsValid(Contents(c, calls), call.key, EntryOf(c, call));
  }

  class ObjectCache {
    const config: Config
    var entries: JsMap<Entry>
    var hits: nat
    var misses: nat
    /** Every call made so far. */
    ghost var calls: Log<Call>

    ghost predicate Valid()
      reads this
    {
      entries == Contents(config, calls) && hits + misses == Gets(calls)
    }

    constructor (config: Config)
      ensures Valid() && this.config == config && calls == Start
    {
      this.config := config;
      entries := Empty();
      hits, misses := 0, 0;
      calls := Start;
    }

    method Get(key: string, now: int) returns (r: Option<CacheValue>)
      requires Valid()
      modifies this
      ensures Valid() && calls == Then(old(calls), Call.Get(key, now))
      ensures entries == After(config, old(entries), Call.Get(key, now))
      ensures r == Lookup(old(entries), key, now)
      ensures hits == old(hits) + if r.Some? then 1 else 0
    {
      ContentsIsValid(config, calls);
      calls := Then(calls, Call.Get(key, now));
      if key !in entries.at {
        misses := misses + 1;
        return None;
      }
      var e := entries.at[key];
      if now >= e.expiresAt {
        entries := Delete(entries, key);
        misses := misses + 1;
        return None;
      }
      TouchIsValid(entries, key, e);
      entries := Delete(entries, key);
      entries := LruMaps.Set(entries, key, e);
      hits := hits + 1;
      return Some(e.value);
    }

    method Set(key: string, value: CacheValue, now: int)
      requires Valid()
      modifies this
      ensures Valid() && calls == Then(old(calls), Call.Set(key, value, now))
      ensures entries == After(config, old(entries), Call.Set(key, value, now))
      ensures hits == old(hits) && misses == old(misses)
    {
      hide Newest, Contents, LruMaps.Set, Delete, JsMap.Valid, Gets, After;
      SetIsTouchThenTrim(config, calls, Call.Set(key, value, now));
      var touched := LruMaps.Set(Delete(entries, key), key, Entry(value, now + config.Lifetime(value)));
      entries := Evict(touched, config.Capacity());
      calls := Then(calls, Call.Set(key, value, now));
    }
  }

  // ---- what a caller sees, said of the calls alone ----

  /** The last `Set` of `key`. */
  function LastSet(calls: Log<Call>, key: string): Option<Call> {
    match calls
    case Start => None
    case Then(past, call) => if call.Set? && call.key == key then Some(call) else LastSet(past, key)
  }

  function EntryOf(c: Config, call: Call): Entry
    requires call.Set?
  {
    Entry(call.value, call.now + (if call.value.Missing? then c.negativeTtlMs else c.ttlMs))
  }

  /** A resident entry is the one made by the last `Set` of its key. */
  lemma {:induction false} EntryIsLastSet(c: Config, calls: Log<Call>, key: string)
    requires key in Contents(c, calls).at
    ensures LastSet(calls, key).Some? && LastSet(calls, key).value.Set?
    ensures Contents(c, calls).at[key] == EntryOf(c, LastSet(calls, key).value)
  {
    if calls.Then? && !(calls.last.Set? && calls.last.key == key) {
      assert key in Contents(c, calls.past).at;
      EntryIsLastSet(c, calls.past, key);
    }
  }

  /** A hit returns the value last set, and only within its lifetime. */
  lemma {:induction false} HitIsLastSet(c: Config, calls: Log<Call>, key: string, now: int)
    requires Lookup(Contents(c, calls), key, now).Some?
    ensures LastSet(calls, key).Some? && LastSet(calls, key).value.Set?
    ensures Lookup(Contents(c, calls), key, now).value == LastSet(calls, key).value.value
    ensures now < EntryOf(c, LastSet(calls, key).value).expiresAt
  {
    EntryIsLastSet(c, calls, key);
  }

  /**
   A key held is answered with the value last set, and exactly until its lifetime is
   over: the short one for a missing object, the long one for any other.
   */
  lemma {:induction false} AnsweredExactly(c: Config, calls: Log<Call>, key: string, now: int)
    requires key in Contents(c, calls).at
    ensures LastSet(calls, key).Some? && LastSet(calls, key).value.Set?
    ensures
      var set_ := LastSet(calls, key).value;
      Lookup(Contents(c, calls), key, now) ==
      match set_.value
      case Missing => if now < set_.now + c.negativeTtlMs then Some(Missing) else None
      case found => if now < set_.now + c.ttlMs then Some(found) else None
  {
    hide Contents;
    EntryIsLastSet(c, calls, key);
  }

  function TimeOf(call: Call): real { call.now as real }

  /** The last `Set` of `key` has not expired at `now`. */
  predicate Unexpired(c: Config, calls: Log<Call>, key: string, now: int) {
    && LastSet(calls, key).Some? && LastSet(calls, key).value.Set?
    && now < EntryOf(c, LastSet(calls, key).value).expiresAt
  }

  /** Before its expiry, a key that was set is not dropped by a `get`. */
  lemma {:induction false} UnexpiredIsLive(c: Config, calls: Log<Call>, key: string, now: int)
    requires ClockNonDecreasing(calls, TimeOf, now as real) && Unexpired(c, calls, key, now)
    ensures Live(History(c, calls), key)
  {
    var call := calls.last;
    if !(call.Set? && call.key == key) {
      UnexpiredIsLive(c, calls.past, key, call.now);
      if call.key == key && key in Contents(c, calls.past).at { EntryIsLastSet(c, calls.past, key); }
    }
  }

  /**
   With a clock that does not go back, a key that was set and has not expired can
   be missed only when at least `maxEntries` distinct other keys, and at least one,
   were touched, by a hit or a `set`, since it was itself last touched.
   */
  lemma MissMeansEvicted(c: Config, calls: Log<Call>, key: string, now: int)
    requires ClockNonDecreasing(calls, TimeOf, now as real) && Unexpired(c, calls, key, now)
    requires Lookup(Contents(c, calls), key, now).None?
    ensures Live(History(c, calls), key) && |Since(History(c, calls), key)| >= 1
    ensures |Since(History(c, calls), key)| >= c.maxEntries
  {
    UnexpiredIsLive(c, calls, key, now);
    CacheIsLru(c, calls);
    if key in Contents(c, calls).at { EntryIsLastSet(c, calls, key); }
  }
}
