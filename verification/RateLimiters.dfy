/**
 The per-IP token bucket of the registry proxy, over real arithmetic.  Its map of
 buckets is bounded by the same touch-and-evict discipline as the object cache.
 */
module RateLimiters {
  import opened Options
  import opened Logs
  import opened LruMaps

  datatype Bucket = Bucket(tokens: real, lastRefillMs: real)

  function Least(a: real, b: real): real { if a < b then a else b }

  datatype Config = Config(burst: real, refillPerSec: real, maxIps: int) {
    function Burst(): real { if burst < 1.0 then 1.0 else burst }

    function PerSec(): real { if refillPerSec < 0.0 then 0.0 else refillPerSec }

    function Capacity(): nat { Max(1, maxIps) }

    /** Tokens gained from time `a` to time `b`, in milliseconds. */
    function Gain(a: real, b: real): real { (b - a) / 1000.0 * PerSec() }
  }

  datatype Request = Request(ip: string, now: real)

  /** The caller's bucket as it stands when the request is judged. */
  function Refilled(c: Config, m: JsMap<Bucket>, r: Request): Bucket {
    if r.ip in m.at then
      var b := m.at[r.ip];
      Bucket(Least(c.Burst(), b.tokens + c.Gain(b.lastRefillMs, r.now)), r.now)
    else
      Bucket(c.Burst(), r.now)
  }

  predicate Allows(c: Config, m: JsMap<Bucket>, r: Request) { Refilled(c, m, r).tokens >= 1.0 }

  function Charged(c: Config, m: JsMap<Bucket>, r: Request): Bucket {
    var b := Refilled(c, m, r);
    if b.tokens >= 1.0 then Bucket(b.tokens - 1.0, b.lastRefillMs) else b
  }

  /** Every request touches its IP. */
  function Touches(c: Config, log: Log<Request>): Log<Event<Bucket>> {
    match log
    case Start => Start
    case Then(past, r) => Then(Touches(c, past), Put(r.ip, Charged(c, Table(c, past), r)))
  }

  /** The map of buckets after a run of requests. */
  function Table(c: Config, log: Log<Request>): JsMap<Bucket> {
    match log
    case Start => Empty()
    case Then(past, r) => Apply(Table(c, past), c.Capacity(), Put(r.ip, Charged(c, Table(c, past), r)))
  }

  lemma {:induction false} TableIsReplay(c: Config, log: Log<Request>)
    ensures Table(c, log) == Replay(c.Capacity(), Touches(c, log)) && NoDrop(Touches(c, log))
  {
    if log.Then? { TableIsReplay(c, log.past); }
  }

  lemma TableIsValid(c: Config, log: Log<Request>)
    ensures Table(c, log).Valid() && |Table(c, log).keys| <= c.Capacity()
  {
    TableIsReplay(c, log);
    ReplayIsValid(c.Capacity(), Touches(c, log));
  }

  /** The map as `allow` leaves it before its eviction loop. */
  lemma AllowIsTouchThenTrim(c: Config, log: Log<Request>, r: Request)
    ensures
      var t := LruMaps.Set(Delete(Table(c, log), r.ip), r.ip, Charged(c, Table(c, log), r));
      t.Valid() && Newest(t, c.Capacity()) == Table(c, Then(log, r))
  {
    TableIsValid(c, log);
    TouchIsValid(Table(c, log), r.ip, Charged(c, Table(c, log), r));
  }

  class TokenBucketRateLimiter {
    const config: Config
    var buckets: JsMap<Bucket>
    /** Every request judged so far. */
    ghost var log: Log<Request>

    ghost predicate Valid()
      reads this
    {
      buckets == Table(config, log)
    }

    constructor (config: Config)
      ensures Valid() && this.config == config && log == Start
    {
      this.config := config;
      buckets := Empty();
      log := Start;
    }

    method Allow(ip: string, now: real) returns (allowed: bool)
      requires Valid()
      modifies this
      ensures Valid() && log == Then(old(log), Request(ip, now))
      ensures allowed == Allows(config, old(buckets), Request(ip, now))
    {
      ghost var r := Request(ip, now);
      ghost var full := LruMaps.Set(Delete(buckets, ip), ip, Charged(config, buckets, r));
      AllowIsTouchThenTrim(config, log, r);
      hide Newest, Table, LruMaps.Set, Delete, JsMap.Valid;
      var b := Bucket(config.Burst(), now);
      if ip in buckets.at {
        b := buckets.at[ip];
        b := Bucket(Least(config.Burst(), b.tokens + config.Gain(b.lastRefillMs, now)), now);
      }
      allowed := false;
      if b.tokens >= 1.0 {
        b := Bucket(b.tokens - 1.0, b.lastRefillMs);
        allowed := true;
      }
      log := Then(log, r);
      buckets := Delete(buckets, ip);
      buckets := LruMaps.Set(buckets, ip, b);
      buckets := Evict(buckets, config.Capacity());
    }
  }

  // ---- the IP map ----

  predicate Asked(log: Log<Request>, ip: string) { log.Then? && (log.last.ip == ip || Asked(log.past, ip)) }

  /** The distinct IPs other than `ip` that asked after the last request of `ip`. */
  function OthersSince(log: Log<Request>, ip: string): set<string> {
    match log
    case Start => {}
    case Then(past, r) => if r.ip == ip then {} else OthersSince(past, ip) + {r.ip}
  }

  lemma {:induction false} TouchesAreRequests(c: Config, log: Log<Request>, ip: string)
    ensures Live(Touches(c, log), ip) == Asked(log, ip)
    ensures Since(Touches(c, log), ip) == OthersSince(log, ip)
  {
    if log.Then? { TouchesAreRequests(c, log.past, ip); }
  }

  /**
   An IP has a bucket exactly when it has asked and fewer than `maxIps` distinct IPs
   asked after it last did, or none at all; and there are never more than `maxIps`
   buckets, or one.
   */
  lemma BucketIsKeptExactlyWhenRecent(c: Config, log: Log<Request>, ip: string)
    ensures ip in Table(c, log).at <==>
            Asked(log, ip) && (|OthersSince(log, ip)| < c.maxIps || OthersSince(log, ip) == {})
    ensures |Table(c, log).keys| <= if c.maxIps < 1 then 1 else c.maxIps
  {
    TableIsReplay(c, log);
    TouchesAreRequests(c, log, ip);
    ResidencyExact(c.Capacity(), Touches(c, log), ip);
    TableIsValid(c, log);
  }

  // ---- one bucket, as long as it stays resident ----

  /** Times of the requests of `ip` since its bucket was last created. */
  function Visits(c: Config, log: Log<Request>, ip: string): seq<real> {
    match log
    case Start => []
    case Then(past, r) =>
      if r.ip != ip then Visits(c, past, ip)
      else if ip in Table(c, past).at then Visits(c, past, ip) + [r.now]
      else [r.now]
  }

  /** The limiter's answers to those requests. */
  function Answers(c: Config, log: Log<Request>, ip: string): seq<bool> {
    match log
    case Start => []
    case Then(past, r) =>
      var answer := [Allows(c, Table(c, past), r)];
      if r.ip != ip then Answers(c, past, ip)
      else if ip in Table(c, past).at then Answers(c, past, ip) + answer
      else answer
  }

  /** Tokens in a bucket created at `ts[0]`, just before request `j` is judged. */
  function Level(c: Config, ts: seq<real>, j: nat): real
    requires j < |ts|
    decreases j, 0
  {
    if j == 0 then c.Burst()
    else Least(c.Burst(), Level(c, ts, j - 1) - Spent(c, ts, j - 1) + c.Gain(ts[j - 1], ts[j]))
  }

  function Spent(c: Config, ts: seq<real>, j: nat): real
    requires j < |ts|
    decreases j, 1
  {
    if Level(c, ts, j) >= 1.0 then 1.0 else 0.0
  }

  /** How many of the requests `i..j` were allowed. */
  function Used(c: Config, ts: seq<real>, i: nat, j: nat): real
    requires i <= j <= |ts|
  {
    if i == j then 0.0 else Used(c, ts, i, j - 1) + Spent(c, ts, j - 1)
  }

  /** What may be granted in a window of a length in milliseconds: the burst and the rate, each at its least value. */
  function Allowance(c: Config, elapsedMs: real): real {
    var rate := if c.refillPerSec >= 0.0 then c.refillPerSec else 0.0;
    (if c.burst >= 1.0 then c.burst else 1.0) + rate * elapsedMs / 1000.0
  }

  lemma AllowanceIsBurstAndGain(c: Config, a: real, b: real)
    ensures Allowance(c, b - a) == c.Burst() + c.Gain(a, b)
  {
    assert c.PerSec() * (b - a) / 1000.0 == (b - a) / 1000.0 * c.PerSec();
  }

  /** What the window that opened at request `i` has left for request `j`. */
  function Room(c: Config, ts: seq<real>, i: nat, j: nat): real
    requires i <= j < |ts|
  {
    Allowance(c, ts[j] - ts[i]) - Used(c, ts, i, j)
  }

  ghost predicate EveryWindowHasRoom(c: Config, ts: seq<real>, j: nat)
    requires j < |ts|
  {
    forall i :: 0 <= i <= j ==> Room(c, ts, i, j) >= 1.0
  }

  lemma GainAdds(c: Config, x: real, y: real, z: real)
    ensures c.Gain(x, z) == c.Gain(x, y) + c.Gain(y, z)
  {
    assert (z - x) / 1000.0 == (y - x) / 1000.0 + (z - y) / 1000.0;
  }

  lemma GainIsMonotone(c: Config, x: real, y: real)
    requires x <= y
    ensures c.Gain(x, y) >= 0.0
  {
    assert (y - x) / 1000.0 >= 0.0;
  }

  lemma RoomStep(c: Config, ts: seq<real>, i: nat, j: nat)
    requires i <= j && j + 1 < |ts|
    ensures Room(c, ts, i, j + 1) == Room(c, ts, i, j) - Spent(c, ts, j) + c.Gain(ts[j], ts[j + 1])
  {
    hide Allowance;
    GainAdds(c, ts[i], ts[j], ts[j + 1]);
    AllowanceIsBurstAndGain(c, ts[i], ts[j]);
    AllowanceIsBurstAndGain(c, ts[i], ts[j + 1]);
  }

  lemma NoTimeIsBurst(c: Config, ts: seq<real>, j: nat)
    requires j < |ts|
    ensures Room(c, ts, j, j) == c.Burst()
  {}

  /**
   Closed form: the level before request `j` is the least room over all windows that
   opened at some request `i <= j`.  Returns a window that attains it.
   */
  lemma {:induction false} LevelIsLeastRoom(c: Config, ts: seq<real>, j: nat) returns (tight: nat)
    requires j < |ts|
    ensures tight <= j && Level(c, ts, j) == Room(c, ts, tight, j)
    ensures forall i :: 0 <= i <= j ==> Level(c, ts, j) <= Room(c, ts, i, j)
  {
    hide Allowance, Room, Spent;
    assert Room(c, ts, j, j) == c.Burst() by { NoTimeIsBurst(c, ts, j); }
    if j == 0 {
      tight := 0;
    } else {
      tight := LevelIsLeastRoom(c, ts, j - 1);
      RoomStep(c, ts, tight, j - 1);
      if Level(c, ts, j) == c.Burst() { tight := j; }
      forall i | 0 <= i <= j
        ensures Level(c, ts, j) <= Room(c, ts, i, j)
      {
        if i < j { RoomStep(c, ts, i, j - 1); }
      }
    }
  }

  /**
   A request is allowed exactly when every window that ends with it still has room
   for it; so it is refused only when some window has used up its allowance.
   */
  lemma AllowedExactlyWhenEveryWindowHasRoom(c: Config, ts: seq<real>, j: nat)
    requires j < |ts|
    ensures Spent(c, ts, j) == 1.0 <==> EveryWindowHasRoom(c, ts, j)
  {
    var tight := LevelIsLeastRoom(c, ts, j);
  }

  ghost predicate NonDecreasing(ts: seq<real>) { forall k :: 0 < k < |ts| ==> ts[k - 1] <= ts[k] }

  /** With a clock that does not go back, a window allows at most burst + rate * elapsed. */
  lemma {:induction false} WindowBound(c: Config, ts: seq<real>, i: nat, j: nat)
    requires i <= j < |ts| && NonDecreasing(ts)
    ensures Used(c, ts, i, j + 1) <= Allowance(c, ts[j] - ts[i])
  {
    hide Allowance;
    AllowanceIsBurstAndGain(c, ts[i], ts[j]);
    if Level(c, ts, j) >= 1.0 {
      var tight := LevelIsLeastRoom(c, ts, j);
      assert Level(c, ts, j) <= Room(c, ts, i, j);
    } else if i < j {
      WindowBound(c, ts, i, j - 1);
      GainAdds(c, ts[i], ts[j - 1], ts[j]);
      GainIsMonotone(c, ts[j - 1], ts[j]);
      AllowanceIsBurstAndGain(c, ts[i], ts[j - 1]);
    } else {
      assert Used(c, ts, i, i) == 0.0;
    }
  }

  // ---- the bucket in the map is that bucket ----

  lemma {:induction false} LevelOfPrefix(c: Config, ts: seq<real>, t: real, j: nat)
    requires j < |ts|
    ensures Level(c, ts + [t], j) == Level(c, ts, j)
  {
    if j > 0 { LevelOfPrefix(c, ts, t, j - 1); }
  }

  /** The bucket a run of visits leaves behind. */
  function BucketAfter(c: Config, ts: seq<real>): Bucket
    requires ts != []
  {
    var j := |ts| - 1;
    Bucket(Level(c, ts, j) - Spent(c, ts, j), ts[j])
  }

  /** Judging one more request of a bucket that stands at its level. */
  lemma JudgeAtLevel(c: Config, m: JsMap<Bucket>, r: Request, past: seq<real>)
    requires r.ip in m.at ==> past != [] && m.at[r.ip] == BucketAfter(c, past)
    ensures
      var ts := if r.ip in m.at then past + [r.now] else [r.now];
      Charged(c, m, r) == BucketAfter(c, ts) && Allows(c, m, r) == (Spent(c, ts, |ts| - 1) == 1.0)
  {
    if r.ip in m.at {
      var ts, j := past + [r.now], |past|;
      LevelOfPrefix(c, past, r.now, j - 1);
      assert ts[j - 1] == past[j - 1] && ts[j] == r.now;
      assert Level(c, ts, j) == Least(c.Burst(), Level(c, ts, j - 1) - Spent(c, ts, j - 1) + c.Gain(ts[j - 1], ts[j]));
    }
  }

  /** The bucket held for a resident IP is the one its visits leave behind. */
  lemma {:induction false} BucketIsLevel(c: Config, log: Log<Request>, ip: string)
    requires ip in Table(c, log).at
    ensures Visits(c, log, ip) != [] && Table(c, log).at[ip] == BucketAfter(c, Visits(c, log, ip))
  {
    if log.Then? {
      var m, r := Table(c, log.past), log.last;
      if ip in m.at { BucketIsLevel(c, log.past, ip); }
      if r.ip == ip { JudgeAtLevel(c, m, r, Visits(c, log.past, ip)); }
    }
  }

  /** The answers given are those the closed form predicts, whatever other IPs did in between. */
  lemma {:induction false} AnswersAreSpent(c: Config, log: Log<Request>, ip: string, j: nat)
    requires j < |Visits(c, log, ip)|
    ensures |Answers(c, log, ip)| == |Visits(c, log, ip)|
    ensures Answers(c, log, ip)[j] <==> Spent(c, Visits(c, log, ip), j) == 1.0
  {
    hide Allows, Spent, Level, Table;
    var m, r := Table(c, log.past), log.last;
    var past := Visits(c, log.past, ip);
    if r.ip == ip {
      if ip in m.at {
        BucketIsLevel(c, log.past, ip);
        AnswersAreSpent(c, log.past, ip, if j < |past| then j else 0);
        if j < |past| { SpentOfPrefix(c, past, r.now, j); }
      }
      JudgeAtLevel(c, m, r, past);
    } else {
      AnswersAreSpent(c, log.past, ip, j);
    }
  }

  lemma SpentOfPrefix(c: Config, ts: seq<real>, t: real, j: nat)
    requires j < |ts|
    ensures Spent(c, ts + [t], j) == Spent(c, ts, j)
  {
    LevelOfPrefix(c, ts, t, j);
  }

  /** Yes-answers among requests `i..j`. */
  function Granted(answers: seq<bool>, i: nat, j: nat): real
    requires i <= j <= |answers|
  {
    if i == j then 0.0 else Granted(answers, i, j - 1) + if answers[j - 1] then 1.0 else 0.0
  }

  lemma {:induction false} GrantedIsUsed(c: Config, log: Log<Request>, ip: string, i: nat, j: nat)
    requires i <= j <= |Visits(c, log, ip)| && |Answers(c, log, ip)| == |Visits(c, log, ip)|
    ensures Granted(Answers(c, log, ip), i, j) == Used(c, Visits(c, log, ip), i, j)
  {
    hide Visits, Answers, Level;
    if i < j {
      GrantedIsUsed(c, log, ip, i, j - 1);
      AnswersAreSpent(c, log, ip, j - 1);
    }
  }

  /**
   The limiter answers yes exactly when every window over the visits since the
   bucket was created has room for one more.
   */
  lemma AnswerIsWindowed(c: Config, log: Log<Request>, ip: string, j: nat)
    requires j < |Visits(c, log, ip)|
    ensures |Answers(c, log, ip)| == |Visits(c, log, ip)|
    ensures Answers(c, log, ip)[j] <==> EveryWindowHasRoom(c, Visits(c, log, ip), j)
  {
    AnswersAreSpent(c, log, ip, j);
    AllowedExactlyWhenEveryWindowHasRoom(c, Visits(c, log, ip), j);
  }

  function TimeOf(r: Request): real { r.now }

  lemma {:induction false} VisitsNonDecreasing(c: Config, log: Log<Request>, now: real, ip: string)
    requires ClockNonDecreasing(log, TimeOf, now)
    ensures NonDecreasing(Visits(c, log, ip))
    ensures forall k :: 0 <= k < |Visits(c, log, ip)| ==> Visits(c, log, ip)[k] <= now
  {
    if log.Then? { VisitsNonDecreasing(c, log.past, log.last.now, ip); }
  }

  /**
   The bound the limiter is for: in any window of the visits since its bucket was
   created, an IP is granted at most burst + rate * elapsed.
   */
  lemma GrantedBound(c: Config, log: Log<Request>, now: real, ip: string, i: nat, j: nat)
    requires ClockNonDecreasing(log, TimeOf, now) && i <= j < |Visits(c, log, ip)|
    ensures |Answers(c, log, ip)| == |Visits(c, log, ip)|
    ensures Granted(Answers(c, log, ip), i, j + 1) <=
            Allowance(c, Visits(c, log, ip)[j] - Visits(c, log, ip)[i])
  {
    hide Visits, Answers, Granted, Used;
    AnswersAreSpent(c, log, ip, j);
    GrantedIsUsed(c, log, ip, i, j + 1);
    VisitsNonDecreasing(c, log, now, ip);
    WindowBound(c, Visits(c, log, ip), i, j);
  }
}
