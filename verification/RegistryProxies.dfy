/**
 The caching reverse proxy over a store that does not change.  A request is a task
 that runs from one `await` to the next; between two steps of a task any other task
 may run, reads may finish or fail, entries may expire or be evicted.  The cache, the
 coalescing of reads and the materialisation of reference entries are shown to be
 invisible: a reply with status 200 or 404 is what a server without them would give.
 No request gets stuck.
 */
module RegistryProxies {
  import opened Options
  import opened Logs
  import opened Jsons
  import opened SourceBundles
  import LruMaps
  import ObjectCaches
  import opened SingleFlights

  type CacheValue = ObjectCaches.CacheValue
  type CacheMap = LruMaps.JsMap<ObjectCaches.Entry>

  datatype Stored = Stored(body: string, contentType: string)

  /** How one read of the store ends. */
  datatype Outcome = Found(item: Stored) | NotFound | UpstreamError

  datatype Env = Env(
    store: string -> Option<Stored>,
    parse: string -> Option<Json>,        // `JSON.parse`, `None` where it throws
    stringify: Json -> string,                // `JSON.stringify(v, null, 2) + "\n"`
    target: string -> Option<string>,     // the object name a reference denotes, if it is one
    text: Text,
    cache: ObjectCaches.Config
  )

  datatype Reply = Reply200(item: Stored) | Reply404 | Reply502

  // ---- reference entries ----

  datatype RefEntry = RefEntry(bundleId: string, manifestPath: string, sha: string, bundleRef: string,
                               contextRef: Option<string>)

  predicate IsCallkey(name: string) { "index/by-callkey/" <= name }

  predicate Cacheable(name: string) { "bundles/" <= name }

  /** `isRefRegistryEntry`, with the entry's fields when it is one. */
  function AsRefEntry(v: Json): Option<RefEntry> {
    if !v.Obj? then None
    else
      var m := v.members;
      if Get(m, "matched") == Bool(true) && Get(m, "schema_version") == Str("3-ref")
         && Get(m, "bundle_id").Str? && Get(m, "manifest_path").Str? && Get(m, "bundle_sha256").Str?
         && Get(m, "bundle_ref").Str? && (!Has(m, "context_ref") || Get(m, "context_ref").Str?)
      then
        Some(RefEntry(Get(m, "bundle_id").s, Get(m, "manifest_path").s, Get(m, "bundle_sha256").s,
                      Get(m, "bundle_ref").s,
                      if Has(m, "context_ref") then Some(Get(m, "context_ref").s) else None))
      else None
  }

  function Response(entry: RefEntry, bundleId: Json, bundle: Json): Json {
    Obj(Cons(Member("matched", Bool(true)),
        Cons(Member("bundle_id", bundleId),
        Cons(Member("manifest_path", Str(entry.manifestPath)),
        Cons(Member("bundle_sha256", Str(entry.sha)),
        Cons(Member("bundle", bundle), Nil))))))
  }

  function Printed(env: Env, response: Json, contentType: string): Stored {
    Stored(env.stringify(response), contentType)
  }

  /** The reply body once the template is at hand and no context is needed. */
  function FromTemplate(env: Env, entry: RefEntry, template: Json, contentType: string): Stored {
    Printed(env, Response(entry, Str(entry.bundleId), template), contentType)
  }

  /** The reply body from template and context; `None` where materialisation throws. */
  function FromContext(env: Env, entry: RefEntry, template: Json, context: Json, contentType: string): Option<Stored> {
    match Materialize(env.text, template, context)
    case None => None
    case Some(bundle) => Some(Printed(env, Response(entry, Get(bundle, "id"), Obj(bundle)), contentType))
  }

  // ---- the server without cache and coalescing ----

  function PlainGenerated(env: Env, ref: string): Option<Json> {
    match env.target(ref)
    case None => None
    case Some(name) =>
      match env.store(name)
      case None => None
      case Some(item) => env.parse(item.body)
  }

  function PlainEntry(env: Env, entry: RefEntry, contentType: string): Option<Stored> {
    match PlainGenerated(env, entry.bundleRef)
    case None => None
    case Some(template) =>
      match entry.contextRef
      case None => Some(FromTemplate(env, entry, template, contentType))
      case Some(ref) =>
        match PlainGenerated(env, ref)
        case None => None
        case Some(context) => FromContext(env, entry, template, context, contentType)
  }

  /** What a found object is served as; `None` where materialisation throws. */
  function PlainObject(env: Env, name: string, item: Stored): Option<Stored> {
    if !IsCallkey(name) then Some(item)
    else
      match env.parse(item.body)
      case None => None
      case Some(v) =>
        match AsRefEntry(v)
        case None => Some(item)
        case Some(entry) => PlainEntry(env, entry, item.contentType)
  }

  function PlainReply(env: Env, name: string): Reply {
    match env.store(name)
    case None => Reply404
    case Some(item) =>
      match PlainObject(env, name, item)
      case None => Reply502
      case Some(o) => Reply200(o)
  }

  /** The members of a response. */
  lemma ResponseSays(entry: RefEntry, bundleId: Json, bundle: Json)
    ensures
      var r := Response(entry, bundleId, bundle);
      && r.Obj? && Get(r.members, "matched") == Bool(true) && Get(r.members, "bundle_id") == bundleId
      && Get(r.members, "manifest_path") == Str(entry.manifestPath)
      && Get(r.members, "bundle_sha256") == Str(entry.sha) && Get(r.members, "bundle") == bundle
  {
    var m4 := Cons(Member("bundle", bundle), Nil);
    var m3 := Cons(Member("bundle_sha256", Str(entry.sha)), m4);
    var m2 := Cons(Member("manifest_path", Str(entry.manifestPath)), m3);
    var m1 := Cons(Member("bundle_id", bundleId), m2);
    assert |"matched"| == 7 && |"bundle_id"| == 9 && |"manifest_path"| == |"bundle_sha256"| == 13 && |"bundle"| == 6;
    assert "manifest_path"[0] != "bundle_sha256"[0];
    assert Get(m3, "bundle") == bundle;
    assert Get(m2, "bundle") == bundle && Get(m2, "bundle_sha256") == Str(entry.sha);
    assert Get(m1, "bundle") == bundle && Get(m1, "bundle_sha256") == Str(entry.sha)
           && Get(m1, "manifest_path") == Str(entry.manifestPath);
  }

  /** An index entry that refers to its bundle instead of holding it. */
  predicate IsReference(v: Json) {
    match v
    case Obj(m) =>
      && Get(m, "matched") == Bool(true) && Get(m, "schema_version") == Str("3-ref")
      && (forall k :: k in ["bundle_id", "manifest_path", "bundle_sha256", "bundle_ref"] ==> Get(m, k).Str?)
      && (Get(m, "context_ref").Str? || !Has(m, "context_ref"))
    case _ => false
  }

  /** The response to a reference, printed: it repeats path and hash, and has this id and bundle. */
  ghost predicate Presents(env: Env, v: Json, id: Json, bundle: Json, contentType: string, reply: Reply)
    requires v.Obj?
  {
    exists r: Json ::
      && reply == Reply200(Stored(env.stringify(r), contentType)) && r.Obj?
      && Get(r.members, "matched") == Bool(true) && Get(r.members, "bundle_id") == id
      && Get(r.members, "manifest_path") == Get(v.members, "manifest_path")
      && Get(r.members, "bundle_sha256") == Get(v.members, "bundle_sha256") && Get(r.members, "bundle") == bundle
  }

  lemma PrintedPresents(env: Env, v: Json, entry: RefEntry, id: Json, bundle: Json, contentType: string)
    requires AsRefEntry(v) == Some(entry)
    ensures Presents(env, v, id, bundle, contentType, Reply200(Printed(env, Response(entry, id, bundle), contentType)))
  {
    ResponseSays(entry, id, bundle);
    hide Response, Get;
  }

  lemma ReferenceExactly(v: Json)
    ensures AsRefEntry(v).Some? <==> IsReference(v)
    ensures AsRefEntry(v).Some? ==>
              var e, m := AsRefEntry(v).value, v.members;
              && Get(m, "bundle_id") == Str(e.bundleId) && Get(m, "bundle_ref") == Str(e.bundleRef)
              && (if Has(m, "context_ref") then e.contextRef.Some? && Get(m, "context_ref") == Str(e.contextRef.value)
                  else e.contextRef.None?)
  {
    hide Get, Has;
    assert forall k :: k in ["bundle_id", "manifest_path", "bundle_sha256", "bundle_ref"] <==>
             k == "bundle_id" || k == "manifest_path" || k == "bundle_sha256" || k == "bundle_ref";
  }

  /**
   What a server without cache answers.  An object is served as it is stored, but for an
   index entry that refers to its bundle: there the bundle is put in, expanded with the
   context if one is named.
   */
  lemma PlainServerExactly(env: Env, name: string)
    ensures
      var reply := PlainReply(env, name);
      match env.store(name)
      case None => reply == Reply404
      case Some(item) =>
        if !("index/by-callkey/" <= name) then reply == Reply200(item)
        else if env.parse(item.body).None? then reply == Reply502
        else
          var v := env.parse(item.body).value;
          if !IsReference(v) then reply == Reply200(item)
          else
            var template := PlainGenerated(env, Get(v.members, "bundle_ref").s);
            if template.None? then reply == Reply502
            else if !Has(v.members, "context_ref") then
              Presents(env, v, Get(v.members, "bundle_id"), template.value, item.contentType, reply)
            else
              var context := PlainGenerated(env, Get(v.members, "context_ref").s);
              if context.None? || Materialize(env.text, template.value, context.value).None? then reply == Reply502
              else
                var bundle := Materialize(env.text, template.value, context.value).value;
                Presents(env, v, Get(bundle, "id"), Obj(bundle), item.contentType, reply)
  {
    hide PlainGenerated, Materialize, AsRefEntry, IsReference, Response, Presents, Get, Has;
    if env.store(name).Some? && IsCallkey(name) && env.parse(env.store(name).value.body).Some? {
      var item := env.store(name).value;
      var v := env.parse(item.body).value;
      ReferenceExactly(v);
      if AsRefEntry(v).Some? {
        var e := AsRefEntry(v).value;
        var template := PlainGenerated(env, e.bundleRef);
        if template.Some? {
          PrintedPresents(env, v, e, Str(e.bundleId), template.value, item.contentType);
          if e.contextRef.Some? && PlainGenerated(env, e.contextRef.value).Some? {
            var served := Materialize(env.text, template.value, PlainGenerated(env, e.contextRef.value).value);
            if served.Some? {
              PrintedPresents(env, v, e, Get(served.value, "id"), Obj(served.value), item.contentType);
            }
          }
        }
      }
    }
  }

  // ---- the proxy's state ----

  /** What a request does with the generated object it is reading. */
  datatype Job =
    | ForTemplate(entry: RefEntry, contentType: string)
    | ForContext(entry: RefEntry, template: Json, contentType: string)

  function RefOf(job: Job): string {
    match job
    case ForTemplate(entry, _) => entry.bundleRef
    case ForContext(entry, _, _) => if entry.contextRef.Some? then entry.contextRef.value else ""
  }

  /** Where a request stands: at which `await`, or answered. */
  datatype Task =
    | ReadingMain(name: string, promise: nat)
    | ReadingGenerated(name: string, job: Job, file: string, promise: nat)
    | GotGenerated(name: string, job: Job, value: Option<Json>)
    | Delivering(name: string, result: Option<Stored>)
    | Done(name: string, reply: Reply)

  datatype State = State(
    cache: CacheMap,
    flights: Flights<Outcome>,
    tasks: map<nat, Task>,
    failed: set<nat>                    // requests that met an upstream error
  )

  function Initial(): State { State(LruMaps.Empty(), NoFlights(), map[], {}) }

  datatype Event =
    | Arrive(id: nat, name: string, now: int)
    | ReadEnds(promise: nat, outcome: Outcome)
    | Resume(id: nat, now: int)

  // ---- the steps ----

  function WithTask(s: State, id: nat, task: Task): State { s.(tasks := s.tasks[id := task]) }

  function CacheSet(env: Env, s: State, key: string, value: CacheValue, now: int): State {
    s.(cache := ObjectCaches.After(env.cache, s.cache, ObjectCaches.Set(key, value, now)))
  }

  function CacheGet(env: Env, s: State, key: string, now: int): State {
    s.(cache := ObjectCaches.After(env.cache, s.cache, ObjectCaches.Get(key, now)))
  }

  function AsCacheValue(o: Stored): CacheValue { ObjectCaches.Object(o.body, o.contentType) }

  function ReplyOf(v: CacheValue): Reply {
    match v
    case Object(body, contentType) => Reply200(Stored(body, contentType))
    case Missing => Reply404
  }

  /** `readGeneratedJson` up to its first suspension. */
  function StartGenerated(env: Env, s: State, id: nat, name: string, job: Job, now: int): State {
    match env.target(RefOf(job))
    case None => WithTask(s, id, GotGenerated(name, job, None))
    case Some(file) =>
      var hit := if Cacheable(file) then ObjectCaches.Lookup(s.cache, file, now) else None;
      var s1 := if Cacheable(file) then CacheGet(env, s, file, now) else s;
      if hit.Some? && hit.value.Object? then
        WithTask(s1, id, GotGenerated(name, job, env.parse(hit.value.body)))
      else
        WithTask(s1.(flights := Run(s1.flights, file, None)), id,
                 ReadingGenerated(name, job, file, Joined(s1.flights, file)))
  }

  /** `handleProxy` from arrival to its first suspension. */
  function ArriveStep(env: Env, s: State, id: nat, name: string, now: int): State {
    var hit := ObjectCaches.Lookup(s.cache, name, now);
    var s1 := CacheGet(env, s, name, now);
    if hit.Some? then WithTask(s1, id, Done(name, ReplyOf(hit.value)))
    else
      WithTask(s1.(flights := Run(s1.flights, name, None)), id, ReadingMain(name, Joined(s1.flights, name)))
  }

  /** The main read has settled. */
  function MainStep(env: Env, s: State, id: nat, name: string, outcome: Outcome, now: int): State {
    match outcome
    case NotFound => WithTask(CacheSet(env, s, name, ObjectCaches.Missing, now), id, Done(name, Reply404))
    case UpstreamError => WithTask(s, id, Done(name, Reply502)).(failed := s.failed + {id})
    case Found(item) =>
      if !IsCallkey(name) then WithTask(s, id, Delivering(name, Some(item)))
      else
        match env.parse(item.body)
        case None => WithTask(s, id, Delivering(name, None))
        case Some(v) =>
          match AsRefEntry(v)
          case None => WithTask(s, id, Delivering(name, Some(item)))
          case Some(entry) => StartGenerated(env, s, id, name, ForTemplate(entry, item.contentType), now)
  }

  /** A read made by `readGeneratedJson` has settled. */
  function GeneratedStep(env: Env, s: State, id: nat, name: string, job: Job, file: string, outcome: Outcome, now: int)
    : State
  {
    match outcome
    case Found(o) =>
      var s1 := if Cacheable(file) then CacheSet(env, s, file, AsCacheValue(o), now) else s;
      WithTask(s1, id, GotGenerated(name, job, env.parse(o.body)))
    case NotFound => WithTask(s, id, GotGenerated(name, job, None))
    case UpstreamError => WithTask(s, id, GotGenerated(name, job, None)).(failed := s.failed + {id})
  }

  /** `readGeneratedJson` has returned or thrown. */
  function GotStep(env: Env, s: State, id: nat, name: string, job: Job, value: Option<Json>, now: int): State {
    match value
    case None => WithTask(s, id, Delivering(name, None))
    case Some(v) =>
      match job
      case ForTemplate(entry, contentType) =>
        if entry.contextRef.None? then
          WithTask(s, id, Delivering(name, Some(FromTemplate(env, entry, v, contentType))))
        else
          StartGenerated(env, s, id, name, ForContext(entry, v, contentType), now)
      case ForContext(entry, template, contentType) =>
        WithTask(s, id, Delivering(name, FromContext(env, entry, template, v, contentType)))
  }

  /** `materializeIfRefIndex` has returned or thrown. */
  function DeliverStep(env: Env, s: State, id: nat, name: string, result: Option<Stored>, now: int): State {
    match result
    case None => WithTask(s, id, Done(name, Reply502))
    case Some(o) => WithTask(CacheSet(env, s, name, AsCacheValue(o), now), id, Done(name, Reply200(o)))
  }

  function ResumeStep(env: Env, s: State, id: nat, task: Task, now: int): State {
    match task
    case ReadingMain(name, p) =>
      if p in s.flights.outcome then MainStep(env, s, id, name, s.flights.outcome[p], now) else s
    case ReadingGenerated(name, job, file, p) =>
      if p in s.flights.outcome then GeneratedStep(env, s, id, name, job, file, s.flights.outcome[p], now) else s
    case GotGenerated(name, job, value) => GotStep(env, s, id, name, job, value, now)
    case Delivering(name, result) => DeliverStep(env, s, id, name, result, now)
    case Done(_, _) => s
  }

  /** One step; an event that cannot happen in `s` changes nothing. */
  function Next(env: Env, s: State, e: Event): State {
    match e
    case Arrive(id, name, now) => if id in s.tasks then s else ArriveStep(env, s, id, name, now)
    case ReadEnds(p, outcome) => if Running(s.flights, p) then s.(flights := Settle(s.flights, p, outcome)) else s
    case Resume(id, now) => if id in s.tasks then ResumeStep(env, s, id, s.tasks[id], now) else s
  }

  function Reach(env: Env, run: Log<Event>): State {
    match run
    case Start => Initial()
    case Then(past, e) => Next(env, Reach(env, past), e)
  }

  /** The server object: each method is the code between two suspensions of one request. */
  class RegistryProxy {
    const env: Env
    const cache: ObjectCaches.ObjectCache
    const flights: SingleFlight<Outcome>
    var tasks: map<nat, Task>
    /** The requests that met an upstream error. */
    ghost var failed: set<nat>

    ghost predicate Valid()
      reads this, cache
    {
      cache.Valid() && cache.config == env.cache
    }

    ghost function Snapshot(): State
      reads this, cache, flights
    {
      State(cache.entries, flights.Snapshot(), tasks, failed)
    }

    constructor (env: Env)
      ensures Valid() && this.env == env && Snapshot() == Initial() && fresh(cache) && fresh(flights)
    {
      this.env := env;
      this.cache := new ObjectCaches.ObjectCache(env.cache);
      this.flights := new SingleFlight();
      tasks, failed := map[], {};
    }

    /** `handleProxy`, from arrival to its first `await`. */
    method Arrive(id: nat, name: string, now: int)
      requires Valid() && id !in tasks
      modifies this, cache, flights
      ensures Valid() && Snapshot() == ArriveStep(env, old(Snapshot()), id, name, now)
    {
      hide ObjectCaches.After, ObjectCaches.Lookup, ObjectCaches.ObjectCache.Valid, Run, Joined;
      var cached := cache.Get(name, now);
      if cached.Some? {
        tasks := tasks[id := Done(name, ReplyOf(cached.value))];
        return;
      }
      var promise := flights.RunRead(name, None);
      tasks := tasks[id := ReadingMain(name, promise)];
    }

    method BeginGenerated(id: nat, name: string, job: Job, now: int)
      requires Valid()
      modifies this, cache, flights
      ensures Valid() && Snapshot() == StartGenerated(env, old(Snapshot()), id, name, job, now)
    {
      hide ObjectCaches.After, ObjectCaches.Lookup, ObjectCaches.ObjectCache.Valid, Run, Joined, RefOf;
      var target := env.target(RefOf(job));
      if target.None? {
        tasks := tasks[id := GotGenerated(name, job, None)];
        return;
      }
      var file := target.value;
      if Cacheable(file) {
        var cached := cache.Get(file, now);
        if cached.Some? && cached.value.Object? {
          tasks := tasks[id := GotGenerated(name, job, env.parse(cached.value.body))];
          return;
        }
      }
      var promise := flights.RunRead(file, None);
      tasks := tasks[id := ReadingGenerated(name, job, file, promise)];
    }

    /** `handleProxy`, when the main read has settled. */
    method MainSettled(id: nat, name: string, outcome: Outcome, now: int)
      requires Valid()
      modifies this, cache, flights
      ensures Valid() && Snapshot() == MainStep(env, old(Snapshot()), id, name, outcome, now)
    {
      hide ObjectCaches.After, ObjectCaches.ObjectCache.Valid, StartGenerated, AsRefEntry;
      match outcome {
        case NotFound =>
          cache.Set(name, ObjectCaches.Missing, now);
          tasks := tasks[id := Done(name, Reply404)];
        case UpstreamError =>
          tasks := tasks[id := Done(name, Reply502)];
          failed := failed + {id};
        case Found(item) =>
          if !IsCallkey(name) {
            tasks := tasks[id := Delivering(name, Some(item))];
            return;
          }
          var parsed := env.parse(item.body);
          if parsed.None? {
            tasks := tasks[id := Delivering(name, None)];
            return;
          }
          var entry := AsRefEntry(parsed.value);
          if entry.None? {
            tasks := tasks[id := Delivering(name, Some(item))];
            return;
          }
          BeginGenerated(id, name, ForTemplate(entry.value, item.contentType), now);
      }
    }

    /** `readGeneratedJson`, when its read has settled. */
    method GeneratedSettled(id: nat, name: string, job: Job, file: string, outcome: Outcome, now: int)
      requires Valid()
      modifies this, cache
      ensures Valid() && Snapshot() == GeneratedStep(env, old(Snapshot()), id, name, job, file, outcome, now)
    {
      hide ObjectCaches.After, ObjectCaches.ObjectCache.Valid;
      if !outcome.Found? {
        tasks := tasks[id := GotGenerated(name, job, None)];
        if outcome.UpstreamError? { failed := failed + {id}; }
        return;
      }
      if Cacheable(file) { cache.Set(file, AsCacheValue(outcome.item), now); }
      tasks := tasks[id := GotGenerated(name, job, env.parse(outcome.item.body))];
    }

    /** `materializeIfRefIndex`, when `readGeneratedJson` has returned or thrown. */
    method GeneratedReturned(id: nat, name: string, job: Job, value: Option<Json>, now: int)
      requires Valid()
      modifies this, cache, flights
      ensures Valid() && Snapshot() == GotStep(env, old(Snapshot()), id, name, job, value, now)
    {
      hide ObjectCaches.ObjectCache.Valid, StartGenerated, FromTemplate, FromContext;
      if value.None? {
        tasks := tasks[id := Delivering(name, None)];
        return;
      }
      match job {
        case ForTemplate(entry, contentType) =>
          if entry.contextRef.None? {
            tasks := tasks[id := Delivering(name, Some(FromTemplate(env, entry, value.value, contentType)))];
            return;
          }
          BeginGenerated(id, name, ForContext(entry, value.value, contentType), now);
        case ForContext(entry, template, contentType) =>
          tasks := tasks[id := Delivering(name, FromContext(env, entry, template, value.value, contentType))];
      }
    }

    /** `handleProxy`, when `materializeIfRefIndex` has returned or thrown. */
    method Deliver(id: nat, name: string, result: Option<Stored>, now: int)
      requires Valid()
      modifies this, cache
      ensures Valid() && Snapshot() == DeliverStep(env, old(Snapshot()), id, name, result, now)
    {
      hide ObjectCaches.After, ObjectCaches.ObjectCache.Valid;
      if result.None? {
        tasks := tasks[id := Done(name, Reply502)];
        return;
      }
      cache.Set(name, AsCacheValue(result.value), now);
      tasks := tasks[id := Done(name, Reply200(result.value))];
    }
  }

  // ---- what holds in every reachable state ----

  /** A read of the store finds what is there, or fails. */
  predicate Honest(env: Env, name: string, o: Outcome) {
    match o
    case Found(item) => env.store(name) == Some(item)
    case NotFound => env.store(name).None?
    case UpstreamError => true
  }

  predicate Right(env: Env, name: string, v: CacheValue) { ReplyOf(v) == PlainReply(env, name) }

  /** Every cache entry is the plain reply of its key: no error, no half-made bundle. */
  ghost predicate CacheRight(env: Env, m: CacheMap) {
    forall k :: k in m.at ==> Right(env, k, m.at[k].value)
  }

  ghost predicate FlightsRight(env: Env, f: Flights<Outcome>) {
    && Coherent(f, {})
    && (forall p :: p in f.outcome ==> p < |f.key| && Honest(env, f.key[p], f.outcome[p]))
  }

  /** The job belongs to the reference entry stored under `name`. */
  predicate JobRight(env: Env, name: string, job: Job) {
    && env.store(name).Some? && IsCallkey(name)
    && env.store(name).value.contentType == job.contentType
    && env.parse(env.store(name).value.body).Some?
    && AsRefEntry(env.parse(env.store(name).value.body).value) == Some(job.entry)
    && (job.ForContext? ==>
        job.entry.contextRef.Some? && PlainGenerated(env, job.entry.bundleRef) == Some(job.template))
  }

  predicate TaskRight(env: Env, f: Flights<Outcome>, task: Task, failed: bool) {
    match task
    case ReadingMain(name, p) => p < |f.key| && f.key[p] == name
    case ReadingGenerated(name, job, file, p) =>
      && p < |f.key| && f.key[p] == file
      && JobRight(env, name, job) && env.target(RefOf(job)) == Some(file)
    case GotGenerated(name, job, value) =>
      JobRight(env, name, job) && (value == PlainGenerated(env, RefOf(job)) || (value.None? && failed))
    case Delivering(name, result) =>
      && (result.Some? ==> PlainReply(env, name) == Reply200(result.value))
      && (result.None? ==> PlainReply(env, name).Reply502? || failed)
    case Done(name, reply) => reply == PlainReply(env, name) || (reply.Reply502? && failed)
  }

  ghost predicate TasksRight(env: Env, s: State) {
    forall id :: id in s.tasks ==> TaskRight(env, s.flights, s.tasks[id], id in s.failed)
  }

  ghost predicate Invariant(env: Env, s: State) {
    CacheRight(env, s.cache) && FlightsRight(env, s.flights) && TasksRight(env, s)
  }

  // ---- each step keeps it ----

  lemma CacheCallKeepsRight(env: Env, m: CacheMap, call: ObjectCaches.Call)
    requires CacheRight(env, m)
    requires call.Set? ==> Right(env, call.key, call.value)
    ensures CacheRight(env, ObjectCaches.After(env.cache, m, call))
  {
    hide Right;
    var e := ObjectCaches.Effect(env.cache, m, call);
    if e.Some? {
      forall k | k in LruMaps.Apply(m, env.cache.Capacity(), e.value).at
        ensures Right(env, k, LruMaps.Apply(m, env.cache.Capacity(), e.value).at[k].value)
      {
      }
    }
  }

  lemma JoinKeepsRight(env: Env, f: Flights<Outcome>, name: string)
    requires FlightsRight(env, f)
    ensures FlightsRight(env, Run(f, name, None))
    ensures var p := Joined(f, name); p < |Run(f, name, None).key| && Run(f, name, None).key[p] == name
    ensures f.key <= Run(f, name, None).key
  {
    hide Honest;
    RunKeepsCoherent(f, {}, name, None);
  }

  lemma EndKeepsRight(env: Env, f: Flights<Outcome>, p: nat, o: Outcome)
    requires FlightsRight(env, f) && Running(f, p) && Honest(env, f.key[p], o)
    ensures FlightsRight(env, Settle(f, p, o)) && Settle(f, p, o).key == f.key
  {
    hide Honest;
    SettleKeepsCoherent(f, {}, p, o);
  }

  /** Starting reads takes nothing away from the other tasks. */
  lemma TasksKeepRight(env: Env, s: State, t: State, id: nat)
    requires TasksRight(env, s) && s.flights.key <= t.flights.key
    requires t.tasks.Keys == s.tasks.Keys + {id} && (forall k :: k in s.tasks && k != id ==> t.tasks[k] == s.tasks[k])
    requires s.failed <= t.failed <= s.failed + {id}
    requires TaskRight(env, t.flights, t.tasks[id], id in t.failed)
    ensures TasksRight(env, t)
  {
    hide JobRight, PlainReply, PlainGenerated;
  }

  lemma CacheableIsPlain(name: string)
    requires Cacheable(name)
    ensures !IsCallkey(name)
  {
    assert name[0] == 'b';
    assert "index/by-callkey/"[0] == 'i';
  }

  /** A cached generated object is the stored one. */
  lemma CachedGenerated(env: Env, m: CacheMap, file: string, now: int)
    requires CacheRight(env, m) && Cacheable(file)
    requires ObjectCaches.Lookup(m, file, now).Some? && ObjectCaches.Lookup(m, file, now).value.Object?
    ensures env.store(file).Some?
    ensures env.store(file).value.body == ObjectCaches.Lookup(m, file, now).value.body
  {
    CacheableIsPlain(file);
    assert Right(env, file, m.at[file].value);
  }

  lemma StartGeneratedKeeps(env: Env, s: State, id: nat, name: string, job: Job, now: int)
    requires Invariant(env, s) && JobRight(env, name, job)
    ensures Invariant(env, StartGenerated(env, s, id, name, job, now))
  {
    hide JobRight, ObjectCaches.After, FlightsRight;
    var t := StartGenerated(env, s, id, name, job, now);
    if env.target(RefOf(job)).Some? {
      var file := env.target(RefOf(job)).value;
      var hit := if Cacheable(file) then ObjectCaches.Lookup(s.cache, file, now) else None;
      if Cacheable(file) { CacheCallKeepsRight(env, s.cache, ObjectCaches.Get(file, now)); }
      if hit.Some? && hit.value.Object? {
        CachedGenerated(env, s.cache, file, now);
      } else {
        JoinKeepsRight(env, s.flights, file);
      }
    }
    TasksKeepRight(env, s, t, id);
  }

  lemma ArriveKeeps(env: Env, s: State, id: nat, name: string, now: int)
    requires Invariant(env, s)
    ensures Invariant(env, ArriveStep(env, s, id, name, now))
  {
    hide PlainReply, ObjectCaches.After, FlightsRight, JobRight;
    CacheCallKeepsRight(env, s.cache, ObjectCaches.Get(name, now));
    JoinKeepsRight(env, s.flights, name);
    TasksKeepRight(env, s, ArriveStep(env, s, id, name, now), id);
  }

  lemma MainKeeps(env: Env, s: State, id: nat, name: string, outcome: Outcome, now: int)
    requires Invariant(env, s) && Honest(env, name, outcome)
    ensures Invariant(env, MainStep(env, s, id, name, outcome, now))
  {
    hide ObjectCaches.After, FlightsRight, AsRefEntry, PlainEntry, StartGenerated;
    var t := MainStep(env, s, id, name, outcome, now);
    if outcome.NotFound? { CacheCallKeepsRight(env, s.cache, ObjectCaches.Set(name, ObjectCaches.Missing, now)); }
    if outcome.Found? && IsCallkey(name) && env.parse(outcome.item.body).Some?
       && AsRefEntry(env.parse(outcome.item.body).value).Some?
    {
      var job := ForTemplate(AsRefEntry(env.parse(outcome.item.body).value).value, outcome.item.contentType);
      StartGeneratedKeeps(env, s, id, name, job, now);
    } else {
      TasksKeepRight(env, s, t, id);
    }
  }

  lemma GeneratedKeeps(env: Env, s: State, id: nat, name: string, job: Job, file: string, outcome: Outcome, now: int)
    requires Invariant(env, s) && JobRight(env, name, job) && env.target(RefOf(job)) == Some(file)
    requires Honest(env, file, outcome)
    ensures Invariant(env, GeneratedStep(env, s, id, name, job, file, outcome, now))
  {
    hide ObjectCaches.After, FlightsRight, JobRight;
    var t := GeneratedStep(env, s, id, name, job, file, outcome, now);
    if outcome.Found? && Cacheable(file) {
      CacheableIsPlain(file);
      CacheCallKeepsRight(env, s.cache, ObjectCaches.Set(file, AsCacheValue(outcome.item), now));
    }
    TasksKeepRight(env, s, t, id);
  }

  lemma GotKeeps(env: Env, s: State, id: nat, name: string, job: Job, value: Option<Json>, now: int)
    requires Invariant(env, s) && JobRight(env, name, job)
    requires value == PlainGenerated(env, RefOf(job)) || (value.None? && id in s.failed)
    ensures Invariant(env, GotStep(env, s, id, name, job, value, now))
  {
    hide ObjectCaches.After, FlightsRight, AsRefEntry, PlainGenerated, StartGenerated, FromContext, FromTemplate;
    var t := GotStep(env, s, id, name, job, value, now);
    if value.Some? && job.ForTemplate? && job.entry.contextRef.Some? {
      StartGeneratedKeeps(env, s, id, name, ForContext(job.entry, value.value, job.contentType), now);
    } else {
      TasksKeepRight(env, s, t, id);
    }
  }

  lemma DeliverKeeps(env: Env, s: State, id: nat, name: string, result: Option<Stored>, now: int)
    requires Invariant(env, s)
    requires TaskRight(env, s.flights, Delivering(name, result), id in s.failed)
    ensures Invariant(env, DeliverStep(env, s, id, name, result, now))
  {
    hide ObjectCaches.After, FlightsRight, PlainReply;
    if result.Some? { CacheCallKeepsRight(env, s.cache, ObjectCaches.Set(name, AsCacheValue(result.value), now)); }
    TasksKeepRight(env, s, DeliverStep(env, s, id, name, result, now), id);
  }

  lemma NextKeeps(env: Env, s: State, e: Event)
    requires Invariant(env, s)
    requires e.ReadEnds? && Running(s.flights, e.promise) ==> Honest(env, s.flights.key[e.promise], e.outcome)
    ensures Invariant(env, Next(env, s, e))
  {
    hide CacheRight, JobRight, PlainReply, PlainGenerated;
    match e
    case Arrive(id, name, now) => ArriveKeeps(env, s, id, name, now);
    case ReadEnds(p, outcome) => if Running(s.flights, p) { EndKeepsRight(env, s.flights, p, outcome); }
    case Resume(id, now) =>
      if id in s.tasks {
        assert TaskRight(env, s.flights, s.tasks[id], id in s.failed);
        match s.tasks[id] {
          case ReadingMain(name, p) =>
            if p in s.flights.outcome { MainKeeps(env, s, id, name, s.flights.outcome[p], now); }
          case ReadingGenerated(name, job, file, p) =>
            if p in s.flights.outcome { GeneratedKeeps(env, s, id, name, job, file, s.flights.outcome[p], now); }
          case GotGenerated(name, job, value) => GotKeeps(env, s, id, name, job, value, now);
          case Delivering(name, result) => DeliverKeeps(env, s, id, name, result, now);
          case Done(_, _) =>
        }
      }
  }

  /** Every read that ended, ended with what is in the store or with an error. */
  ghost predicate HonestRun(env: Env, run: Log<Event>) {
    match run
    case Start => true
    case Then(past, e) =>
      && HonestRun(env, past)
      && (e.ReadEnds? && Running(Reach(env, past).flights, e.promise) ==>
            Honest(env, Reach(env, past).flights.key[e.promise], e.outcome))
  }

  lemma {:induction false} InvariantHolds(env: Env, run: Log<Event>)
    requires HonestRun(env, run)
    ensures Invariant(env, Reach(env, run))
  {
    if run.Then? {
      InvariantHolds(env, run.past);
      NextKeeps(env, Reach(env, run.past), run.last);
    }
  }

  /**
   The cached, coalescing proxy refines the plain one: whatever the interleaving,
   a 200 or 404 is exactly the plain reply, and a 502 is the plain reply too unless
   one of the request's own reads failed.
   */
  lemma RepliesArePlain(env: Env, run: Log<Event>, id: nat)
    requires HonestRun(env, run)
    requires id in Reach(env, run).tasks && Reach(env, run).tasks[id].Done?
    ensures
      var s := Reach(env, run);
      var task := s.tasks[id];
      && (!task.reply.Reply502? ==> task.reply == PlainReply(env, task.name))
      && (task.reply.Reply502? ==> PlainReply(env, task.name).Reply502? || id in s.failed)
  {
    InvariantHolds(env, run);
  }

  /** Nothing but plain replies is ever cached; errors are not. */
  lemma CacheHoldsPlainReplies(env: Env, run: Log<Event>, key: string)
    requires HonestRun(env, run) && key in Reach(env, run).cache.at
    ensures ReplyOf(Reach(env, run).cache.at[key].value) == PlainReply(env, key)
    ensures !PlainReply(env, key).Reply502?
  {
    InvariantHolds(env, run);
    assert Right(env, key, Reach(env, run).cache.at[key].value);
  }

  // ---- every request can be answered ----

  /** How many more times a request must go on before it is answered, at most. */
  function StepsLeft(task: Task): nat {
    match task
    case ReadingMain(_, _) => 6
    case ReadingGenerated(_, job, _, _) => if job.ForTemplate? then 5 else 3
    case GotGenerated(_, job, _) => if job.ForTemplate? then 4 else 2
    case Delivering(_, _) => 1
    case Done(_, _) => 0
  }

  /** The read a request waits for, if it waits for one. */
  function Awaited(task: Task): Option<nat> {
    match task
    case ReadingMain(_, p) => Some(p)
    case ReadingGenerated(_, _, _, p) => Some(p)
    case _ => None
  }

  predicate Waits(s: State, task: Task) { Awaited(task).Some? && Awaited(task).value !in s.flights.outcome }

  lemma StartGeneratedAdvances(env: Env, s: State, id: nat, name: string, job: Job, now: int)
    ensures id in StartGenerated(env, s, id, name, job, now).tasks
    ensures StepsLeft(StartGenerated(env, s, id, name, job, now).tasks[id]) <= if job.ForTemplate? then 5 else 3
  {
    hide ObjectCaches.After, ObjectCaches.Lookup, Run, Joined;
  }

  lemma ResumeAdvances(env: Env, s: State, id: nat, task: Task, now: int)
    requires !task.Done? && !Waits(s, task)
    ensures id in ResumeStep(env, s, id, task, now).tasks
    ensures StepsLeft(ResumeStep(env, s, id, task, now).tasks[id]) < StepsLeft(task)
  {
    hide ObjectCaches.After, StartGenerated, AsRefEntry, FromTemplate, FromContext;
    match task
    case ReadingMain(name, p) =>
      var outcome := s.flights.outcome[p];
      if outcome.Found? && env.parse(outcome.item.body).Some? && AsRefEntry(env.parse(outcome.item.body).value).Some? {
        var job := ForTemplate(AsRefEntry(env.parse(outcome.item.body).value).value, outcome.item.contentType);
        StartGeneratedAdvances(env, s, id, name, job, now);
      }
    case GotGenerated(name, job, value) =>
      if value.Some? && job.ForTemplate? {
        StartGeneratedAdvances(env, s, id, name, ForContext(job.entry, value.value, job.contentType), now);
      }
    case _ =>
  }

  /**
   No request gets stuck.  In every honest run a request that is not answered waits for
   a read that is running, or going on brings it nearer to its answer, which is at most
   six such steps away.
   */
  lemma EveryRequestAdvances(env: Env, run: Log<Event>, id: nat, now: int)
    requires HonestRun(env, run)
    requires id in Reach(env, run).tasks && !Reach(env, run).tasks[id].Done?
    ensures
      var s, t := Reach(env, run), Reach(env, Then(run, Resume(id, now)));
      var task := s.tasks[id];
      && StepsLeft(task) <= 6
      && if Waits(s, task) then Running(s.flights, Awaited(task).value)
         else id in t.tasks && StepsLeft(t.tasks[id]) < StepsLeft(task)
  {
    hide ResumeStep, Reach, CacheRight, FlightsRight, JobRight, PlainReply, PlainGenerated;
    InvariantHolds(env, run);
    var s := Reach(env, run);
    assert TaskRight(env, s.flights, s.tasks[id], id in s.failed);
    ReachStep(env, run, Resume(id, now));
    if !Waits(s, s.tasks[id]) { ResumeAdvances(env, s, id, s.tasks[id], now); }
  }

  lemma ReachStep(env: Env, run: Log<Event>, e: Event)
    ensures Reach(env, Then(run, e)) == Next(env, Reach(env, run), e)
  {
  }

  lemma ResumeKeepsOthers(env: Env, s: State, id: nat, task: Task, now: int, other: nat)
    requires other in s.tasks && other != id
    ensures other in ResumeStep(env, s, id, task, now).tasks
    ensures ResumeStep(env, s, id, task, now).tasks[other] == s.tasks[other]
  {
    hide ObjectCaches.After, ObjectCaches.Lookup, Run, Joined, AsRefEntry, FromTemplate, FromContext;
  }

  /** What other requests and the reads do leaves a request where it is; an answer is final. */
  lemma OthersDoNotMove(env: Env, run: Log<Event>, e: Event, id: nat)
    requires id in Reach(env, run).tasks && (e.Resume? && e.id == id ==> Reach(env, run).tasks[id].Done?)
    ensures id in Reach(env, Then(run, e)).tasks && Reach(env, Then(run, e)).tasks[id] == Reach(env, run).tasks[id]
  {
    hide ObjectCaches.After, ObjectCaches.Lookup, Run, Joined, Settle, Reach, MainStep, GeneratedStep, GotStep;
    hide DeliverStep;
    ReachStep(env, run, e);
    var s := Reach(env, run);
    if e.Resume? && e.id in s.tasks && e.id != id {
      hide ResumeStep;
      ResumeKeepsOthers(env, s, e.id, s.tasks[e.id], e.now, id);
    }
  }

  /** What an undisturbed read finds. */
  function Finds(env: Env, name: string): Outcome {
    match env.store(name)
    case None => NotFound
    case Some(item) => Found(item)
  }

  /** Let the read that `id` waits for end, if it waits for one. */
  lemma ReadCanEnd(env: Env, run: Log<Event>, id: nat, now: int) returns (longer: Log<Event>)
    requires HonestRun(env, run)
    requires id in Reach(env, run).tasks && !Reach(env, run).tasks[id].Done?
    ensures HonestRun(env, longer) && Extends(longer, run)
    ensures id in Reach(env, longer).tasks && Reach(env, longer).tasks[id] == Reach(env, run).tasks[id]
    ensures !Waits(Reach(env, longer), Reach(env, longer).tasks[id])
  {
    hide Reach, Next;
    longer := run;
    var s := Reach(env, run);
    if Waits(s, s.tasks[id]) {
      EveryRequestAdvances(env, run, id, now);
      var p := Awaited(s.tasks[id]).value;
      var e := ReadEnds(p, Finds(env, s.flights.key[p]));
      longer := Then(run, e);
      ReachStep(env, run, e);
      OthersDoNotMove(env, run, e, id);
      assert Next(env, s, e).flights == Settle(s.flights, p, e.outcome) by { NextOfReadEnds(env, s, p, e.outcome); }
    }
  }

  lemma NextOfReadEnds(env: Env, s: State, p: nat, o: Outcome)
    requires Running(s.flights, p)
    ensures Next(env, s, ReadEnds(p, o)).flights == Settle(s.flights, p, o)
  {
  }

  /** So from every state of every honest run, every request can still be answered. */
  lemma {:induction false} EveryRequestCanBeAnswered(env: Env, run: Log<Event>, id: nat, now: int)
    returns (longer: Log<Event>)
    requires HonestRun(env, run) && id in Reach(env, run).tasks
    ensures HonestRun(env, longer) && Extends(longer, run)
    ensures id in Reach(env, longer).tasks && Reach(env, longer).tasks[id].Done?
    decreases StepsLeft(Reach(env, run).tasks[id])
  {
    hide Reach, Next, Waits, StepsLeft;
    if Reach(env, run).tasks[id].Done? {
      longer := run;
    } else {
      var settled := ReadCanEnd(env, run, id, now);
      EveryRequestAdvances(env, settled, id, now);
      var resumed := Then(settled, Resume(id, now));
      assert Extends(resumed, settled);
      ExtendsFurther(resumed, settled, run);
      longer := EveryRequestCanBeAnswered(env, resumed, id, now);
      ExtendsFurther(longer, resumed, run);
    }
  }
}
