/**
 The builder as one machine: as it meets the keys of the resolved outputs it writes
 shared files, index files and the ownership of keys together.  So the files of a build
 fit together, and the proxy serves each key of the index with the hash it promises.
 */
module RegistryBuilds {
  import opened Options
  import opened Logs
  import opened Jsons
  import opened SourceBundles
  import opened SourceArtifacts
  import I = IndexEmission
  import opened ServedEntries
  import P = RegistryProxies

  /** A resolved output: of a concrete manifest, or of a sourced one as a bundle or as template and context. */
  datatype Item =
    | FromConcrete(path: string, id: string, bundle: List<Member>)
    | FromSourced(path: string, id: string, bundle: List<Member>)
    | FromSource(path: string, id: string, bundle: List<Member>, output: Output)

  /** One key of one output. */
  datatype Emission = Emission(key: string, item: Item)

  /** What the resolver hands over: of a source ref, the bundle that its template expands to. */
  ghost predicate Resolved(e: Env, item: Item) {
    if item.FromSource? then
      Sourced(e.template(item.output.templateId)) && BuiltBundle(e, item.output) == Some(item.bundle)
    else ProperMembers(item.bundle)
  }

  function ShaOf(e: Env, item: Item): string { Sha(e, Obj(item.bundle)) }

  function ClaimOf(e: Env, m: Emission): I.Claim {
    I.Claim(m.key, m.item.path, ShaOf(e, m.item), !m.item.FromConcrete?)
  }

  function Claims(e: Env, ms: Log<Emission>): Log<I.Claim> {
    match ms
    case Start => Start
    case Then(past, m) => Then(Claims(e, past), ClaimOf(e, m))
  }

  /** An index file: the output it was written for, and the refs it names. */
  datatype Origin = Origin(item: Item, refs: Refs)

  function Document(e: Env, g: Origin): Json {
    match g.item
    case FromConcrete(path, id, bundle) => ConcreteEntry(id, path, ShaOf(e, g.item), bundle)
    case FromSourced(path, id, _) => BundleEntry(id, path, ShaOf(e, g.item), BundleRef(ShaOf(e, g.item)))
    case FromSource(path, id, _, o) => SourceEntry(id, path, ShaOf(e, g.item), g.refs, o)
  }

  /** The shared files that an index file asks for were written. */
  ghost predicate Backed(b: Build, g: Origin) {
    match g.item
    case FromConcrete(_, _, _) => true
    case FromSourced(_, _, bundle) => Canon(Obj(bundle)) in b.hashed
    case FromSource(_, _, _, o) => Resolved(b.env, g.item) && Named(b, o, g.refs)
  }

  type Origins = map<string, Origin>

  /** A key's file is there exactly when the key is in the index, and says what the index says. */
  ghost predicate KeyRight(b: Build, index: map<string, I.Entry>, docs: map<string, Json>, origins: Origins,
                           key: string)
  {
    if key in index then
      && key in docs && key in origins
      && var g := origins[key];
      && index[key] == I.Entry(g.item.path, ShaOf(b.env, g.item), !g.item.FromConcrete?)
      && docs[key] == Document(b.env, g) && Backed(b, g)
    else key !in docs
  }

  ghost predicate KeysRight(b: Build, index: map<string, I.Entry>, docs: map<string, Json>, origins: Origins) {
    forall key :: KeyRight(b, index, docs, origins, key)
  }

  /** The outputs of the source refs among the emissions. */
  predicate Emitted(ms: Log<Emission>, o: Output) {
    ms.Then? && ((ms.last.item.FromSource? && ms.last.item.output == o) || Emitted(ms.past, o))
  }

  /** The objects that the emissions file under their hash. */
  ghost function Objects(e: Env, ms: Log<Emission>): set<Canonical> {
    match ms
    case Start => {}
    case Then(past, m) => Objects(e, past) + ObjectsOf(e, m.item)
  }

  ghost function ObjectsOf(e: Env, item: Item): set<Canonical> {
    match item
    case FromConcrete(_, _, _) => {}
    case FromSourced(_, _, bundle) => {Canon(Obj(bundle))}
    case FromSource(_, _, _, o) => {Canon(Obj(e.template(o.templateId)))}
  }

  /** What was filed belongs to the emissions. */
  ghost predicate OnlyEmitted(b: Build, ms: Log<Emission>) {
    && (forall o :: Occurs(b.outputs, o) ==> Emitted(ms, o))
    && b.hashed <= Objects(b.env, ms)
  }

  /** The whole of a build: its shared files, its index and its index files, after the emissions `ms`. */
  ghost predicate BuildRight(b: Build, s: I.State, docs: map<string, Json>, origins: Origins, ms: Log<Emission>) {
    Sound(b) && s == I.Run(Claims(b.env, ms)) && KeysRight(b, s.index, docs, origins) && OnlyEmitted(b, ms)
  }

  // ---- one step ----

  /** The claim's index file is written: it is neither skipped nor a repetition. */
  predicate Writes(s: I.State, c: I.Claim) {
    if c.sourced then c.key !in s.index
    else !(c.key in s.owners && s.owners[c.key].path != c.path && s.owners[c.key].sha == c.sha)
  }

  lemma IndexAfter(s: I.State, c: I.Claim)
    ensures I.Step(s, c).index ==
            if Writes(s, c) then s.index[c.key := I.Entry(c.path, c.sha, c.sourced)] else s.index
  {
  }

  /** The build has gone on: nothing filed was lost. */
  ghost predicate GoesOn(b: Build, c: Build) {
    && b.env == c.env && b.hashed <= c.hashed
    && (c.outputs == b.outputs || (c.outputs.Then? && c.outputs.past == b.outputs))
  }

  lemma BackedStays(b: Build, c: Build, g: Origin)
    requires GoesOn(b, c) && Backed(b, g)
    ensures Backed(c, g)
  {
    hide Resolved, ContextRef, BundleRef, Sha, Canon;
  }

  lemma KeysStay(b: Build, c: Build, index: map<string, I.Entry>, docs: map<string, Json>, origins: Origins)
    requires GoesOn(b, c) && KeysRight(b, index, docs, origins)
    ensures KeysRight(c, index, docs, origins)
  {
    hide Backed, GoesOn, Document, ShaOf;
    assert b.env == c.env by { SameEnv(b, c); }
    forall key ensures KeyRight(c, index, docs, origins, key) {
      assert KeyRight(b, index, docs, origins, key);
      if key in index { BackedStays(b, c, origins[key]); }
    }
  }

  lemma SameEnv(b: Build, c: Build)
    requires GoesOn(b, c)
    ensures b.env == c.env
  {
  }

  lemma KeyWritten(b: Build, index: map<string, I.Entry>, docs: map<string, Json>, origins: Origins, key: string,
                   g: Origin)
    requires KeysRight(b, index, docs, origins) && Backed(b, g)
    ensures
      var entry := I.Entry(g.item.path, ShaOf(b.env, g.item), !g.item.FromConcrete?);
      KeysRight(b, index[key := entry], docs[key := Document(b.env, g)], origins[key := g])
  {
    hide Backed, Document, ShaOf;
    var index' := index[key := I.Entry(g.item.path, ShaOf(b.env, g.item), !g.item.FromConcrete?)];
    var docs', origins' := docs[key := Document(b.env, g)], origins[key := g];
    forall k ensures KeyRight(b, index', docs', origins', k) {
      assert KeyRight(b, index, docs, origins, k);
    }
  }

  /** What one emission files belongs to it. */
  ghost predicate Files(b: Build, c: Build, item: Item) {
    && GoesOn(b, c) && Sound(c)
    && (c.outputs == b.outputs || (item.FromSource? && c.outputs.last == item.output))
    && c.hashed <= b.hashed + ObjectsOf(b.env, item)
  }

  lemma OnlyEmittedStays(b: Build, c: Build, ms: Log<Emission>, m: Emission)
    requires OnlyEmitted(b, ms) && Files(b, c, m.item)
    ensures OnlyEmitted(c, Then(ms, m))
  {
    hide Sound, ObjectsOf;
    forall o | Occurs(c.outputs, o) ensures Emitted(Then(ms, m), o) {
      if c.outputs != b.outputs {
        assert c.outputs == Then(b.outputs, m.item.output);
      }
    }
    assert b.hashed + ObjectsOf(b.env, m.item) <= Objects(b.env, Then(ms, m));
  }

  lemma BuildParts(b: Build, s: I.State, docs: map<string, Json>, origins: Origins, ms: Log<Emission>)
    ensures BuildRight(b, s, docs, origins, ms) <==>
            Sound(b) && s == I.Run(Claims(b.env, ms)) && KeysRight(b, s.index, docs, origins) && OnlyEmitted(b, ms)
  {
    hide Sound, KeysRight, I.Run, Claims, Objects;
  }

  /** What one emission leaves of the index files. */
  lemma EmissionKeeps(b: Build, c: Build, s: I.State, docs: map<string, Json>, origins: Origins,
                      ms: Log<Emission>, m: Emission, g: Origin)
    requires BuildRight(b, s, docs, origins, ms) && Files(b, c, m.item)
    requires Writes(s, ClaimOf(b.env, m)) ==> g.item == m.item && Backed(c, g)
    ensures
      var t := I.Step(s, ClaimOf(b.env, m));
      if Writes(s, ClaimOf(b.env, m)) then
        BuildRight(c, t, docs[m.key := Document(b.env, g)], origins[m.key := g], Then(ms, m))
      else BuildRight(c, t, docs, origins, Then(ms, m))
  {
    hide BuildRight, Sound, Backed, Document, ShaOf, ObjectsOf, I.Step, Writes, KeysRight, OnlyEmitted;
    BuildParts(b, s, docs, origins, ms);
    var claim := ClaimOf(b.env, m);
    var t := I.Step(s, claim);
    assert t == I.Run(Claims(c.env, Then(ms, m)));
    IndexAfter(s, claim);
    OnlyEmittedStays(b, c, ms, m);
    KeysStay(b, c, s.index, docs, origins);
    if Writes(s, claim) {
      KeyWritten(c, s.index, docs, origins, m.key, g);
      BuildParts(c, t, docs[m.key := Document(b.env, g)], origins[m.key := g], Then(ms, m));
    } else {
      BuildParts(c, t, docs, origins, Then(ms, m));
    }
  }

  /** The first `n` of these emissions, in order. */
  function Listed(ms: seq<Emission>, n: nat): Log<Emission>
    requires n <= |ms|
  {
    if n == 0 then Start else Then(Listed(ms, n - 1), ms[n - 1])
  }

  predicate RefsCanBeMade(e: Env, item: Item) { item.FromSource? ==> ContextRef(e, item.output).Some? }

  const NO_REFS := Refs("", "", "", "")

  lemma SoundParts(w: ArtifactWriter)
    ensures Sound(BuildOf(w)) <==> w.Valid() && GoodEnv(w.env)
  {
    hide Filed, GoodEnv;
  }

  class RegistryBuilder {
    const writer: ArtifactWriter
    const index: I.IndexBuilder
    /** The files of the callkey index. */
    var docs: map<string, Json>
    ghost var origins: Origins
    ghost var emissions: Log<Emission>

    ghost predicate Valid()
      reads this, writer, index
    {
      BuildRight(BuildOf(writer), index.Snapshot(), docs, origins, emissions)
    }

    constructor (env: Env)
      requires GoodEnv(env)
      ensures Valid() && writer.env == env && fresh(writer) && fresh(index) && docs == map[] && emissions == Start
    {
      writer := new ArtifactWriter(env);
      index := new I.IndexBuilder();
      docs, origins, emissions := map[], map[], Start;
    }

    /** Write what an index file refers to, and make the index file; `None` where its refs cannot be made. */
    method WriteFiles(item: Item) returns (doc: Option<Json>, refs: Refs)
      requires writer.Valid() && GoodEnv(writer.env) && Resolved(writer.env, item)
      modifies writer
      ensures doc.Some? <==> RefsCanBeMade(writer.env, item)
      ensures doc.Some? ==>
                && Files(old(BuildOf(writer)), BuildOf(writer), item)
                && doc.value == Document(writer.env, Origin(item, refs)) && Backed(BuildOf(writer), Origin(item, refs))
    {
      hide Filed, GoodEnv, SourceEntry, BundleEntry, ConcreteEntry, Sha, ContextRef, Canon, Sourced, BuiltBundle;
      hide BundleRef;
      refs := NO_REFS;
      match item {
        case FromConcrete(path, id, bundle) =>
          doc := Some(ConcreteEntry(id, path, Sha(writer.env, Obj(bundle)), bundle));
        case FromSourced(path, id, bundle) =>
          var entry := WriteBundleEntry(writer, bundle, id, path, Sha(writer.env, Obj(bundle)));
          doc := Some(entry);
        case FromSource(path, id, bundle, o) =>
          doc, refs := WriteSourceEntry(writer, o, id, path, Sha(writer.env, Obj(bundle)));
      }
    }

    /** One key of one output; false where its refs cannot be made, which fails the build. */
    method EmitKey(m: Emission) returns (ok: bool)
      requires Valid() && Resolved(writer.env, m.item)
      modifies this, writer, index
      ensures ok ==> Valid() && emissions == Then(old(emissions), m)
      ensures ok <==> RefsCanBeMade(writer.env, m.item) || m.key in old(index.index)
    {
      hide BuildRight, Sound, Resolved, Document, Backed, Files, ShaOf, Sha, ContextRef, I.Step;
      var c := ClaimOf(writer.env, m);
      ghost var b, s := BuildOf(writer), index.Snapshot();
      BuildParts(b, s, docs, origins, emissions);
      SoundParts(writer);
      if c.sourced && m.key in index.index {
        FilesNothing(b, m.item);
        index.EmitKey(c);
        EmissionKeeps(b, b, s, docs, origins, emissions, m, Origin(m.item, NO_REFS));
        emissions := Then(emissions, m);
        return true;
      }
      var doc, refs := WriteFiles(m.item);
      if doc.None? { return false; }
      var repeated := !c.sourced && c.key in index.concreteCallkeyOwners
                      && index.concreteCallkeyOwners[c.key].path != c.path
                      && index.concreteCallkeyOwners[c.key].sha == c.sha;
      index.EmitKey(c);
      EmissionKeeps(b, BuildOf(writer), s, docs, origins, emissions, m, Origin(m.item, refs));
      emissions := Then(emissions, m);
      if !repeated {
        docs := docs[m.key := doc.value];
        origins := origins[m.key := Origin(m.item, refs)];
      }
      return true;
    }

    /** The emission loop; the result says whether the build succeeds. */
    method Build(ms: seq<Emission>, strict: bool) returns (ok: bool)
      requires Valid() && emissions == Start
      requires forall i :: 0 <= i < |ms| ==> Resolved(writer.env, ms[i].item)
      modifies this, writer, index
      ensures ok ==> Valid() && emissions == Listed(ms, |ms|)
      ensures
        var collisions := I.Run(Claims(writer.env, Listed(ms, |ms|))).colliding;
        && (ok && strict ==> collisions == 0)
        && ((forall i :: 0 <= i < |ms| ==> RefsCanBeMade(writer.env, ms[i].item)) && (strict ==> collisions == 0) ==>
              ok)
    {
      hide BuildRight, Resolved, ContextRef, I.Run, Claims;
      var i := 0;
      while i < |ms|
        invariant 0 <= i <= |ms|
        invariant Valid() && emissions == Listed(ms, i)
      {
        var made := EmitKey(ms[i]);
        if !made { return false; }
        i := i + 1;
      }
      BuildParts(BuildOf(writer), index.Snapshot(), docs, origins, emissions);
      return !(strict && index.collidingConcreteCallkeys > 0);
    }
  }

  lemma FilesNothing(b: Build, item: Item)
    requires Sound(b)
    ensures Files(b, b, item)
  {
    hide Sound;
  }

  // ---- every build meets the premises ----

  /** One context per (source, chain, address). */
  ghost predicate OneContextPerRef(e: Env, ms: Log<Emission>) {
    forall o, o' ::
      Emitted(ms, o) && Emitted(ms, o') && ContextRef(e, o).Some? && ContextRef(e, o) == ContextRef(e, o') ==>
      DocumentOf(e, o) == DocumentOf(e, o')
  }

  lemma {:induction false} ContextIsOne(e: Env, ms: Log<Emission>, outputs: Log<Output>, o: Output, ref: string)
    requires OneContextPerRef(e, ms) && Emitted(ms, o) && ContextRef(e, o) == Some(ref)
    requires forall o' :: Occurs(outputs, o') ==> Emitted(ms, o')
    ensures OneContext(e, outputs, ref, DocumentOf(e, o))
  {
    hide ContextRef, DocumentOf;
    if outputs.Then? {
      assert Occurs(outputs, outputs.last);
      assert forall o' :: Occurs(outputs.past, o') ==> Occurs(outputs, o');
      ContextIsOne(e, ms, outputs.past, o, ref);
    }
  }

  lemma FewerMeetNoCollision(e: Env, few: set<Canonical>, many: set<Canonical>)
    requires few <= many && NoCollision(e, many)
    ensures NoCollision(e, few)
  {
  }

  lemma EnteredByBuild(b: Build, ms: Log<Emission>, g: Origin)
    requires OnlyEmitted(b, ms) && g.item.FromSource? && Backed(b, g)
    requires OneContextPerRef(b.env, ms) && NoCollision(b.env, Objects(b.env, ms))
    ensures Entered(b, g.item.output, g.refs) && Emitted(ms, g.item.output)
    ensures BundleSha(b.env, g.item.output) == Some(ShaOf(b.env, g.item))
  {
    hide NoCollision, OneContextPerRef, OneContext, ContextRef, DocumentOf, Sourced, BuiltBundle, BundleRef, Sha;
    hide Objects;
    FewerMeetNoCollision(b.env, b.hashed, Objects(b.env, ms));
    ContextIsOne(b.env, ms, b.outputs, g.item.output, g.refs.contextRef);
  }

  /**
   What the theorem on sourced keys asks for holds of every build: a key whose file was
   written for a source ref is claimed by sourced manifests alone and first for this
   output, its refs name the output's own files, and its file is the entry that says so.
   */
  lemma BuildMeetsPremises(b: Build, s: I.State, docs: map<string, Json>, origins: Origins, ms: Log<Emission>,
                           key: string)
    requires BuildRight(b, s, docs, origins, ms) && key in s.index && key in origins && origins[key].item.FromSource?
    requires OneContextPerRef(b.env, ms) && NoCollision(b.env, Objects(b.env, ms))
    ensures
      var g := origins[key];
      var o := g.item.output;
      && SourcedKey(Claims(b.env, ms), key, b.env, o) && Sound(b) && Entered(b, o, g.refs) && key in docs
      && docs[key] == SourceEntry(g.item.id, s.index[key].path, s.index[key].sha, g.refs, o)
  {
    hide BuildRight, Sound, Entered, KeysRight, OnlyEmitted, SourceEntry, BundleSha, Objects, NoCollision;
    hide OneContextPerRef;
    hide ShaOf, I.Run, Claims, Backed;
    BuildParts(b, s, docs, origins, ms);
    KeyIsRight(b, s.index, docs, origins, key);
    var g := origins[key];
    EnteredByBuild(b, ms, g);
    I.KeyIsShown(Claims(b.env, ms), key);
  }

  lemma KeyIsRight(b: Build, index: map<string, I.Entry>, docs: map<string, Json>, origins: Origins, key: string)
    requires KeysRight(b, index, docs, origins)
    ensures KeyRight(b, index, docs, origins, key)
  {
  }

  // ---- what the proxy answers for a whole build ----

  /** The store holds what the build wrote, and no other index file. */
  ghost predicate HoldsBuild(p: P.Env, b: Build, docs: map<string, Json>) {
    && p.text == b.env.text && Published(p, b.files)
    && forall key :: if key in docs then Holds(p, NameOf(key), docs[key]) else p.store(NameOf(key)).None?
  }

  /** The reply shows a bundle of the hash that the index promises for the key, and says so. */
  ghost predicate Shows(e: Env, p: P.Env, name: string, entry: I.Entry, reply: P.Reply) {
    p.store(name).Some? &&
    exists r: Json ::
      && reply == P.Reply200(P.Stored(p.stringify(r), p.store(name).value.contentType)) && r.Obj?
      && Get(r.members, "matched") == Bool(true) && Get(r.members, "manifest_path") == Str(entry.path)
      && Get(r.members, "bundle_sha256") == Str(entry.sha) && Sha(e, Get(r.members, "bundle")) == entry.sha
  }

  /** What is shown depends on path and hash of an entry alone. */
  lemma CarryingShows(e: Env, p: P.Env, name: string, entry: I.Entry, ref: P.RefEntry, id: Json, bundle: Json)
    requires p.store(name).Some? && ref.manifestPath == entry.path
    requires ref.sha == entry.sha && Sha(e, bundle) == entry.sha
    ensures Shows(e, p, name, entry, Carrying(p, name, ref, id, bundle))
  {
    hide Sha, P.Response, Get;
    P.ResponseSays(ref, id, bundle);
  }

  lemma NameIsCallkey(key: string)
    ensures P.IsCallkey(NameOf(key))
  {
  }

  lemma ConcreteShows(e: Env, p: P.Env, key: string, item: Item)
    requires item.FromConcrete? && Holds(p, NameOf(key), ConcreteEntry(item.id, item.path, ShaOf(e, item), item.bundle))
    ensures Shows(e, p, NameOf(key), I.Entry(item.path, ShaOf(e, item), false), P.PlainReply(p, NameOf(key)))
  {
    hide Sha, P.PlainReply;
    var name, sha := NameOf(key), ShaOf(e, item);
    NameIsCallkey(key);
    ConcreteEntryIsServed(p, name, item.id, item.path, sha, item.bundle);
    var ref := P.RefEntry("", item.path, sha, "", None);
    assert ConcreteEntry(item.id, item.path, sha, item.bundle) == P.Response(ref, Str(item.id), Obj(item.bundle));
    assert p.store(name).value == P.Printed(p, P.Response(ref, Str(item.id), Obj(item.bundle)), TypeOf(p, name));
    CarryingShows(e, p, name, I.Entry(item.path, sha, false), ref, Str(item.id), Obj(item.bundle));
  }

  lemma BundleShows(b: Build, p: P.Env, key: string, g: Origin)
    requires Sound(b) && g.item.FromSourced? && Backed(b, g) && Published(p, b.files)
    requires Holds(p, NameOf(key), Document(b.env, g))
    ensures Shows(b.env, p, NameOf(key), I.Entry(g.item.path, ShaOf(b.env, g.item), true), P.PlainReply(p, NameOf(key)))
  {
    hide Sound, Published, Holds, BundleEntry, Sha, P.PlainReply, Canon, Shows, Carrying, BundleRef;
    var name, sha := NameOf(key), ShaOf(b.env, g.item);
    NameIsCallkey(key);
    BundleEntryIsServed(b, g.item.bundle, p, name, g.item.id, g.item.path);
    CarryingShows(b.env, p, name, I.Entry(g.item.path, sha, true),
                  P.RefEntry(g.item.id, g.item.path, sha, BundleRef(sha), None),
                  Str(g.item.id), b.files[BundleRef(sha)]);
  }

  lemma SourceShows(b: Build, p: P.Env, key: string, g: Origin)
    requires Sound(b) && g.item.FromSource? && Entered(b, g.item.output, g.refs) && Regular(b.env, g.item.output)
    requires BundleSha(b.env, g.item.output) == Some(ShaOf(b.env, g.item))
    requires p.text == b.env.text && Published(p, b.files) && Holds(p, NameOf(key), Document(b.env, g))
    ensures Shows(b.env, p, NameOf(key), I.Entry(g.item.path, ShaOf(b.env, g.item), true), P.PlainReply(p, NameOf(key)))
  {
    hide Sound, Entered, Published, Holds, SourceEntry, Sha, P.PlainReply, Shows, Carrying, BundleSha, Regular;
    hide Materialize, Compared;
    hide NoCollision;
    var name, sha, o := NameOf(key), ShaOf(b.env, g.item), g.item.output;
    NameIsCallkey(key);
    SourceEntryIsServed(b, o, g.refs, p, name, g.item.id, g.item.path);
    var served := Materialize(b.env.text, b.files[g.refs.bundleRef], b.files[g.refs.contextRef]).value;
    CarryingShows(b.env, p, name, I.Entry(g.item.path, sha, true), EntryOf(g.item.id, g.item.path, sha, g.refs),
                  Get(served, "id"), Obj(served));
  }

  /** Every source ref of the build is one on which builder and proxy agree. */
  ghost predicate AllRegular(e: Env, ms: Log<Emission>) { forall o :: Emitted(ms, o) ==> Regular(e, o) }

  /** A server without cache answers every key of the index with its bundle, and no other key. */
  lemma EveryKeyIsServed(b: Build, s: I.State, docs: map<string, Json>, origins: Origins, ms: Log<Emission>,
                         p: P.Env, key: string)
    requires BuildRight(b, s, docs, origins, ms) && HoldsBuild(p, b, docs)
    requires OneContextPerRef(b.env, ms) && NoCollision(b.env, Objects(b.env, ms)) && AllRegular(b.env, ms)
    ensures if key in s.index then Shows(b.env, p, NameOf(key), s.index[key], P.PlainReply(p, NameOf(key)))
            else P.PlainReply(p, NameOf(key)) == P.Reply404
  {
    hide BuildRight, Sound, KeysRight, OnlyEmitted, Backed, Holds, Published, Shows, OneContextPerRef, NoCollision;
    hide Objects;
    hide Regular, BundleSha, Entered, SourceEntry, BundleEntry, ConcreteEntry, ShaOf, P.PlainObject, I.Run, Claims;
    BuildParts(b, s, docs, origins, ms);
    KeyIsRight(b, s.index, docs, origins, key);
    if key in s.index {
      hide P.PlainReply;
      var g := origins[key];
      match g.item
      case FromConcrete(_, _, _) => ConcreteShows(b.env, p, key, g.item);
      case FromSourced(_, _, _) => BundleShows(b, p, key, g);
      case FromSource(_, _, _, o) =>
        EnteredByBuild(b, ms, g);
        SourceShows(b, p, key, g);
    }
  }

  /**
   The whole registry.  However requests, reads, expiries and evictions interleave, every
   reply to a request for a key shows a bundle of the hash that the index promises, or is
   404 if the index has no such key, or is 502 because a read of this request failed.
   */
  lemma {:induction false} EveryRequestShowsItsBundle(b: Build, s: I.State, docs: map<string, Json>, origins: Origins,
                                                      ms: Log<Emission>, p: P.Env, key: string,
                                                      run: Log<P.Event>, id: nat)
    requires BuildRight(b, s, docs, origins, ms) && HoldsBuild(p, b, docs)
    requires OneContextPerRef(b.env, ms) && NoCollision(b.env, Objects(b.env, ms)) && AllRegular(b.env, ms)
    requires P.HonestRun(p, run) && id in P.Reach(p, run).tasks
    requires P.Reach(p, run).tasks[id].Done? && P.Reach(p, run).tasks[id].name == NameOf(key)
    ensures
      var reply := P.Reach(p, run).tasks[id].reply;
      if reply.Reply502? then id in P.Reach(p, run).failed
      else if key in s.index then Shows(b.env, p, NameOf(key), s.index[key], reply)
      else reply == P.Reply404
  {
    hide BuildRight, HoldsBuild, OneContextPerRef, NoCollision, Objects, AllRegular, P.HonestRun, P.Reach, P.PlainReply;
    hide Sha;
    EveryKeyIsServed(b, s, docs, origins, ms, p, key);
    P.RepliesArePlain(p, run, id);
  }
}
