/**
 The builder, the store and the proxy together: what the proxy answers for an index
 entry, when the store holds what the builder wrote.
 */
module ServedEntries {
  import opened Options
  import opened Logs
  import opened Jsons
  import opened SourceBundles
  import opened SourceArtifacts
  import IndexEmission
  import P = RegistryProxies

  // ---- index entries ----

  function With(key: string, value: Json, rest: List<Member>): List<Member> { Cons(Member(key, value), rest) }

  function Materialization(o: Output): Json {
    Obj(With("kind", Str("source_context"),
        With("source", Str(o.source),
        With("chain_id", Num(o.chainId as real),
        With("address", Str(Lower(o.entry.address)), Nil)))))
  }

  /** What every reference entry starts with. */
  function RefMembers(bundleId: string, path: string, sha: string, ref: string, rest: List<Member>): List<Member> {
    With("matched", Bool(true),
    With("schema_version", Str("3-ref"),
    With("bundle_id", Str(bundleId),
    With("manifest_path", Str(path),
    With("bundle_sha256", Str(sha),
    With("bundle_ref", Str(ref), rest))))))
  }

  /** The entry of a sourced output that is written as template and context. */
  function SourceEntry(bundleId: string, path: string, sha: string, refs: Refs, o: Output): Json {
    Obj(RefMembers(bundleId, path, sha, refs.bundleRef,
        With("template_sha256", Str(refs.templateSha),
        With("context_ref", Str(refs.contextRef),
        With("context_sha256", Str(refs.contextSha),
        With("materialization", Materialization(o), Nil))))))
  }

  /** The entry of a sourced output that is written as one bundle. */
  function BundleEntry(bundleId: string, path: string, sha: string, ref: string): Json {
    Obj(RefMembers(bundleId, path, sha, ref, Nil))
  }

  /** The entry of a concrete manifest holds the bundle itself. */
  function ConcreteEntry(bundleId: string, path: string, sha: string, bundle: List<Member>): Json {
    Obj(With("matched", Bool(true),
        With("bundle_id", Str(bundleId),
        With("manifest_path", Str(path),
        With("bundle_sha256", Str(sha),
        With("bundle", Obj(bundle), Nil))))))
  }

  /** No two names of an entry's members are the same. */
  lemma NamesDiffer()
    ensures "schema_version" != "matched" && "context_ref" != "bundle_ref"
    ensures "bundle_id" !in {"matched", "schema_version"}
    ensures "manifest_path" !in {"matched", "schema_version", "bundle_id"}
    ensures "bundle_sha256" !in {"matched", "schema_version", "bundle_id", "manifest_path"}
    ensures "bundle_ref" !in {"matched", "schema_version", "bundle_id", "manifest_path", "bundle_sha256"}
    ensures "context_ref" !in {"matched", "schema_version", "bundle_id", "manifest_path", "bundle_sha256", "bundle_ref",
                               "template_sha256"}
    ensures "schema_version" !in {"matched", "bundle_id", "manifest_path", "bundle_sha256", "bundle"}
  {
    assert |"matched"| == 7 && |"schema_version"| == 14 && |"bundle_id"| == 9 && |"bundle_ref"| == 10;
    assert |"manifest_path"| == 13 && |"bundle_sha256"| == 13 && "manifest_path"[0] != "bundle_sha256"[0];
    assert |"template_sha256"| == 15 && |"context_ref"| == 11 && |"bundle"| == 6;
  }

  /** The fields of a reference entry are read back, and a context ref only from what follows them. */
  lemma RefFields(bundleId: string, path: string, sha: string, ref: string, rest: List<Member>)
    ensures
      var m := RefMembers(bundleId, path, sha, ref, rest);
      && Get(m, "matched") == Bool(true) && Get(m, "schema_version") == Str("3-ref")
      && Get(m, "bundle_id") == Str(bundleId) && Get(m, "manifest_path") == Str(path)
      && Get(m, "bundle_sha256") == Str(sha) && Get(m, "bundle_ref") == Str(ref)
      && Get(m, "context_ref") == Get(rest, "context_ref") && Has(m, "context_ref") == Has(rest, "context_ref")
  {
    NamesDiffer();
    var m6 := With("bundle_ref", Str(ref), rest);
    var m5 := With("bundle_sha256", Str(sha), m6);
    var m4 := With("manifest_path", Str(path), m5);
    var m3 := With("bundle_id", Str(bundleId), m4);
    var m2 := With("schema_version", Str("3-ref"), m3);
    var c, h := Get(rest, "context_ref"), Has(rest, "context_ref");
    assert Get(m6, "context_ref") == c && Has(m6, "context_ref") == h;
    assert Get(m5, "context_ref") == c && Has(m5, "context_ref") == h && Get(m5, "bundle_ref") == Str(ref);
    assert Get(m4, "context_ref") == c && Has(m4, "context_ref") == h && Get(m4, "bundle_ref") == Str(ref);
    assert Get(m3, "context_ref") == c && Has(m3, "context_ref") == h && Get(m3, "bundle_ref") == Str(ref);
    assert Get(m2, "context_ref") == c && Has(m2, "context_ref") == h && Get(m2, "bundle_ref") == Str(ref);
    assert Get(m4, "bundle_sha256") == Str(sha);
    assert Get(m3, "bundle_sha256") == Str(sha) && Get(m3, "manifest_path") == Str(path);
    assert Get(m2, "bundle_sha256") == Str(sha) && Get(m2, "manifest_path") == Str(path)
           && Get(m2, "bundle_id") == Str(bundleId);
  }

  lemma Skips(m: Member, ms: List<Member>, k: string)
    requires m.key != k
    ensures Get(Cons(m, ms), k) == Get(ms, k)
  {}

  /** What a source entry adds to what every reference entry says. */
  lemma SourceEntrySays(bundleId: string, path: string, sha: string, refs: Refs, o: Output)
    ensures
      var entry := SourceEntry(bundleId, path, sha, refs, o);
      && entry.Obj? && Get(entry.members, "template_sha256") == Str(refs.templateSha)
      && Get(entry.members, "context_sha256") == Str(refs.contextSha)
      && Get(entry.members, "materialization").Obj?
      && var m := Get(entry.members, "materialization").members;
      && Get(m, "kind") == Str("source_context") && Get(m, "source") == Str(o.source)
      && Get(m, "chain_id") == Num(o.chainId as real) && Get(m, "address") == Str(Lower(o.entry.address))
  {
    hide Get, Lower;
    forall k | k in {"template_sha256", "context_sha256", "materialization"}
      ensures Get(SourceEntry(bundleId, path, sha, refs, o).members, k) ==
              if k == "template_sha256" then Str(refs.templateSha)
              else if k == "context_sha256" then Str(refs.contextSha)
              else Materialization(o)
    {
      SourceEntryMember(bundleId, path, sha, refs, o, k);
    }
    MaterializationSays(o);
  }

  lemma SourceEntryMember(bundleId: string, path: string, sha: string, refs: Refs, o: Output, k: string)
    requires k in {"template_sha256", "context_sha256", "materialization"}
    ensures Get(SourceEntry(bundleId, path, sha, refs, o).members, k) ==
            if k == "template_sha256" then Str(refs.templateSha)
            else if k == "context_sha256" then Str(refs.contextSha)
            else Materialization(o)
  {
    hide Materialization;
    var m4 := With("materialization", Materialization(o), Nil);
    var m3 := With("context_sha256", Str(refs.contextSha), m4);
    var m2 := With("context_ref", Str(refs.contextRef), m3);
    var m1 := With("template_sha256", Str(refs.templateSha), m2);
    assert |"template_sha256"| == |"materialization"| == 15 && |"context_sha256"| == 14 && |"context_ref"| == 11;
    assert "template_sha256"[0] != "materialization"[0] && "context_sha256"[0] != "schema_version"[0];
    assert Get(m3, k) == if k == "context_sha256" then Str(refs.contextSha) else Get(m4, k);
    assert Get(m1, k) == if k == "template_sha256" then Str(refs.templateSha) else Get(m3, k) by {
      assert Get(m2, k) == Get(m3, k);
    }
    hide Get;
    RefMember(bundleId, path, sha, refs.bundleRef, m1, k);
  }

  /** A name that no reference entry has is looked up in what follows. */
  lemma RefMember(bundleId: string, path: string, sha: string, ref: string, rest: List<Member>, k: string)
    requires k !in {"matched", "schema_version", "bundle_id", "manifest_path", "bundle_sha256", "bundle_ref"}
    ensures Get(RefMembers(bundleId, path, sha, ref, rest), k) == Get(rest, k)
  {
    hide Get;
    var m6 := With("bundle_ref", Str(ref), rest);
    var m5 := With("bundle_sha256", Str(sha), m6);
    var m4 := With("manifest_path", Str(path), m5);
    var m3 := With("bundle_id", Str(bundleId), m4);
    var m2 := With("schema_version", Str("3-ref"), m3);
    Skips(m6.head, rest, k);
    Skips(m5.head, m6, k);
    Skips(m4.head, m5, k);
    Skips(m3.head, m4, k);
    Skips(m2.head, m3, k);
    Skips(Member("matched", Bool(true)), m2, k);
  }

  lemma MaterializationSays(o: Output)
    ensures Materialization(o).Obj?
    ensures
      var m := Materialization(o).members;
      && Get(m, "kind") == Str("source_context") && Get(m, "source") == Str(o.source)
      && Get(m, "chain_id") == Num(o.chainId as real) && Get(m, "address") == Str(Lower(o.entry.address))
  {
    hide Lower;
    var m4 := With("address", Str(Lower(o.entry.address)), Nil);
    var m3 := With("chain_id", Num(o.chainId as real), m4);
    var m2 := With("source", Str(o.source), m3);
    assert |"kind"| == 4 && |"source"| == 6 && |"chain_id"| == 8 && |"address"| == 7;
    assert Get(m3, "address") == m4.head.value;
    assert Get(m2, "address") == m4.head.value && Get(m2, "chain_id") == m3.head.value;
  }

  /** The proxy caches shared bundles and templates under their own names, and no contexts or index files. */
  lemma OnlyBundlesAreCached(e: Env, o: Output, sha: string, key: string)
    ensures P.Cacheable(BundleRef(sha)) && !P.Cacheable(NameOf(key))
    ensures ContextRef(e, o).Some? ==> !P.Cacheable(ContextRef(e, o).value)
  {
    assert "bundles/"[0] == 'b' && NameOf(key)[0] == 'i';
    if ContextRef(e, o).Some? {
      ContextRefIsContextRef(e, o);
      assert ContextRef(e, o).value[0] == "contexts/"[0] == 'c';
    }
  }

  lemma BundleEntryIsRef(bundleId: string, path: string, sha: string, ref: string)
    ensures P.AsRefEntry(BundleEntry(bundleId, path, sha, ref)) == Some(P.RefEntry(bundleId, path, sha, ref, None))
  {
    hide RefMembers;
    RefFields(bundleId, path, sha, ref, Nil);
  }

  lemma SourceEntryIsRef(bundleId: string, path: string, sha: string, refs: Refs, o: Output)
    ensures P.AsRefEntry(SourceEntry(bundleId, path, sha, refs, o)) ==
            Some(P.RefEntry(bundleId, path, sha, refs.bundleRef, Some(refs.contextRef)))
  {
    hide Materialization, RefMembers;
    NamesDiffer();
    var tail := With("context_sha256", Str(refs.contextSha), With("materialization", Materialization(o), Nil));
    var ref := With("context_ref", Str(refs.contextRef), tail);
    assert Get(ref, "context_ref") == Str(refs.contextRef) && Has(ref, "context_ref");
    var rest := With("template_sha256", Str(refs.templateSha), ref);
    assert Get(rest, "context_ref") == Str(refs.contextRef) && Has(rest, "context_ref");
    RefFields(bundleId, path, sha, refs.bundleRef, rest);
  }

  lemma ConcreteEntryIsNoRef(bundleId: string, path: string, sha: string, bundle: List<Member>)
    ensures P.AsRefEntry(ConcreteEntry(bundleId, path, sha, bundle)).None?
  {
    NamesDiffer();
    var m5 := With("bundle", Obj(bundle), Nil);
    var m4 := With("bundle_sha256", Str(sha), m5);
    var m2 := With("bundle_id", Str(bundleId), With("manifest_path", Str(path), m4));
    assert Get(m5, "schema_version").Undefined?;
    assert Get(m4, "schema_version").Undefined?;
    assert Get(m2, "schema_version").Undefined?;
  }

  // ---- the store ----

  /** Under `name` the store holds `v`, printed by the builder; the proxy reads back what was printed. */
  ghost predicate Holds(p: P.Env, name: string, v: Json) {
    && p.store(name).Some? && p.store(name).value.body == p.stringify(v)
    && p.parse(p.stringify(v)) == Some(v)
  }

  /** The store holds the builder's files, under names that the proxy accepts as references. */
  ghost predicate Published(p: P.Env, files: map<string, Json>) {
    forall ref :: ref in files ==> p.target(ref) == Some(ref) && Holds(p, ref, files[ref])
  }

  lemma PublishedIsRead(p: P.Env, files: map<string, Json>, ref: string)
    requires Published(p, files) && ref in files
    ensures P.PlainGenerated(p, ref) == Some(files[ref])
  {
  }

  function TypeOf(p: P.Env, name: string): string
    requires p.store(name).Some?
  {
    p.store(name).value.contentType
  }

  /** A reference entry is answered from what its refs lead to. */
  lemma RefEntryReply(p: P.Env, name: string, v: Json, entry: P.RefEntry)
    requires P.IsCallkey(name) && Holds(p, name, v) && P.AsRefEntry(v) == Some(entry)
    ensures P.PlainReply(p, name) == match P.PlainEntry(p, entry, TypeOf(p, name))
                                     case None => P.Reply502
                                     case Some(item) => P.Reply200(item)
  {
    hide P.AsRefEntry, P.PlainEntry;
  }

  /** The reply that carries `bundle` for this entry. */
  function Carrying(p: P.Env, name: string, entry: P.RefEntry, id: Json, bundle: Json): P.Reply
    requires p.store(name).Some?
  {
    P.Reply200(P.Printed(p, P.Response(entry, id, bundle), TypeOf(p, name)))
  }

  // ---- what is answered ----

  /** A build: what its writer has written so far. */
  datatype Build = Build(
    env: Env, files: map<string, Json>, written: Shas, templates: map<nat, string>, contexts: Shas,
    outputs: Log<Output>, hashed: set<Canonical>)

  /** The writer's books are in order. */
  ghost predicate Sound(b: Build) {
    GoodEnv(b.env) && Filed(b.env, b.files, b.written, b.templates, b.contexts, b.outputs, b.hashed)
  }

  /** The output was written, and its entry names its own files. */
  ghost predicate Named(b: Build, o: Output, refs: Refs) {
    && Occurs(b.outputs, o) && ContextRef(b.env, o) == Some(refs.contextRef)
    && refs.bundleRef == BundleRef(Sha(b.env, Obj(b.env.template(o.templateId))))
  }

  /** And no other output took its context's place. */
  ghost predicate Entered(b: Build, o: Output, refs: Refs) {
    && NoCollision(b.env, b.hashed) && Named(b, o, refs)
    && Sourced(b.env.template(o.templateId)) && BundleSha(b.env, o).Some?
    && OneContext(b.env, b.outputs, refs.contextRef, DocumentOf(b.env, o))
  }

  ghost function BuildOf(w: ArtifactWriter): Build
    reads w
  {
    Build(w.env, w.files, w.writeCache, w.templateCache, w.contextCache, w.outputs, w.hashed)
  }

  /** The index entry of a `source_ref` output: write its files, and name them.  `None` where that throws. */
  method WriteSourceEntry(w: ArtifactWriter, o: Output, bundleId: string, path: string, sha: string)
    returns (entry: Option<Json>, refs: Refs)
    requires w.Valid() && GoodEnv(w.env) && Sourced(w.env.template(o.templateId)) && BundleSha(w.env, o) == Some(sha)
    modifies w
    ensures Sound(BuildOf(w)) && OnlyAdds(old(w.files), w.files)
    ensures entry == if ContextRef(w.env, o).None? then None else Some(SourceEntry(bundleId, path, sha, refs, o))
    ensures w.outputs == if entry.Some? then Then(old(w.outputs), o) else old(w.outputs)
    ensures w.hashed == old(w.hashed) + {Canon(Obj(w.env.template(o.templateId)))}
    ensures entry.Some? ==> Named(BuildOf(w), o, refs)
    ensures entry.Some? && NoCollision(w.env, w.hashed)
            && OneContext(w.env, w.outputs, refs.contextRef, DocumentOf(w.env, o)) ==>
              Entered(BuildOf(w), o, refs)
  {
    hide Filed, GoodEnv, NoCollision, OneContext, DocumentOf, BundleRef, Sha, BundleSha, ContextRef, Sourced;
    hide SourceEntry;
    hide HeldByHash, FirstDocument;
    var written := w.WriteSourceRefArtifacts(o);
    match written
    case None => return None, Refs("", "", "", "");
    case Some(r) =>
      assert Occurs(w.outputs, o);
      return Some(SourceEntry(bundleId, path, sha, r, o)), r;
  }

  /** The index entry of another sourced output: write its bundle, and name it. */
  method WriteBundleEntry(w: ArtifactWriter, bundle: List<Member>, bundleId: string, path: string, sha: string)
    returns (entry: Json)
    requires w.Valid() && GoodEnv(w.env) && ProperMembers(bundle) && sha == Sha(w.env, Obj(bundle))
    modifies w
    ensures Sound(BuildOf(w)) && OnlyAdds(old(w.files), w.files)
    ensures w.hashed == old(w.hashed) + {Canon(Obj(bundle))} && w.outputs == old(w.outputs)
    ensures entry == BundleEntry(bundleId, path, sha, BundleRef(sha))
  {
    hide Filed, GoodEnv, NoCollision, BundleRef, Sha, BundleEntry, HeldByHash, Canon;
    var ref := w.WriteBundleRefArtifact(bundle, sha);
    return BundleEntry(bundleId, path, sha, ref);
  }

  /** The reply carries a bundle that has the hash its entry promises. */
  ghost predicate Answers(e: Env, p: P.Env, name: string, entry: P.RefEntry, reply: P.Reply) {
    p.store(name).Some? &&
    exists bundle: List<Member> ::
      Sha(e, Obj(bundle)) == entry.sha && reply == Carrying(p, name, entry, Get(bundle, "id"), Obj(bundle))
  }

  /** The reply to an entry that asks for this context: what the proxy makes of the two files, or a failure. */
  ghost predicate AnsweredFrom(b: Build, p: P.Env, name: string, entry: P.RefEntry, contextRef: string) {
    && entry.bundleRef in b.files && contextRef in b.files && p.store(name).Some?
    && var served := Materialize(b.env.text, b.files[entry.bundleRef], b.files[contextRef]);
    P.PlainReply(p, name) ==
      if served.None? then P.Reply502 else Carrying(p, name, entry, Get(served.value, "id"), Obj(served.value))
  }

  function EntryOf(bundleId: string, path: string, sha: string, refs: Refs): P.RefEntry {
    P.RefEntry(bundleId, path, sha, refs.bundleRef, Some(refs.contextRef))
  }

  /**
   A sourced key is answered with a bundle that has exactly the hash its index entry
   promises, if the output is regular; if not, the proxy fails, or the bundle it answers
   with has another hash.
   */
  lemma {:induction false} SourceEntryIsServed(b: Build, o: Output, refs: Refs,
                                               p: P.Env, name: string, bundleId: string, path: string)
    requires Sound(b) && Entered(b, o, refs) && p.text == b.env.text && Published(p, b.files)
    requires P.IsCallkey(name) && Holds(p, name, SourceEntry(bundleId, path, BundleSha(b.env, o).value, refs, o))
    ensures
      var entry := EntryOf(bundleId, path, BundleSha(b.env, o).value, refs);
      && AnsweredFrom(b, p, name, entry, refs.contextRef)
      && var served := Materialize(b.env.text, b.files[refs.bundleRef], b.files[refs.contextRef]);
      && (Regular(b.env, o) ==> served.Some? && Sha(b.env, Obj(served.value)) == entry.sha)
      && (!Regular(b.env, o)
          && NoCollision(b.env, Compared(b.env, o, b.files[refs.bundleRef], b.files[refs.contextRef])) ==>
            served.None? || Sha(b.env, Obj(served.value)) != entry.sha)
  {
    hide GoodEnv, NoCollision, Filed, Occurs, ContextRef, Sourced, BundleSha, OneContext, DocumentOf, BundleRef, Sha;
    hide Published, Holds, Materialize, Regular, Compared, P.AsRefEntry, SourceEntry, P.PlainGenerated, P.Response;
    var sha := BundleSha(b.env, o).value;
    EveryEntryIsServable(b.env, b.files, b.written, b.templates, b.contexts, b.outputs, b.hashed, o);
    SourceEntryIsRef(bundleId, path, sha, refs, o);
    PublishedIsRead(p, b.files, refs.bundleRef);
    PublishedIsRead(p, b.files, refs.contextRef);
    HoldsIsStored(p, name, SourceEntry(bundleId, path, sha, refs, o));
    RefEntryReply(p, name, SourceEntry(bundleId, path, sha, refs, o), EntryOf(bundleId, path, sha, refs));
  }

  lemma HoldsIsStored(p: P.Env, name: string, v: Json)
    requires Holds(p, name, v)
    ensures p.store(name).Some?
  {
  }

  /** An entry with a bundle ref alone is answered with a bundle of exactly the hash it promises. */
  lemma {:induction false} BundleEntryIsServed(b: Build, bundle: List<Member>,
                                               p: P.Env, name: string, bundleId: string, path: string)
    requires Sound(b) && Canon(Obj(bundle)) in b.hashed && Published(p, b.files) && P.IsCallkey(name)
    requires
      var sha := Sha(b.env, Obj(bundle));
      Holds(p, name, BundleEntry(bundleId, path, sha, BundleRef(sha)))
    ensures
      var sha := Sha(b.env, Obj(bundle));
      var ref := BundleRef(sha);
      && ref in b.files && p.store(name).Some?
      && P.PlainReply(p, name) ==
           Carrying(p, name, P.RefEntry(bundleId, path, sha, ref, None), Str(bundleId), b.files[ref])
      && Sha(b.env, b.files[ref]) == sha
      && (NoCollision(b.env, b.hashed) ==> Same(b.files[ref], Obj(bundle)))
  {
    hide GoodEnv, NoCollision, Filed, BundleRef, Sha, Canon;
    hide Published, Holds, P.AsRefEntry, BundleEntry, P.PlainGenerated, P.Response;
    var sha := Sha(b.env, Obj(bundle));
    var ref := BundleRef(sha);
    EveryBundleRefIsServable(b.env, b.files, b.written, b.templates, b.contexts, b.outputs, b.hashed, bundle);
    BundleEntryIsRef(bundleId, path, sha, ref);
    PublishedIsRead(p, b.files, ref);
    HoldsIsStored(p, name, BundleEntry(bundleId, path, sha, ref));
    RefEntryReply(p, name, BundleEntry(bundleId, path, sha, ref), P.RefEntry(bundleId, path, sha, ref, None));
  }

  /** An entry that holds its bundle is answered as it is. */
  lemma ConcreteEntryIsServed(p: P.Env, name: string, bundleId: string, path: string, sha: string, bundle: List<Member>)
    requires P.IsCallkey(name) && Holds(p, name, ConcreteEntry(bundleId, path, sha, bundle))
    ensures p.store(name).Some? && P.PlainReply(p, name) == P.Reply200(p.store(name).value)
  {
    hide P.AsRefEntry, ConcreteEntry;
    ConcreteEntryIsNoRef(bundleId, path, sha, bundle);
  }

  function NameOf(key: string): string { "index/by-callkey/" + key }

  /** The names the proxy treats as index entries are those of keys, each of one key. */
  lemma CallkeyNames(name: string)
    ensures P.IsCallkey(name) <==> exists key :: name == NameOf(key)
    ensures forall a, b :: NameOf(a) == NameOf(b) ==> a == b
  {
    var prefix := "index/by-callkey/";
    if P.IsCallkey(name) { assert name == NameOf(name[|prefix|..]); }
    forall a, b | NameOf(a) == NameOf(b)
      ensures a == b
    {
      assert a == NameOf(a)[|prefix|..] && b == NameOf(b)[|prefix|..];
    }
  }

  /** The store holds the file that the builder wrote for a key of its index. */
  ghost predicate HoldsEntry(p: P.Env, claims: Log<IndexEmission.Claim>, key: string, bundleId: string, refs: Refs,
                             o: Output)
  {
    var index := IndexEmission.Run(claims).index;
    key in index ==> Holds(p, NameOf(key), SourceEntry(bundleId, index[key].path, index[key].sha, refs, o))
  }

  /** Only sourced manifests claim the key, the first of them for this output. */
  ghost predicate SourcedKey(claims: Log<IndexEmission.Claim>, key: string, e: Env, o: Output) {
    && IndexEmission.LastConcrete(claims, key).None? && IndexEmission.FirstSourced(claims, key).Some?
    && BundleSha(e, o) == Some(IndexEmission.FirstSourced(claims, key).value.sha)
  }

  /**
   The whole way.  A key that only sourced manifests claim is in the index with the hash
   of its first claim; and if that claim came from a regular output, then whatever the
   interleaving of requests, reads, expiries and evictions in the proxy, a request for
   the key is answered with a bundle of that hash, or met an upstream error.
   */
  lemma {:induction false} SourcedKeyIsAnswered(claims: Log<IndexEmission.Claim>, key: string, b: Build, o: Output,
                                                refs: Refs, p: P.Env, bundleId: string, run: Log<P.Event>, id: nat)
    requires SourcedKey(claims, key, b.env, o) && Sound(b) && Entered(b, o, refs) && Regular(b.env, o)
    requires p.text == b.env.text && Published(p, b.files) && HoldsEntry(p, claims, key, bundleId, refs, o)
    requires P.HonestRun(p, run) && id in P.Reach(p, run).tasks
    requires P.Reach(p, run).tasks[id].Done? && P.Reach(p, run).tasks[id].name == NameOf(key)
    ensures
      var c, reply := IndexEmission.FirstSourced(claims, key).value, P.Reach(p, run).tasks[id].reply;
      || (reply.Reply502? && id in P.Reach(p, run).failed)
      || Answers(b.env, p, NameOf(key), EntryOf(bundleId, c.path, c.sha, refs), reply)
  {
    hide Sound, Entered, Sha, Published, Materialize, Compared, SourceEntry, Carrying, P.PlainReply, P.HonestRun;
    hide P.Reach;
    hide Regular, BundleSha, Holds, NoCollision;
    var c := IndexEmission.FirstSourced(claims, key).value;
    assert key in IndexEmission.Run(claims).index
           && IndexEmission.Run(claims).index[key] == IndexEmission.Entry(c.path, c.sha, true) by {
      IndexEmission.KeyIsShown(claims, key);
    }
    SourceEntryIsServed(b, o, refs, p, NameOf(key), bundleId, c.path);
    P.RepliesArePlain(p, run, id);
  }
}
