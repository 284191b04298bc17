/**
 The builder's writer of shared objects: one file per template, named by the hash of
 its canonical form, and one context file per (source, chain, address).  Nothing
 written is ever changed, so what an index entry refers to stays what it was.
 */
module SourceArtifacts {
  import opened Options
  import opened Logs
  import opened Jsons
  import opened SourceBundles

  /** `template(id)` is the manifest object whose identity is `id`. */
  datatype Env = Env(text: Text, hash: Canonical -> string, template: nat -> List<Member>)

  /** The hash prints in lower case, and manifests are JavaScript objects. */
  ghost predicate GoodEnv(e: Env) {
    && (forall a :: Lower(e.hash(a)) == e.hash(a))
    && (forall id :: ProperMembers(e.template(id)))
  }

  /** The hash tells these canonical forms apart, as it does in any build that meets no collision. */
  ghost predicate NoCollision(e: Env, objects: set<Canonical>) {
    forall a, b :: a in objects && b in objects && e.hash(a) == e.hash(b) ==> a == b
  }

  /** One address of a sourced manifest. */
  datatype Output = Output(templateId: nat, source: string, chainId: int, entry: Address)

  datatype Refs = Refs(bundleRef: string, templateSha: string, contextRef: string, contextSha: string)

  function Sha(e: Env, v: Json): string { e.hash(Canon(v)) }

  function BundleRef(sha: string): string { "bundles/" + Lower(sha) + ".json" }

  function SanitizeAll(t: Text, parts: seq<string>): (r: seq<string>)
    ensures |r| == |parts| && forall i :: 0 <= i < |parts| ==> r[i] == t.sanitize(parts[i])
  {
    if parts == [] then [] else [t.sanitize(parts[0])] + SanitizeAll(t, parts[1..])
  }

  /** `sourceContextRef`: `None` where it throws. */
  function ContextRef(e: Env, o: Output): Option<string> {
    var parts := SanitizeAll(e.text, Split(o.source, ':'));
    if "" in parts then None
    else Some("contexts/" + Join(parts, '/') + "/" + e.text.show(o.chainId) + "/" + Lower(o.entry.address) + ".json")
  }

  /** Two texts with the same last segment after a slash have the same rest, when that segment has no slash. */
  lemma LastSegment(x: string, a: string, y: string, b: string)
    requires '/' !in a && '/' !in b && x + "/" + a == y + "/" + b
    ensures x == y && a == b
  {
    var whole := x + "/" + a;
    assert whole[|x|] == '/' && whole[|x| + 1..] == a && whole[..|x|] == x;
    assert whole[|y|] == '/' && whole[|y| + 1..] == b && whole[..|y|] == y;
    OneIsLast(whole, '/', |x|, |y|);
  }

  /** What a context ref is made of; `None` when nothing is left of some part of the source's name. */
  lemma ContextRefExactly(e: Env, o: Output)
    ensures
      var names := Split(o.source, ':');
      && (ContextRef(e, o).None? <==> exists i :: 0 <= i < |names| && e.text.sanitize(names[i]) == "")
      && (ContextRef(e, o).Some? ==> exists parts ::
            && |parts| == |names| && (forall i :: 0 <= i < |names| ==> parts[i] == e.text.sanitize(names[i]))
            && ContextRef(e, o).value == "contexts/" + Join(parts, '/') + "/" + e.text.show(o.chainId) + "/" +
                                         Lower(o.entry.address) + ".json")
  {
    hide Join, Split, Lower;
    var names := Split(o.source, ':');
    var parts := SanitizeAll(e.text, names);
    if "" in parts {
      var i :| 0 <= i < |parts| && parts[i] == "";
      assert e.text.sanitize(names[i]) == "";
    }
  }

  /** The source's name as it stands in a context ref. */
  function SourceFolder(e: Env, o: Output): string { Join(SanitizeAll(e.text, Split(o.source, ':')), '/') }

  /**
   Two outputs have the same context ref exactly when they are of one contract: the same
   chain, the same address up to case, and a source whose name leaves the same text.
   */
  lemma SameRefExactly(e: Env, o: Output, p: Output)
    requires ContextRef(e, o).Some? && ContextRef(e, p).Some?
    requires '/' !in o.entry.address && '/' !in p.entry.address
    requires '/' !in e.text.show(o.chainId) && '/' !in e.text.show(p.chainId)
    ensures ContextRef(e, o) == ContextRef(e, p) <==>
            && SourceFolder(e, o) == SourceFolder(e, p)
            && e.text.show(o.chainId) == e.text.show(p.chainId)
            && Lower(o.entry.address) == Lower(p.entry.address)
  {
    hide Join, Split, Lower, SanitizeAll;
    NoSlashInLower(o.entry.address);
    NoSlashInLower(p.entry.address);
    var x := SourceFolder(e, o) + "/" + e.text.show(o.chainId);
    var y := SourceFolder(e, p) + "/" + e.text.show(p.chainId);
    var a, b := Lower(o.entry.address), Lower(p.entry.address);
    assert ContextRef(e, o).value == "contexts/" + (x + "/" + a) + ".json";
    assert ContextRef(e, p).value == "contexts/" + (y + "/" + b) + ".json";
    if ContextRef(e, o) == ContextRef(e, p) {
      Between("contexts/", x + "/" + a, y + "/" + b, ".json");
      LastSegment(x, a, y, b);
      LastSegment(SourceFolder(e, o), e.text.show(o.chainId), SourceFolder(e, p), e.text.show(p.chainId));
    }
  }

  lemma Between(before: string, x: string, y: string, after: string)
    requires before + x + after == before + y + after
    ensures x == y
  {
    var whole := before + x + after;
    assert |x| == |y|;
    assert whole[|before|..|before| + |x|] == x && whole[|before|..|before| + |x|] == y;
  }

  lemma NoSlashInLower(s: string)
    requires '/' !in s
    ensures '/' !in Lower(s)
  {
    forall i | 0 <= i < |s| ensures Lower(s)[i] != '/' {
      assert s[i] in s;
    }
  }

  function DocumentOf(e: Env, o: Output): Json { ContextDocument(e.text, o.source, o.chainId, o.entry) }

  /** The context document of the first output with this context ref. */
  function FirstDocument(e: Env, outputs: Log<Output>, ref: string): Option<Json> {
    match outputs
    case Start => None
    case Then(past, o) =>
      match FirstDocument(e, past, ref)
      case Some(d) => Some(d)
      case None => if ContextRef(e, o) == Some(ref) then Some(DocumentOf(e, o)) else None
  }

  predicate IsBundleRef(ref: string) { "bundles/" <= ref }

  predicate IsContextRef(ref: string) { "contexts/" <= ref }

  lemma BundleRefIsBundleRef(sha: string)
    ensures IsBundleRef(BundleRef(sha))
  {
  }

  lemma ContextRefIsContextRef(e: Env, o: Output)
    requires ContextRef(e, o).Some?
    ensures IsContextRef(ContextRef(e, o).value)
  {
  }

  lemma KindsAreApart(ref: string)
    requires IsBundleRef(ref)
    ensures !IsContextRef(ref)
  {
    assert ref[0] == 'b';
    assert "contexts/"[0] == 'c';
  }

  lemma HashIsLower(e: Env, v: Json)
    requires GoodEnv(e)
    ensures Lower(Sha(e, v)) == Sha(e, v)
  {
  }

  lemma BundleRefIsInjective(a: string, b: string)
    requires Lower(a) == a && Lower(b) == b && BundleRef(a) == BundleRef(b)
    ensures a == b
  {
    assert BundleRef(a)[8..|BundleRef(a)| - 5] == a;
    assert BundleRef(b)[8..|BundleRef(b)| - 5] == b;
  }

  // ---- the writer's bookkeeping ----

  type Shas = map<string, string>

  /**
   Files are filed under the hash of what they hold, contexts under their address.
   `hashed` are the canonical forms of all objects asked to be filed under their hash.
   */
  ghost predicate FilesOk(e: Env, files: map<string, Json>, written: Shas, contexts: Shas, hashed: set<Canonical>) {
    && files.Keys == written.Keys
    && (forall ref :: ref in files ==> written[ref] == Sha(e, files[ref]))
    && (forall ref :: ref in files ==>
          ref in contexts || (ref == BundleRef(written[ref]) && Proper(files[ref]) && Canon(files[ref]) in hashed))
    && (forall c :: c in hashed ==> BundleRef(e.hash(c)) in files)
  }

  ghost predicate TemplatesOk(e: Env, templates: map<nat, string>, hashed: set<Canonical>) {
    forall id :: id in templates ==>
      templates[id] == Sha(e, Obj(e.template(id))) && Canon(Obj(e.template(id))) in hashed
  }

  ghost predicate ContextsOk(e: Env, contexts: Shas, files: map<string, Json>, outputs: Log<Output>) {
    && (forall ref :: ref in contexts ==>
          && IsContextRef(ref) && ref in files && contexts[ref] == Sha(e, files[ref])
          && FirstDocument(e, outputs, ref) == Some(files[ref]))
    && (forall ref :: ref !in contexts ==> FirstDocument(e, outputs, ref).None?)
  }

  /** The whole of the bookkeeping. */
  ghost predicate Filed(e: Env, files: map<string, Json>, written: Shas, templates: map<nat, string>, contexts: Shas,
                        outputs: Log<Output>, hashed: set<Canonical>)
  {
    && FilesOk(e, files, written, contexts, hashed)
    && TemplatesOk(e, templates, hashed)
    && ContextsOk(e, contexts, files, outputs)
    && Covered(outputs, templates)
  }

  /** Every output's template is on file. */
  predicate Covered(outputs: Log<Output>, templates: map<nat, string>) {
    outputs.Then? ==> outputs.last.templateId in templates && Covered(outputs.past, templates)
  }

  lemma {:induction false} CoveredGrows(outputs: Log<Output>, templates: map<nat, string>, id: nat, sha: string)
    requires Covered(outputs, templates)
    ensures Covered(outputs, templates[id := sha])
  {
    if outputs.Then? { CoveredGrows(outputs.past, templates, id, sha); }
  }

  lemma HashNameIsNoContext(e: Env, files: map<string, Json>, contexts: Shas, outputs: Log<Output>, sha: string)
    requires ContextsOk(e, contexts, files, outputs)
    ensures BundleRef(sha) !in contexts
  {
    hide BundleRef, FirstDocument, IsBundleRef, IsContextRef;
    BundleRefIsBundleRef(sha);
    KindsAreApart(BundleRef(sha));
  }

  /** A name made of a hash either is free or already holds an object of that hash. */
  lemma HashNameIsSafe(e: Env, files: map<string, Json>, written: Shas, contexts: Shas, outputs: Log<Output>,
                       hashed: set<Canonical>, sha: string)
    requires GoodEnv(e) && FilesOk(e, files, written, contexts, hashed) && ContextsOk(e, contexts, files, outputs)
    requires Lower(sha) == sha && BundleRef(sha) in written
    ensures
      var ref := BundleRef(sha);
      && ref !in contexts && written[ref] == sha
      && ref in files && Proper(files[ref]) && Sha(e, files[ref]) == sha && Canon(files[ref]) in hashed
  {
    hide BundleRef, FirstDocument, IsBundleRef, IsContextRef, Proper;
    HashNameIsNoContext(e, files, contexts, outputs, sha);
    BundleRefIsInjective(sha, written[BundleRef(sha)]);
  }

  /** An object filed under its hash is still there, unless the hash failed to tell it from another one. */
  lemma HashedIsOnFile(e: Env, files: map<string, Json>, written: Shas, contexts: Shas, outputs: Log<Output>,
                       hashed: set<Canonical>, c: Canonical)
    requires GoodEnv(e) && FilesOk(e, files, written, contexts, hashed) && ContextsOk(e, contexts, files, outputs)
    requires c in hashed
    ensures
      var ref := BundleRef(e.hash(c));
      && ref in files && Proper(files[ref]) && Sha(e, files[ref]) == e.hash(c)
      && (NoCollision(e, hashed) ==> Canon(files[ref]) == c)
  {
    hide BundleRef, FirstDocument, IsBundleRef, IsContextRef, Proper;
    assert Lower(e.hash(c)) == e.hash(c);
    HashNameIsSafe(e, files, written, contexts, outputs, hashed, e.hash(c));
  }

  lemma FilesAdd(e: Env, files: map<string, Json>, written: Shas, contexts: Shas, hashed: set<Canonical>, value: Json)
    requires FilesOk(e, files, written, contexts, hashed) && Proper(value)
    requires BundleRef(Sha(e, value)) !in written
    ensures
      var ref := BundleRef(Sha(e, value));
      FilesOk(e, files[ref := value], written[ref := Sha(e, value)], contexts, hashed + {Canon(value)})
  {
    hide BundleRef, Proper, Canon;
    var ref := BundleRef(Sha(e, value));
    var files', written' := files[ref := value], written[ref := Sha(e, value)];
    assert files'.Keys == written'.Keys;
    forall c | c in hashed + {Canon(value)} ensures BundleRef(e.hash(c)) in files' {
      if c in hashed { assert BundleRef(e.hash(c)) in files; }
    }
  }

  lemma TemplatesGrow(e: Env, templates: map<nat, string>, hashed: set<Canonical>, c: Canonical)
    requires TemplatesOk(e, templates, hashed)
    ensures TemplatesOk(e, templates, hashed + {c})
  {
    hide Canon;
  }

  lemma ContextsKeep(e: Env, contexts: Shas, files: map<string, Json>, outputs: Log<Output>, ref: string, value: Json)
    requires ContextsOk(e, contexts, files, outputs) && ref !in files
    ensures ContextsOk(e, contexts, files[ref := value], outputs)
  {
    hide Canon, FirstDocument, IsContextRef;
  }

  /** What filing an object under its hash does, where the name is new. */
  lemma AddHashed(e: Env, files: map<string, Json>, written: Shas, templates: map<nat, string>, contexts: Shas,
                  outputs: Log<Output>, hashed: set<Canonical>, value: Json)
    requires Filed(e, files, written, templates, contexts, outputs, hashed) && Proper(value)
    requires BundleRef(Sha(e, value)) !in written
    ensures
      var ref := BundleRef(Sha(e, value));
      Filed(e, files[ref := value], written[ref := Sha(e, value)], templates, contexts, outputs,
            hashed + {Canon(value)})
  {
    FilesAreWritten(e, files, written, templates, contexts, outputs, hashed);
    hide BundleRef, Proper, Canon, Sha, Covered, FilesOk, TemplatesOk, ContextsOk;
    FilesAdd(e, files, written, contexts, hashed, value);
    TemplatesGrow(e, templates, hashed, Canon(value));
    ContextsKeep(e, contexts, files, outputs, BundleRef(Sha(e, value)), value);
  }

  /** And where the name is taken. */
  lemma AgainHashed(e: Env, files: map<string, Json>, written: Shas, templates: map<nat, string>, contexts: Shas,
                    outputs: Log<Output>, hashed: set<Canonical>, value: Json)
    requires Filed(e, files, written, templates, contexts, outputs, hashed)
    requires BundleRef(Sha(e, value)) in written
    ensures Filed(e, files, written, templates, contexts, outputs, hashed + {Canon(value)})
  {
    hide BundleRef, Proper, Canon, Covered, TemplatesOk, ContextsOk;
    TemplatesGrow(e, templates, hashed, Canon(value));
    assert FilesOk(e, files, written, contexts, hashed + {Canon(value)});
  }

  /** What is on file under the hash of an object that was filed. */
  ghost predicate HeldByHash(e: Env, files: map<string, Json>, hashed: set<Canonical>, value: Json) {
    var ref := BundleRef(Sha(e, value));
    && ref in files && Proper(files[ref]) && Sha(e, files[ref]) == Sha(e, value)
    && (NoCollision(e, hashed) ==> Same(files[ref], value))
  }

  lemma FiledIsHeld(e: Env, files: map<string, Json>, written: Shas, templates: map<nat, string>, contexts: Shas,
                    outputs: Log<Output>, hashed: set<Canonical>, value: Json)
    requires GoodEnv(e) && Filed(e, files, written, templates, contexts, outputs, hashed) && Canon(value) in hashed
    ensures HeldByHash(e, files, hashed, value)
  {
    FiledParts(e, files, written, templates, contexts, outputs, hashed);
    hide GoodEnv, BundleRef, Proper, Canon, NoCollision, Filed, FilesOk, ContextsOk;
    HashedIsOnFile(e, files, written, contexts, outputs, hashed, Canon(value));
  }

  /** A name that is taken is taken under the same hash. */
  lemma TakenIsSame(e: Env, files: map<string, Json>, written: Shas, templates: map<nat, string>, contexts: Shas,
                    outputs: Log<Output>, hashed: set<Canonical>, value: Json)
    requires GoodEnv(e) && Filed(e, files, written, templates, contexts, outputs, hashed)
    requires BundleRef(Sha(e, value)) in written
    ensures written[BundleRef(Sha(e, value))] == Sha(e, value)
  {
    FiledParts(e, files, written, templates, contexts, outputs, hashed);
    HashIsLower(e, value);
    hide GoodEnv, BundleRef, Proper, Canon, Filed, FilesOk, ContextsOk;
    HashNameIsSafe(e, files, written, contexts, outputs, hashed, Sha(e, value));
  }

  lemma AddTemplate(e: Env, files: map<string, Json>, written: Shas, templates: map<nat, string>, contexts: Shas,
                    outputs: Log<Output>, hashed: set<Canonical>, id: nat)
    requires Filed(e, files, written, templates, contexts, outputs, hashed)
    requires Canon(Obj(e.template(id))) in hashed
    ensures Filed(e, files, written, templates[id := Sha(e, Obj(e.template(id)))], contexts, outputs, hashed)
  {
    hide BundleRef, FirstDocument, IsBundleRef, IsContextRef, FilesOk, ContextsOk, Canon;
    CoveredGrows(outputs, templates, id, Sha(e, Obj(e.template(id))));
  }

  /** A context ref with no context on file names no file at all. */
  lemma NewContextIsFree(e: Env, files: map<string, Json>, written: Shas, contexts: Shas, hashed: set<Canonical>,
                         o: Output,
                         ref: string)
    requires FilesOk(e, files, written, contexts, hashed) && ContextRef(e, o) == Some(ref) && ref !in contexts
    ensures ref !in files && IsContextRef(ref)
  {
    hide BundleRef, IsBundleRef, IsContextRef, ContextRef;
    ContextRefIsContextRef(e, o);
    if ref in files {
      BundleRefIsBundleRef(written[ref]);
      KindsAreApart(ref);
    }
  }

  lemma AddContext(e: Env, files: map<string, Json>, written: Shas, templates: map<nat, string>, contexts: Shas,
                   outputs: Log<Output>, hashed: set<Canonical>, o: Output, ref: string)
    requires Filed(e, files, written, templates, contexts, outputs, hashed)
    requires ContextRef(e, o) == Some(ref) && ref !in contexts && o.templateId in templates
    ensures
      var doc := DocumentOf(e, o);
      && ref !in files
      && Filed(e, files[ref := doc], written[ref := Sha(e, doc)], templates, contexts[ref := Sha(e, doc)],
               Then(outputs, o), hashed)
      && FirstDocument(e, Then(outputs, o), ref) == Some(doc)
  {
    hide BundleRef, IsBundleRef, IsContextRef, ContextRef, DocumentOf, Canon, Proper, TemplatesOk;
    NewContextIsFree(e, files, written, contexts, hashed, o, ref);
    var doc := DocumentOf(e, o);
    AddContextDocument(e, files, contexts, outputs, o, ref);
    assert FilesOk(e, files[ref := doc], written[ref := Sha(e, doc)], contexts[ref := Sha(e, doc)], hashed);
  }

  lemma AddContextDocument(e: Env, files: map<string, Json>, contexts: Shas, outputs: Log<Output>, o: Output,
                           ref: string)
    requires ContextsOk(e, contexts, files, outputs)
    requires ContextRef(e, o) == Some(ref) && ref !in contexts && ref !in files && IsContextRef(ref)
    ensures
      var doc := DocumentOf(e, o);
      && ContextsOk(e, contexts[ref := Sha(e, doc)], files[ref := doc], Then(outputs, o))
      && FirstDocument(e, Then(outputs, o), ref) == Some(doc)
  {
    hide IsContextRef, ContextRef, DocumentOf, Canon;
  }

  /** A second output with a known context ref changes nothing on file. */
  lemma RepeatContext(e: Env, files: map<string, Json>, written: Shas, templates: map<nat, string>, contexts: Shas,
                      outputs: Log<Output>, hashed: set<Canonical>, o: Output, ref: string)
    requires Filed(e, files, written, templates, contexts, outputs, hashed)
    requires ContextRef(e, o) == Some(ref) && ref in contexts && o.templateId in templates
    ensures Filed(e, files, written, templates, contexts, Then(outputs, o), hashed)
    ensures ref in files && FirstDocument(e, Then(outputs, o), ref) == Some(files[ref])
  {
    hide BundleRef, IsBundleRef, IsContextRef, ContextRef, DocumentOf, FilesOk, TemplatesOk, Canon;
  }

  /** Nothing written before is changed. */
  ghost predicate OnlyAdds(before: map<string, Json>, after: map<string, Json>) {
    forall ref :: ref in before ==> ref in after && after[ref] == before[ref]
  }

  class ArtifactWriter {
    const env: Env
    /** The registry's generated objects. */
    var files: map<string, Json>
    var writeCache: Shas
    var templateCache: map<nat, string>
    var contextCache: Shas
    /** The source-ref outputs written so far. */
    ghost var outputs: Log<Output>
    /** The canonical forms of the objects filed under their hash so far. */
    ghost var hashed: set<Canonical>

    ghost predicate Valid()
      reads this
    {
      Filed(env, files, writeCache, templateCache, contextCache, outputs, hashed)
    }

    constructor (env: Env)
      ensures Valid() && this.env == env && files == map[] && outputs == Start && hashed == {}
    {
      this.env := env;
      files, writeCache, templateCache, contextCache := map[], map[], map[], map[];
      outputs, hashed := Start, {};
    }

    /** `writeGeneratedJsonObject`; false where it throws on a collision. */
    method WriteGeneratedJsonObject(ref: string, value: Json, sha: string) returns (ok: bool)
      modifies this`files, this`writeCache
      ensures ok <==> ref !in old(writeCache) || old(writeCache)[ref] == sha
      ensures if ref in old(writeCache) then files == old(files) && writeCache == old(writeCache)
              else files == old(files)[ref := value] && writeCache == old(writeCache)[ref := sha]
    {
      if ref in writeCache { return writeCache[ref] == sha; }
      writeCache := writeCache[ref := sha];
      files := files[ref := value];
      return true;
    }

    /** Write an object under the name of its own hash; this never throws. */
    method WriteByHash(value: Json, sha: string) returns (ref: string)
      requires Valid() && GoodEnv(env) && Proper(value) && sha == Sha(env, value)
      modifies this`files, this`writeCache, this`hashed
      ensures Valid() && OnlyAdds(old(files), files) && hashed == old(hashed) + {Canon(value)}
      ensures ref == BundleRef(sha) && HeldByHash(env, files, hashed, value)
    {
      hide BundleRef, Filed, GoodEnv, Proper, Canon, Sha, NoCollision, HeldByHash;
      ref := BundleRef(sha);
      FilesAreWritten(env, files, writeCache, templateCache, contextCache, outputs, hashed);
      if ref in writeCache {
        TakenIsSame(env, files, writeCache, templateCache, contextCache, outputs, hashed, value);
        AgainHashed(env, files, writeCache, templateCache, contextCache, outputs, hashed, value);
      } else {
        AddHashed(env, files, writeCache, templateCache, contextCache, outputs, hashed, value);
      }
      var ok := WriteGeneratedJsonObject(ref, value, sha);
      assert ok;
      hashed := hashed + {Canon(value)};
      FiledIsHeld(env, files, writeCache, templateCache, contextCache, outputs, hashed, value);
    }

    /** `writeBundleRefArtifact` */
    method WriteBundleRefArtifact(bundle: List<Member>, sha: string) returns (ref: string)
      requires Valid() && GoodEnv(env) && ProperMembers(bundle) && sha == Sha(env, Obj(bundle))
      modifies this`files, this`writeCache, this`hashed
      ensures Valid() && OnlyAdds(old(files), files) && hashed == old(hashed) + {Canon(Obj(bundle))}
      ensures ref == BundleRef(sha) && HeldByHash(env, files, hashed, Obj(bundle))
    {
      ref := WriteByHash(Obj(bundle), sha);
    }

    /** The template half of `writeSourceRefArtifacts`. */
    method WriteTemplate(id: nat) returns (sha: string)
      requires Valid() && GoodEnv(env)
      modifies this`files, this`writeCache, this`templateCache, this`hashed
      ensures Valid() && OnlyAdds(old(files), files) && hashed == old(hashed) + {Canon(Obj(env.template(id)))}
      ensures id in templateCache && sha == Sha(env, Obj(env.template(id)))
      ensures HeldByHash(env, files, hashed, Obj(env.template(id)))
    {
      assert Proper(Obj(env.template(id)));
      FilesAreWritten(env, files, writeCache, templateCache, contextCache, outputs, hashed);
      ghost var hadTemplate := id in templateCache;
      if hadTemplate { FiledTemplate(env, files, writeCache, templateCache, contextCache, outputs, hashed, id); }
      hide BundleRef, Filed, GoodEnv, Proper, Canon, Sha, HeldByHash;
      if id !in templateCache {
        var made := Sha(env, Obj(env.template(id)));
        var ref := WriteByHash(Obj(env.template(id)), made);
        AddTemplate(env, files, writeCache, templateCache, contextCache, outputs, hashed, id);
        templateCache := templateCache[id := made];
      }
      sha := templateCache[id];
      FiledIsHeld(env, files, writeCache, templateCache, contextCache, outputs, hashed, Obj(env.template(id)));
    }

    /** `writeSourceRefArtifacts`: `None` where it throws. */
    method WriteSourceRefArtifacts(o: Output) returns (r: Option<Refs>)
      requires Valid() && GoodEnv(env)
      modifies this
      ensures Valid() && OnlyAdds(old(files), files) && hashed == old(hashed) + {Canon(Obj(env.template(o.templateId)))}
      ensures r.Some? <==> ContextRef(env, o).Some?
      ensures outputs == if r.Some? then Then(old(outputs), o) else old(outputs)
      ensures r.Some? ==>
                && r.value.templateSha == Sha(env, Obj(env.template(o.templateId)))
                && r.value.bundleRef == BundleRef(r.value.templateSha)
                && HeldByHash(env, files, hashed, Obj(env.template(o.templateId)))
                && ContextRef(env, o) == Some(r.value.contextRef)
                && r.value.contextRef in files && r.value.contextSha == Sha(env, files[r.value.contextRef])
                && FirstDocument(env, outputs, r.value.contextRef) == Some(files[r.value.contextRef])
    {
      hide BundleRef, Filed, GoodEnv, Canon, Sha, HeldByHash, FirstDocument, ContextRef;
      var sha := WriteTemplate(o.templateId);
      var contextRef := ContextRef(env, o);
      if contextRef.None? { return None; }
      var ref := contextRef.value;
      WriteContext(o, ref);
      FiledIsHeld(env, files, writeCache, templateCache, contextCache, outputs, hashed,
                  Obj(env.template(o.templateId)));
      return Some(Refs(BundleRef(sha), sha, ref, contextCache[ref]));
    }

    /** The context half of `writeSourceRefArtifacts`. */
    method WriteContext(o: Output, ref: string)
      requires Valid() && ContextRef(env, o) == Some(ref) && o.templateId in templateCache
      modifies this`files, this`writeCache, this`contextCache, this`outputs
      ensures Valid() && OnlyAdds(old(files), files) && outputs == Then(old(outputs), o)
      ensures ref in contextCache && ref in files && contextCache[ref] == Sha(env, files[ref])
      ensures FirstDocument(env, outputs, ref) == Some(files[ref])
    {
      hide Filed, FirstDocument, ContextRef, DocumentOf, Canon;
      if ref !in contextCache {
        var doc := DocumentOf(env, o);
        AddContext(env, files, writeCache, templateCache, contextCache, outputs, hashed, o, ref);
        FilesAreWritten(env, files, writeCache, templateCache, contextCache, outputs, hashed);
        var ok := WriteGeneratedJsonObject(ref, doc, Sha(env, doc));
        contextCache := contextCache[ref := Sha(env, doc)];
        outputs := Then(outputs, o);
      } else {
        RepeatContext(env, files, writeCache, templateCache, contextCache, outputs, hashed, o, ref);
        FiledParts(env, files, writeCache, templateCache, contextCache, outputs, hashed);
        outputs := Then(outputs, o);
      }
    }
  }

  lemma FilesAreWritten(e: Env, files: map<string, Json>, written: Shas, templates: map<nat, string>, contexts: Shas,
                        outputs: Log<Output>, hashed: set<Canonical>)
    requires Filed(e, files, written, templates, contexts, outputs, hashed)
    ensures files.Keys == written.Keys
  {
  }

  lemma FiledTemplate(e: Env, files: map<string, Json>, written: Shas, templates: map<nat, string>, contexts: Shas,
                      outputs: Log<Output>, hashed: set<Canonical>, id: nat)
    requires Filed(e, files, written, templates, contexts, outputs, hashed) && id in templates
    ensures templates[id] == Sha(e, Obj(e.template(id)))
    ensures hashed == hashed + {Canon(Obj(e.template(id)))}
  {
    hide FilesOk, ContextsOk, Canon, Covered;
  }

  lemma FiledParts(e: Env, files: map<string, Json>, written: Shas, templates: map<nat, string>, contexts: Shas,
                   outputs: Log<Output>, hashed: set<Canonical>)
    requires Filed(e, files, written, templates, contexts, outputs, hashed)
    ensures FilesOk(e, files, written, contexts, hashed) && TemplatesOk(e, templates, hashed)
    ensures ContextsOk(e, contexts, files, outputs) && Covered(outputs, templates)
  {
  }

  // ---- what the proxy will serve from those files ----

  /** The hash the builder writes beside the refs. */
  function BundleSha(e: Env, o: Output): Option<string> {
    match BuiltBundle(e, o)
    case None => None
    case Some(b) => Some(Sha(e, Obj(b)))
  }

  lemma TemplateIsProper(e: Env, id: nat)
    requires GoodEnv(e)
    ensures ProperMembers(e.template(id))
  {
  }

  /** An address and template on which builder and proxy agree. */
  predicate Regular(e: Env, o: Output) {
    var bundle, context := e.template(o.templateId), Obj(BuildSourceContext(e.text, o.chainId, o.entry));
    && Sourced(bundle)
    && BuildMaterialized(e.text, bundle, o.chainId, o.entry).Some?
    && Lower(o.entry.address) == o.entry.address
    && Get(SubstMembers(e.text, bundle, context).value, "id").Str?
    && SelectorIsLiteral(e.text, bundle, context)
  }

  /** The proxy rebuilds, from this template and context, a bundle of the indexed hash. */
  predicate ServedRight(e: Env, o: Output, template: Json, contextDoc: Json) {
    var served := Materialize(e.text, template, contextDoc);
    served.Some? && BundleSha(e, o) == Some(Sha(e, Obj(served.value)))
  }

  function BuiltBundle(e: Env, o: Output): Option<List<Member>> {
    BuildMaterialized(e.text, e.template(o.templateId), o.chainId, o.entry)
  }

  /** The bundle that is indexed for an output, if there is one. */
  ghost function Indexed(e: Env, o: Output): set<Canonical> {
    if BuiltBundle(e, o).Some? then {Canon(Obj(BuiltBundle(e, o).value))} else {}
  }

  /** The bundle that was indexed, and the one that is served. */
  ghost function Compared(e: Env, o: Output, template: Json, contextDoc: Json): set<Canonical> {
    var served := Materialize(e.text, template, contextDoc);
    Indexed(e, o) + (if served.Some? then {Canon(Obj(served.value))} else {})
  }

  /**
   For an output whose own context document is the one on file, the bundle the proxy
   rebuilds has the hash that the builder put in the index entry exactly when the output
   is regular.  Only the converse needs the hash to tell the two bundles apart.
   */
  lemma ServedBundleHasIndexedHash(e: Env, o: Output, template: Json, contextDoc: Json)
    requires GoodEnv(e) && Sourced(e.template(o.templateId)) && BundleSha(e, o).Some?
    requires Proper(template) && Same(template, Obj(e.template(o.templateId)))
    requires contextDoc == DocumentOf(e, o)
    ensures Regular(e, o) ==> ServedRight(e, o, template, contextDoc)
    ensures ServedRight(e, o, template, contextDoc) && NoCollision(e, Compared(e, o, template, contextDoc)) ==>
              Regular(e, o)
  {
    hide Materialize, BuildMaterialized, SubstMembers, GoodEnv, ContextDocument, BuildSourceContext, SelectorIsLiteral;
    hide Sourced;
    var bundle := e.template(o.templateId);
    TemplateIsProper(e, o.templateId);
    ServeAgreesCanonically(e.text, bundle, o.source, o.chainId, o.entry);
    MaterializeSame(e.text, template.members, bundle, contextDoc);
  }

  lemma {:induction false} OccurringIsOnFile(e: Env, outputs: Log<Output>, o: Output, templates: map<nat, string>)
    requires Occurs(outputs, o) && Covered(outputs, templates) && ContextRef(e, o).Some?
    ensures o.templateId in templates
    ensures FirstDocument(e, outputs, ContextRef(e, o).value).Some?
  {
    if outputs.last != o { OccurringIsOnFile(e, outputs.past, o, templates); }
  }

  /** Every output with this context ref has this context document. */
  predicate OneContext(e: Env, outputs: Log<Output>, ref: string, doc: Json) {
    match outputs
    case Start => true
    case Then(past, o) => (ContextRef(e, o) == Some(ref) ==> DocumentOf(e, o) == doc) && OneContext(e, past, ref, doc)
  }

  /** With one context per (source, chain, address), the file on record is each output's own. */
  lemma {:induction false} OneContextIsOnFile(e: Env, outputs: Log<Output>, ref: string, doc: Json)
    requires OneContext(e, outputs, ref, doc) && FirstDocument(e, outputs, ref).Some?
    ensures FirstDocument(e, outputs, ref) == Some(doc)
  {
    if FirstDocument(e, outputs.past, ref).Some? { OneContextIsOnFile(e, outputs.past, ref, doc); }
  }

  /**
   At any later time, every output with one context of its own is served, from the files
   its entry refers to, as a bundle with exactly the indexed hash if it is regular, and
   only then.  The hash need only tell apart what this build has filed and compared.
   */
  lemma EveryEntryIsServable(e: Env, files: map<string, Json>, written: Shas, templates: map<nat, string>,
                             contexts: Shas, outputs: Log<Output>, hashed: set<Canonical>, o: Output)
    requires GoodEnv(e) && NoCollision(e, hashed) && Filed(e, files, written, templates, contexts, outputs, hashed)
    requires Occurs(outputs, o) && ContextRef(e, o).Some?
    requires Sourced(e.template(o.templateId)) && BundleSha(e, o).Some?
    requires OneContext(e, outputs, ContextRef(e, o).value, DocumentOf(e, o))
    ensures
      var bundleRef, contextRef := BundleRef(Sha(e, Obj(e.template(o.templateId)))), ContextRef(e, o).value;
      && bundleRef in files && contextRef in files
      && (Regular(e, o) ==> ServedRight(e, o, files[bundleRef], files[contextRef]))
      && (ServedRight(e, o, files[bundleRef], files[contextRef]) ==>
            NoCollision(e, Compared(e, o, files[bundleRef], files[contextRef])) ==> Regular(e, o))
  {
    OccurringIsOnFile(e, outputs, o, templates);
    FiledParts(e, files, written, templates, contexts, outputs, hashed);
    hide GoodEnv, BundleRef, Regular, OneContext, Materialize, BundleSha, FirstDocument, Covered, Occurs, Proper, Canon;
    hide DocumentOf, FilesOk, NoCollision, Sourced, Compared, ServedRight;
    HashedIsOnFile(e, files, written, contexts, outputs, hashed, Canon(Obj(e.template(o.templateId))));
    OneContextIsOnFile(e, outputs, ContextRef(e, o).value, DocumentOf(e, o));
    ServedBundleHasIndexedHash(e, o, files[BundleRef(Sha(e, Obj(e.template(o.templateId))))], DocumentOf(e, o));
  }

  /**
   At any later time, a bundle that was written under its hash is what its ref names, in
   some order of members: an entry with a bundle ref alone is served with its indexed hash.
   */
  lemma EveryBundleRefIsServable(e: Env, files: map<string, Json>, written: Shas, templates: map<nat, string>,
                                 contexts: Shas, outputs: Log<Output>, hashed: set<Canonical>, bundle: List<Member>)
    requires GoodEnv(e) && Filed(e, files, written, templates, contexts, outputs, hashed)
    requires Canon(Obj(bundle)) in hashed
    ensures
      var ref := BundleRef(Sha(e, Obj(bundle)));
      && ref in files && Sha(e, files[ref]) == Sha(e, Obj(bundle))
      && (NoCollision(e, hashed) ==> Same(files[ref], Obj(bundle)))
  {
    hide FilesOk, TemplatesOk, ContextsOk, BundleRef, NoCollision, Canon;
    HashedIsOnFile(e, files, written, contexts, outputs, hashed, Canon(Obj(bundle)));
  }

  /**
   Two outputs that share a context ref get the first one's context: the file keeps
   what was written first, and the second output's entry is served from it.
   */
  lemma SecondContextIsIgnored(e: Env, first: Output, second: Output)
    requires ContextRef(e, first).Some? && ContextRef(e, first) == ContextRef(e, second)
    ensures FirstDocument(e, Then(Then(Start, first), second), ContextRef(e, second).value) ==
              Some(DocumentOf(e, first))
  {
    assert FirstDocument(e, Then(Start, first), ContextRef(e, second).value) == Some(DocumentOf(e, first));
  }

  /**
   So the second output is served with its indexed hash exactly when the two contexts
   expand the template to the same bundle.
   */
  lemma SecondEntryExactly(e: Env, first: Output, second: Output)
    requires GoodEnv(e) && Regular(e, first) && BuiltBundle(e, second).Some? && first.templateId == second.templateId
    requires NoCollision(e, Indexed(e, first) + Indexed(e, second))
    ensures ServedRight(e, second, Obj(e.template(second.templateId)), DocumentOf(e, first)) <==>
            Same(Obj(BuiltBundle(e, first).value), Obj(BuiltBundle(e, second).value))
  {
    hide Materialize, BuildMaterialized, SubstMembers, ContextDocument, BuildSourceContext, SelectorIsLiteral, Sourced;
    hide Canon;
    ServeAgreesWithBuild(e.text, e.template(first.templateId), first.source, first.chainId, first.entry);
  }

  // ---- two contexts at one address ----

  const TWICE_TEMPLATE: List<Member> :=
    Cons(Member("id", Str("a")), Cons(Member("match", Obj(Cons(Member("selector", Str("0x12")), Nil))),
    Cons(Member("note", Str("$source.x")), Nil)))

  function TwiceOutput(x: real): Output {
    Output(0, "p", 1, Address("0xab", Some("s"), Cons(Member("x", Num(x)), Nil)))
  }

  lemma TwiceContext(t: Text, x: real)
    ensures Get(BuildSourceContext(t, 1, TwiceOutput(x).entry), "x") == Num(x)
  {
    var entry := TwiceOutput(x).entry;
    var c1 := Put(entry.context, "address", Str(entry.address));
    var c2 := Put(c1, "chainId", Num(1.0));
    GetOfPut(entry.context, "address", Str(entry.address), "x");
    GetOfPut(c1, "chainId", Num(1.0), "x");
    GetOfPut(c2, "id_suffix", Str("s"), "x");
  }

  lemma TwiceNote(t: Text, context: List<Member>)
    ensures Subst(t, Str("$source.x"), Obj(context)) ==
            if Get(context, "x").Undefined? then None else Some(Get(context, "x"))
  {
    var s := "$source.x";
    assert s[|PREFIX|..] == "x";
    SplitOfPlain("x", '.');
    assert PathOf(s) == ["x"];
    var path := ["x"];
    assert LookupPath(t, Obj(context), path) == LookupPath(t, Get(context, "x"), path[1..]);
    assert path[1..] == [];
  }

  /** What the template expands to: everything as it is, but the placeholder. */
  lemma TwiceSubst(t: Text, x: real)
    ensures
      var r := SubstMembers(t, TWICE_TEMPLATE, Obj(BuildSourceContext(t, 1, TwiceOutput(x).entry)));
      && r.Some? && Get(r.value, "id") == Str("a") && Get(r.value, "note") == Num(x) && Has(r.value, "note")
      && SelectorIsLiteral(t, TWICE_TEMPLATE, Obj(BuildSourceContext(t, 1, TwiceOutput(x).entry)))
      && Sourced(TWICE_TEMPLATE)
  {
    var c := BuildSourceContext(t, 1, TwiceOutput(x).entry);
    TwiceContext(t, x);
    TwiceNote(t, c);
    hide BuildSourceContext, LookupPath;
    var m3 := Cons(Member("note", Str("$source.x")), Nil);
    var sel := Cons(Member("selector", Str("0x12")), Nil);
    var m2 := Cons(Member("match", Obj(sel)), m3);
    assert !IsPlaceholder("a") && !IsPlaceholder("0x12");
    assert SubstMembers(t, Nil, Obj(c)) == Some(Nil);
    assert SubstMembers(t, sel, Obj(c)) == Some(sel);
    var n3 := Cons(Member("note", Num(x)), Nil);
    assert SubstMembers(t, m3, Obj(c)) == Some(n3);
    var n2 := Cons(Member("match", Obj(sel)), n3);
    assert SubstMembers(t, m2, Obj(c)) == Some(n2);
    assert SubstMembers(t, TWICE_TEMPLATE, Obj(c)) == Some(Cons(Member("id", Str("a")), n2));
    assert Get(m2, "match") == Obj(sel) && Get(TWICE_TEMPLATE, "match") == Obj(sel);
    assert Get(n2, "note") == Num(x) && Has(n2, "note");
  }

  lemma TwiceBuilt(e: Env, x: real)
    requires e.template(0) == TWICE_TEMPLATE && e.text.sanitize("s") != ""
    ensures Regular(e, TwiceOutput(x)) && BuiltBundle(e, TwiceOutput(x)).Some?
    ensures
      var m := CanonMembers(BuiltBundle(e, TwiceOutput(x)).value);
      "note" in m && m["note"] == Leaf(Num(x))
  {
    var o := TwiceOutput(x);
    TwiceSubst(e.text, x);
    var c := Obj(BuildSourceContext(e.text, 1, o.entry));
    hide SubstMembers, BuildSourceContext, Sourced, SelectorIsLiteral, TWICE_TEMPLATE, Finish, MatchOf, CanonMembers;
    hide Subst;
    assert Lower("0xab") == "0xab";
    var substituted := SubstMembers(e.text, e.template(0), c).value;
    var id := AppendIdSuffix(e.text, "a", "s").value;
    CanonOfFinish(substituted, id, MatchOf(e.text, SelectorOf(e.template(0)), 1, "0xab"));
    CanonKeys(substituted, "note");
  }

  lemma TwiceDiffer(e: Env)
    requires e.template(0) == TWICE_TEMPLATE && e.text.sanitize("s") != ""
    ensures BuiltBundle(e, TwiceOutput(1.0)).Some? && BuiltBundle(e, TwiceOutput(2.0)).Some?
    ensures !Same(Obj(BuiltBundle(e, TwiceOutput(1.0)).value), Obj(BuiltBundle(e, TwiceOutput(2.0)).value))
  {
    hide BuiltBundle, CanonMembers, Regular, TwiceOutput, TWICE_TEMPLATE;
    TwiceBuilt(e, 1.0);
    TwiceBuilt(e, 2.0);
  }

  lemma TwiceRef(e: Env)
    requires e.text.sanitize("p") != ""
    ensures ContextRef(e, TwiceOutput(1.0)).Some? && ContextRef(e, TwiceOutput(1.0)) == ContextRef(e, TwiceOutput(2.0))
  {
    SplitOfPlain("p", ':');
    assert SanitizeAll(e.text, ["p"]) == [e.text.sanitize("p")] by { assert ["p"][1..] == []; }
  }

  /**
   A case where it goes wrong: a resolver that returns one address twice, with contexts
   that say 1 and 2.  The second entry is served the bundle that says 1.
   */
  lemma SecondEntryIsServedWrong(e: Env)
    requires GoodEnv(e) && e.template(0) == TWICE_TEMPLATE
    requires e.text.sanitize("p") != "" && e.text.sanitize("s") != ""
    requires NoCollision(e, Indexed(e, TwiceOutput(1.0)) + Indexed(e, TwiceOutput(2.0)))
    ensures
      var first, second := TwiceOutput(1.0), TwiceOutput(2.0);
      && ContextRef(e, second).Some? && Regular(e, second)
      && var doc := FirstDocument(e, Then(Then(Start, first), second), ContextRef(e, second).value);
      && doc.Some? && !ServedRight(e, second, Obj(e.template(0)), doc.value)
  {
    hide Regular, BuiltBundle, Indexed, ContextRef, TWICE_TEMPLATE, CanonMembers, GoodEnv, NoCollision, ServedRight;
    hide DocumentOf;
    hide FirstDocument, Canon;
    TwiceRef(e);
    TwiceDiffer(e);
    TwiceBuilt(e, 1.0);
    TwiceBuilt(e, 2.0);
    SecondContextIsIgnored(e, TwiceOutput(1.0), TwiceOutput(2.0));
    SecondEntryExactly(e, TwiceOutput(1.0), TwiceOutput(2.0));
  }
}
