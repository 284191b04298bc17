/**
 A sourced manifest is expanded twice: by the index builder, which hashes the
 expanded bundle but stores only the template and a context per address, and by the
 proxy, which expands it again when a key is served.  Both expansions are written
 out here as their own files have them, and shown to agree.
 */
module SourceBundles {
  import opened Options
  import opened Jsons

  /** Text operations whose details do not matter here. */
  datatype Text = Text(
    sanitize: string -> string,         // the regular expressions of `sanitizeIdSuffix`
    toIndex: string -> Option<int>,     // `Number(s)`, when it is an integer
    show: int -> string,                // `String(n)` of an integer
    toText: Json -> string              // `String(v)` of a value that is not a string
  )

  // ---- placeholders ----

  const PREFIX := "$source."

  predicate IsPlaceholder(s: string) { PREFIX <= s }

  function PathOf(s: string): seq<string>
    requires IsPlaceholder(s)
  {
    Split(s[|PREFIX|..], '.')
  }

  /** `items[i]`; out of range reads as `undefined`. */
  function ItemAt(items: List<Json>, i: int): Json {
    if items.Nil? || i < 0 then Undefined
    else if i == 0 then items.head
    else ItemAt(items.tail, i - 1)
  }

  function Descend(t: Text, current: Json, segment: string): Json {
    match current
    case Arr(items) => (match t.toIndex(segment) case None => Undefined case Some(i) => ItemAt(items, i))
    case Obj(ms) => Get(ms, segment)
    case _ => Undefined
  }

  function LookupPath(t: Text, current: Json, path: seq<string>): Json
    decreases |path|
  {
    if path == [] then current else LookupPath(t, Descend(t, current, path[0]), path[1..])
  }

  /** The loop of `lookupSourcePath`. */
  method LookupSourcePath(t: Text, context: Json, path: seq<string>) returns (current: Json)
    ensures current == LookupPath(t, context, path)
  {
    current := context;
    var i := 0;
    while i < |path|
      invariant 0 <= i <= |path|
      invariant LookupPath(t, current, path[i..]) == LookupPath(t, context, path)
    {
      var segment := path[i];
      match current {
        case Arr(items) =>
          var index := t.toIndex(segment);
          if index.None? {
            UndefinedPath(t, path[i + 1..]);
            return Undefined;
          }
          current := ItemAt(items, index.value);
        case Obj(ms) => current := Get(ms, segment);
        case _ =>
          UndefinedPath(t, path[i + 1..]);
          return Undefined;
      }
      i := i + 1;
    }
  }

  /** Nothing is found below `undefined`. */
  lemma {:induction false} UndefinedPath(t: Text, path: seq<string>)
    ensures LookupPath(t, Undefined, path) == Undefined
  {
    if path != [] { UndefinedPath(t, path[1..]); }
  }

  /** `None` where the code throws on an unknown placeholder. */
  function Subst(t: Text, v: Json, context: Json): Option<Json> {
    match v
    case Str(s) =>
      if !IsPlaceholder(s) then Some(v)
      else
        var resolved := LookupPath(t, context, PathOf(s));
        if resolved.Undefined? then None else Some(resolved)
    case Arr(items) =>
      (match SubstItems(t, items, context) case None => None case Some(r) => Some(Arr(r)))
    case Obj(ms) =>
      (match SubstMembers(t, ms, context) case None => None case Some(r) => Some(Obj(r)))
    case _ => Some(v)
  }

  function SubstItems(t: Text, items: List<Json>, context: Json): Option<List<Json>> {
    if items.Nil? then Some(Nil)
    else
      match (Subst(t, items.head, context), SubstItems(t, items.tail, context))
      case (Some(h), Some(r)) => Some(Cons(h, r))
      case _ => None
  }

  function SubstMembers(t: Text, ms: List<Member>, context: Json): Option<List<Member>> {
    if ms.Nil? then Some(Nil)
    else
      match (Subst(t, ms.head.value, context), SubstMembers(t, ms.tail, context))
      case (Some(h), Some(r)) => Some(Cons(Member(ms.head.key, h), r))
      case _ => None
  }

  lemma {:induction false} SubstKeepsKeys(t: Text, ms: List<Member>, context: Json, k: string)
    requires SubstMembers(t, ms, context).Some?
    ensures
      var r := SubstMembers(t, ms, context).value;
      && (Has(r, k) <==> Has(ms, k))
      && (if Has(ms, k) then Subst(t, Get(ms, k), context) == Some(Get(r, k)) else Get(r, k) == Undefined)
  {
    if ms.Cons? { SubstKeepsKeys(t, ms.tail, context, k); }
  }

  // ---- ids ----

  function LastAt(id: string): int
    ensures -1 <= LastAt(id) < |id|
  {
    if id == [] then -1
    else if id[|id| - 1] == '@' then |id| - 1
    else LastAt(id[..|id| - 1])
  }

  function AppendIdSuffix(t: Text, id: string, suffix: string): Option<string> {
    var clean := t.sanitize(suffix);
    var at := LastAt(id);
    if clean == [] then None
    else if at == -1 then Some(id + "/" + clean)
    else Some(id[..at] + "/" + clean + id[at..])
  }

  // ---- the builder ----

  datatype Address = Address(address: string, idSuffix: Option<string>, context: List<Member>)

  function SuffixOf(t: Text, chainId: int, entry: Address): string {
    match entry.idSuffix
    case Some(s) => s
    case None => t.show(chainId) + "-" + entry.address
  }

  function BuildSourceContext(t: Text, chainId: int, entry: Address): List<Member> {
    Put(Put(Put(entry.context, "address", Str(entry.address)), "chainId", Num(chainId as real)),
        "id_suffix", Str(SuffixOf(t, chainId, entry)))
  }

  function MatchOf(t: Text, selector: Json, chainId: int, address: string): Json {
    Obj(Cons(Member("selector", selector), Cons(
      Member("chain_to_addresses", Obj(Cons(Member(t.show(chainId), Arr(Cons(Str(address), Nil))), Nil))), Nil)))
  }

  /** `{ ...rest, id, match }` of a bundle without `match` and `source_materialize`. */
  function Finish(substituted: List<Member>, id: string, match_: Json): List<Member> {
    Put(Put(Omit(Omit(substituted, "match"), "source_materialize"), "id", Str(id)), "match", match_)
  }

  /** `sourced.selector`, read from the manifest before substitution. */
  function SelectorOf(bundle: List<Member>): Json {
    match Get(bundle, "match")
    case Obj(m) => Get(m, "selector")
    case _ => Undefined
  }

  function TextOf(t: Text, v: Json): string { if v.Str? then v.s else t.toText(v) }

  function BuildMaterialized(t: Text, bundle: List<Member>, chainId: int, entry: Address): Option<List<Member>> {
    var context := BuildSourceContext(t, chainId, entry);
    match SubstMembers(t, bundle, Obj(context))
    case None => None
    case Some(substituted) =>
      match AppendIdSuffix(t, TextOf(t, Get(substituted, "id")), SuffixOf(t, chainId, entry))
      case None => None
      case Some(id) => Some(Finish(substituted, id, MatchOf(t, SelectorOf(bundle), chainId, entry.address)))
  }

  /** The context document that is stored for an address. */
  function ContextDocument(t: Text, source: string, chainId: int, entry: Address): Json {
    Obj(Cons(Member("schema_version", Str("3-source-context")),
        Cons(Member("source", Str(source)),
        Cons(Member("chain_id", Num(chainId as real)),
        Cons(Member("address", Str(Lower(entry.address))),
        Cons(Member("context", Obj(BuildSourceContext(t, chainId, entry))), Nil))))))
  }

  // ---- the proxy ----

  function WholeNumber(v: Json): Option<int> {
    if v.Num? && v.n.Floor as real == v.n then Some(v.n.Floor) else None
  }

  /** `materializeSourceBundle`: `None` where it throws. */
  function Materialize(t: Text, template: Json, contextDoc: Json): Option<List<Member>> {
    if !template.Obj? || !contextDoc.Obj? || !Get(contextDoc.members, "context").Obj? then None
    else
      var context := Get(contextDoc.members, "context");
      match SubstMembers(t, template.members, context)
      case None => None
      case Some(substituted) =>
        Rebuild(t, substituted, Get(context.members, "id_suffix"),
                Get(contextDoc.members, "chain_id"), Get(contextDoc.members, "address"))
  }

  function Rebuild(t: Text, substituted: List<Member>, idSuffix: Json, chainId: Json, address: Json)
    : Option<List<Member>>
  {
    var m, id := Get(substituted, "match"), Get(substituted, "id");
    if !m.Obj? || !Get(m.members, "selector").Str? then None
    else if !id.Str? || !idSuffix.Str? || !address.Str? || WholeNumber(chainId).None? then None
    else
      match AppendIdSuffix(t, id.s, idSuffix.s)
      case None => None
      case Some(newId) =>
        Some(Finish(substituted, newId,
                    MatchOf(t, Get(m.members, "selector"), WholeNumber(chainId).value, Lower(address.s))))
  }

  // ---- the two agree ----

  /** A manifest as the builder's validator lets it through. */
  predicate Sourced(bundle: List<Member>) {
    Get(bundle, "match").Obj? && SelectorOf(bundle).Str?
  }

  /** The selector is not itself replaced by a placeholder's value. */
  predicate SelectorIsLiteral(t: Text, bundle: List<Member>, context: Json) {
    Subst(t, SelectorOf(bundle), context) == Some(SelectorOf(bundle))
  }

  lemma SelectorAfterSubst(t: Text, bundle: List<Member>, context: Json)
    requires Sourced(bundle) && SubstMembers(t, bundle, context).Some?
    ensures
      var m := Get(SubstMembers(t, bundle, context).value, "match");
      m.Obj? && Subst(t, SelectorOf(bundle), context) == Some(Get(m.members, "selector"))
  {
    var r := SubstMembers(t, bundle, context).value;
    HasWhenDefined(bundle, "match");
    SubstKeepsKeys(t, bundle, context, "match");
    var m := Get(bundle, "match").members;
    HasWhenDefined(m, "selector");
    SubstKeepsKeys(t, m, context, "selector");
  }

  lemma {:induction false} HasWhenDefined(ms: List<Member>, k: string)
    requires !Get(ms, k).Undefined?
    ensures Has(ms, k)
  {
    if ms.head.key != k { HasWhenDefined(ms.tail, k); }
  }

  lemma FinishKeepsMatch(substituted: List<Member>, id: string, m: Json)
    ensures Get(Finish(substituted, id, m), "match") == m
  {
    GetOfPut(Put(Omit(Omit(substituted, "match"), "source_materialize"), "id", Str(id)), "match", m, "match");
  }

  lemma ContextDocumentParts(t: Text, source: string, chainId: int, entry: Address)
    ensures ContextDocument(t, source, chainId, entry).Obj?
    ensures
      var doc := ContextDocument(t, source, chainId, entry).members;
      && Get(doc, "context") == Obj(BuildSourceContext(t, chainId, entry))
      && Get(doc, "address") == Str(Lower(entry.address))
      && WholeNumber(Get(doc, "chain_id")) == Some(chainId)
      && Get(BuildSourceContext(t, chainId, entry), "id_suffix") == Str(SuffixOf(t, chainId, entry))
  {
    var ctx := Cons(Member("context", Obj(BuildSourceContext(t, chainId, entry))), Nil);
    var addr := Cons(Member("address", Str(Lower(entry.address))), ctx);
    var chain := Cons(Member("chain_id", Num(chainId as real)), addr);
    var src := Cons(Member("source", Str(source)), chain);
    assert "address"[0] != "context"[0];
    assert Get(addr, "context") == ctx.head.value;
    assert Get(chain, "context") == ctx.head.value && Get(chain, "address") == addr.head.value;
    assert Get(src, "context") == ctx.head.value && Get(src, "address") == addr.head.value
        && Get(src, "chain_id") == chain.head.value;
    GetOfPut(Put(Put(entry.context, "address", Str(entry.address)), "chainId", Num(chainId as real)),
             "id_suffix", Str(SuffixOf(t, chainId, entry)), "id_suffix");
  }

  /**
   The bundle rebuilt from the template and the stored context is the bundle the
   builder hashed, exactly when the resolved address was already in lower case, the
   substituted id is a string and the selector is not itself a placeholder.
   */
  lemma ServeAgreesWithBuild(t: Text, bundle: List<Member>, source: string, chainId: int, entry: Address)
    requires Sourced(bundle) && BuildMaterialized(t, bundle, chainId, entry).Some?
    ensures
      var context := Obj(BuildSourceContext(t, chainId, entry));
      Materialize(t, Obj(bundle), ContextDocument(t, source, chainId, entry)) ==
        BuildMaterialized(t, bundle, chainId, entry)
      <==>
      && Lower(entry.address) == entry.address
      && Get(SubstMembers(t, bundle, context).value, "id").Str?
      && SelectorIsLiteral(t, bundle, context)
  {
    var context := Obj(BuildSourceContext(t, chainId, entry));
    var substituted := SubstMembers(t, bundle, context).value;
    ContextDocumentParts(t, source, chainId, entry);
    LowerTwice(entry.address);
    hide ContextDocument, BuildSourceContext, SubstMembers;
    SelectorAfterSubst(t, bundle, context);
    var served := Materialize(t, Obj(bundle), ContextDocument(t, source, chainId, entry));
    var built := BuildMaterialized(t, bundle, chainId, entry);
    if served.Some? {
      var id, m := Get(substituted, "id"), Get(substituted, "match");
      var newId := AppendIdSuffix(t, id.s, SuffixOf(t, chainId, entry)).value;
      var ours := MatchOf(t, Get(m.members, "selector"), chainId, Lower(entry.address));
      var theirs := MatchOf(t, SelectorOf(bundle), chainId, entry.address);
      assert served.value == Finish(substituted, newId, ours);
      assert built.value == Finish(substituted, newId, theirs);
      FinishKeepsMatch(substituted, newId, ours);
      FinishKeepsMatch(substituted, newId, theirs);
      MatchOfIsInjective(t, chainId, Get(m.members, "selector"), Lower(entry.address), SelectorOf(bundle),
                         entry.address);
    }
  }

  lemma MatchOfIsInjective(t: Text, chainId: int, s: Json, a: string, s': Json, a': string)
    ensures MatchOf(t, s, chainId, a) == MatchOf(t, s', chainId, a') <==> s == s' && a == a'
  {
  }

  /** When the builder rejects a sourced manifest's address, the proxy would too. */
  lemma BuildFailureIsServeFailure(t: Text, bundle: List<Member>, source: string, chainId: int, entry: Address)
    requires BuildMaterialized(t, bundle, chainId, entry).None?
    ensures Materialize(t, Obj(bundle), ContextDocument(t, source, chainId, entry)).None?
  {
    ContextDocumentParts(t, source, chainId, entry);
  }

  // ---- member order does not matter ----

  lemma {:induction false} MemberIsSmaller(ms: List<Member>, k: string)
    requires Has(ms, k)
    ensures Size(Get(ms, k)) < SizeMembers(ms)
  {
    if ms.head.key != k { MemberIsSmaller(ms.tail, k); }
  }

  /** Equal but for the order of members. */
  predicate Same(a: Json, b: Json) { Canon(a) == Canon(b) }

  lemma SameMember(a: List<Member>, b: List<Member>, k: string)
    requires CanonMembers(a) == CanonMembers(b)
    ensures Same(Get(a, k), Get(b, k)) && Has(a, k) == Has(b, k)
  {
    CanonKeys(a, k);
    CanonKeys(b, k);
    if !Has(a, k) {
      MissingIsUndefined(a, k);
      MissingIsUndefined(b, k);
    }
  }

  lemma {:induction false} SameItemAt(a: List<Json>, b: List<Json>, i: int)
    requires CanonItems(a) == CanonItems(b)
    ensures Same(ItemAt(a, i), ItemAt(b, i))
  {
    if a.Cons? { SameItemAt(a.tail, b.tail, i - 1); }
  }

  lemma {:induction false} SameLookup(t: Text, a: Json, b: Json, path: seq<string>)
    requires Same(a, b)
    ensures Same(LookupPath(t, a, path), LookupPath(t, b, path))
    decreases |path|
  {
    if path != [] {
      match a {
        case Arr(items) => if t.toIndex(path[0]).Some? { SameItemAt(items, b.items, t.toIndex(path[0]).value); }
        case Obj(ms) => SameMember(ms, b.members, path[0]);
        case _ =>
      }
      SameLookup(t, Descend(t, a, path[0]), Descend(t, b, path[0]), path[1..]);
    }
  }

  predicate SameResult(a: Option<Json>, b: Option<Json>) {
    a.None? == b.None? && (a.Some? ==> Same(a.value, b.value))
  }

  /** An object is substituted when each of its members is. */
  lemma {:induction false} SubstMembersDefined(t: Text, ms: List<Member>, c: Json)
    requires ProperMembers(ms) && forall k :: Has(ms, k) ==> Subst(t, Get(ms, k), c).Some?
    ensures SubstMembers(t, ms, c).Some?
  {
    if ms.Cons? {
      assert Has(ms, ms.head.key);
      forall k | Has(ms.tail, k) ensures Subst(t, Get(ms.tail, k), c).Some? { assert Has(ms, k); }
      SubstMembersDefined(t, ms.tail, c);
    }
  }

  lemma {:induction false} SubstSame(t: Text, a: Json, b: Json, c: Json, d: Json)
    requires Proper(a) && Proper(b) && Same(a, b) && Same(c, d)
    ensures SameResult(Subst(t, a, c), Subst(t, b, d))
    decreases Size(a)
  {
    match a {
      case Str(s) => if IsPlaceholder(s) { SameLookup(t, c, d, PathOf(s)); }
      case Arr(items) => SubstItemsSame(t, items, b.items, c, d);
      case Obj(ms) => SubstMembersSame(t, ms, b.members, c, d);
      case _ =>
    }
  }

  lemma {:induction false} SubstItemsSame(t: Text, a: List<Json>, b: List<Json>, c: Json, d: Json)
    requires ProperItems(a) && ProperItems(b) && CanonItems(a) == CanonItems(b) && Same(c, d)
    ensures SubstItems(t, a, c).None? == SubstItems(t, b, d).None?
    ensures SubstItems(t, a, c).Some? ==>
              CanonItems(SubstItems(t, a, c).value) == CanonItems(SubstItems(t, b, d).value)
    decreases SizeItems(a)
  {
    if a.Cons? {
      SubstSame(t, a.head, b.head, c, d);
      SubstItemsSame(t, a.tail, b.tail, c, d);
    }
  }

  /** Member by member, the two objects substitute alike. */
  ghost predicate MembersSame(t: Text, a: List<Member>, b: List<Member>, c: Json, d: Json) {
    forall k ::
      && Has(a, k) == Has(b, k)
      && (Has(a, k) ==> SameResult(Subst(t, Get(a, k), c), Subst(t, Get(b, k), d)))
  }

  lemma SubstMembersTogether(t: Text, a: List<Member>, b: List<Member>, c: Json, d: Json)
    requires ProperMembers(b) && MembersSame(t, a, b, c, d) && SubstMembers(t, a, c).Some?
    ensures SubstMembers(t, b, d).Some?
  {
    hide Subst, SubstMembers;
    forall k | Has(b, k) ensures Subst(t, Get(b, k), d).Some? { SubstKeepsKeys(t, a, c, k); }
    SubstMembersDefined(t, b, d);
  }

  lemma SubstMembersAlike(t: Text, a: List<Member>, b: List<Member>, c: Json, d: Json)
    requires MembersSame(t, a, b, c, d) && SubstMembers(t, a, c).Some? && SubstMembers(t, b, d).Some?
    ensures CanonMembers(SubstMembers(t, a, c).value) == CanonMembers(SubstMembers(t, b, d).value)
  {
    hide Subst, SubstMembers, Get, Has, CanonMembers, Canon;
    var ra, rb := SubstMembers(t, a, c).value, SubstMembers(t, b, d).value;
    forall k
      ensures k in CanonMembers(ra) <==> k in CanonMembers(rb)
      ensures k in CanonMembers(ra) ==> CanonMembers(ra)[k] == CanonMembers(rb)[k]
    {
      SubstKeepsKeys(t, a, c, k);
      SubstKeepsKeys(t, b, d, k);
      CanonKeys(ra, k);
      CanonKeys(rb, k);
    }
  }

  lemma {:induction false} SubstMembersSame(t: Text, a: List<Member>, b: List<Member>, c: Json, d: Json)
    requires ProperMembers(a) && ProperMembers(b) && CanonMembers(a) == CanonMembers(b) && Same(c, d)
    ensures SubstMembers(t, a, c).None? == SubstMembers(t, b, d).None?
    ensures SubstMembers(t, a, c).Some? ==>
              CanonMembers(SubstMembers(t, a, c).value) == CanonMembers(SubstMembers(t, b, d).value)
    decreases SizeMembers(a)
  {
    hide SubstMembers, CanonMembers, ProperMembers;
    forall k
      ensures Has(a, k) == Has(b, k)
      ensures Has(a, k) ==> SameResult(Subst(t, Get(a, k), c), Subst(t, Get(b, k), d))
      ensures Has(a, k) ==> SameResult(Subst(t, Get(b, k), d), Subst(t, Get(a, k), c))
    {
      SameMember(a, b, k);
      if Has(a, k) {
        GetIsProper(a, k);
        GetIsProper(b, k);
        MemberIsSmaller(a, k);
        SubstSame(t, Get(a, k), Get(b, k), c, d);
      }
    }
    assert MembersSame(t, a, b, c, d) && MembersSame(t, b, a, d, c);
    if SubstMembers(t, a, c).Some? { SubstMembersTogether(t, a, b, c, d); }
    if SubstMembers(t, b, d).Some? {
      SubstMembersTogether(t, b, a, d, c);
      SubstMembersAlike(t, a, b, c, d);
    }
  }

  lemma CanonOfFinish(ms: List<Member>, id: string, m: Json)
    ensures CanonMembers(Finish(ms, id, m)) ==
            (CanonMembers(ms) - {"match"} - {"source_materialize"})["id" := Leaf(Str(id))]["match" := Canon(m)]
  {
    var bare := Omit(Omit(ms, "match"), "source_materialize");
    CanonOfOmit(ms, "match");
    CanonOfOmit(Omit(ms, "match"), "source_materialize");
    CanonOfPut(bare, "id", Str(id));
    CanonOfPut(Put(bare, "id", Str(id)), "match", m);
  }

  lemma RebuildSame(t: Text, a: List<Member>, b: List<Member>, idSuffix: Json, chainId: Json, address: Json)
    requires CanonMembers(a) == CanonMembers(b)
    ensures Rebuild(t, a, idSuffix, chainId, address).None? == Rebuild(t, b, idSuffix, chainId, address).None?
    ensures Rebuild(t, a, idSuffix, chainId, address).Some? ==>
              CanonMembers(Rebuild(t, a, idSuffix, chainId, address).value) ==
              CanonMembers(Rebuild(t, b, idSuffix, chainId, address).value)
  {
    hide Finish, MatchOf, AppendIdSuffix, Get, Has, CanonMembers, CanonItems, WholeNumber;
    SameMember(a, b, "match");
    SameMember(a, b, "id");
    var m, n := Get(a, "match"), Get(b, "match");
    if m.Obj? {
      SameMember(m.members, n.members, "selector");
      var r := Rebuild(t, a, idSuffix, chainId, address);
      if r.Some? {
        var newId := AppendIdSuffix(t, Get(a, "id").s, idSuffix.s).value;
        var m' := MatchOf(t, Get(m.members, "selector"), WholeNumber(chainId).value, Lower(address.s));
        CanonOfFinish(a, newId, m');
        CanonOfFinish(b, newId, m');
      }
    }
  }

  /**
   What the proxy rebuilds does not depend on the order in which the template lists
   its members: templates of one canonical form give bundles of one canonical form.
   */
  lemma MaterializeSame(t: Text, a: List<Member>, b: List<Member>, contextDoc: Json)
    requires ProperMembers(a) && ProperMembers(b) && CanonMembers(a) == CanonMembers(b)
    ensures Materialize(t, Obj(a), contextDoc).None? == Materialize(t, Obj(b), contextDoc).None?
    ensures Materialize(t, Obj(a), contextDoc).Some? ==>
              CanonMembers(Materialize(t, Obj(a), contextDoc).value) ==
              CanonMembers(Materialize(t, Obj(b), contextDoc).value)
  {
    if contextDoc.Obj? && Get(contextDoc.members, "context").Obj? {
      var c := Get(contextDoc.members, "context");
      SubstMembersSame(t, a, b, c, c);
      if SubstMembers(t, a, c).Some? {
        RebuildSame(t, SubstMembers(t, a, c).value, SubstMembers(t, b, c).value,
                    Get(c.members, "id_suffix"), Get(contextDoc.members, "chain_id"),
                    Get(contextDoc.members, "address"));
      }
    }
  }

  lemma CanonOfMatch(t: Text, chainId: int, s: Json, a: string, s': Json, a': string)
    requires s.Str? && s'.Str?
    ensures Canon(MatchOf(t, s, chainId, a)) == Canon(MatchOf(t, s', chainId, a')) ==> s == s' && a == a'
  {
    hide MatchOf, Canon;
    CanonOfMatchParts(t, chainId, s, a);
    CanonOfMatchParts(t, chainId, s', a');
    var k, x, y := t.show(chainId), Sequence(Cons(Leaf(Str(a)), Nil)), Sequence(Cons(Leaf(Str(a')), Nil));
    if map[k := x] == map[k := y] { assert x == map[k := x][k] == map[k := y][k] == y; }
  }

  lemma CanonOfMatchParts(t: Text, chainId: int, s: Json, a: string)
    requires s.Str?
    ensures Canon(MatchOf(t, s, chainId, a)).Record?
    ensures
      var fields := Canon(MatchOf(t, s, chainId, a)).fields;
      && "selector" in fields && fields["selector"] == Leaf(s)
      && "chain_to_addresses" in fields
      && fields["chain_to_addresses"] == Record(map[t.show(chainId) := Sequence(Cons(Leaf(Str(a)), Nil))])
  {
    var items := Cons(Str(a), Nil);
    assert CanonItems(items) == Cons(Leaf(Str(a)), Nil) by { assert CanonItems(items.tail) == Nil; }
    var perChain := Cons(Member(t.show(chainId), Arr(items)), Nil);
    assert CanonMembers(perChain) == map[t.show(chainId) := Sequence(Cons(Leaf(Str(a)), Nil))] by {
      assert CanonMembers(perChain.tail) == map[];
    }
    var rest := Cons(Member("chain_to_addresses", Obj(perChain)), Nil);
    assert CanonMembers(rest) == map["chain_to_addresses" := Record(CanonMembers(perChain))] by {
      assert CanonMembers(rest.tail) == map[];
    }
    assert CanonMembers(Cons(Member("selector", s), rest)) == CanonMembers(rest)["selector" := Leaf(s)];
  }

  lemma FinishedMatch(ms: List<Member>, id: string, m: Json, n: Json)
    ensures CanonMembers(Finish(ms, id, m)) == CanonMembers(Finish(ms, id, n)) ==> Canon(m) == Canon(n)
  {
    hide Finish, Canon;
    CanonOfFinish(ms, id, m);
    CanonOfFinish(ms, id, n);
    if CanonMembers(Finish(ms, id, m)) == CanonMembers(Finish(ms, id, n)) {
      assert Canon(m) == CanonMembers(Finish(ms, id, m))["match"] == CanonMembers(Finish(ms, id, n))["match"] ==
               Canon(n);
    }
  }

  /** When the proxy serves at all, the two expansions differ at most in their `match`. */
  lemma TwoExpansions(t: Text, bundle: List<Member>, source: string, chainId: int, entry: Address)
      returns (id: string, selector: Json)
    requires Sourced(bundle) && BuildMaterialized(t, bundle, chainId, entry).Some?
    requires Materialize(t, Obj(bundle), ContextDocument(t, source, chainId, entry)).Some?
    ensures
      var context := Obj(BuildSourceContext(t, chainId, entry));
      var substituted := SubstMembers(t, bundle, context).value;
      && Get(substituted, "id").Str? && selector.Str?
      && Subst(t, SelectorOf(bundle), context) == Some(selector)
      && Materialize(t, Obj(bundle), ContextDocument(t, source, chainId, entry)) ==
           Some(Finish(substituted, id, MatchOf(t, selector, chainId, Lower(entry.address))))
      && BuildMaterialized(t, bundle, chainId, entry) ==
           Some(Finish(substituted, id, MatchOf(t, SelectorOf(bundle), chainId, entry.address)))
  {
    var context := Obj(BuildSourceContext(t, chainId, entry));
    var substituted := SubstMembers(t, bundle, context).value;
    ContextDocumentParts(t, source, chainId, entry);
    LowerTwice(entry.address);
    hide ContextDocument, BuildSourceContext, SubstMembers, Finish, MatchOf;
    SelectorAfterSubst(t, bundle, context);
    selector := Get(Get(substituted, "match").members, "selector");
    id := AppendIdSuffix(t, Get(substituted, "id").s, SuffixOf(t, chainId, entry)).value;
  }

  /**
   Where the two expansions differ at all, they differ by more than the order of
   members: the same condition decides whether their canonical forms agree.
   */
  lemma ServeAgreesCanonically(t: Text, bundle: List<Member>, source: string, chainId: int, entry: Address)
    requires Sourced(bundle) && BuildMaterialized(t, bundle, chainId, entry).Some?
    ensures
      var context := Obj(BuildSourceContext(t, chainId, entry));
      var served := Materialize(t, Obj(bundle), ContextDocument(t, source, chainId, entry));
      served.Some? && Same(Obj(served.value), Obj(BuildMaterialized(t, bundle, chainId, entry).value))
      <==>
      && Lower(entry.address) == entry.address
      && Get(SubstMembers(t, bundle, context).value, "id").Str?
      && SelectorIsLiteral(t, bundle, context)
  {
    ServeAgreesWithBuild(t, bundle, source, chainId, entry);
    hide ContextDocument, BuildSourceContext, SubstMembers, Subst, CanonMembers, CanonItems, Materialize;
    hide BuildMaterialized, Finish;
    hide MatchOf, Sourced;
    var served := Materialize(t, Obj(bundle), ContextDocument(t, source, chainId, entry));
    var built := BuildMaterialized(t, bundle, chainId, entry).value;
    if served.Some? && Same(Obj(served.value), Obj(built)) {
      var id, selector := TwoExpansions(t, bundle, source, chainId, entry);
      var substituted := SubstMembers(t, bundle, Obj(BuildSourceContext(t, chainId, entry))).value;
      var ours := MatchOf(t, selector, chainId, Lower(entry.address));
      var theirs := MatchOf(t, SelectorOf(bundle), chainId, entry.address);
      FinishedMatch(substituted, id, ours, theirs);
      SourcedSelector(bundle);
      CanonOfMatch(t, chainId, selector, Lower(entry.address), SelectorOf(bundle), entry.address);
    }
  }

  lemma SourcedSelector(bundle: List<Member>)
    ensures Sourced(bundle) ==> SelectorOf(bundle).Str?
  {}
}
